/** The editing calls, stated on the tree a reader sees: what changes and what does not. */
module FdtOps {
  import opened Bytes
  import opened FdtTokens
  import opened FdtTree
  import opened FdtSpec
  import opened FdtBlob
  import opened FdtEdit
  import opened FdtRw
  import opened FdtRefine

  // ---- what a reader sees around a node

  datatype ACtx = ATop | AIn(up: ACtx, name: seq<byte>, props: seq<AProp>, before: seq<ANode>, after: seq<ANode>)

  function APlug(c: ACtx, n: ANode): ANode {
    match c
    case ATop => n
    case AIn(up, name, props, before, after) => APlug(up, ANode(name, props, before + [n] + after))
  }

  function AbsCtx(c: Ctx, strs: seq<byte>): ACtx {
    match c
    case Top => ATop
    case In(up, name, pad, before, after) =>
      AIn(AbsCtx(up, strs), name, AbsProps(before, strs), AbsKids(before, strs), AbsKids(after, strs))
  }

  lemma {:induction false} PropsBeforeChild(before: seq<Item>, m: Node, after: seq<Item>, strs: seq<byte>)
    ensures AbsProps(before + [SubItem(m)] + after, strs) == AbsProps(before, strs)
  {
    var items := before + [SubItem(m)] + after;
    if before == [] {
      assert items[0] == SubItem(m);
    } else {
      assert items[1..] == before[1..] + [SubItem(m)] + after;
      PropsBeforeChild(before[1..], m, after, strs);
    }
  }

  lemma {:induction false} KidsAround(before: seq<Item>, m: Node, after: seq<Item>, strs: seq<byte>)
    ensures AbsKids(before + [SubItem(m)] + after, strs) ==
      AbsKids(before, strs) + [Abs(m, strs)] + AbsKids(after, strs)
  {
    hide AbsKids, Abs;
    KidsConcat(before, [SubItem(m)] + after, strs);
    ConsKid(m, after, strs);
    assert before + [SubItem(m)] + after == before + ([SubItem(m)] + after);
  }

  /** The whole tree as seen is the node as seen, in its surroundings as seen. */
  lemma {:induction false} AbsPlugIs(c: Ctx, n: Node, strs: seq<byte>)
    ensures Abs(Plug(c, n), strs) == APlug(AbsCtx(c, strs), Abs(n, strs))
  {
    match c
    case Top =>
    case In(up, name, pad, before, after) =>
      PropsBeforeChild(before, n, after, strs);
      KidsAround(before, n, after, strs);
      AbsPlugIs(up, Node(name, pad, before + [SubItem(n)] + after), strs);
  }

  predicate CtxOk(c: Ctx, strs: seq<byte>) {
    match c
    case Top => true
    case In(up, name, pad, before, after) => CtxOk(up, strs) && ItemsOk(before, strs) && ItemsOk(after, strs)
  }

  lemma {:induction false} PlugOk(c: Ctx, n: Node, strs: seq<byte>)
    requires NodeOk(Plug(c, n), strs)
    ensures CtxOk(c, strs) && NodeOk(n, strs)
  {
    match c
    case Top =>
    case In(up, name, pad, before, after) =>
      var items := before + [SubItem(n)] + after;
      PlugOk(up, Node(name, pad, items), strs);
      assert forall i :: 0 <= i < |before| ==> before[i] == items[i];
      assert items[|before|] == SubItem(n);
      assert ItemOk(items[|before|], strs);
      assert forall i :: 0 <= i < |after| ==> after[i] == items[|before| + 1 + i];
  }

  lemma {:induction false} CtxGrow(c: Ctx, strs: seq<byte>, more: seq<byte>)
    requires CtxOk(c, strs)
    ensures CtxOk(c, strs + more) && AbsCtx(c, strs + more) == AbsCtx(c, strs)
  {
    match c
    case Top =>
    case In(up, name, pad, before, after) =>
      CtxGrow(up, strs, more);
      ItemsGrow(before, strs, more);
      ItemsGrow(after, strs, more);
  }

  // ---- a blob that holds a tree

  /** The blob holds the tree Plug(c, n); n starts at the offset of the tokens before it. */
  ghost predicate InTree(f: Fdt, c: Ctx, n: Node, tail: seq<Tok>)
    reads f, f.buf
  {
    f.Blocks() && f.Valid() && Holds(f.toks, c, n, tail)
  }

  ghost function Place(c: Ctx): nat { Size(Pre(c)) }

  lemma {:induction false} TreeHere(f: Fdt, c: Ctx, n: Node, tail: seq<Tok>)
    requires InTree(f, c, n, tail)
    ensures var i := |Pre(c)|;
      && f.Blocks() && i < |f.toks| && f.toks[i] == Begin(n.name, n.pad) && Off(f.toks, i) == Place(c)
      && CtxOk(c, f.Strings()) && NodeOk(n, f.Strings())
  {
    hide Pre, Post, FlatItems, Size, Part, Enc, f.Valid, NodeOk, CtxOk;
    InsideNode(f.toks, Pre(c), n, Post(c) + tail);
    HoldsTree(f.toks, c, n, tail);
    ValidParts(f, Flat(Plug(c, n)), tail);
    NodeFromToks(Plug(c, n), f.Strings());
    PlugOk(c, n, f.Strings());
  }

  lemma {:induction false} ValidParts(f: Fdt, ts: seq<Tok>, tail: seq<Tok>)
    requires f.Valid() && f.toks == ts + tail
    ensures ValidToks(ts) && NamesOk(ts, f.Strings())
  {
    hide Part, Enc, ValidTok, NameOk;
    assert forall i :: 0 <= i < |ts| ==> ts[i] == f.toks[i];
  }

  /** Reads the property called name of node n. */
  method GetNodeProp(f: Fdt, nodeoffset: nat, name: seq<byte>, ghost c: Ctx, ghost n: Node, ghost tail: seq<Tok>)
      returns (val: Option<seq<byte>>)
    requires InTree(f, c, n, tail) && nodeoffset == Place(c)
    ensures val == Get(Abs(n, f.Strings()).props, name)
  {
    hide Pre, Post, FlatItems, Off, Part, PropOf, PropIndex, AbsKids, AbsProps, Get, f.Valid, Spells, NodeOk, CtxOk,
        Size;
    TreeHere(f, c, n, tail);
    PropHeld(f.toks, c, n, tail, f.Strings(), name);
    GetIs(n.items, f.Strings(), name);
    var off;
    ghost var j;
    off, j := f.GetProperty(nodeoffset, name, |Pre(c)|);
    if off < 0 { return None; }
    var v := PropVal(f, off, j);
    val := Some(v);
  }

  lemma {:induction false} PropHeld(ts: seq<Tok>, c: Ctx, n: Node, tail: seq<Tok>, strs: seq<byte>, name: seq<byte>)
    requires Holds(ts, c, n, tail)
    ensures var p, k := |Pre(c)| + 1, PropIndex(n.items, strs, name);
      && p <= |ts| && PropOf(ts[p..], strs, name) == (if k < |n.items| then At(k) else Err(NOTFOUND))
      && (k < |n.items| ==> p + k < |ts| && [ts[p + k]] == FlatItem(n.items[k]))
  {
    hide Pre, Post, FlatItems, PropOf, PropIndex, Flat;
    InsideNode(ts, Pre(c), n, Post(c) + tail);
    PropOfItems(n.items, Post(c) + tail, strs, name);
    var k := PropIndex(n.items, strs, name);
    if k < |n.items| { SameOffset(n.items, k); }
  }

  lemma {:induction false} ValueHeld(ts: seq<Tok>, c: Ctx, n: Node, tail: seq<Tok>, strs: seq<byte>, name: seq<byte>)
    requires Holds(ts, c, n, tail)
    ensures |Pre(c)| < |ts| && ValueOf(ts, strs, |Pre(c)|, name) == Get(AbsProps(n.items, strs), name)
  {
    hide Pre, PropOf, PropIndex, AbsProps, Get, Holds;
    PropHeld(ts, c, n, tail, strs, name);
    GetIs(n.items, strs, name);
  }

  /** Sets a property: reading it back gives val, and nothing else in the tree changes. */
  method SetNodeProp(f: Fdt, nodeoffset: nat, name: seq<byte>, val: seq<byte>, ghost c: Ctx, ghost n: Node,
      ghost tail: seq<Tok>)
    returns (err: int, ghost n': Node)
    requires InTree(f, c, n, tail) && nodeoffset == Place(c) && NoNul(name) && |val| < MAX
    modifies f`sizeStruct, f`sizeStrings, f`offStrings, f`toks, f.buf
    ensures InTree(f, c, n', tail) && AbsCtx(c, f.Strings()) == old(AbsCtx(c, f.Strings())) && n'.name == n.name
    ensures err == 0 ==>
      Abs(n', f.Strings()) == old(Abs(n, f.Strings())).(props := Put(old(AbsProps(n.items, f.Strings())), name, val))
    ensures err != 0 ==> n' == n && Abs(n', f.Strings()) == old(Abs(n, f.Strings()))
    ensures Ordered(f) == old(Ordered(f)) && (err == BADLAYOUT <==> !Ordered(f))
    ensures var size := old(DataSize(f) + SetCost(f.Strings(), Get(AbsProps(n.items, f.Strings()), name), name, val));
      (Ordered(f) ==> err == if size > f.totalsize then NOSPACE else 0) && (err == 0 ==> DataSize(f) == size)
    ensures f.Front() == old(f.Front())
  {
    hide Pre, Post, FlatItems, Off, Part, PropOf, PropIndex, PutToks, NameOk, NameAt, AbsKids, AbsProps, PutItems,
        NodeOk, CtxOk, AbsCtx, f.Valid, Spells, Size, Put, SetCost;
    TreeHere(f, c, n, tail);
    ValueHeld(f.toks, c, n, tail, f.Strings(), name);
    ghost var strs, ts := f.Strings(), f.toks;
    ghost var nameoff, pad, more;
    err, nameoff, pad, more := SetProp(f, nodeoffset, name, val, |Pre(c)|);
    f.ValidBlocks();
    CtxGrow(c, strs, more);
    AbsGrow(n, strs, more);
    n' := n;
    PutTree(ts, Pre(c), n, Post(c) + tail, strs, name, nameoff, val, pad);
    if err == 0 {
      n' := n.(items := PutItems(n.items, strs, name, nameoff, val, pad));
      AfterPut(n, strs, more, name, nameoff, val, pad);
    }
  }

  lemma {:induction false} AfterPut(n: Node, strs: seq<byte>, more: seq<byte>, name: seq<byte>, nameoff: nat,
      val: seq<byte>, pad: seq<byte>)
    requires NodeOk(n, strs) && (PropIndex(n.items, strs, name) == |n.items| ==> NameAt(strs + more, nameoff) == name)
    ensures var items' := PutItems(n.items, strs, name, nameoff, val, pad);
      AbsProps(items', strs + more) == Put(AbsProps(n.items, strs), name, val) &&
      AbsKids(items', strs + more) == AbsKids(n.items, strs)
  {
    hide AbsKids, AbsProps, NameAt, NameOk;
    ItemsGrow(n.items, strs, more);
    SameIndex(n.items, strs, more, name);
    var i := PropIndex(n.items, strs, name);
    var off := if i == |n.items| then nameoff else n.items[i].nameoff;
    AbsPut(n.items, strs + more, name, off, val, pad);
  }

  lemma {:induction false} SameIndex(items: seq<Item>, strs: seq<byte>, more: seq<byte>, name: seq<byte>)
    requires ItemsOk(items, strs)
    ensures PropIndex(items, strs + more, name) == PropIndex(items, strs, name)
  {
    if items != [] && !items[0].SubItem? {
      assert ItemOk(items[0], strs);
      ItemGrow(items[0], strs, more);
      assert forall i :: 0 <= i < |items[1..]| ==> items[1..][i] == items[i + 1];
      SameIndex(items[1..], strs, more, name);
    }
  }

  // ---- children

  ghost function Child(c: Ctx, n: Node, k: nat): Ctx
    requires k < |n.items|
  {
    In(c, n.name, n.pad, n.items[..k], n.items[k + 1..])
  }

  /** Finds the first child that answers to name. */
  method FindChild(f: Fdt, parent: nat, name: seq<byte>, ghost c: Ctx, ghost n: Node, ghost tail: seq<Tok>)
      returns (offset: int, ghost k: nat)
    requires InTree(f, c, n, tail) && parent == Place(c)
    ensures k == SubIndex(n.items, name)
    ensures if k < |n.items| then offset == Place(Child(c, n, k)) && InTree(f, Child(c, n, k), n.items[k].node, tail)
      else offset == NOTFOUND
  {
    hide Pre, Post, FlatItems, Off, Part, SubOf, SubIndex, f.Valid, Spells, Size, NodeOk, CtxOk;
    TreeHere(f, c, n, tail);
    SubTree(f.toks, c, n, tail, name);
    k := SubIndex(n.items, name);
    ghost var j;
    offset, j := f.SubnodeOffset(parent, name, |Pre(c)|);
    if k < |n.items| { TreeHere(f, Child(c, n, k), n.items[k].node, tail); }
  }

  /** Adds an empty child, unless one answers to name already. */
  method AddChild(f: Fdt, parent: nat, name: seq<byte>, ghost c: Ctx, ghost n: Node, ghost tail: seq<Tok>)
      returns (offset: int)
    requires InTree(f, c, n, tail) && parent == Place(c) && NoNul(name)
    modifies f`sizeStruct, f`offStrings, f`toks, f.buf
    ensures f.Valid() && f.Strings() == old(f.Strings()) && Ordered(f) == old(Ordered(f))
    ensures offset >= 0 ==>
      SubIndex(n.items, name) == |n.items| && offset == Place(NewChild(c, n)) &&
      InTree(f, NewChild(c, n), EmptyNode(name), tail)
    ensures offset < 0 ==> InTree(f, c, n, tail) && f.toks == old(f.toks)
    ensures offset < 0 ==> offset == EXISTS || offset == NOSPACE || offset == BADLAYOUT
    ensures Ordered(f) ==> (offset == EXISTS <==> SubIndex(n.items, name) < |n.items|)
    ensures offset == BADLAYOUT <==> !Ordered(f)
    ensures offset == NOSPACE <==>
      Ordered(f) && SubIndex(n.items, name) == |n.items| && old(DataSize(f)) + 8 + Align4(|name| + 1) > f.totalsize
    ensures DataSize(f) == old(DataSize(f)) + if offset >= 0 then 8 + Align4(|name| + 1) else 0
    ensures f.Front() == old(f.Front())
  {
    hide Pre, Post, FlatItems, Off, Part, SubOf, SubIndex, f.Valid, Spells, Size, NodeOk, CtxOk, NewNode, EmptyNode,
        Leading, LeadingItems, Align4;
    TreeHere(f, c, n, tail);
    SubTree(f.toks, c, n, tail, name);
    AddTree(f.toks, c, n, tail, name);
    AddPlace(f.toks, c, n, tail);
    OffIs(f.toks, |Pre(c)| + 1 + LeadingItems(n.items), Pre(NewChild(c, n)));
    ghost var k;
    offset, k := AddSubnode(f, parent, name, |Pre(c)|);
    f.ValidBlocks();
  }

  lemma {:induction false} OffIs(ts: seq<Tok>, k: nat, pre: seq<Tok>)
    requires k <= |ts| && ts[..k] == pre
    ensures Off(ts, k) == Size(pre)
  {
  }

  /** The place of a new child: behind the leading properties and NOPs. */
  ghost function NewChild(c: Ctx, n: Node): Ctx {
    var k := LeadingItems(n.items);
    In(c, n.name, n.pad, n.items[..k], n.items[k..])
  }

  /** Removes child k. */
  method DeleteChild(f: Fdt, offset: nat, ghost c: Ctx, ghost n: Node, ghost tail: seq<Tok>, ghost k: nat)
      returns (err: int)
    requires InTree(f, c, n, tail) && k < |n.items| && n.items[k].SubItem? && offset == Place(Child(c, n, k))
    modifies f`sizeStruct, f`offStrings, f`toks, f.buf
    ensures Ordered(f) == old(Ordered(f)) && err == if Ordered(f) then 0 else BADLAYOUT
    ensures f.Blocks() && f.Strings() == old(f.Strings())
    ensures InTree(f, c, if err == 0 then n.(items := Cut(n.items, k)) else n, tail)
    ensures f.Front() == old(f.Front())
  {
    hide Pre, Post, FlatItems, Off, Part, f.Valid, Spells, Size, EndOf, NodeOk, CtxOk;
    ChildHere(f, c, n, tail, k);
    DelTree(f.toks, c, n, tail, k);
    err := DelNode(f, offset, |Pre(Child(c, n, k))|);
    f.ValidBlocks();
  }

  /** Blanks child k; a reader then sees what a deletion would have left. */
  method BlankChild(f: Fdt, offset: nat, ghost c: Ctx, ghost n: Node, ghost tail: seq<Tok>, ghost k: nat)
      returns (ghost n': Node)
    requires InTree(f, c, n, tail) && k < |n.items| && n.items[k].SubItem? && offset == Place(Child(c, n, k))
    modifies f`toks, f.buf
    ensures f.Blocks() && f.Strings() == old(f.Strings()) && InTree(f, c, n', tail)
    ensures Abs(Plug(c, n'), f.Strings()) == Abs(Plug(c, n.(items := Cut(n.items, k))), f.Strings())
    ensures f.Front() == old(f.Front())
  {
    hide Pre, Post, FlatItems, Off, Part, f.Valid, Spells, Size, EndOf, NodeOk, CtxOk, Abs, Plug;
    ChildHere(f, c, n, tail, k);
    ghost var ts := f.toks;
    ghost var w;
    NopTree(ts, c, n, tail, k, 0);
    var err;
    err, w := NopNode(f, offset, |Pre(Child(c, n, k))|);
    NopTree(ts, c, n, tail, k, w);
    f.ValidBlocks();
    n' := n.(items := NopOut(n.items, k, w));
    NopLikeDelete(c, n, k, w, f.Strings());
  }

  lemma {:induction false} ChildHere(f: Fdt, c: Ctx, n: Node, tail: seq<Tok>, k: nat)
    requires InTree(f, c, n, tail) && k < |n.items| && n.items[k].SubItem?
    ensures InTree(f, Child(c, n, k), n.items[k].node, tail)
    ensures var i := |Pre(Child(c, n, k))|; i < |f.toks| && f.toks[i].Begin? && Off(f.toks, i) == Place(Child(c, n, k))
  {
    hide Holds, f.Valid, NodeOk, CtxOk, Off, Pre;
    assert n.items == n.items[..k] + [SubItem(n.items[k].node)] + n.items[k + 1..];
    Descend(f.toks, c, n, tail, n.items[..k], n.items[k].node, n.items[k + 1..]);
    TreeHere(f, Child(c, n, k), n.items[k].node, tail);
  }

  // ---- removing and blanking a property

  lemma {:induction false} AroundItem(ts: seq<Tok>, c: Ctx, n: Node, tail: seq<Tok>, k: nat)
    requires Holds(ts, c, n, tail) && k < |n.items| && (forall i :: 0 <= i <= k ==> !n.items[i].SubItem?)
    ensures var c', j := Child(c, n, k), |Pre(c)| + 1 + k;
      j < |ts| && ts[..j] == Pre(c') && ts[j + 1..] == Post(c') + tail
  {
    hide Pre, Post, FlatItems, Spells, Flat;
    var before, it, after := n.items[..k], n.items[k], n.items[k + 1..];
    var c' := Child(c, n, k);
    assert n.items == before + [it] + after;
    ReplaceChild(c, n, before, after, [it], tail);
    FlatOne(it);
    FlatShort(before);
    InParts(c, n, before, after);
    SameTree(ts, c, n, tail, Pre(c') + FlatItem(it) + (Post(c') + tail));
    OneTok(it);
  }

  lemma {:induction false} OneTok(it: Item)
    requires !it.SubItem?
    ensures |FlatItem(it)| == 1
  {
  }

  lemma {:induction false} SameTree(ts: seq<Tok>, c: Ctx, n: Node, tail: seq<Tok>, ts': seq<Tok>)
    requires Holds(ts, c, n, tail) && Holds(ts', c, n, tail)
    ensures ts == ts'
  {
  }

  /** Removing or blanking property k in the tokens removes or blanks it in the node. */
  lemma {:induction false} PropOut(ts: seq<Tok>, c: Ctx, n: Node, tail: seq<Tok>, k: nat, w: nat)
    requires Holds(ts, c, n, tail) && k < |n.items| && (forall i :: 0 <= i <= k ==> !n.items[i].SubItem?)
    ensures var j := |Pre(c)| + 1 + k;
      && j < |ts| && Holds(ts[..j] + ts[j + 1..], c, n.(items := Cut(n.items, k)), tail)
      && Holds(ts[..j] + NopToks(w) + ts[j + 1..], c, n.(items := NopOut(n.items, k, w)), tail)
  {
    hide Pre, Post, FlatItems, Spells, Flat;
    AroundItem(ts, c, n, tail, k);
    var c', before, after := Child(c, n, k), n.items[..k], n.items[k + 1..];
    ReplaceChild(c, n, before, after, [], tail);
    ReplaceChild(c, n, before, after, Nops(w), tail);
    NoItems();
    NopFlat(w);
    assert before + [] + after == Cut(n.items, k);
    assert Pre(c') + [] + (Post(c') + tail) == Pre(c') + (Post(c') + tail);
  }

  /** Blanks a property; a reader then sees what a deletion would have left. */
  method BlankNodeProp(f: Fdt, nodeoffset: nat, name: seq<byte>, ghost c: Ctx, ghost n: Node, ghost tail: seq<Tok>)
      returns (err: int, ghost n': Node)
    requires InTree(f, c, n, tail) && nodeoffset == Place(c)
    modifies f`toks, f.buf
    ensures f.Blocks() && f.Strings() == old(f.Strings()) && InTree(f, c, n', tail)
    ensures var k := PropIndex(n.items, f.Strings(), name);
      if k == |n.items| then err == NOTFOUND && n' == n
      else err == 0 && Abs(Plug(c, n'), f.Strings()) == Abs(Plug(c, n.(items := Cut(n.items, k))), f.Strings())
    ensures f.Front() == old(f.Front())
  {
    hide Pre, Post, FlatItems, Off, Part, f.Valid, Spells, Size, PropOf, PropIndex, NodeOk, CtxOk, Abs, Plug;
    TreeHere(f, c, n, tail);
    PropHeld(f.toks, c, n, tail, f.Strings(), name);
    ghost var ts, k, w := f.toks, PropIndex(n.items, f.Strings(), name), 0;
    err, w := NopProp(f, nodeoffset, name, |Pre(c)|);
    f.ValidBlocks();
    n' := n;
    if k < |n.items| {
      PropOut(ts, c, n, tail, k, w);
      n' := n.(items := NopOut(n.items, k, w));
      NopLikeDelete(c, n, k, w, f.Strings());
    }
  }

  method DeleteNodeProp(f: Fdt, nodeoffset: nat, name: seq<byte>, ghost c: Ctx, ghost n: Node, ghost tail: seq<Tok>)
      returns (err: int)
    requires InTree(f, c, n, tail) && nodeoffset == Place(c)
    modifies f`sizeStruct, f`offStrings, f`toks, f.buf
    ensures f.Blocks() && f.Strings() == old(f.Strings()) && Ordered(f) == old(Ordered(f))
    ensures var k := PropIndex(n.items, f.Strings(), name);
      && err == (if !Ordered(f) then BADLAYOUT else if k == |n.items| then NOTFOUND else 0)
      && InTree(f, c, if err == 0 then n.(items := Cut(n.items, k)) else n, tail)
    ensures f.Front() == old(f.Front())
  {
    hide Pre, Post, FlatItems, Off, Part, f.Valid, Spells, Size, PropOf, PropIndex, NodeOk, CtxOk;
    TreeHere(f, c, n, tail);
    PropHeld(f.toks, c, n, tail, f.Strings(), name);
    ghost var ts, k := f.toks, PropIndex(n.items, f.Strings(), name);
    err := DelProp(f, nodeoffset, name, |Pre(c)|);
    f.ValidBlocks();
    if k < |n.items| { PropOut(ts, c, n, tail, k, 0); }
  }
}

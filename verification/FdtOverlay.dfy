/**
 * Merging an overlay node into a target node. On the trees a reader sees, the
 * merge is a small recursive function; the code does it in place, one edit at
 * a time, with offsets into a blob that grows under it.
 */
module FdtOverlay {
  import opened Bytes
  import opened FdtTokens
  import opened FdtTree
  import opened FdtSpec
  import opened FdtBlob
  import opened FdtEdit
  import opened FdtRw
  import opened FdtRefine
  import opened FdtOps
  import opened FdtIter

  // ---- the merge, on trees

  function PutAll(props: seq<AProp>, more: seq<AProp>): seq<AProp>
    decreases more
  {
    if more == [] then props else PutAll(Put(props, more[0].name, more[0].val), more[1..])
  }

  /** The first child that answers to name, or the number of children. */
  function KidIndex(kids: seq<ANode>, name: seq<byte>): (k: nat)
    ensures k <= |kids| && (k < |kids| ==> NameMatches(kids[k].name, name))
    ensures forall j :: 0 <= j < k ==> !NameMatches(kids[j].name, name)
  {
    if kids == [] || NameMatches(kids[0].name, name) then 0 else 1 + KidIndex(kids[1..], name)
  }

  /** Properties are set one by one, children merged into the first that answers to their name, else added in front. */
  function Merge(t: ANode, o: ANode): ANode
    decreases o, 1
  {
    MergeKids(t.(props := PutAll(t.props, o.props)), o.kids)
  }

  function MergeKids(t: ANode, kids: seq<ANode>): ANode
    decreases kids, 0
  {
    if kids == [] then t else MergeKids(MergeKid(t, kids[0]), kids[1..])
  }

  function MergeKid(t: ANode, kid: ANode): ANode
    decreases kid, 2
  {
    var k := KidIndex(t.kids, kid.name);
    if k < |t.kids| then t.(kids := t.kids[k := Merge(t.kids[k], kid)])
    else t.(kids := [Merge(ANode(kid.name, [], []), kid)] + t.kids)
  }

  /** What a merged property reads as: the overlay's last word, else what it was. */
  lemma {:induction false} GetPutAll(props: seq<AProp>, more: seq<AProp>, name: seq<byte>)
    ensures Get(PutAll(props, more), name) == (var l := Last(more, name); if l.Some? then l else Get(props, name))
    decreases more
  {
    if more != [] {
      GetPut(props, more[0].name, more[0].val, name);
      GetPutAll(Put(props, more[0].name, more[0].val), more[1..], name);
    }
  }

  function Last(props: seq<AProp>, name: seq<byte>): Option<seq<byte>> {
    if props == [] then None
    else
      var l := Last(props[1..], name);
      if l.Some? then l else if props[0].name == name then Some(props[0].val) else None
  }

  /** Merging never loses a property or renames a node: what the overlay does not set stays readable. */
  lemma {:induction false} MergeProps(t: ANode, o: ANode, name: seq<byte>)
    ensures Merge(t, o).name == t.name
    ensures Get(Merge(t, o).props, name) == (var l := Last(o.props, name); if l.Some? then l else Get(t.props, name))
  {
    MergeKidsProps(t.(props := PutAll(t.props, o.props)), o.kids);
    GetPutAll(t.props, o.props, name);
  }

  lemma {:induction false} MergeKidsProps(t: ANode, kids: seq<ANode>)
    ensures MergeKids(t, kids).props == t.props && MergeKids(t, kids).name == t.name
    ensures |MergeKids(t, kids).kids| >= |t.kids|
    decreases kids
  {
    if kids != [] { MergeKidsProps(MergeKid(t, kids[0]), kids[1..]); }
  }

  // ---- room that suffices

  function PropRoom(p: AProp): nat { |p.name| + 1 + 12 + Align4(|p.val|) }

  function PropsRoom(props: seq<AProp>): nat {
    if props == [] then 0 else PropRoom(props[0]) + PropsRoom(props[1..])
  }

  /** Bytes that suffice for merging o into any node, whatever is there already. */
  function NodeRoom(o: ANode): nat
    decreases o, 1
  {
    PropsRoom(o.props) + KidsRoom(o.kids)
  }

  function KidsRoom(kids: seq<ANode>): nat
    decreases kids, 0
  {
    if kids == [] then 0 else KidRoom(kids[0]) + KidsRoom(kids[1..])
  }

  function KidRoom(kid: ANode): nat
    decreases kid, 2
  {
    8 + Align4(|kid.name| + 1) + NodeRoom(kid)
  }

  lemma {:induction false} CostBound(strs: seq<byte>, v: Option<seq<byte>>, name: seq<byte>, val: seq<byte>)
    ensures SetCost(strs, v, name, val) <= |name| + 1 + 12 + Align4(|val|)
  {
  }

  // ---- children as stored and as seen

  lemma {:induction false} KidsCons(items: seq<Item>, strs: seq<byte>)
    requires items != []
    ensures AbsKids(items, strs) ==
      if items[0].SubItem? then [Abs(items[0].node, strs)] + AbsKids(items[1..], strs) else AbsKids(items[1..], strs)
  {
    assert [] + AbsKids(items[1..], strs) == AbsKids(items[1..], strs);
  }

  lemma {:induction false} KidIs(items: seq<Item>, name: seq<byte>, strs: seq<byte>)
    ensures var k, j := SubIndex(items, name), KidIndex(AbsKids(items, strs), name);
      && (k == |items| <==> j == |AbsKids(items, strs)|)
      && (k < |items| ==> j == |AbsKids(items[..k], strs)|)
  {
    hide AbsKids, NameMatches;
    var k := SubIndex(items, name);
    if items == [] {
      assert AbsKids(items, strs) == [] by { NoKids(strs); }
    } else {
      KidsCons(items, strs);
      if items[0].SubItem? { assert AbsKids(items, strs)[1..] == AbsKids(items[1..], strs); }
      if k == 0 {
        assert items[..k] == [];
        NoKids(strs);
      } else {
        KidIs(items[1..], name, strs);
        if k < |items| {
          KidsCons(items[..k], strs);
          assert items[..k][1..] == items[1..][..k - 1];
        }
      }
    }
  }

  lemma {:induction false} NoKids(strs: seq<byte>)
    ensures AbsKids([], strs) == []
  {
  }

  // ---- properties

  /** The string at stroff of the string block. */
  method GetString(f: Fdt, stroff: nat) returns (name: seq<byte>)
    requires f.Blocks() && NameOk(f.Strings(), stroff)
    ensures name == NameAt(f.Strings(), stroff) && NoNul(name)
  {
    hide Part, StrLen;
    ghost var strs := f.Strings();
    var p := f.offStrings + stroff;
    f.StringSlice(stroff, f.sizeStrings - stroff);
    assert strs[stroff..] == strs[stroff..f.sizeStrings];
    var n := f.CStrLen(p, f.offStrings + f.sizeStrings);
    name := f.buf[p..p + n];
    f.StringSlice(stroff, n);
    SubSlice(strs, stroff, f.sizeStrings, 0, n);
  }

  /** Name and value of property j. */
  method PropByOffset(f: Fdt, offset: nat, ghost j: nat) returns (name: seq<byte>, val: seq<byte>)
    requires f.Valid() && j < |f.toks| && f.toks[j].Prop? && offset == Off(f.toks, j)
    ensures name == NameAt(f.Strings(), f.toks[j].nameoff) && val == f.toks[j].val && NoNul(name) && |val| < MAX
  {
    hide Off, BeDec, Enc, NameAt, NameOk, Part;
    f.PropHere(j);
    val := PropVal(f, offset, j);
    var stroff := f.Word(f.offStruct + offset + 8);
    name := GetString(f, stroff);
  }

  /** The next property of node n from item k on. */
  method PropAfter(f: Fdt, start: nat, ghost c: Ctx, ghost n: Node, ghost tail: seq<Tok>, ghost k: nat)
      returns (offset: int)
    requires InTree(f, c, n, tail) && k <= |n.items| && forall i :: 0 <= i < k ==> !n.items[i].SubItem?
    requires |Pre(c)| + 1 + k <= |f.toks| && start == Off(f.toks, |Pre(c)| + 1 + k)
    ensures var q := NextPropItem(n.items, k);
      if q == |n.items| then offset == NOTFOUND else offset >= 0 && PropItemAt(f, c, n, tail, q, offset)
  {
    hide Pre, Post, FlatItems, Off, Part, NextPropOf, NextPropItem, f.Valid, Spells;
    ghost var q, rest := NextPropItem(n.items, k), Post(c) + tail;
    ItemsFrom(f.toks, c, n, tail, k);
    NextPropItems(n.items, k, rest);
    ghost var j;
    offset, j := f.NextProp(start, |Pre(c)| + 1 + k);
    if q < |n.items| { ItemsFrom(f.toks, c, n, tail, q); }
  }

  /** Item q of node n is a property, stored at that offset; no child comes before it. */
  ghost predicate PropItemAt(f: Fdt, c: Ctx, n: Node, tail: seq<Tok>, q: nat, offset: int)
    reads f, f.buf
  {
    && InTree(f, c, n, tail) && q < |n.items| && n.items[q].PropItem?
    && (forall i :: 0 <= i < q ==> !n.items[i].SubItem?)
    && |Pre(c)| + 1 + q < |f.toks| && [f.toks[|Pre(c)| + 1 + q]] == FlatItem(n.items[q])
    && offset == Off(f.toks, |Pre(c)| + 1 + q)
  }

  /** Reads the property and finds the next one. */
  method ReadProp(f: Fdt, offset: nat, ghost c: Ctx, ghost n: Node, ghost tail: seq<Tok>, ghost q: nat)
      returns (name: seq<byte>, val: seq<byte>, next: int)
    requires PropItemAt(f, c, n, tail, q, offset)
    ensures f.Blocks() && name == NameAt(f.Strings(), n.items[q].nameoff) && val == n.items[q].val && NoNul(name)
    ensures |val| < MAX
    ensures var r := NextPropItem(n.items, q + 1);
      if r == |n.items| then next == NOTFOUND else next >= 0 && PropItemAt(f, c, n, tail, r, next)
  {
    hide Pre, Post, FlatItems, Off, Part, NextPropItem, f.Valid, Spells, NameAt;
    f.ValidBlocks();
    name, val := PropByOffset(f, offset, |Pre(c)| + 1 + q);
    var tag, after := f.TagAt(offset, |Pre(c)| + 1 + q);
    next := PropAfter(f, after, c, n, tail, q + 1);
  }

  /** The first property of node n. */
  method FirstProp(f: Fdt, nodeoffset: nat, ghost c: Ctx, ghost n: Node, ghost tail: seq<Tok>) returns (offset: int)
    requires InTree(f, c, n, tail) && nodeoffset == Place(c)
    ensures var q := NextPropItem(n.items, 0);
      if q == |n.items| then offset == NOTFOUND else offset >= 0 && PropItemAt(f, c, n, tail, q, offset)
  {
    hide Pre, Post, FlatItems, Off, Part, NextPropItem, f.Valid, Spells;
    TreeHere(f, c, n, tail);
    var tag, next := f.TagAt(nodeoffset, |Pre(c)|);
    offset := PropAfter(f, next, c, n, tail, 0);
  }

  /** With room left an edit of a sound blob succeeds, and takes no more than that. */
  predicate Fitted(f: Fdt, size: nat, room: nat, err: int)
    reads f
  {
    (Ordered(f) && size + room <= f.totalsize ==> err == 0) && (err == 0 ==> DataSize(f) <= size + room)
  }

  /** The target as it was: its node, its surroundings, its layout and the size of the data. */
  datatype Was = Was(node: ANode, ctx: ACtx, ordered: bool, front: seq<byte>, size: nat)

  ghost function Now(f: Fdt, c: Ctx, n: Node): Was
    requires f.Blocks()
    reads f, f.buf
  {
    Was(Abs(n, f.Strings()), AbsCtx(c, f.Strings()), Ordered(f), f.Front(), DataSize(f))
  }

  /** f holds n in its place in surroundings that read as they did. */
  ghost predicate Since(w: Was, f: Fdt, c: Ctx, n: Node, tail: seq<Tok>)
    reads f, f.buf
  {
    InTree(f, c, n, tail) && AbsCtx(c, f.Strings()) == w.ctx && n.name == w.node.name && Ordered(f) == w.ordered &&
    f.Front() == w.front
  }

  lemma {:induction false} SinceNow(f: Fdt, c: Ctx, n: Node, tail: seq<Tok>)
    requires InTree(f, c, n, tail)
    ensures f.Blocks() && Since(Now(f, c, n), f, c, n, tail)
  {
  }

  /** Sets property q of the overlay node no on the target node n, and finds the next one. */
  method ApplyProp(f: Fdt, target: nat, fo: Fdt, property: nat, ghost c: Ctx, ghost n: Node, ghost tail: seq<Tok>,
      ghost co: Ctx, ghost no: Node, ghost tailo: seq<Tok>, ghost q: nat)
    returns (err: int, next: int, ghost n': Node)
    requires InTree(f, c, n, tail) && target == Place(c) && PropItemAt(fo, co, no, tailo, q, property) && f != fo
    requires f.buf != fo.buf
    modifies f`sizeStruct, f`sizeStrings, f`offStrings, f`toks, f.buf
    ensures f.Blocks() && fo.Blocks() && Since(old(Now(f, c, n)), f, c, n', tail)
    ensures err == 0 || err == NOSPACE || err == BADLAYOUT
    ensures var p := AProp(NameAt(fo.Strings(), no.items[q].nameoff), no.items[q].val);
      && (err == 0 ==> Abs(n', f.Strings()) == old(Abs(n, f.Strings())).(props := Put(old(AbsProps(n.items, f.Strings())), p.name, p.val)))
      && Fitted(f, old(DataSize(f)), PropRoom(p), err)
    ensures var r := NextPropItem(no.items, q + 1);
      if r == |no.items| then next == NOTFOUND else next >= 0 && PropItemAt(fo, co, no, tailo, r, next)
  {
    hide Pre, Post, FlatItems, Off, Part, NextPropItem, f.Valid, f.Front, AbsKids, AbsProps, AbsCtx, Put, NameAt,
        SetCost, Get, Align4, Holds;
    var name, val;
    name, val, next := ReadProp(fo, property, co, no, tailo, q);
    CostBound(f.Strings(), Get(AbsProps(n.items, f.Strings()), name), name, val);
    err, n' := SetNodeProp(f, target, name, val, c, n, tail);
  }

  /** The properties before q are set. */
  ghost predicate PropStage(w: Was, f: Fdt, c: Ctx, n: Node, tail: seq<Tok>, fo: Fdt, co: Ctx, no: Node,
      tailo: seq<Tok>, q: nat, property: int)
    reads f, f.buf, fo, fo.buf
  {
    && f != fo && f.buf != fo.buf && f.Blocks() && fo.Blocks() && Since(w, f, c, n, tail)
    && q <= |no.items| && (q < |no.items| ==> no.items[q].PropItem?)
    && (if q == |no.items| then property == NOTFOUND else property >= 0 && PropItemAt(fo, co, no, tailo, q, property))
    && Abs(n, f.Strings()) == w.node.(props := AbsProps(n.items, f.Strings()))
    && DataSize(f) + PropsRoom(PropsAt(no.items, q, fo.Strings())) <= w.size + PropsRoom(AbsProps(no.items, fo.Strings()))
    && PutAll(w.node.props, AbsProps(no.items, fo.Strings())) ==
         PutAll(AbsProps(n.items, f.Strings()), PropsAt(no.items, q, fo.Strings()))
  }

  method ApplyNextProp(f: Fdt, target: nat, fo: Fdt, property: nat, ghost w: Was, ghost c: Ctx, ghost n: Node,
      ghost tail: seq<Tok>, ghost co: Ctx, ghost no: Node, ghost tailo: seq<Tok>, ghost q: nat)
    returns (err: int, next: int, ghost n': Node)
    requires PropStage(w, f, c, n, tail, fo, co, no, tailo, q, property) && target == Place(c)
    modifies f`sizeStruct, f`sizeStrings, f`offStrings, f`toks, f.buf
    ensures q < |no.items| && fo.Blocks() && Since(w, f, c, n', tail)
    ensures (err == 0 || err == NOSPACE || err == BADLAYOUT)
    ensures err == 0 ==> PropStage(w, f, c, n', tail, fo, co, no, tailo, NextPropItem(no.items, q + 1), next)
    ensures f.Blocks() && (err != 0 ==> Fitted(f, w.size, PropsRoom(AbsProps(no.items, fo.Strings())), err))
  {
    hide NextPropItem, f.Front, f.Strings, fo.Strings, f.Blocks, fo.Blocks, AbsKids, AbsProps, AbsCtx, PutAll, Put,
        NameAt, PropsRoom, PropRoom, PropsAt, PropItemAt, InTree, Place, Ordered;
    PutOne(AbsProps(n.items, f.Strings()), no.items, q, fo.Strings());
    PropsAtRoom(no.items, q, fo.Strings());
    err, next, n' := ApplyProp(f, target, fo, property, c, n, tail, co, no, tailo, q);
  }

  lemma {:induction false} PropsStart(f: Fdt, c: Ctx, n: Node, tail: seq<Tok>, fo: Fdt, co: Ctx, no: Node,
      tailo: seq<Tok>, property: int)
    requires InTree(f, c, n, tail) && InTree(fo, co, no, tailo) && f != fo && f.buf != fo.buf
    requires var q := NextPropItem(no.items, 0);
      if q == |no.items| then property == NOTFOUND else property >= 0 && PropItemAt(fo, co, no, tailo, q, property)
    ensures f.Blocks() && PropStage(Now(f, c, n), f, c, n, tail, fo, co, no, tailo, NextPropItem(no.items, 0), property)
  {
    SinceNow(f, c, n, tail);
    SinceNow(fo, co, no, tailo);
    hide NextPropItem, f.Front, f.Strings, fo.Strings, f.Blocks, fo.Blocks, AbsKids, AbsProps, AbsCtx, PutAll,
        PropsRoom, PropsAt, PropItemAt, InTree, Since;
    PropsAtRoom(no.items, NextPropItem(no.items, 0), fo.Strings());
  }

  lemma {:induction false} PropsEnd(w: Was, f: Fdt, c: Ctx, n: Node, tail: seq<Tok>, fo: Fdt, co: Ctx, no: Node,
      tailo: seq<Tok>, q: nat,
      property: int)
    requires PropStage(w, f, c, n, tail, fo, co, no, tailo, q, property) && property < 0
    ensures f.Blocks() && fo.Blocks() && Since(w, f, c, n, tail)
    ensures Abs(n, f.Strings()) == w.node.(props := PutAll(w.node.props, AbsProps(no.items, fo.Strings())))
    ensures Fitted(f, w.size, PropsRoom(AbsProps(no.items, fo.Strings())), 0)
  {
    hide f.Strings, fo.Strings, f.Blocks, fo.Blocks, AbsProps, PutAll, PropsRoom, PropsAt, PropItemAt, Since, Abs;
    PropsAtRoom(no.items, q, fo.Strings());
    PutNone(AbsProps(n.items, f.Strings()));
  }

  method ApplyRest(f: Fdt, target: nat, fo: Fdt, first: int, ghost w: Was, ghost c: Ctx, ghost n: Node,
      ghost tail: seq<Tok>, ghost co: Ctx, ghost no: Node, ghost tailo: seq<Tok>, ghost k: nat)
    returns (err: int, ghost n': Node)
    requires k <= |no.items| && PropStage(w, f, c, n, tail, fo, co, no, tailo, k, first) && target == Place(c)
    modifies f`sizeStruct, f`sizeStrings, f`offStrings, f`toks, f.buf
    ensures f.Blocks() && fo.Blocks() && Since(w, f, c, n', tail) && (err == 0 || err == NOSPACE || err == BADLAYOUT)
    ensures err == 0 ==>
      Abs(n', f.Strings()) == w.node.(props := PutAll(w.node.props, AbsProps(no.items, fo.Strings())))
    ensures Fitted(f, w.size, PropsRoom(AbsProps(no.items, fo.Strings())), err)
  {
    hide NextPropItem, AbsProps, PutAll, PropsRoom, PropStage, Place, Since, Fitted, Abs;
    ghost var q := k;
    var property := first;
    err, n' := 0, n;
    while property >= 0
      invariant err == 0 && q <= |no.items| && PropStage(w, f, c, n', tail, fo, co, no, tailo, q, property)
      decreases |no.items| - q
    {
      err, property, n' := ApplyNextProp(f, target, fo, property, w, c, n', tail, co, no, tailo, q);
      if err != 0 { return; }
      q := NextPropItem(no.items, q + 1);
    }
    PropsEnd(w, f, c, n', tail, fo, co, no, tailo, q, property);
  }

  /** Sets every property of the overlay node no on the target node n. */
  method ApplyProps(f: Fdt, target: nat, fo: Fdt, node: nat, ghost c: Ctx, ghost n: Node, ghost tail: seq<Tok>,
      ghost co: Ctx, ghost no: Node, ghost tailo: seq<Tok>)
    returns (err: int, ghost n': Node)
    requires InTree(f, c, n, tail) && target == Place(c) && InTree(fo, co, no, tailo) && node == Place(co) && f != fo
    requires f.buf != fo.buf
    modifies f`sizeStruct, f`sizeStrings, f`offStrings, f`toks, f.buf
    ensures f.Blocks() && fo.Blocks() && Since(old(Now(f, c, n)), f, c, n', tail)
    ensures err == 0 ==>
      Abs(n', f.Strings()) ==
        old(Abs(n, f.Strings())).(props := PutAll(old(AbsProps(n.items, f.Strings())), AbsProps(no.items, fo.Strings())))
    ensures (err == 0 || err == NOSPACE || err == BADLAYOUT)
    ensures Fitted(f, old(DataSize(f)), PropsRoom(AbsProps(no.items, fo.Strings())), err)
  {
    hide NextPropItem, f.Front, f.Valid, AbsKids, AbsProps, AbsCtx, PutAll, PropsRoom, PropStage, PropItemAt, Place,
        Since, Fitted, Ordered, Holds, Pre;
    var property := FirstProp(fo, node, co, no, tailo);
    PropsStart(f, c, n, tail, fo, co, no, tailo, property);
    err, n' := ApplyRest(f, target, fo, property, Now(f, c, n), c, n, tail, co, no, tailo, NextPropItem(no.items, 0));
  }

  /** The properties still to be set when q is the next one. */
  ghost function PropsAt(items: seq<Item>, q: nat, strs: seq<byte>): seq<AProp>
    requires q <= |items| && (q < |items| ==> items[q].PropItem?)
  {
    if q == |items| then [] else [AProp(NameAt(strs, items[q].nameoff), items[q].val)] + AbsProps(items[q + 1..], strs)
  }

  /** What the properties still to be set need, taken one by one. */
  lemma {:induction false} PropsAtRoom(items: seq<Item>, q: nat, strs: seq<byte>)
    requires q <= |items| && (q < |items| ==> items[q].PropItem?)
    ensures if q == |items| then PropsAt(items, q, strs) == []
      else
        var p, r := AProp(NameAt(strs, items[q].nameoff), items[q].val), NextPropItem(items, q + 1);
        PropsRoom(PropsAt(items, q, strs)) == PropRoom(p) + PropsRoom(PropsAt(items, r, strs))
    ensures q == NextPropItem(items, 0) ==> PropsAt(items, q, strs) == AbsProps(items, strs)
  {
    hide NameAt, AbsProps, NextPropItem, PropRoom;
    PropsFrom(items, 0, strs);
    assert items[0..] == items;
    if q < |items| {
      PropsFrom(items, q + 1, strs);
      var ps := PropsAt(items, q, strs);
      assert ps[1..] == AbsProps(items[q + 1..], strs);
    }
  }

  lemma {:induction false} PutOne(props: seq<AProp>, items: seq<Item>, q: nat, strs: seq<byte>)
    requires q < |items| && items[q].PropItem?
    ensures PutAll(props, PropsAt(items, q, strs)) ==
      PutAll(Put(props, NameAt(strs, items[q].nameoff), items[q].val), PropsAt(items, NextPropItem(items, q + 1), strs))
  {
    hide Put, NameAt, AbsProps, NextPropItem;
    PropsFrom(items, q + 1, strs);
    var ps := PropsAt(items, q, strs);
    assert ps[1..] == AbsProps(items[q + 1..], strs);
  }

  lemma {:induction false} PutNone(props: seq<AProp>)
    ensures PutAll(props, []) == props
  {
  }

  // ---- children

  /** A child replaced in place, the rest unchanged while the string block grew. */
  lemma {:induction false} KidReplaced(c: Ctx, n: Node, k: nat, m: Node, name: seq<byte>, strs: seq<byte>,
      strs': seq<byte>)
    requires k == SubIndex(n.items, name) < |n.items| && AbsCtx(Child(c, n, k), strs') == AbsCtx(Child(c, n, k), strs)
    ensures var t, n' := Abs(n, strs), n.(items := n.items[..k] + [SubItem(m)] + n.items[k + 1..]);
      && KidIndex(t.kids, name) < |t.kids| && t.kids[KidIndex(t.kids, name)] == Abs(n.items[k].node, strs)
      && Abs(n', strs') == t.(kids := t.kids[KidIndex(t.kids, name) := Abs(m, strs')])
  {
    hide AbsKids, AbsProps, SubIndex, KidIndex;
    var before, was, after := n.items[..k], n.items[k].node, n.items[k + 1..];
    assert n.items == before + [SubItem(was)] + after;
    KidIs(n.items, name, strs);
    KidsAround(before, was, after, strs);
    KidsAround(before, m, after, strs');
    PropsBeforeChild(before, was, after, strs);
    PropsBeforeChild(before, m, after, strs');
  }

  lemma {:induction false} KidAdded(c: Ctx, n: Node, m: Node, name: seq<byte>, strs: seq<byte>, strs': seq<byte>)
    requires SubIndex(n.items, name) == |n.items| && AbsCtx(NewChild(c, n), strs') == AbsCtx(NewChild(c, n), strs)
    ensures var t, n' := Abs(n, strs), n.(items := AddItems(n.items, m));
      KidIndex(t.kids, name) == |t.kids| && Abs(n', strs') == t.(kids := [Abs(m, strs')] + t.kids)
  {
    hide AbsKids, AbsProps, SubIndex, KidIndex, LeadingItems;
    var k := LeadingItems(n.items);
    var before, after := n.items[..k], n.items[k..];
    assert n.items == before + after;
    KidIs(n.items, name, strs);
    KidsAround(before, m, after, strs');
    PropsBeforeChild(before, m, after, strs');
    KidsConcat(before, after, strs);
    PropsConcat(before, after, strs);
    NoPropsAfter(after, strs);
    assert [] + AbsKids(after, strs) == AbsKids(after, strs) && [] + [Abs(m, strs')] == [Abs(m, strs')];
  }

  lemma {:induction false} Ascend(f: Fdt, c: Ctx, n: Node, tail: seq<Tok>, before: seq<Item>, m: Node, after: seq<Item>)
    requires InTree(f, In(c, n.name, n.pad, before, after), m, tail)
    ensures InTree(f, c, n.(items := before + [SubItem(m)] + after), tail)
  {
    hide Holds, f.Valid;
    Descend(f.toks, c, n.(items := before + [SubItem(m)] + after), tail, before, m, after);
  }

  lemma {:induction false} EmptyAbs(name: seq<byte>, strs: seq<byte>)
    ensures Abs(EmptyNode(name), strs) == ANode(name, [], [])
  {
  }

  ghost predicate KidAt(f: Fdt, c: Ctx, n: Node, tail: seq<Tok>, q: nat, offset: int)
    reads f, f.buf
  {
    q < |n.items| && n.items[q].SubItem? && offset == Place(Child(c, n, q)) &&
    InTree(f, Child(c, n, q), n.items[q].node, tail)
  }

  method FirstChild(f: Fdt, parent: nat, ghost c: Ctx, ghost n: Node, ghost tail: seq<Tok>) returns (offset: int)
    requires InTree(f, c, n, tail) && parent == Place(c)
    ensures var q := NextKid(n.items, 0); if q == |n.items| then offset == NOTFOUND else KidAt(f, c, n, tail, q, offset)
  {
    hide Pre, Post, FlatItems, Off, Part, NextKid, f.Valid, Spells, SibOf, Size, NodeOk, CtxOk;
    TreeHere(f, c, n, tail);
    FirstKid(f.toks, c, n, tail);
    ghost var j;
    offset, j := FirstSubnode(f, parent, |Pre(c)|);
    ghost var q := NextKid(n.items, 0);
    if q < |n.items| { TreeHere(f, Child(c, n, q), n.items[q].node, tail); }
  }

  method NextChild(f: Fdt, child: nat, ghost c: Ctx, ghost n: Node, ghost tail: seq<Tok>, ghost q: nat)
      returns (offset: int)
    requires InTree(f, c, n, tail) && KidAt(f, c, n, tail, q, child)
    ensures var r := NextKid(n.items, q + 1);
      if r == |n.items| then offset == NOTFOUND else KidAt(f, c, n, tail, r, offset)
  {
    hide Pre, Post, FlatItems, Off, Part, NextKid, f.Valid, Spells, SibOf, Size, NodeOk, CtxOk;
    TreeHere(f, Child(c, n, q), n.items[q].node, tail);
    NextKidOf(f.toks, c, n, tail, q);
    ghost var j;
    offset, j := NextSubnode(f, child, |Pre(Child(c, n, q))|);
    ghost var r := NextKid(n.items, q + 1);
    if r < |n.items| { TreeHere(f, Child(c, n, r), n.items[r].node, tail); }
  }

  method NodeName(f: Fdt, offset: nat, ghost c: Ctx, ghost n: Node, ghost tail: seq<Tok>) returns (name: seq<byte>)
    requires InTree(f, c, n, tail) && offset == Place(c)
    ensures name == n.name && NoNul(name)
  {
    hide Pre, Post, FlatItems, Off, Part, f.Valid, Spells, Size, CtxOk;
    TreeHere(f, c, n, tail);
    name := f.GetName(offset, |Pre(c)|);
  }

  // ---- the recursion

  /** Merges the overlay child mo into child k of n. */
  method ApplyOld(f: Fdt, nnode: nat, fo: Fdt, child: nat, ghost c: Ctx, ghost n: Node, ghost tail: seq<Tok>,
      ghost co: Ctx, ghost mo: Node, ghost tailo: seq<Tok>, ghost k: nat)
    returns (err: int, ghost n': Node)
    requires k == SubIndex(n.items, mo.name) < |n.items| && InTree(f, Child(c, n, k), n.items[k].node, tail)
    requires nnode == Place(Child(c, n, k))
    requires InTree(fo, co, mo, tailo) && child == Place(co) && f != fo && f.buf != fo.buf
    modifies f`sizeStruct, f`sizeStrings, f`offStrings, f`toks, f.buf
    ensures f.Blocks() && fo.Blocks() && Since(old(Now(f, c, n)), f, c, n', tail)
    ensures err == 0 ==> Abs(n', f.Strings()) == MergeKid(old(Abs(n, f.Strings())), Abs(mo, fo.Strings()))
    ensures (err == 0 || err == NOSPACE || err == BADLAYOUT)
    ensures Fitted(f, old(DataSize(f)), NodeRoom(Abs(mo, fo.Strings())), err)
    decreases mo, 4
  {
    SinceNow(f, Child(c, n, k), n.items[k].node, tail);
    hide f.Front, f.Strings, fo.Strings, f.Blocks, fo.Blocks, InTree, Place, Since, Fitted, Ordered, AbsKids, AbsProps,
        SubIndex, KidIndex, Merge, NodeRoom;
    ghost var strs, w, v := f.Strings(), Now(f, c, n), Now(f, Child(c, n, k), n.items[k].node);
    ghost var m;
    err, m := ApplyNode(f, nnode, fo, child, Child(c, n, k), n.items[k].node, tail, co, mo, tailo);
    n' := n.(items := n.items[..k] + [SubItem(m)] + n.items[k + 1..]);
    AscendSince(w, v, f, c, n, tail, n.items[..k], m, n.items[k + 1..]);
    KidReplaced(c, n, k, m, mo.name, strs, f.Strings());
  }

  /** Merges the overlay child mo into a child just added to n, when there was none of its name. */
  method ApplyNew(f: Fdt, nnode: nat, fo: Fdt, child: nat, ghost c: Ctx, ghost n: Node, ghost tail: seq<Tok>,
      ghost co: Ctx, ghost mo: Node, ghost tailo: seq<Tok>)
    returns (err: int, ghost n': Node)
    requires SubIndex(n.items, mo.name) == |n.items| && InTree(f, NewChild(c, n), EmptyNode(mo.name), tail)
    requires nnode == Place(NewChild(c, n))
    requires InTree(fo, co, mo, tailo) && child == Place(co) && f != fo && f.buf != fo.buf
    modifies f`sizeStruct, f`sizeStrings, f`offStrings, f`toks, f.buf
    ensures f.Blocks() && fo.Blocks() && Since(old(Now(f, c, n)), f, c, n', tail)
    ensures err == 0 ==> Abs(n', f.Strings()) == MergeKid(old(Abs(n, f.Strings())), Abs(mo, fo.Strings()))
    ensures (err == 0 || err == NOSPACE || err == BADLAYOUT)
    ensures Fitted(f, old(DataSize(f)), NodeRoom(Abs(mo, fo.Strings())), err)
    decreases mo, 4
  {
    SinceNow(f, NewChild(c, n), EmptyNode(mo.name), tail);
    hide f.Front, f.Strings, fo.Strings, f.Blocks, fo.Blocks, InTree, Place, Since, Fitted, Ordered, AbsKids, AbsProps,
        SubIndex, KidIndex, Merge, NodeRoom, LeadingItems, EmptyNode;
    ghost var strs, w, v, k := f.Strings(), Now(f, c, n), Now(f, NewChild(c, n), EmptyNode(mo.name)),
      LeadingItems(n.items);
    ghost var m;
    EmptyAbs(mo.name, strs);
    err, m := ApplyNode(f, nnode, fo, child, NewChild(c, n), EmptyNode(mo.name), tail, co, mo, tailo);
    n' := n.(items := AddItems(n.items, m));
    AscendSince(w, v, f, c, n, tail, n.items[..k], m, n.items[k..]);
    KidAdded(c, n, m, mo.name, strs, f.Strings());
  }

  /** Merges the overlay child mo into the child of n that answers to its name, adding one if there is none. */
  method ApplyChild(f: Fdt, target: nat, fo: Fdt, child: nat, ghost c: Ctx, ghost n: Node, ghost tail: seq<Tok>,
      ghost co: Ctx, ghost mo: Node, ghost tailo: seq<Tok>)
    returns (err: int, ghost n': Node)
    requires InTree(f, c, n, tail) && target == Place(c) && InTree(fo, co, mo, tailo) && child == Place(co) && f != fo
    requires f.buf != fo.buf
    modifies f`sizeStruct, f`sizeStrings, f`offStrings, f`toks, f.buf
    ensures f.Blocks() && fo.Blocks() && Since(old(Now(f, c, n)), f, c, n', tail)
    ensures err == 0 ==> Abs(n', f.Strings()) == MergeKid(old(Abs(n, f.Strings())), Abs(mo, fo.Strings()))
    ensures (err == 0 || err == NOSPACE || err == BADLAYOUT)
    ensures Fitted(f, old(DataSize(f)), KidRoom(Abs(mo, fo.Strings())), err)
    decreases mo, 5
  {
    hide Pre, Post, FlatItems, Off, Part, f.Valid, f.Front, Spells, Size, AbsKids, AbsProps, SubIndex, KidIndex,
        LeadingItems, MergeKid, EmptyNode, NodeRoom, Align4;
    err, n' := 0, n;
    var name := NodeName(fo, child, co, mo, tailo);
    var nnode := AddChild(f, target, name, c, n, tail);
    if nnode == EXISTS {
      ghost var k;
      nnode, k := FindChild(f, target, name, c, n, tail);
      err, n' := ApplyOld(f, nnode, fo, child, c, n, tail, co, mo, tailo, k);
    } else if nnode < 0 {
      err := nnode;
    } else {
      err, n' := ApplyNew(f, nnode, fo, child, c, n, tail, co, mo, tailo);
    }
  }

  /** Back up from a child whose surroundings have not changed. */
  lemma {:induction false} AscendSince(w: Was, v: Was, f: Fdt, c: Ctx, n: Node, tail: seq<Tok>, before: seq<Item>,
      m: Node,
      after: seq<Item>)
    requires Since(v, f, In(c, n.name, n.pad, before, after), m, tail) && v.ctx.AIn? && v.ctx.up == w.ctx
    requires v.ordered == w.ordered && v.front == w.front && n.name == w.node.name
    ensures Since(w, f, c, n.(items := before + [SubItem(m)] + after), tail)
    ensures f.Blocks() && AbsCtx(In(c, n.name, n.pad, before, after), f.Strings()) == v.ctx
  {
    hide InTree, AbsKids, AbsProps;
    SinceBlocks(v, f, In(c, n.name, n.pad, before, after), m, tail);
    Ascend(f, c, n, tail, before, m, after);
  }

  lemma {:induction false} SinceBlocks(w: Was, f: Fdt, c: Ctx, n: Node, tail: seq<Tok>)
    requires Since(w, f, c, n, tail)
    ensures f.Blocks()
  {
  }

  /** The children still to be merged when q is the next one. */
  ghost function KidsAt(items: seq<Item>, q: nat, strs: seq<byte>): seq<ANode>
    requires q <= |items| && (q < |items| ==> items[q].SubItem?)
  {
    if q == |items| then [] else [Abs(items[q].node, strs)] + AbsKids(items[q + 1..], strs)
  }

  lemma {:induction false} MergeOne(t: ANode, items: seq<Item>, q: nat, strs: seq<byte>)
    requires q < |items| && items[q].SubItem?
    ensures MergeKids(t, KidsAt(items, q, strs)) ==
      MergeKids(MergeKid(t, Abs(items[q].node, strs)), KidsAt(items, NextKid(items, q + 1), strs))
  {
    hide MergeKid, Abs, AbsKids, NextKid;
    KidsFrom(items, q + 1, strs);
    var ks := KidsAt(items, q, strs);
    assert ks[0] == Abs(items[q].node, strs) && ks[1..] == AbsKids(items[q + 1..], strs);
  }

  lemma {:induction false} KidsAtRoom(items: seq<Item>, q: nat, strs: seq<byte>)
    requires q <= |items| && (q < |items| ==> items[q].SubItem?)
    ensures if q == |items| then KidsAt(items, q, strs) == []
      else KidsRoom(KidsAt(items, q, strs)) == KidRoom(Abs(items[q].node, strs)) + KidsRoom(KidsAt(items, NextKid(items, q + 1), strs))
    ensures q == NextKid(items, 0) ==> KidsAt(items, q, strs) == AbsKids(items, strs)
  {
    hide Abs, AbsKids, NextKid, KidRoom;
    KidsFrom(items, 0, strs);
    assert items[0..] == items;
    if q < |items| {
      KidsFrom(items, q + 1, strs);
      var ks := KidsAt(items, q, strs);
      assert ks[0] == Abs(items[q].node, strs) && ks[1..] == AbsKids(items[q + 1..], strs);
    }
  }

  lemma {:induction false} MergeNone(t: ANode)
    ensures MergeKids(t, []) == t
  {
  }

  /** Merges the overlay node no into the target node n: the recursive merge of the trees a reader sees. */
  method ApplyNode(f: Fdt, target: nat, fo: Fdt, node: nat, ghost c: Ctx, ghost n: Node, ghost tail: seq<Tok>,
      ghost co: Ctx, ghost no: Node, ghost tailo: seq<Tok>)
    returns (err: int, ghost n': Node)
    requires InTree(f, c, n, tail) && target == Place(c) && InTree(fo, co, no, tailo) && node == Place(co) && f != fo
    requires f.buf != fo.buf
    modifies f`sizeStruct, f`sizeStrings, f`offStrings, f`toks, f.buf
    ensures f.Blocks() && fo.Blocks() && Since(old(Now(f, c, n)), f, c, n', tail)
    ensures err == 0 ==> Abs(n', f.Strings()) == Merge(old(Abs(n, f.Strings())), Abs(no, fo.Strings()))
    ensures (err == 0 || err == NOSPACE || err == BADLAYOUT)
    ensures Fitted(f, old(DataSize(f)), NodeRoom(Abs(no, fo.Strings())), err)
    decreases no, 3
  {
    hide Pre, Post, FlatItems, Off, Part, f.Valid, f.Front, Spells, Size, AbsKids, AbsProps, AbsCtx, MergeKids, PutAll,
        PropsRoom, KidsRoom;
    err, n' := ApplyProps(f, target, fo, node, c, n, tail, co, no, tailo);
    if err != 0 { return; }
    err, n' := ApplyKids(f, target, fo, node, c, n', tail, co, no, tailo);
  }

  /** The children before q are merged. */
  ghost predicate KidStage(w: Was, f: Fdt, c: Ctx, n: Node, tail: seq<Tok>, fo: Fdt, co: Ctx, no: Node, tailo: seq<Tok>,
      q: nat, child: int)
    reads f, f.buf, fo, fo.buf
  {
    && f != fo && f.buf != fo.buf && f.Blocks() && fo.Blocks() && Since(w, f, c, n, tail) && InTree(fo, co, no, tailo)
    && q <= |no.items| && (q < |no.items| ==> no.items[q].SubItem?)
    && (if q == |no.items| then child == NOTFOUND else KidAt(fo, co, no, tailo, q, child))
    && DataSize(f) + KidsRoom(KidsAt(no.items, q, fo.Strings())) <= w.size + KidsRoom(AbsKids(no.items, fo.Strings()))
    && MergeKids(w.node, AbsKids(no.items, fo.Strings())) ==
         MergeKids(Abs(n, f.Strings()), KidsAt(no.items, q, fo.Strings()))
  }

  method ApplyNextKid(f: Fdt, target: nat, fo: Fdt, child: nat, ghost w: Was, ghost c: Ctx, ghost n: Node,
      ghost tail: seq<Tok>, ghost co: Ctx, ghost no: Node, ghost tailo: seq<Tok>, ghost q: nat)
    returns (err: int, next: int, ghost n': Node)
    requires KidStage(w, f, c, n, tail, fo, co, no, tailo, q, child) && target == Place(c)
    modifies f`sizeStruct, f`sizeStrings, f`offStrings, f`toks, f.buf
    ensures q < |no.items| && fo.Blocks() && Since(w, f, c, n', tail)
    ensures (err == 0 || err == NOSPACE || err == BADLAYOUT)
    ensures err == 0 ==> KidStage(w, f, c, n', tail, fo, co, no, tailo, NextKid(no.items, q + 1), next)
    ensures f.Blocks() && (err != 0 ==> Fitted(f, w.size, KidsRoom(AbsKids(no.items, fo.Strings())), err))
    decreases no, 0
  {
    hide NextKid, f.Front, f.Strings, fo.Strings, f.Blocks, fo.Blocks, AbsKids, AbsCtx, MergeKids, MergeKid, KidsRoom,
        KidRoom, KidsAt, InTree, Place, Ordered, AbsProps;
    next := NOTFOUND;
    MergeOne(Abs(n, f.Strings()), no.items, q, fo.Strings());
    KidsAtRoom(no.items, q, fo.Strings());
    SmallerChild(no, q);
    err, n' := ApplyChild(f, target, fo, child, c, n, tail, Child(co, no, q), no.items[q].node, tailo);
    if err != 0 { return; }
    next := NextChild(fo, child, co, no, tailo, q);
  }

  lemma {:induction false} KidsStart(f: Fdt, c: Ctx, n: Node, tail: seq<Tok>, fo: Fdt, co: Ctx, no: Node,
      tailo: seq<Tok>, child: int)
    requires InTree(f, c, n, tail) && InTree(fo, co, no, tailo) && f != fo && f.buf != fo.buf
    requires var q := NextKid(no.items, 0);
      if q == |no.items| then child == NOTFOUND else KidAt(fo, co, no, tailo, q, child)
    ensures f.Blocks() && KidStage(Now(f, c, n), f, c, n, tail, fo, co, no, tailo, NextKid(no.items, 0), child)
  {
    SinceNow(f, c, n, tail);
    SinceNow(fo, co, no, tailo);
    hide NextKid, f.Front, f.Strings, fo.Strings, f.Blocks, fo.Blocks, AbsKids, AbsCtx, MergeKids, KidsRoom, KidsAt,
        KidAt, InTree, Since;
    KidsAtRoom(no.items, NextKid(no.items, 0), fo.Strings());
  }

  lemma {:induction false} KidsEnd(w: Was, f: Fdt, c: Ctx, n: Node, tail: seq<Tok>, fo: Fdt, co: Ctx, no: Node,
      tailo: seq<Tok>, q: nat,
      child: int)
    requires KidStage(w, f, c, n, tail, fo, co, no, tailo, q, child) && child < 0
    ensures f.Blocks() && fo.Blocks() && Since(w, f, c, n, tail)
    ensures Abs(n, f.Strings()) == MergeKids(w.node, AbsKids(no.items, fo.Strings()))
    ensures Fitted(f, w.size, KidsRoom(AbsKids(no.items, fo.Strings())), 0)
  {
    hide f.Strings, fo.Strings, f.Blocks, fo.Blocks, AbsKids, MergeKids, KidsRoom, KidsAt, Since, Abs, InTree;
    KidsAtRoom(no.items, q, fo.Strings());
    MergeNone(Abs(n, f.Strings()));
  }

  method ApplyRestKids(f: Fdt, target: nat, fo: Fdt, first: int, ghost w: Was, ghost c: Ctx, ghost n: Node,
      ghost tail: seq<Tok>, ghost co: Ctx, ghost no: Node, ghost tailo: seq<Tok>, ghost k: nat)
    returns (err: int, ghost n': Node)
    requires k <= |no.items| && KidStage(w, f, c, n, tail, fo, co, no, tailo, k, first) && target == Place(c)
    modifies f`sizeStruct, f`sizeStrings, f`offStrings, f`toks, f.buf
    ensures f.Blocks() && fo.Blocks() && Since(w, f, c, n', tail) && (err == 0 || err == NOSPACE || err == BADLAYOUT)
    ensures err == 0 ==> Abs(n', f.Strings()) == MergeKids(w.node, AbsKids(no.items, fo.Strings()))
    ensures Fitted(f, w.size, KidsRoom(AbsKids(no.items, fo.Strings())), err)
    decreases no, 1
  {
    hide NextKid, AbsKids, MergeKids, KidsRoom, KidStage, Place, Since, Fitted, Abs;
    ghost var q := k;
    var child := first;
    err, n' := 0, n;
    while child >= 0
      invariant err == 0 && q <= |no.items| && KidStage(w, f, c, n', tail, fo, co, no, tailo, q, child)
      decreases |no.items| - q
    {
      err, child, n' := ApplyNextKid(f, target, fo, child, w, c, n', tail, co, no, tailo, q);
      if err != 0 { return; }
      q := NextKid(no.items, q + 1);
    }
    KidsEnd(w, f, c, n', tail, fo, co, no, tailo, q, child);
  }

  method ApplyKids(f: Fdt, target: nat, fo: Fdt, node: nat, ghost c: Ctx, ghost n: Node, ghost tail: seq<Tok>,
      ghost co: Ctx, ghost no: Node, ghost tailo: seq<Tok>)
    returns (err: int, ghost n': Node)
    requires InTree(f, c, n, tail) && target == Place(c) && InTree(fo, co, no, tailo) && node == Place(co) && f != fo
    requires f.buf != fo.buf
    modifies f`sizeStruct, f`sizeStrings, f`offStrings, f`toks, f.buf
    ensures f.Blocks() && fo.Blocks() && Since(old(Now(f, c, n)), f, c, n', tail)
    ensures err == 0 ==> Abs(n', f.Strings()) == MergeKids(old(Abs(n, f.Strings())), AbsKids(no.items, fo.Strings()))
    ensures (err == 0 || err == NOSPACE || err == BADLAYOUT)
    ensures Fitted(f, old(DataSize(f)), KidsRoom(AbsKids(no.items, fo.Strings())), err)
    decreases no, 2
  {
    hide NextKid, f.Front, f.Valid, AbsKids, AbsCtx, MergeKids, KidsRoom, KidStage, Place, Abs, Since, Fitted, Ordered,
        Holds, Pre;
    var child := FirstChild(fo, node, co, no, tailo);
    KidsStart(f, c, n, tail, fo, co, no, tailo, child);
    err, n' := ApplyRestKids(f, target, fo, child, Now(f, c, n), c, n, tail, co, no, tailo, NextKid(no.items, 0));
  }

  lemma {:induction false} SmallerChild(n: Node, q: nat)
    requires q < |n.items| && n.items[q].SubItem?
    ensures n.items[q].node < n
  {
    assert n.items[q] in n.items;
  }
}

/** What the edits of tokens mean for the tree they spell out. */
module FdtRefine {
  import opened Bytes
  import opened FdtTokens
  import opened FdtTree
  import opened FdtSpec
  import opened FdtBlob
  import opened FdtRw

  /** The tokens spell out node n in its place, then rest. */
  ghost predicate Spells(ts: seq<Tok>, pre: seq<Tok>, n: Node, rest: seq<Tok>) {
    ts == pre + Flat(n) + rest
  }

  lemma {:induction false} InsideNode(ts: seq<Tok>, pre: seq<Tok>, n: Node, rest: seq<Tok>)
    requires Spells(ts, pre, n, rest)
    ensures |pre| < |ts| && ts[|pre|] == Begin(n.name, n.pad) && ts[..|pre|] == pre && ts[|pre| + |Flat(n)|..] == rest
    ensures ts[|pre| + 1..] == FlatItems(n.items) + [EndNode] + rest
  {
    var body := FlatItems(n.items) + [EndNode];
    assert Flat(n) == [Begin(n.name, n.pad)] + body;
    assert ts == pre + [Begin(n.name, n.pad)] + (body + rest);
  }

  lemma {:induction false} Rebuilt(pre: seq<Tok>, n: Node, body: seq<Tok>, rest: seq<Tok>)
    requires body == FlatItems(n.items) + [EndNode] + rest
    ensures Spells(pre + [Begin(n.name, n.pad)] + body, pre, n, rest)
  {
    assert pre + [Begin(n.name, n.pad)] + body == pre + ([Begin(n.name, n.pad)] + FlatItems(n.items) + [EndNode]) + rest;
  }

  // ---- setting a property

  lemma {:induction false} FlatUpdate(items: seq<Item>, i: nat, it: Item)
    requires i < |items| && !it.SubItem? && forall j :: 0 <= j <= i ==> !items[j].SubItem?
    ensures i < |FlatItems(items)| && FlatItems(items[i := it]) == FlatItems(items)[i := FlatItem(it)[0]]
  {
    var items' := items[i := it];
    if i == 0 {
      assert items'[1..] == items[1..];
    } else {
      FlatUpdate(items[1..], i - 1, it);
      assert items'[1..] == items[1..][i - 1 := it];
    }
  }

  lemma {:induction false} UpdateAt<T>(a: seq<T>, h: T, b: seq<T>, i: nat, t: T)
    requires i < |b|
    ensures (a + [h] + b)[|a| + 1 + i := t] == a + [h] + b[i := t]
  {
  }

  lemma {:induction false} InsertAt<T>(a: seq<T>, h: T, b: seq<T>, t: T)
    ensures (a + [h] + b)[..|a| + 1] + [t] + (a + [h] + b)[|a| + 1..] == a + [h] + ([t] + b)
  {
    assert (a + [h] + b)[..|a| + 1] == a + [h];
    assert (a + [h] + b)[|a| + 1..] == b;
  }

  lemma {:induction false} BodyUpdate(items: seq<Item>, i: nat, it: Item, rest: seq<Tok>)
    requires i < |items| && !it.SubItem? && forall j :: 0 <= j <= i ==> !items[j].SubItem?
    ensures i < |FlatItems(items) + [EndNode] + rest|
    ensures (FlatItems(items) + [EndNode] + rest)[i := FlatItem(it)[0]] == FlatItems(items[i := it]) + [EndNode] + rest
    ensures [(FlatItems(items) + [EndNode] + rest)[i]] == FlatItem(items[i])
  {
    FlatUpdate(items, i, it);
    SameOffset(items, i);
  }

  lemma {:induction false} BodyCons(it: Item, items: seq<Item>, rest: seq<Tok>)
    ensures FlatItems([it] + items) + [EndNode] + rest == FlatItem(it) + (FlatItems(items) + [EndNode] + rest)
  {
    assert ([it] + items)[1..] == items;
  }

  /** Setting a property in the tokens sets it in the node, and touches nothing around it. */
  lemma {:induction false} PutTree(ts: seq<Tok>, pre: seq<Tok>, n: Node, rest: seq<Tok>, strs: seq<byte>,
      name: seq<byte>, nameoff: nat, val: seq<byte>, pad: seq<byte>)
    requires Spells(ts, pre, n, rest)
    ensures |pre| < |ts|
    ensures Spells(PutToks(ts, strs, |pre|, name, nameoff, val, pad), pre,
      n.(items := PutItems(n.items, strs, name, nameoff, val, pad)), rest)
    ensures PropOf(ts[|pre| + 1..], strs, name) ==
      if PropIndex(n.items, strs, name) < |n.items| then At(PropIndex(n.items, strs, name)) else Err(NOTFOUND)
  {
    hide PropOf, PropIndex, Spells, FlatItems;
    var items, h := n.items, Begin(n.name, n.pad);
    InsideNode(ts, pre, n, rest);
    PropOfItems(items, rest, strs, name);
    var i, items' := PropIndex(items, strs, name), PutItems(items, strs, name, nameoff, val, pad);
    var body := ts[|pre| + 1..];
    assert ts == pre + [h] + body;
    if i < |items| {
      var t := Prop(items[i].nameoff, val, pad);
      BodyUpdate(items, i, items'[i], rest);
      UpdateAt(pre, h, body, i, t);
      Rebuilt(pre, n.(items := items'), body[i := t], rest);
    } else {
      var t := Prop(nameoff, val, pad);
      BodyCons(PropItem(nameoff, val, pad), items, rest);
      InsertAt(pre, h, body, t);
      Rebuilt(pre, n.(items := items'), [t] + body, rest);
    }
  }

  lemma {:induction false} SameOffset(items: seq<Item>, i: nat)
    requires i < |items| && forall j :: 0 <= j <= i ==> !items[j].SubItem?
    ensures i < |FlatItems(items)| && [FlatItems(items)[i]] == FlatItem(items[i])
  {
    FlatShort(items[..i + 1]);
    assert items == items[..i + 1] + items[i + 1..];
    FlatConcat(items[..i + 1], items[i + 1..]);
  }

  // ---- going down and up

  /** The tokens spell out the tree Plug(c, n), then tail. */
  ghost predicate Holds(ts: seq<Tok>, c: Ctx, n: Node, tail: seq<Tok>) {
    Spells(ts, Pre(c), n, Post(c) + tail)
  }

  lemma {:induction false} HoldsTree(ts: seq<Tok>, c: Ctx, n: Node, tail: seq<Tok>)
    ensures Holds(ts, c, n, tail) <==> ts == Flat(Plug(c, n)) + tail
  {
    hide Flat, Pre, Post;
    PlugFlat(c, n);
    assert Pre(c) + Flat(n) + (Post(c) + tail) == Pre(c) + Flat(n) + Post(c) + tail;
  }

  lemma {:induction false} Descend(ts: seq<Tok>, c: Ctx, n: Node, tail: seq<Tok>, before: seq<Item>, m: Node,
      after: seq<Item>)
    requires n.items == before + [SubItem(m)] + after
    ensures Holds(ts, c, n, tail) <==> Holds(ts, In(c, n.name, n.pad, before, after), m, tail)
  {
    hide Flat, Pre, Post, Holds;
    HoldsTree(ts, c, n, tail);
    HoldsTree(ts, In(c, n.name, n.pad, before, after), m, tail);
    PlugIn(c, n, before, m, after);
  }

  lemma {:induction false} PlugIn(c: Ctx, n: Node, before: seq<Item>, m: Node, after: seq<Item>)
    requires n.items == before + [SubItem(m)] + after
    ensures Plug(In(c, n.name, n.pad, before, after), m) == Plug(c, n)
  {
  }

  // ---- adding a child

  lemma {:induction false} SplitAt<T>(ts: seq<T>, a: seq<T>, h: T, b: seq<T>, c: seq<T>)
    requires ts == a + [h] + (b + c)
    ensures ts[..|a| + 1 + |b|] == a + [h] + b && ts[|a| + 1 + |b|..] == c
  {
  }

  /** Behind the leading properties and NOPs of a node: what lies before and after that place. */
  lemma {:induction false} AddPlace(ts: seq<Tok>, c: Ctx, n: Node, tail: seq<Tok>)
    requires Holds(ts, c, n, tail)
    ensures var i, k := |Pre(c)|, LeadingItems(n.items);
      && i < |ts| && Leading(ts[i + 1..]) == k && i + 1 + k <= |ts|
      && ts[..i + 1 + k] == Pre(In(c, n.name, n.pad, n.items[..k], n.items[k..]))
      && ts[i + 1 + k..] == Post(In(c, n.name, n.pad, n.items[..k], n.items[k..])) + tail
  {
    hide FlatItems, Leading, LeadingItems, Spells, Flat, Pre, Post;
    var pre, rest, h, k := Pre(c), Post(c) + tail, Begin(n.name, n.pad), LeadingItems(n.items);
    InsideNode(ts, pre, n, rest);
    LeadingIs(n.items, rest);
    var a, b := n.items[..k], n.items[k..];
    assert n.items == a + b;
    FlatConcat(a, b);
    FlatShort(a);
    Regroup(FlatItems(a), FlatItems(b), [EndNode], Post(c), tail);
    HeadTail(ts, pre, h);
    SplitAt(ts, pre, h, FlatItems(a), FlatItems(b) + [EndNode] + Post(c) + tail);
    InParts(c, n, a, b);
  }

  lemma {:induction false} Regroup<T>(a: seq<T>, b: seq<T>, e: seq<T>, p: seq<T>, t: seq<T>)
    ensures (a + b) + e + (p + t) == a + (b + e + p + t)
  {
  }

  lemma {:induction false} HeadTail<T>(ts: seq<T>, pre: seq<T>, h: T)
    requires |pre| < |ts| && ts[..|pre|] == pre && ts[|pre|] == h
    ensures ts == pre + [h] + ts[|pre| + 1..]
  {
  }

  lemma {:induction false} InParts(c: Ctx, n: Node, before: seq<Item>, after: seq<Item>)
    ensures Pre(In(c, n.name, n.pad, before, after)) == Pre(c) + [Begin(n.name, n.pad)] + FlatItems(before)
    ensures Post(In(c, n.name, n.pad, before, after)) == FlatItems(after) + [EndNode] + Post(c)
  {
  }

  /** The new child lies behind the leading properties, in a context made of the old items. */
  lemma {:induction false} AddTree(ts: seq<Tok>, c: Ctx, n: Node, tail: seq<Tok>, name: seq<byte>)
    requires Holds(ts, c, n, tail)
    ensures var i, k := |Pre(c)|, LeadingItems(n.items);
      && i < |ts| && Leading(ts[i + 1..]) == k && i + 1 + k <= |ts|
      && i + 1 + k == |Pre(In(c, n.name, n.pad, n.items[..k], n.items[k..]))|
      && Holds(ts[..i + 1 + k] + NewNode(name) + ts[i + 1 + k..], In(c, n.name, n.pad, n.items[..k], n.items[k..]), EmptyNode(name), tail)
  {
    hide FlatItems, Leading, LeadingItems, Pre, Post, Flat, NewNode;
    AddPlace(ts, c, n, tail);
    EmptyFlat(name);
  }

  lemma {:induction false} EmptyFlat(name: seq<byte>)
    ensures NewNode(name) == Flat(EmptyNode(name))
  {
  }

  // ---- finding a child

  /** The child found by name, in its own context. */
  lemma {:induction false} SubTree(ts: seq<Tok>, c: Ctx, n: Node, tail: seq<Tok>, name: seq<byte>)
    requires Holds(ts, c, n, tail)
    ensures var i, k := |Pre(c)|, SubIndex(n.items, name);
      && i < |ts|
      && (k == |n.items| ==> SubOf(ts[i + 1..], 0, name) == Err(NOTFOUND))
      && (k < |n.items| ==> (var c' := In(c, n.name, n.pad, n.items[..k], n.items[k + 1..]);
            SubOf(ts[i + 1..], 0, name) == At(|Pre(c')| - i - 1) && Holds(ts, c', n.items[k].node, tail)))
  {
    hide FlatItems, SubOf, SubIndex;
    var pre, rest, k := Pre(c), Post(c) + tail, SubIndex(n.items, name);
    InsideNode(ts, pre, n, rest);
    SubOfItems(n.items, rest, name);
    if k < |n.items| {
      assert n.items == n.items[..k] + [SubItem(n.items[k].node)] + n.items[k + 1..];
      Descend(ts, c, n, tail, n.items[..k], n.items[k].node, n.items[k + 1..]);
    }
  }

  // ---- removing and blanking a child

  /** Where a held node ends. */
  lemma {:induction false} EndTree(ts: seq<Tok>, c: Ctx, n: Node, tail: seq<Tok>)
    requires Holds(ts, c, n, tail)
    ensures var i := |Pre(c)|;
      && i < |ts| && EndOf(ts[i + 1..], 0) == At(|Flat(n)| - 1) && i + |Flat(n)| <= |ts|
      && ts[..i] == Pre(c) && ts[i + |Flat(n)|..] == Post(c) + tail
  {
    hide EndOf, Pre, Post, FlatItems;
    InsideNode(ts, Pre(c), n, Post(c) + tail);
    EndOfNode(n, Post(c) + tail);
    assert (Flat(n) + (Post(c) + tail))[1..] == FlatItems(n.items) + [EndNode] + (Post(c) + tail);
  }

  /** Replacing a child by other items: the tokens around it stay. */
  lemma {:induction false} ReplaceChild(c: Ctx, n: Node, before: seq<Item>, after: seq<Item>, items: seq<Item>,
      tail: seq<Tok>)
    ensures var c' := In(c, n.name, n.pad, before, after);
      Holds(Pre(c') + FlatItems(items) + (Post(c') + tail), c, n.(items := before + items + after), tail)
  {
    hide FlatItems, Pre, Post;
    InParts(c, n, before, after);
    FlatConcat(before + items, after);
    FlatConcat(before, items);
    var a, x, b := FlatItems(before), FlatItems(items), FlatItems(after);
    var m := n.(items := before + items + after);
    assert FlatItems(m.items) + [EndNode] + (Post(c) + tail) == a + x + (b + [EndNode] + Post(c) + tail) by {
      Regroup(a + x, b, [EndNode], Post(c), tail);
    }
    Rebuilt(Pre(c), m, a + x + (b + [EndNode] + Post(c) + tail), Post(c) + tail);
    Around(Pre(c) + [Begin(n.name, n.pad)], a, x, b + [EndNode] + Post(c), tail);
  }

  lemma {:induction false} Around<T>(p: seq<T>, a: seq<T>, x: seq<T>, b: seq<T>, t: seq<T>)
    ensures (p + a) + x + (b + t) == p + (a + x + (b + t))
  {
  }

  /** Deleting a child's tokens cuts it out of its parent. */
  lemma {:induction false} DelTree(ts: seq<Tok>, c: Ctx, n: Node, tail: seq<Tok>, k: nat)
    requires Holds(ts, c, n, tail) && k < |n.items| && n.items[k].SubItem?
    ensures var i := |Pre(In(c, n.name, n.pad, n.items[..k], n.items[k + 1..]))|;
      && i < |ts| && EndOf(ts[i + 1..], 0).At? && i + 1 + EndOf(ts[i + 1..], 0).i <= |ts|
      && Holds(ts[..i] + ts[i + 1 + EndOf(ts[i + 1..], 0).i..], c, n.(items := Cut(n.items, k)), tail)
  {
    hide FlatItems, Pre, Post, Flat, Spells, EndOf;
    var before, m, after := n.items[..k], n.items[k].node, n.items[k + 1..];
    var c' := In(c, n.name, n.pad, before, after);
    assert n.items == before + [SubItem(m)] + after;
    Descend(ts, c, n, tail, before, m, after);
    EndTree(ts, c', m, tail);
    ReplaceChild(c, n, before, after, [], tail);
    NoItems();
    assert before + [] + after == Cut(n.items, k);
    assert Pre(c') + [] + (Post(c') + tail) == Pre(c') + (Post(c') + tail);
  }

  lemma {:induction false} NoItems()
    ensures FlatItems([]) == []
  {
  }

  lemma {:induction false} NopFlat(k: nat)
    ensures FlatItems(Nops(k)) == NopToks(k)
  {
    if k > 0 {
      assert Nops(k)[1..] == Nops(k - 1);
      NopFlat(k - 1);
      assert NopToks(k) == [Nop] + NopToks(k - 1);
    } else {
      assert Nops(k) == [] && NopToks(k) == [];
    }
  }

  /** Blanking a child's tokens replaces it by NOPs. */
  lemma {:induction false} NopTree(ts: seq<Tok>, c: Ctx, n: Node, tail: seq<Tok>, k: nat, w: nat)
    requires Holds(ts, c, n, tail) && k < |n.items| && n.items[k].SubItem?
    ensures var i := |Pre(In(c, n.name, n.pad, n.items[..k], n.items[k + 1..]))|;
      && i < |ts| && EndOf(ts[i + 1..], 0).At? && i + 1 + EndOf(ts[i + 1..], 0).i <= |ts|
      && Holds(ts[..i] + NopToks(w) + ts[i + 1 + EndOf(ts[i + 1..], 0).i..], c, n.(items := NopOut(n.items, k, w)), tail)
  {
    hide FlatItems, Pre, Post, Flat, Spells, EndOf;
    var before, m, after := n.items[..k], n.items[k].node, n.items[k + 1..];
    var c' := In(c, n.name, n.pad, before, after);
    assert n.items == before + [SubItem(m)] + after;
    Descend(ts, c, n, tail, before, m, after);
    EndTree(ts, c', m, tail);
    ReplaceChild(c, n, before, after, Nops(w), tail);
    NopFlat(w);
  }

  /** Blanking or deleting a child: whatever tokens result, a reader sees the same tree. */
  lemma {:induction false} NopLikeDelete(c: Ctx, n: Node, k: nat, w: nat, strs: seq<byte>)
    requires k < |n.items|
    ensures Abs(Plug(c, n.(items := NopOut(n.items, k, w))), strs) == Abs(Plug(c, n.(items := Cut(n.items, k))), strs)
  {
    NopIsCut(n.items, k, w, strs);
    AbsPlug(c, n.(items := NopOut(n.items, k, w)), n.(items := Cut(n.items, k)), strs);
  }

  /** Tokens added for a child and deleted at the offset returned are gone again. */
  lemma {:induction false} AddThenDelete(ts: seq<Tok>, k: nat, name: seq<byte>)
    requires k <= |ts|
    ensures var ts' := ts[..k] + NewNode(name) + ts[k..];
      && |ts'| == |ts| + 2 && EndOf(ts'[k + 1..], 0) == At(1) && ts'[..k] + ts'[k + 1 + 1..] == ts
      && Off(ts', k) == Off(ts, k) && ts'[k].Begin?
  {
    var ts' := ts[..k] + NewNode(name) + ts[k..];
    assert ts'[k + 1..] == [EndNode] + ts[k..];
    assert ts'[..k] == ts[..k] && ts'[k + 2..] == ts[k..];
  }

  /** Adds a child and deletes it at the offset returned: both blocks are then, byte for byte, what they were. */
  method AddAndDelete(f: Fdt, parent: nat, name: seq<byte>, ghost i: nat) returns (offset: int, err: int)
    requires f.Valid() && i < |f.toks| && f.toks[i].Begin? && parent == Off(f.toks, i) && NoNul(name)
    modifies f`sizeStruct, f`offStrings, f`toks, f.buf
    ensures f.Valid() && f.Struct() == old(f.Struct()) && f.Strings() == old(f.Strings()) && f.Front() == old(f.Front())
    ensures f.toks == old(f.toks) && err == if offset >= 0 then 0 else offset
  {
    hide Off, EndOf, SubOf, Leading, Enc, f.Front, f.Strings, NewNode;
    ghost var ts := f.toks;
    ghost var k;
    offset, k := AddSubnode(f, parent, name, i);
    if offset < 0 { return offset, offset; }
    AddThenDelete(ts, k, name);
    err := DelNode(f, offset, k);
  }

  // ---- names and tokens of a held tree

  /** Every node spelled out by a valid blob has its names in the string block. */
  lemma {:induction false} NodeFromToks(n: Node, strs: seq<byte>)
    requires ValidToks(Flat(n)) && NamesOk(Flat(n), strs)
    ensures NodeOk(n, strs)
    decreases n, 1
  {
    var ts := Flat(n);
    assert ValidTok(ts[0]);
    assert forall i :: 0 <= i < |FlatItems(n.items)| ==> FlatItems(n.items)[i] == ts[i + 1];
    ItemsFromToks(n.items, strs);
  }

  lemma {:induction false} ItemsFromToks(items: seq<Item>, strs: seq<byte>)
    requires ValidToks(FlatItems(items)) && NamesOk(FlatItems(items), strs)
    ensures ItemsOk(items, strs)
    decreases items, 0
  {
    if items != [] {
      var a, b := FlatItem(items[0]), FlatItems(items[1..]);
      assert FlatItems(items) == a + b;
      assert forall i :: 0 <= i < |a| ==> a[i] == (a + b)[i];
      assert forall i :: 0 <= i < |b| ==> b[i] == (a + b)[|a| + i];
      ItemFromToks(items[0], strs);
      ItemsFromToks(items[1..], strs);
      forall i | 0 <= i < |items| ensures ItemOk(items[i], strs) {
        if i > 0 { assert items[i] == items[1..][i - 1]; }
      }
    }
  }

  lemma {:induction false} ItemFromToks(it: Item, strs: seq<byte>)
    requires ValidToks(FlatItem(it)) && NamesOk(FlatItem(it), strs)
    ensures ItemOk(it, strs)
    decreases it, 2
  {
    match it
    case NopItem =>
    case PropItem(nameoff, val, pad) => assert ValidTok(FlatItem(it)[0]);
    case SubItem(n) => NodeFromToks(n, strs);
  }
}

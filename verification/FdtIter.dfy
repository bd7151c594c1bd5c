/** Going through the properties and the children of a node one after the other. */
module FdtIter {
  import opened Bytes
  import opened FdtTokens
  import opened FdtTree
  import opened FdtBlob
  import opened FdtRefine
  import opened FdtOps

  // ---- the next sibling, on tokens

  function More(o: Option<nat>, k: nat): Option<nat> {
    if o.Some? then Some(o.value + k) else None
  }

  /** The first node header reached after d closings more than openings, unless the parent closes first. */
  function SibOf(ts: seq<Tok>, d: nat): Option<nat> {
    if ts == [] then None
    else match ts[0]
      case Begin(_, _) => if d == 0 then Some(0) else More(SibOf(ts[1..], d + 1), 1)
      case EndNode => if d == 0 then None else More(SibOf(ts[1..], d - 1), 1)
      case End => None
      case _ => More(SibOf(ts[1..], d), 1)
  }

  lemma {:induction false} FirstSib(ts: seq<Tok>)
    ensures var w := NextNodeOf(ts, 0);
      SibOf(ts, 0) == (if w.AtNode? then Some(w.i) else None) && (w.AtNode? ==> w.depth == 1)
  {
    if ts != [] && (ts[0].Prop? || ts[0].Nop?) { FirstSib(ts[1..]); }
  }

  /** The search going on at the node k tokens ahead, at depth e. */
  ghost function SibFrom(ts: seq<Tok>, k: nat, e: nat): Option<nat>
    requires k < |ts|
  {
    if e == 1 then Some(k) else More(SibOf(ts[k + 1..], e), k + 1)
  }

  lemma {:induction false} SibFromTail(ts: seq<Tok>, k: nat, e: nat)
    requires k + 1 < |ts|
    ensures SibFrom(ts, k + 1, e) == More(SibFrom(ts[1..], k, e), 1)
  {
    assert ts[1..][k + 1..] == ts[k + 2..];
  }

  lemma {:induction false} SibByNodes(ts: seq<Tok>, d: nat)
    requires d > 0
    ensures var w := NextNodeOf(ts, d); SibOf(ts, d) == if w.AtNode? then SibFrom(ts, w.i, w.depth) else None
  {
    hide SibFrom, NextNodeOf, SibOf;
    Unfolded(ts, d);
    if ts != [] && ts[0].Begin? {
      SibAtOnce(ts, d);
    } else if ts != [] && !ts[0].End? {
      var e := if ts[0].EndNode? then d - 1 else d;
      var w := NextNodeOf(ts[1..], e);
      if e == 0 {
        FirstSib(ts[1..]);
        if w.AtNode? { SibDone(ts, w.i + 1); }
      } else {
        SibByNodes(ts[1..], e);
        if w.AtNode? { SibFromTail(ts, w.i, w.depth); }
      }
    }
  }

  lemma {:induction false} Unfolded(ts: seq<Tok>, d: nat)
    requires d > 0
    ensures ts == [] || ts[0].End? ==> NextNodeOf(ts, d).Stop? && SibOf(ts, d) == None
    ensures ts != [] && ts[0].Begin? ==> NextNodeOf(ts, d) == AtNode(0, d + 1)
    ensures ts != [] && ts[0].EndNode? ==>
      NextNodeOf(ts, d) == ShiftWalk(NextNodeOf(ts[1..], d - 1), 1) && SibOf(ts, d) == More(SibOf(ts[1..], d - 1), 1)
    ensures ts != [] && (ts[0].Prop? || ts[0].Nop?) ==>
      NextNodeOf(ts, d) == ShiftWalk(NextNodeOf(ts[1..], d), 1) && SibOf(ts, d) == More(SibOf(ts[1..], d), 1)
  {
  }

  lemma {:induction false} SibAtOnce(ts: seq<Tok>, d: nat)
    requires ts != [] && ts[0].Begin? && d > 0
    ensures SibOf(ts, d) == SibFrom(ts, 0, d + 1)
  {
  }

  lemma {:induction false} SibDone(ts: seq<Tok>, k: nat)
    requires k < |ts|
    ensures SibFrom(ts, k, 1) == Some(k)
  {
  }

  method FirstSubnode(f: Fdt, offset: nat, ghost i: nat) returns (next: int, ghost j: nat)
    requires f.Valid() && i < |f.toks| && offset == Off(f.toks, i) && f.toks[i].Begin?
    ensures match SibOf(f.toks[i + 1..], 0)
            case Some(k) => j == i + 1 + k < |f.toks| && next == Off(f.toks, j) && f.toks[j].Begin?
            case None => next == NOTFOUND
  {
    hide Off, f.Valid, NextNodeOf, SibOf;
    FirstSib(f.toks[i + 1..]);
    var depth;
    next, depth, j := f.NextNode(offset, 0, i);
    if next < 0 || depth != 1 { next := NOTFOUND; }
  }

  method NextSubnode(f: Fdt, offset: nat, ghost i: nat) returns (next: int, ghost j: nat)
    requires f.Valid() && i < |f.toks| && offset == Off(f.toks, i) && f.toks[i].Begin?
    ensures match SibOf(f.toks[i + 1..], 1)
            case Some(k) => j == i + 1 + k < |f.toks| && next == Off(f.toks, j) && f.toks[j].Begin?
            case None => next == NOTFOUND
  {
    hide Off, f.Valid, NextNodeOf, SibOf;
    var depth := 1;
    next, j := offset, i;
    while true
      invariant i <= j < |f.toks| && f.toks[j].Begin? && next == Off(f.toks, j) && depth >= 1
      invariant SibOf(f.toks[i + 1..], 1) == More(SibOf(f.toks[j + 1..], depth), j - i)
      decreases |f.toks| - j
    {
      ghost var was := j;
      SibByNodes(f.toks[j + 1..], depth);
      next, depth, j := f.NextNode(next, depth, j);
      if next < 0 || depth < 1 {
        next := NOTFOUND;
        return;
      }
      if depth <= 1 { return; }
      assert f.toks[was + 1..][j - was - 1 + 1..] == f.toks[j + 1..];
    }
  }

  // ---- and on trees

  lemma {:induction false} SibSkip(items: seq<Item>, rest: seq<Tok>, d: nat)
    requires d > 0
    ensures SibOf(FlatItems(items) + rest, d) == More(SibOf(rest, d), |FlatItems(items)|)
    decreases items, 0
  {
    if items == [] {
      assert FlatItems(items) + rest == rest;
    } else {
      var tail := FlatItems(items[1..]) + rest;
      Assoc(FlatItem(items[0]), FlatItems(items[1..]), rest);
      SibSkip(items[1..], rest, d);
      SibSkipItem(items[0], tail, d);
    }
  }

  lemma {:induction false} SibSkipItem(it: Item, rest: seq<Tok>, d: nat)
    requires d > 0 || !it.SubItem?
    ensures SibOf(FlatItem(it) + rest, d) == More(SibOf(rest, d), |FlatItem(it)|)
    decreases it, 2
  {
    if it.SubItem? {
      SibSkipNode(it.node, rest, d);
    } else {
      assert (FlatItem(it) + rest)[1..] == rest;
    }
  }

  lemma {:induction false} SibSkipNode(n: Node, rest: seq<Tok>, d: nat)
    requires d > 0
    ensures SibOf(Flat(n) + rest, d) == More(SibOf(rest, d), |Flat(n)|)
    decreases n, 1
  {
    var ts, tail := Flat(n) + rest, [EndNode] + rest;
    assert ts[1..] == FlatItems(n.items) + tail;
    SibSkip(n.items, tail, d + 1);
    assert tail[1..] == rest;
  }

  lemma {:induction false} SibItems(items: seq<Item>, rest: seq<Tok>)
    ensures var k := LeadingItems(items);
      SibOf(FlatItems(items) + [EndNode] + rest, 0) == if k < |items| then Some(k) else None
  {
    var tail := [EndNode] + rest;
    Assoc(FlatItems(items), [EndNode], rest);
    if items == [] {
      assert FlatItems(items) + tail == tail;
    } else {
      Assoc(FlatItem(items[0]), FlatItems(items[1..]), tail);
      Assoc(FlatItems(items[1..]), [EndNode], rest);
      if items[0].SubItem? {
        assert (FlatItem(items[0]) + (FlatItems(items[1..]) + tail))[0] == Flat(items[0].node)[0];
      } else {
        SibItems(items[1..], rest);
        SibSkipItem(items[0], FlatItems(items[1..]) + tail, 0);
      }
    }
  }

  /** The next child at or after item k, or the number of items. */
  function NextKid(items: seq<Item>, k: nat): (j: nat)
    requires k <= |items|
    ensures k <= j <= |items| && (j < |items| ==> items[j].SubItem?) && forall i :: k <= i < j ==> !items[i].SubItem?
    decreases |items| - k
  {
    if k < |items| && !items[k].SubItem? then NextKid(items, k + 1) else k
  }

  lemma {:induction false} NextKidIs(items: seq<Item>, k: nat)
    requires k <= |items|
    ensures NextKid(items, k) == k + LeadingItems(items[k..])
    decreases |items| - k
  {
    if k < |items| && !items[k].SubItem? {
      assert items[k..][1..] == items[k + 1..];
      NextKidIs(items, k + 1);
    }
  }

  lemma {:induction false} KidsFrom(items: seq<Item>, k: nat, strs: seq<byte>)
    requires k <= |items|
    ensures var j := NextKid(items, k);
      AbsKids(items[k..], strs) ==
        if j < |items| then [Abs(items[j].node, strs)] + AbsKids(items[j + 1..], strs) else []
    decreases |items| - k
  {
    if k < |items| {
      assert items[k..][1..] == items[k + 1..];
      if !items[k].SubItem? { KidsFrom(items, k + 1, strs); }
    }
  }

  /** The first child of n. */
  lemma {:induction false} FirstKid(ts: seq<Tok>, c: Ctx, n: Node, tail: seq<Tok>)
    requires Holds(ts, c, n, tail)
    ensures var i, k := |Pre(c)|, NextKid(n.items, 0);
      && i < |ts|
      && (k == |n.items| ==> SibOf(ts[i + 1..], 0) == None)
      && (k < |n.items| ==>
           SibOf(ts[i + 1..], 0) == Some(|Pre(Child(c, n, k))| - i - 1) &&
           Holds(ts, Child(c, n, k), n.items[k].node, tail))
  {
    hide FlatItems, SibOf, LeadingItems, NextKid, Flat;
    var rest, k := Post(c) + tail, NextKid(n.items, 0);
    InsideNode(ts, Pre(c), n, rest);
    SibItems(n.items, rest);
    NextKidIs(n.items, 0);
    assert n.items[0..] == n.items;
    if k < |n.items| {
      FlatShort(n.items[..k]);
      Descended(ts, c, n, tail, k);
    }
  }

  lemma {:induction false} Descended(ts: seq<Tok>, c: Ctx, n: Node, tail: seq<Tok>, k: nat)
    requires Holds(ts, c, n, tail) && k < |n.items| && n.items[k].SubItem?
    ensures Holds(ts, Child(c, n, k), n.items[k].node, tail)
  {
    hide Holds;
    assert n.items == n.items[..k] + [SubItem(n.items[k].node)] + n.items[k + 1..];
    Descend(ts, c, n, tail, n.items[..k], n.items[k].node, n.items[k + 1..]);
  }

  /** The child of n after child j. */
  lemma {:induction false} NextKidOf(ts: seq<Tok>, c: Ctx, n: Node, tail: seq<Tok>, j: nat)
    requires Holds(ts, c, n, tail) && j < |n.items| && n.items[j].SubItem?
    ensures var i, k := |Pre(Child(c, n, j))|, NextKid(n.items, j + 1);
      && i < |ts|
      && (k == |n.items| ==> SibOf(ts[i + 1..], 1) == None)
      && (k < |n.items| ==>
           SibOf(ts[i + 1..], 1) == Some(|Pre(Child(c, n, k))| - i - 1) &&
           Holds(ts, Child(c, n, k), n.items[k].node, tail))
  {
    hide FlatItems, SibOf, LeadingItems, NextKid, Flat, Holds;
    var c', m, k := Child(c, n, j), n.items[j].node, NextKid(n.items, j + 1);
    Descended(ts, c, n, tail, j);
    var after := n.items[j + 1..];
    var rest := FlatItems(after) + [EndNode] + (Post(c) + tail);
    InChild(ts, c, n, tail, j, rest);
    SibSkip(m.items, [EndNode] + rest, 1);
    SibClose(rest);
    SibItems(after, Post(c) + tail);
    NextKidIs(n.items, j + 1);
    if k < |n.items| {
      Descended(ts, c, n, tail, k);
      PreNext(c, n, j, k);
    }
  }

  lemma {:induction false} SibClose(rest: seq<Tok>)
    ensures SibOf([EndNode] + rest, 1) == More(SibOf(rest, 0), 1)
  {
    assert ([EndNode] + rest)[1..] == rest;
  }

  lemma {:induction false} InChild(ts: seq<Tok>, c: Ctx, n: Node, tail: seq<Tok>, j: nat, rest: seq<Tok>)
    requires j < |n.items| && n.items[j].SubItem? && Holds(ts, Child(c, n, j), n.items[j].node, tail)
    requires rest == FlatItems(n.items[j + 1..]) + [EndNode] + (Post(c) + tail)
    ensures |Pre(Child(c, n, j))| < |ts|
    ensures ts[|Pre(Child(c, n, j))| + 1..] == FlatItems(n.items[j].node.items) + ([EndNode] + rest)
  {
    hide FlatItems, Flat;
    var c', m := Child(c, n, j), n.items[j].node;
    InsideNode(ts, Pre(c'), m, Post(c') + tail);
    InParts(c, n, n.items[..j], n.items[j + 1..]);
    assert Post(c') + tail == rest;
    Assoc(FlatItems(m.items), [EndNode], rest);
  }

  /** How far apart two children lie that follow one another. */
  lemma {:induction false} PreNext(c: Ctx, n: Node, j: nat, k: nat)
    requires j < k < |n.items| && n.items[j].SubItem? && forall i :: j < i < k ==> !n.items[i].SubItem?
    ensures |Pre(Child(c, n, k))| == |Pre(Child(c, n, j))| + |Flat(n.items[j].node)| + (k - j - 1)
    ensures |Flat(n.items[j].node)| == |FlatItems(n.items[j].node.items)| + 2
  {
    hide FlatItems;
    var between := n.items[j + 1..k];
    InParts(c, n, n.items[..j], n.items[j + 1..]);
    InParts(c, n, n.items[..k], n.items[k + 1..]);
    assert n.items[..k] == n.items[..j] + [n.items[j]] + between;
    FlatConcat(n.items[..j] + [n.items[j]], between);
    FlatConcat(n.items[..j], [n.items[j]]);
    FlatOne(n.items[j]);
    FlatShort(between);
  }

  // ---- properties one by one

  /** The next property at or after item k, or the number of items when a child or the end comes first. */
  function NextPropItem(items: seq<Item>, k: nat): (j: nat)
    requires k <= |items|
    ensures k <= j <= |items| && (j < |items| ==> items[j].PropItem? && forall i :: k <= i < j ==> items[i].NopItem?)
    decreases |items| - k
  {
    if k == |items| || items[k].SubItem? then |items|
    else if items[k].PropItem? then k
    else NextPropItem(items, k + 1)
  }

  lemma {:induction false} PropsFrom(items: seq<Item>, k: nat, strs: seq<byte>)
    requires k <= |items|
    ensures var j := NextPropItem(items, k);
      AbsProps(items[k..], strs) ==
        if j < |items| then [AProp(NameAt(strs, items[j].nameoff), items[j].val)] + AbsProps(items[j + 1..], strs)
        else []
    decreases |items| - k
  {
    if k < |items| {
      assert items[k..][1..] == items[k + 1..];
      if items[k].NopItem? { PropsFrom(items, k + 1, strs); }
    }
  }

  lemma {:induction false} NextPropItems(items: seq<Item>, k: nat, rest: seq<Tok>)
    requires k <= |items|
    ensures var j := NextPropItem(items, k);
      NextPropOf(FlatItems(items[k..]) + [EndNode] + rest) == if j < |items| then At(j - k) else Err(NOTFOUND)
    decreases |items| - k
  {
    var its, tail := items[k..], [EndNode] + rest;
    Assoc(FlatItems(its), [EndNode], rest);
    if its == [] {
      assert FlatItems(its) + tail == tail;
    } else {
      Assoc(FlatItem(its[0]), FlatItems(its[1..]), tail);
      var ts := FlatItem(its[0]) + (FlatItems(its[1..]) + tail);
      assert ts[0] == FlatItem(its[0])[0];
      if its[0].NopItem? {
        assert its[1..] == items[k + 1..];
        Assoc(FlatItems(its[1..]), [EndNode], rest);
        assert ts[1..] == FlatItems(its[1..]) + tail;
        NextPropItems(items, k + 1, rest);
      }
    }
  }

  /** The tokens from item k on, when no child comes before it. */
  lemma {:induction false} ItemsFrom(ts: seq<Tok>, c: Ctx, n: Node, tail: seq<Tok>, k: nat)
    requires Holds(ts, c, n, tail) && k <= |n.items| && forall i :: 0 <= i < k ==> !n.items[i].SubItem?
    ensures |Pre(c)| + 1 + k <= |ts| && ts[|Pre(c)| + 1 + k..] == FlatItems(n.items[k..]) + [EndNode] + (Post(c) + tail)
    ensures k < |n.items| && !n.items[k].SubItem? ==>
      |Pre(c)| + 1 + k < |ts| && [ts[|Pre(c)| + 1 + k]] == FlatItem(n.items[k])
  {
    hide Pre, Post, Flat, FlatItems;
    var i, rest := |Pre(c)| + 1, Post(c) + tail;
    InsideNode(ts, Pre(c), n, rest);
    assert n.items == n.items[..k] + n.items[k..];
    FlatConcat(n.items[..k], n.items[k..]);
    FlatShort(n.items[..k]);
    Regroup(FlatItems(n.items[..k]), FlatItems(n.items[k..]), [EndNode], rest, []);
    assert rest + [] == rest;
    assert ts[i..] == FlatItems(n.items[..k]) + (FlatItems(n.items[k..]) + [EndNode] + rest);
    assert ts[i..][k..] == ts[i + k..];
    if k < |n.items| && !n.items[k].SubItem? { SameOffset(n.items, k); }
  }
}

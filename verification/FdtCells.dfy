/** Where the nodes and the properties of a tree lie among its tokens. */
module FdtCells {
  import opened Bytes
  import opened FdtTokens
  import opened FdtTree
  import opened FdtSpec
  import opened FdtRefine
  import opened FdtOps
  import opened FdtIter
  import opened FdtOverlay
  import opened FdtFixup
  import opened FdtRefs
  import opened FdtPlaces

  /** The token of child i of the node at token q. */
  function KidTok(ts: seq<Tok>, q: nat, i: nat): (r: Option<nat>)
    requires q < |ts|
    ensures r.Some? ==> q < r.value < |ts| && ts[r.value].Begin?
  {
    if i == 0 then FirstSibling(ts, q)
    else
      var p := KidTok(ts, q, i - 1);
      if p.None? then None else NextSib(ts, p.value)
  }

  function NodeTok(ts: seq<Tok>, q: nat, path: seq<nat>): (r: Option<nat>)
    requires q < |ts|
    ensures r.Some? ==> q <= r.value < |ts|
    decreases |path|
  {
    if path == [] then Some(q)
    else
      var k := KidTok(ts, q, path[0]);
      if k.None? then None else NodeTok(ts, k.value, path[1..])
  }

  /** The token of the next property behind token p. */
  function PropBehind(ts: seq<Tok>, p: nat): (r: Option<nat>)
    requires p < |ts|
    ensures r.Some? ==> p < r.value < |ts| && ts[r.value].Prop?
  {
    var f := NextPropOf(ts[p + 1..]);
    if f.At? then Some(p + 1 + f.i) else None
  }

  /** The token of property x of the node at token q. */
  function PropTok(ts: seq<Tok>, q: nat, x: nat): (r: Option<nat>)
    requires q < |ts|
    ensures r.Some? ==> q < r.value < |ts| && ts[r.value].Prop?
  {
    if x == 0 then PropBehind(ts, q)
    else
      var p := PropTok(ts, q, x - 1);
      if p.None? then None else PropBehind(ts, p.value)
  }

  /** The token of a property of the node at a path below token q. */
  function ValueTok(ts: seq<Tok>, q: nat, path: seq<nat>, x: nat): (r: Option<nat>)
    requires q < |ts|
    ensures r.Some? ==> q < r.value < |ts| && ts[r.value].Prop?
  {
    var t := NodeTok(ts, q, path);
    if t.None? then None else PropTok(ts, t.value, x)
  }

  lemma {:induction false} TokBelow(ts: seq<Tok>, q: nat, i: nat, path: seq<nat>, x: nat)
    requires q < |ts|
    ensures var k := KidTok(ts, q, i);
      && NodeTok(ts, q, [i] + path) == (if k.None? then None else NodeTok(ts, k.value, path))
      && ValueTok(ts, q, [i] + path, x) == (if k.None? then None else ValueTok(ts, k.value, path, x))
  {
    hide KidTok, PropTok;
    assert ([i] + path)[1..] == path;
  }

  // ---- they depend on the shape only

  lemma {:induction false} KidTokSkel(a: seq<Tok>, b: seq<Tok>, q: nat, i: nat)
    requires SameSkel(a, b) && q < |a|
    ensures |b| == |a| && KidTok(a, q, i) == KidTok(b, q, i)
  {
    hide FirstSibling, NextSib, SameSkel;
    if i == 0 {
      SiblingSkel(a, b, q);
    } else {
      KidTokSkel(a, b, q, i - 1);
      var p := KidTok(a, q, i - 1);
      if p.Some? { SiblingSkel(a, b, p.value); }
    }
  }

  lemma {:induction false} PropBehindSkel(a: seq<Tok>, b: seq<Tok>, p: nat)
    requires SameSkel(a, b) && p < |a|
    ensures |b| == |a| && PropBehind(a, p) == PropBehind(b, p)
  {
    hide NextPropOf, PropOf;
    SkelFrom(a, b, p + 1);
    SkelProp(a[p + 1..], b[p + 1..], [], []);
  }

  lemma {:induction false} PropTokSkel(a: seq<Tok>, b: seq<Tok>, q: nat, x: nat)
    requires SameSkel(a, b) && q < |a|
    ensures |b| == |a| && PropTok(a, q, x) == PropTok(b, q, x)
  {
    hide PropBehind, SameSkel;
    if x == 0 {
      PropBehindSkel(a, b, q);
    } else {
      PropTokSkel(a, b, q, x - 1);
      var p := PropTok(a, q, x - 1);
      if p.Some? { PropBehindSkel(a, b, p.value); }
    }
  }

  lemma {:induction false} NodeTokSkel(a: seq<Tok>, b: seq<Tok>, q: nat, path: seq<nat>)
    requires SameSkel(a, b) && q < |a|
    ensures |b| == |a| && NodeTok(a, q, path) == NodeTok(b, q, path)
    decreases |path|
  {
    hide KidTok, SameSkel;
    SkelLen(a, b);
    if path != [] {
      KidTokSkel(a, b, q, path[0]);
      var k := KidTok(a, q, path[0]);
      if k.Some? { NodeTokSkel(a, b, k.value, path[1..]); }
    }
  }

  lemma {:induction false} ValueTokSkel(a: seq<Tok>, b: seq<Tok>, q: nat, path: seq<nat>, x: nat)
    requires SameSkel(a, b) && q < |a|
    ensures |b| == |a| && ValueTok(a, q, path, x) == ValueTok(b, q, path, x)
  {
    hide NodeTok, PropTok, SameSkel;
    NodeTokSkel(a, b, q, path);
    var t := NodeTok(a, q, path);
    if t.Some? { PropTokSkel(a, b, t.value, x); }
  }

  // ---- children

  /** No children between item k and the next one. */
  lemma {:induction false} NextCount(n: Node, k: nat, strs: seq<byte>)
    requires k <= |n.items|
    ensures |AbsKids(n.items[..NextKid(n.items, k)], strs)| == |AbsKids(n.items[..k], strs)|
    decreases |n.items| - k
  {
    hide AbsKids;
    if k < |n.items| && !n.items[k].SubItem? {
      NotChildSeen(n, k, strs);
      NextCount(n, k + 1, strs);
    }
  }

  /** Item k of n is the node that lies at token t, child number i. */
  ghost predicate KidHere(ts: seq<Tok>, c: Ctx, n: Node, tail: seq<Tok>, strs: seq<byte>, i: nat, k: nat, t: nat) {
    k < |n.items| && n.items[k].SubItem? && |AbsKids(n.items[..k], strs)| == i < |Abs(n, strs).kids| &&
    Abs(n, strs).kids[i] == Abs(n.items[k].node, strs) &&
    t == |Pre(Child(c, n, k))| && Holds(ts, Child(c, n, k), n.items[k].node, tail)
  }

  lemma {:induction false} NextHere(ts: seq<Tok>, c: Ctx, n: Node, tail: seq<Tok>, strs: seq<byte>, k: nat, t: nat)
    requires k <= |n.items| && Holds(ts, c, n, tail)
    requires var j := NextKid(n.items, k); j < |n.items| ==> t == |Pre(Child(c, n, j))|
    ensures var i, j := |AbsKids(n.items[..k], strs)|, NextKid(n.items, k);
      if j < |n.items| then i < |Abs(n, strs).kids| && KidHere(ts, c, n, tail, strs, i, j, t)
      else i == |Abs(n, strs).kids|
  {
    hide AbsKids, AbsProps, Holds, Pre, NextKid;
    var j := NextKid(n.items, k);
    NextCount(n, k, strs);
    AbsParts(n, strs);
    if j < |n.items| {
      ChildSeen(c, n, j, strs);
      Descended(ts, c, n, tail, j);
    } else {
      assert n.items[..j] == n.items;
    }
  }

  /** The child behind item j, and where the scan finds it. */
  lemma {:induction false} KidBehind(ts: seq<Tok>, c: Ctx, n: Node, tail: seq<Tok>, strs: seq<byte>, j: nat)
    requires Holds(ts, c, n, tail) && j < |n.items| && n.items[j].SubItem?
    ensures |Pre(Child(c, n, j))| < |ts|
    ensures var i, k, r := |AbsKids(n.items[..j + 1], strs)|, NextKid(n.items, j + 1), NextSib(ts,
      |Pre(Child(c, n, j))|);
      if k < |n.items| then i < |Abs(n, strs).kids| && r.Some? && KidHere(ts, c, n, tail, strs, i, k, r.value)
      else i == |Abs(n, strs).kids| && r.None?
  {
    hide SibOf, NextKid, Pre, Holds, Abs, AbsKids, KidHere;
    NextKidOf(ts, c, n, tail, j);
    var k := NextKid(n.items, j + 1);
    NextHere(ts, c, n, tail, strs, j + 1, if k < |n.items| then |Pre(Child(c, n, k))| else 0);
  }

  lemma {:induction false} KidAhead(ts: seq<Tok>, c: Ctx, n: Node, tail: seq<Tok>, strs: seq<byte>)
    requires Holds(ts, c, n, tail)
    ensures |Pre(c)| < |ts|
    ensures var k, r := NextKid(n.items, 0), FirstSibling(ts, |Pre(c)|);
      if k < |n.items| then 0 < |Abs(n, strs).kids| && r.Some? && KidHere(ts, c, n, tail, strs, 0, k, r.value)
      else Abs(n, strs).kids == [] && r.None?
  {
    hide SibOf, NextKid, Pre, Holds, Abs, AbsKids, KidHere;
    FirstKid(ts, c, n, tail);
    var k := NextKid(n.items, 0);
    assert n.items[..0] == [];
    NoKids(strs);
    NextHere(ts, c, n, tail, strs, 0, if k < |n.items| then |Pre(Child(c, n, k))| else 0);
  }

  lemma {:induction false} KidTokIs(ts: seq<Tok>, c: Ctx, n: Node, tail: seq<Tok>, strs: seq<byte>, i: nat)
      returns (k: nat)
    requires Holds(ts, c, n, tail)
    ensures |Pre(c)| < |ts|
    ensures var r := KidTok(ts, |Pre(c)|, i);
      if i < |Abs(n, strs).kids| then r.Some? && KidHere(ts, c, n, tail, strs, i, k, r.value) else r.None?
  {
    hide FirstSibling, NextSib, NextKid, Pre, Holds, Abs, AbsKids, KidHere;
    KidAhead(ts, c, n, tail, strs);
    if i == 0 {
      k := NextKid(n.items, 0);
    } else {
      k := KidTokIs(ts, c, n, tail, strs, i - 1);
      if i - 1 < |Abs(n, strs).kids| {
        KidParts(ts, c, n, tail, strs, i - 1, k, KidTok(ts, |Pre(c)|, i - 1).value);
        KidBehind(ts, c, n, tail, strs, k);
        k := NextKid(n.items, k + 1);
      }
    }
  }

  lemma {:induction false} KidParts(ts: seq<Tok>, c: Ctx, n: Node, tail: seq<Tok>, strs: seq<byte>, i: nat, k: nat,
      t: nat)
    requires KidHere(ts, c, n, tail, strs, i, k, t)
    ensures k < |n.items| && n.items[k].SubItem? && |AbsKids(n.items[..k], strs)| == i < |Abs(n, strs).kids|
    ensures |AbsKids(n.items[..k + 1], strs)| == i + 1
    ensures t == |Pre(Child(c, n, k))| && Holds(ts, Child(c, n, k), n.items[k].node, tail)
    ensures Abs(n, strs).kids[i] == Abs(n.items[k].node, strs) && n.items[k].node.name == Abs(n, strs).kids[i].name
  {
    hide AbsKids, Holds, Pre;
    ChildSeen(c, n, k, strs);
  }

  /** The child that a stored item is. */
  lemma {:induction false} ItemTok(ts: seq<Tok>, c: Ctx, n: Node, tail: seq<Tok>, strs: seq<byte>, k: nat)
    requires Holds(ts, c, n, tail) && k < |n.items| && n.items[k].SubItem?
    ensures var i := |AbsKids(n.items[..k], strs)|;
      && |Pre(c)| < |ts| && i < |Abs(n, strs).kids| && KidTok(ts, |Pre(c)|, i) == Some(|Pre(Child(c, n, k))|)
      && KidHere(ts, c, n, tail, strs, i, k, |Pre(Child(c, n, k))|)
  {
    hide KidTok, Holds, Abs, AbsKids, Pre, KidHere;
    ChildSeen(c, n, k, strs);
    var i := |AbsKids(n.items[..k], strs)|;
    var m := KidTokIs(ts, c, n, tail, strs, i);
    KidParts(ts, c, n, tail, strs, i, m, KidTok(ts, |Pre(c)|, i).value);
    if k < m { CountGrows(n, k, m, strs); }
    if m < k { CountGrows(n, m, k, strs); }
  }

  /** Looking a child up by name finds the first that answers. */
  lemma {:induction false} SubTok(ts: seq<Tok>, c: Ctx, n: Node, tail: seq<Tok>, strs: seq<byte>, name: seq<byte>)
      returns (k: nat)
    requires Holds(ts, c, n, tail)
    ensures |Pre(c)| < |ts|
    ensures var i, r := KidIndex(Abs(n, strs).kids, name), SubOf(ts[|Pre(c)| + 1..], 0, name);
      if i < |Abs(n, strs).kids| then
        r.At? && KidTok(ts, |Pre(c)|, i) == Some(|Pre(c)| + 1 + r.i) &&
        KidHere(ts, c, n, tail, strs, i, k, |Pre(c)| + 1 + r.i)
      else r == Err(NOTFOUND)
  {
    hide KidTok, Abs, AbsKids, KidHere, FlatItems, Flat, SubOf, SubIndex, KidIndex;
    k := SubIndex(n.items, name);
    InsideNode(ts, Pre(c), n, Post(c) + tail);
    SubOfItems(n.items, Post(c) + tail, name);
    KidIs(n.items, name, strs);
    AbsParts(n, strs);
    if k < |n.items| {
      ItemTok(ts, c, n, tail, strs, k);
      InParts(c, n, n.items[..k], n.items[k + 1..]);
    }
  }

  // ---- properties

  lemma {:induction false} PropsUpTo(items: seq<Item>, k: nat, strs: seq<byte>)
    requires k < |items| && forall j :: 0 <= j <= k ==> !items[j].SubItem?
    ensures var x := |AbsProps(items[..k], strs)|;
      && |AbsProps(items[..k + 1], strs)| == x + (if items[k].PropItem? then 1 else 0)
      && (items[k].PropItem? ==>
           x < |AbsProps(items, strs)| &&
           AbsProps(items, strs)[x] == AProp(NameAt(strs, items[k].nameoff), items[k].val))
      && (items[k].NopItem? ==> AbsProps(items[..k + 1], strs) == AbsProps(items[..k], strs))
  {
    hide NameAt;
    var a, b := items[..k], items[k..];
    assert items == a + b && items[..k + 1] == a + [items[k]] && b[0] == items[k] && [items[k]][1..] == [];
    PropsConcat(a, b, strs);
    PropsConcat(a, [items[k]], strs);
  }

  /** Item k of n is the property that lies at token t, number x. */
  ghost predicate PropHere(ts: seq<Tok>, c: Ctx, n: Node, strs: seq<byte>, x: nat, k: nat, t: nat) {
    k < |n.items| && n.items[k].PropItem? && (forall j :: 0 <= j <= k ==> !n.items[j].SubItem?) &&
    |AbsProps(n.items[..k], strs)| == x < |AbsProps(n.items, strs)| && t == |Pre(c)| + 1 + k < |ts| && ts[t].Prop? &&
    AbsProps(n.items, strs)[x] == AProp(NameAt(strs, ts[t].nameoff), ts[t].val)
  }

  lemma {:induction false} ItemHere(ts: seq<Tok>, c: Ctx, n: Node, tail: seq<Tok>, strs: seq<byte>, k: nat)
    requires Holds(ts, c, n, tail) && k < |n.items| && n.items[k].PropItem?
    requires forall j :: 0 <= j <= k ==> !n.items[j].SubItem?
    ensures PropHere(ts, c, n, strs, |AbsProps(n.items[..k], strs)|, k, |Pre(c)| + 1 + k)
  {
    hide AbsProps, NameAt, Holds, Pre;
    ItemsFrom(ts, c, n, tail, k);
    PropsUpTo(n.items, k, strs);
    assert [ts[|Pre(c)| + 1 + k]] == [Prop(n.items[k].nameoff, n.items[k].val, n.items[k].pad)];
  }

  /** From item k on, with x properties before it, the next property or none. */
  lemma {:induction false} NextPropHere(ts: seq<Tok>, c: Ctx, n: Node, tail: seq<Tok>, strs: seq<byte>, k: nat)
    requires Holds(ts, c, n, tail) && k <= |n.items| && forall j :: 0 <= j < k ==> !n.items[j].SubItem?
    ensures |Pre(c)| + k < |ts|
    ensures var x, j, r := |AbsProps(n.items[..k], strs)|, NextPropItem(n.items, k), PropBehind(ts, |Pre(c)| + k);
      if j < |n.items| then
        x < |AbsProps(n.items, strs)| && r == Some(|Pre(c)| + 1 + j) && PropHere(ts, c, n, strs, x, j, |Pre(c)| + 1 + j)
      else r == None && x == |AbsProps(n.items, strs)|
  {
    hide AbsProps, NextPropItem, PropBehind, Holds, PropHere, Pre;
    ScanProp(ts, c, n, tail, k);
    CountProp(n.items, k, strs);
    var j := NextPropItem(n.items, k);
    if j < |n.items| {
      ItemHere(ts, c, n, tail, strs, j);
      PropParts(ts, c, n, strs, |AbsProps(n.items[..j], strs)|, j, |Pre(c)| + 1 + j);
    }
  }

  lemma {:induction false} ScanProp(ts: seq<Tok>, c: Ctx, n: Node, tail: seq<Tok>, k: nat)
    requires Holds(ts, c, n, tail) && k <= |n.items| && forall j :: 0 <= j < k ==> !n.items[j].SubItem?
    ensures |Pre(c)| + k < |ts|
    ensures var j := NextPropItem(n.items, k);
      PropBehind(ts, |Pre(c)| + k) == if j < |n.items| then Some(|Pre(c)| + 1 + j) else None
  {
    hide NextPropItem, NextPropOf, Holds, Pre, Post, FlatItems, FlatItem;
    ItemsFrom(ts, c, n, tail, k);
    NextPropItems(n.items, k, Post(c) + tail);
  }

  lemma {:induction false} CountProp(items: seq<Item>, k: nat, strs: seq<byte>)
    requires k <= |items| && forall j :: 0 <= j < k ==> !items[j].SubItem?
    ensures var x, j := |AbsProps(items[..k], strs)|, NextPropItem(items, k);
      if j < |items| then |AbsProps(items[..j], strs)| == x && forall i :: 0 <= i <= j ==> !items[i].SubItem?
      else x == |AbsProps(items, strs)|
  {
    hide AbsProps, NextPropItem, NameAt;
    var j := NextPropItem(items, k);
    if j < |items| {
      NopsBetween(items, k, j, strs);
    } else {
      PropsFrom(items, k, strs);
      assert items == items[..k] + items[k..];
      PropsConcat(items[..k], items[k..], strs);
    }
  }

  lemma {:induction false} NopsBetween(items: seq<Item>, k: nat, j: nat, strs: seq<byte>)
    requires k <= j <= |items| && (forall i :: 0 <= i < k ==> !items[i].SubItem?) && forall i :: k <= i < j ==>
      items[i].NopItem?
    ensures AbsProps(items[..j], strs) == AbsProps(items[..k], strs)
    decreases j - k
  {
    hide AbsProps;
    if k < j {
      PropsUpTo(items, k, strs);
      NopsBetween(items, k + 1, j, strs);
    }
  }

  lemma {:induction false} PropTokIs(ts: seq<Tok>, c: Ctx, n: Node, tail: seq<Tok>, strs: seq<byte>, x: nat)
      returns (k: nat)
    requires Holds(ts, c, n, tail)
    ensures |Pre(c)| < |ts|
    ensures var r := PropTok(ts, |Pre(c)|, x);
      if x < |AbsProps(n.items, strs)| then r.Some? && PropHere(ts, c, n, strs, x, k, r.value) else r.None?
  {
    hide AbsProps, NextPropItem, PropBehind, Holds, Pre, PropHere;
    if x == 0 {
      NextPropHere(ts, c, n, tail, strs, 0);
      assert n.items[..0] == [];
      NoProps(strs);
      k := NextPropItem(n.items, 0);
    } else {
      k := PropTokIs(ts, c, n, tail, strs, x - 1);
      if x - 1 < |AbsProps(n.items, strs)| {
        PropParts(ts, c, n, strs, x - 1, k, PropTok(ts, |Pre(c)|, x - 1).value);
        NextPropHere(ts, c, n, tail, strs, k + 1);
        k := NextPropItem(n.items, k + 1);
      }
    }
  }

  lemma {:induction false} PropParts(ts: seq<Tok>, c: Ctx, n: Node, strs: seq<byte>, x: nat, k: nat, t: nat)
    requires PropHere(ts, c, n, strs, x, k, t)
    ensures k < |n.items| && n.items[k].PropItem? && (forall j :: 0 <= j <= k ==> !n.items[j].SubItem?)
    ensures |AbsProps(n.items[..k], strs)| == x < |AbsProps(n.items, strs)|
    ensures |AbsProps(n.items[..k + 1], strs)| == x + 1
    ensures t == |Pre(c)| + 1 + k < |ts| && ts[t].Prop?
    ensures AbsProps(n.items, strs)[x] == AProp(NameAt(strs, ts[t].nameoff), ts[t].val)
  {
    hide AbsProps, NameAt, Pre;
    PropsUpTo(n.items, k, strs);
  }

  /** The property that a stored item is. */
  lemma {:induction false} PropItemTok(ts: seq<Tok>, c: Ctx, n: Node, tail: seq<Tok>, strs: seq<byte>, k: nat)
    requires Holds(ts, c, n, tail) && k < |n.items| && n.items[k].PropItem?
    requires forall j :: 0 <= j <= k ==> !n.items[j].SubItem?
    ensures var x := |AbsProps(n.items[..k], strs)|;
      && |Pre(c)| < |ts| && PropTok(ts, |Pre(c)|, x) == Some(|Pre(c)| + 1 + k)
      && PropHere(ts, c, n, strs, x, k, |Pre(c)| + 1 + k)
  {
    hide AbsProps, PropTok, Holds, Pre, PropHere;
    ItemHere(ts, c, n, tail, strs, k);
    var x := |AbsProps(n.items[..k], strs)|;
    PropParts(ts, c, n, strs, x, k, |Pre(c)| + 1 + k);
    var m := PropTokIs(ts, c, n, tail, strs, x);
    PropParts(ts, c, n, strs, x, m, PropTok(ts, |Pre(c)|, x).value);
    if k < m { PropsGrow(n.items, k, m, strs); }
    if m < k { PropsGrow(n.items, m, k, strs); }
  }

  lemma {:induction false} PropsGrow(items: seq<Item>, k: nat, m: nat, strs: seq<byte>)
    requires k < m <= |items| && items[k].PropItem? && forall j :: 0 <= j < m ==> !items[j].SubItem?
    ensures |AbsProps(items[..k], strs)| < |AbsProps(items[..m], strs)|
    decreases m
  {
    hide AbsProps;
    PropsUpTo(items, m - 1, strs);
    if k < m - 1 { PropsGrow(items, k, m - 1, strs); }
  }

  /** Looking a property up by name finds the first so called. */
  lemma {:induction false} NamedTok(ts: seq<Tok>, c: Ctx, n: Node, tail: seq<Tok>, strs: seq<byte>, name: seq<byte>)
      returns (k: nat)
    requires Holds(ts, c, n, tail)
    ensures |Pre(c)| < |ts|
    ensures var x, r := FirstCalled(AbsProps(n.items, strs), name), PropOf(ts[|Pre(c)| + 1..], strs, name);
      if x < |AbsProps(n.items, strs)| then
        r.At? && PropTok(ts, |Pre(c)|, x) == Some(|Pre(c)| + 1 + r.i) &&
        PropHere(ts, c, n, strs, x, k, |Pre(c)| + 1 + r.i)
      else r == Err(NOTFOUND)
  {
    hide AbsProps, PropTok, PropHere, FlatItems, Flat, PropOf, PropIndex, FirstCalled;
    k := PropIndex(n.items, strs, name);
    InsideNode(ts, Pre(c), n, Post(c) + tail);
    PropOfItems(n.items, Post(c) + tail, strs, name);
    FirstIs(n.items, strs, name);
    if k < |n.items| { PropItemTok(ts, c, n, tail, strs, k); }
  }

  lemma {:induction false} FirstIs(items: seq<Item>, strs: seq<byte>, name: seq<byte>)
    ensures var k, x := PropIndex(items, strs, name), FirstCalled(AbsProps(items, strs), name);
      if k < |items| then x == |AbsProps(items[..k], strs)| < |AbsProps(items, strs)| else x == |AbsProps(items, strs)|
  {
    hide NameAt;
    if items != [] && !items[0].SubItem? {
      FirstIs(items[1..], strs, name);
      var k, props := PropIndex(items, strs, name), AbsProps(items, strs);
      if items[0].PropItem? { assert props[1..] == AbsProps(items[1..], strs); }
      if 0 < k < |items| {
        assert items[..k][0] == items[0] && items[..k][1..] == items[1..][..k - 1];
      } else {
        assert items[..0] == [];
      }
    }
  }

  lemma {:induction false} NoProps(strs: seq<byte>)
    ensures AbsProps([], strs) == []
  {
  }

  // ---- nodes and properties at a path

  /** The tokens of a node lie among those of the node at c. */
  ghost predicate Within(c: Ctx, n: Node, c': Ctx, n': Node) {
    |Pre(c)| <= |Pre(c')| && |Pre(c')| + |Flat(n')| <= |Pre(c)| + |Flat(n)|
  }

  lemma {:induction false} ChildWithin(c: Ctx, n: Node, k: nat)
    requires k < |n.items| && n.items[k].SubItem?
    ensures Within(c, n, Child(c, n, k), n.items[k].node) && |Pre(c)| + k < |Pre(Child(c, n, k))|
  {
    hide FlatItems;
    InParts(c, n, n.items[..k], n.items[k + 1..]);
    var a, b := n.items[..k] + [n.items[k]], n.items[k + 1..];
    assert n.items == a + b;
    FlatConcat(a, b);
    FlatConcat(n.items[..k], [n.items[k]]);
    FlatOne(n.items[k]);
    FlatLong(n.items[..k]);
  }

  lemma {:induction false} FlatLong(items: seq<Item>)
    ensures |FlatItems(items)| >= |items|
  {
    if items != [] { FlatLong(items[1..]); }
  }

  lemma {:induction false} ChildrenApart(c: Ctx, n: Node, j: nat, k: nat)
    requires j < k < |n.items| && n.items[j].SubItem? && n.items[k].SubItem?
    ensures |Pre(Child(c, n, j))| + |Flat(n.items[j].node)| <= |Pre(Child(c, n, k))|
  {
    hide FlatItems;
    InParts(c, n, n.items[..j], n.items[j + 1..]);
    InParts(c, n, n.items[..k], n.items[k + 1..]);
    var a, b := n.items[..j] + [n.items[j]], n.items[j + 1..k];
    assert n.items[..k] == a + b;
    FlatConcat(a, b);
    FlatConcat(n.items[..j], [n.items[j]]);
    FlatOne(n.items[j]);
  }

  lemma {:induction false} NodeTokIs(ts: seq<Tok>, c: Ctx, n: Node, tail: seq<Tok>, strs: seq<byte>, path: seq<nat>)
      returns (c': Ctx, n': Node)
    requires Holds(ts, c, n, tail)
    ensures |Pre(c)| < |ts|
    ensures var r, a := NodeTok(ts, |Pre(c)|, path), NodeAt(Abs(n, strs), path);
      if a.Some? then r == Some(|Pre(c')|) && Abs(n', strs) == a.value && Holds(ts, c', n', tail) && Within(c, n, c', n')
      else r.None?
    decreases |path|
  {
    hide KidTok, Holds, Abs, Pre, KidHere, Flat;
    c', n' := c, n;
    var k := KidTokIs(ts, c, n, tail, strs, if path == [] then 0 else path[0]);
    if path != [] && path[0] < |Abs(n, strs).kids| {
      KidParts(ts, c, n, tail, strs, path[0], k, KidTok(ts, |Pre(c)|, path[0]).value);
      c', n' := NodeTokIs(ts, Child(c, n, k), n.items[k].node, tail, strs, path[1..]);
      ChildWithin(c, n, k);
    }
  }

  /** Property x of the node at path lies at its token. */
  lemma {:induction false} ValueTokIs(ts: seq<Tok>, c: Ctx, n: Node, tail: seq<Tok>, strs: seq<byte>, path: seq<nat>,
      x: nat)
    requires Holds(ts, c, n, tail)
    ensures |Pre(c)| < |ts|
    ensures var r, a := ValueTok(ts, |Pre(c)|, path, x), NodeAt(Abs(n, strs), path);
      && (r.Some? <==> a.Some? && x < |a.value.props|)
      && (r.Some? ==>
           a.value.props[x] == AProp(NameAt(strs, ts[r.value].nameoff), ts[r.value].val) &&
           r.value < |Pre(c)| + |Flat(n)|)
  {
    hide NodeTok, PropTok, Holds, AbsProps, AbsKids, Pre, PropHere, NameAt;
    var c', n' := NodeTokIs(ts, c, n, tail, strs, path);
    if NodeAt(Abs(n, strs), path).Some? {
      AbsParts(n', strs);
      var k := PropTokIs(ts, c', n', tail, strs, x);
      if x < |AbsProps(n'.items, strs)| {
        PropParts(ts, c', n', strs, x, k, PropTok(ts, |Pre(c')|, x).value);
        FlatLong(n'.items);
      }
    }
  }

  lemma {:induction false} PropTokGrows(ts: seq<Tok>, q: nat, x: nat, y: nat)
    requires q < |ts| && x < y && PropTok(ts, q, y).Some?
    ensures PropTok(ts, q, x).Some? && PropTok(ts, q, x).value < PropTok(ts, q, y).value
    decreases y
  {
    hide PropBehind;
    if x < y - 1 { PropTokGrows(ts, q, x, y - 1); }
  }

  /** Different properties lie at different tokens. */
  lemma {:induction false} ValuesApart(ts: seq<Tok>, c: Ctx, n: Node, tail: seq<Tok>, strs: seq<byte>, p: seq<nat>,
      x: nat, q: seq<nat>, y: nat)
    requires Holds(ts, c, n, tail) && |Pre(c)| < |ts| && ValueTok(ts, |Pre(c)|, p, x).Some?
    requires ValueTok(ts, |Pre(c)|, p, x) == ValueTok(ts, |Pre(c)|, q, y)
    ensures p == q && x == y
    decreases |p| + |q|
  {
    hide KidTok, PropTok, Holds, Pre, Flat, Abs, KidHere;
    if p == [] && q == [] {
      if x < y { PropTokGrows(ts, |Pre(c)|, x, y); }
      if y < x { PropTokGrows(ts, |Pre(c)|, y, x); }
    } else if p == [] {
      OwnBefore(ts, c, n, tail, strs, x, q, y);
    } else if q == [] {
      OwnBefore(ts, c, n, tail, strs, y, p, x);
    } else {
      var j := BelowKid(ts, c, n, tail, strs, p, x);
      var k := BelowKid(ts, c, n, tail, strs, q, y);
      if j < k { ChildrenApart(c, n, j, k); }
      if k < j { ChildrenApart(c, n, k, j); }
      ValuesApart(ts, Child(c, n, k), n.items[k].node, tail, strs, p[1..], x, q[1..], y);
      assert p == [p[0]] + p[1..] && q == [q[0]] + q[1..];
    }
  }

  /** A property below child p[0] lies among that child's tokens. */
  lemma {:induction false} BelowKid(ts: seq<Tok>, c: Ctx, n: Node, tail: seq<Tok>, strs: seq<byte>, p: seq<nat>, x: nat)
      returns (k: nat)
    requires Holds(ts, c, n, tail) && |Pre(c)| < |ts| && p != [] && ValueTok(ts, |Pre(c)|, p, x).Some?
    ensures k < |n.items| && n.items[k].SubItem? && |AbsKids(n.items[..k], strs)| == p[0]
    ensures var c', n', r := Child(c, n, k), n.items[k].node, ValueTok(ts, |Pre(c)|, p, x);
      && Holds(ts, c', n', tail) && |Pre(c')| < |ts| && ValueTok(ts, |Pre(c')|, p[1..], x) == r
      && |Pre(c')| < r.value < |Pre(c')| + |Flat(n')|
  {
    hide KidTok, PropTok, Holds, Pre, Flat, Abs, KidHere;
    k := KidTokIs(ts, c, n, tail, strs, p[0]);
    KidParts(ts, c, n, tail, strs, p[0], k, KidTok(ts, |Pre(c)|, p[0]).value);
    assert p == [p[0]] + p[1..];
    TokBelow(ts, |Pre(c)|, p[0], p[1..], x);
    ValueTokIs(ts, Child(c, n, k), n.items[k].node, tail, strs, p[1..], x);
  }

  lemma {:induction false} OwnBefore(ts: seq<Tok>, c: Ctx, n: Node, tail: seq<Tok>, strs: seq<byte>, x: nat,
      q: seq<nat>, y: nat)
    requires Holds(ts, c, n, tail) && |Pre(c)| < |ts| && q != []
    requires ValueTok(ts, |Pre(c)|, [], x).Some? && ValueTok(ts, |Pre(c)|, q, y).Some?
    ensures ValueTok(ts, |Pre(c)|, [], x).value < ValueTok(ts, |Pre(c)|, q, y).value
  {
    hide KidTok, PropTok, Holds, Pre, Flat, AbsProps, PropHere;
    var k := BelowKid(ts, c, n, tail, strs, q, y);
    var j := PropTokIs(ts, c, n, tail, strs, x);
    PropParts(ts, c, n, strs, x, j, PropTok(ts, |Pre(c)|, x).value);
    ChildWithin(c, n, k);
  }
}

/**
 * Appending to an array already on a list. The pair is first discounted from
 * the cached sizes of its list and the lists above, then extended, then
 * charged again at its new size.
 */
module NvAppend {
  import opened Bytes
  import opened NvTree
  import opened NvHeap
  import opened NvView
  import opened NvOps
  import opened NvClone

  const EINVAL: int := 22

  // ---- one more element in an array of scalars

  datatype Item = BoolItem(b: bool) | NumberItem(n: nat) | StringItem(s: seq<byte>)

  predicate WfItem(e: Item) {
    (e.NumberItem? ==> e.n < U64) && (e.StringItem? ==> NoNul(e.s))
  }

  function ItemSize(e: Item): nat {
    match e
    case BoolItem(_) => 1
    case NumberItem(_) => 8
    case StringItem(s) => |s| + 1
  }

  /** The array type an item belongs to. */
  function ItemType(e: Item): nat {
    ScalarType(Single(e))
  }

  function Single(e: Item): Scalar {
    match e
    case BoolItem(b) => BoolArray([if b then 1 else 0])
    case NumberItem(n) => NumberArray([n])
    case StringItem(s) => StringArray([s])
  }

  function Extend(s: Scalar, e: Item): Scalar
    requires ScalarType(s) == ItemType(e)
  {
    match e
    case BoolItem(b) => BoolArray(s.bools + [if b then 1 else 0])
    case NumberItem(n) => NumberArray(s.ns + [n])
    case StringItem(x) => StringArray(s.ss + [x])
  }

  /** The elements of an array, one by one. */
  function Elements(s: Scalar): seq<Item> {
    match s
    case BoolArray(bs) => seq(|bs|, i requires 0 <= i < |bs| => BoolItem(bs[i] != 0))
    case NumberArray(ns) => seq(|ns|, i requires 0 <= i < |ns| => NumberItem(ns[i]))
    case StringArray(ss) => seq(|ss|, i requires 0 <= i < |ss| => StringItem(ss[i]))
    case _ => []
  }

  /** The new element comes last, behind all there were; a new array has just this one. */
  lemma {:induction false} ElementsGrow(s: Scalar, e: Item)
    requires ScalarType(s) == ItemType(e)
    ensures Elements(Extend(s, e)) == Elements(s) + [e] && ScalarType(Extend(s, e)) == ScalarType(s)
    ensures Elements(Single(e)) == [e]
  {
  }

  lemma {:induction false} StringsSizeSnoc(ss: seq<seq<byte>>, s: seq<byte>)
    ensures StringsSize(ss + [s]) == StringsSize(ss) + |s| + 1
  {
    if ss != [] {
      StringsSizeSnoc(ss[1..], s);
      assert (ss + [s])[1..] == ss[1..] + [s];
    }
  }

  lemma {:induction false} ExtendOk(s: Scalar, e: Item)
    requires ScalarType(s) == ItemType(e) && WfScalar(s) && WfItem(e)
    ensures WfScalar(Extend(s, e)) && ScalarSize(Extend(s, e)) == ScalarSize(s) + ItemSize(e)
  {
    if e.StringItem? { StringsSizeSnoc(s.ss, e.s); }
  }

  ghost function Revalued(st: Store, p: NvPair, s: Scalar, d: int): Store
    requires p in st.pairs
  {
    st.(pairs := st.pairs[p := st.pairs[p].(value := Scal(s), datasize := st.pairs[p].datasize + d)])
  }

  lemma {:induction false} RevaluedList(st: Store, l: NvList, p: NvPair, s: Scalar, d: int, b: int, x: NvList)
    requires Consistent(st, Only(l, b)) && p in st.pairs && st.pairs[p].list == l && st.pairs[p].value.Scal?
    requires x in st.lists
    ensures ListOk(Revalued(st, p, s, d), x, if x == l then b + d else 0)
  {
    hide UniqueNames, HeadSize;
    var st' := Revalued(st, p, s, d);
    assert ListOk(st, x, if x == l then b else 0) && PairOk(st, p);
    SameNames(st, st', st.lists[x].flags, st.lists[x].head);
    forall q | q != p ensures PairBytes(st', q) == PairBytes(st, q) {
      if q in st.pairs { KidsSizeSame(st, st', KidsOf(st.pairs[q].value)); }
    }
    HeadSizeBump(st, st', st.lists[x].head, p, d);
  }

  lemma {:induction false} RevaluedPair(st: Store, l: NvList, p: NvPair, s: Scalar, d: int, b: int, q: NvPair)
    requires Consistent(st, Only(l, b)) && p in st.pairs && st.pairs[p].value.Scal? && q in st.pairs
    requires WfScalar(s) && ScalarSize(s) == st.pairs[p].datasize + d
    ensures PairOk(Revalued(st, p, s, d), q)
  {
    hide ListOk, WfScalar, ScalarSize, ValidName;
    var st' := Revalued(st, p, s, d);
    assert PairOk(st, q);
    forall j | 0 <= j < |KidsOf(st'.pairs[q].value)| ensures KidOk(st', q, j) { assert KidOk(st, q, j); }
  }

  lemma {:induction false} RevaluedOk(st: Store, l: NvList, p: NvPair, s: Scalar, d: int, b: int)
    requires Consistent(st, Only(l, b)) && p in st.pairs && st.pairs[p].list == l && st.pairs[p].value.Scal?
    requires WfScalar(s) && ScalarSize(s) == st.pairs[p].datasize + d
    ensures Consistent(Revalued(st, p, s, d), Only(l, b + d))
    ensures PairBytes(Revalued(st, p, s, d), p) == PairBytes(st, p) + d
  {
    hide ListOk, PairOk, WfScalar, ScalarSize;
    var st' := Revalued(st, p, s, d);
    forall q | q in st'.pairs ensures PairOk(st', q) { RevaluedPair(st, l, p, s, d, b, q); }
    forall x | x in st'.lists ensures ListOk(st', x, if x == l then b + d else 0) {
      RevaluedList(st, l, p, s, d, b, x);
    }
  }

  method PutValue(p: NvPair, v: Payload, datasize: int, ghost ps: set<NvPair>)
    requires p in ps
    modifies p`value, p`datasize
    ensures SnapPairs(ps) == old(SnapPairs(ps))[p := old(SnapPairs(ps))[p].(value := v, datasize := datasize)]
  {
    p.value, p.datasize := v, datasize;
  }

  /** The lists of p lie deeper than the list p is on, so their sizes do not change with it. */
  lemma {:induction false} BytesBelow(st: Store, st': Store, l: NvList, p: NvPair)
    requires Consistent(st, map[]) && p in st.pairs && st.pairs[p].list == l && p in st'.pairs
    requires st'.pairs[p] == st.pairs[p]
    requires SizesBelow(st, st', l)
    ensures PairBytes(st', p) == PairBytes(st, p)
  {
    var ks := KidsOf(st.pairs[p].value);
    assert PairOk(st, p);
    forall i | 0 <= i < |ks| ensures Cached(st, ks[i]) == Cached(st', ks[i]) { assert KidOk(st, p, i); }
    KidsSizeSame(st, st', ks);
  }

  /** Take p out of the sizes of its list and all lists above. */
  method Discount(nvl: NvList, p: NvPair, ghost S: Objs)
    requires Inv(S) && nvl in S.ls && p in S.ps && p.list == nvl
    modifies S.ls`datasize
    ensures Consistent(Snap(S), Only(nvl, PairBytes(Snap(S), p)))
    ensures PairBytes(Snap(S), p) == old(PairBytes(Snap(S), p))
    ensures Snap(S).(sizes := old(Snap(S)).sizes) == old(Snap(S))
  {
    hide Consistent, SnapLists, SnapSizes, SnapDepths, SnapPairs, PairBytes, PairNow, KidsOf, SizesBelow;
    ghost var st, n := Snap(S), PairBytes(Snap(S), p);
    KidsKnown(S, map[], p);
    PairNowSnap(p, S);
    SnapPair(S, p);
    UpdateSize(nvl, p, -1, S, map[]);
    assert Plus(map[], nvl, n) == Only(nvl, n);
    BytesBelow(st, Snap(S), nvl, p);
  }

  /** Extends the array of pair p by one element. */
  method AppendItem(nvl: NvList, p: NvPair, e: Item, ghost S: Objs)
    requires Inv(S) && nvl in S.ls && p in S.ps && p.list == nvl && p.value.Scal? && TypeOf(p.value) == ItemType(e)
    requires WfItem(e)
    modifies S.ls`datasize, p`value, p`datasize
    ensures Inv(S)
    ensures Snap(S).lists == old(Snap(S)).lists
    ensures Snap(S).pairs == Revalued(old(Snap(S)), p, Extend(old(p.value.s), e), ItemSize(e)).pairs
  {
    hide Consistent, Snap, PairBytes, Extend, ScalarSize, WfScalar, ItemSize, ItemType, ScalarType, Revalued;
    PairScal(S, p);
    ghost var st := Snap(S);
    Discount(nvl, p, S);
    SameRevalued(st, Snap(S), p, Extend(p.value.s, e), ItemSize(e));
    PutItem(nvl, p, e, S);
    Settle(nvl, p, S);
  }

  lemma {:induction false} SameRevalued(st: Store, st': Store, p: NvPair, s: Scalar, d: int)
    requires p in st.pairs && st'.pairs == st.pairs
    ensures Revalued(st', p, s, d).pairs == Revalued(st, p, s, d).pairs && Revalued(st', p, s, d).lists == st'.lists
  {
  }

  method PutItem(nvl: NvList, p: NvPair, e: Item, ghost S: Objs)
    requires p in S.ps && p.list == nvl && p.value.Scal? && TypeOf(p.value) == ItemType(e) && WfItem(e)
    requires WfScalar(p.value.s) && ScalarSize(p.value.s) == p.datasize
    requires Consistent(Snap(S), Only(nvl, PairBytes(Snap(S), p)))
    modifies p`value, p`datasize
    ensures Snap(S) == Revalued(old(Snap(S)), p, Extend(old(p.value.s), e), ItemSize(e))
    ensures Consistent(Snap(S), Only(nvl, PairBytes(Snap(S), p)))
  {
    hide Consistent, SnapLists, SnapSizes, SnapDepths, SnapPairs, PairBytes, Extend, ScalarSize, WfScalar, ItemSize;
    SnapPair(S, p);
    ExtendOk(p.value.s, e);
    RevaluedOk(Snap(S), nvl, p, Extend(p.value.s, e), ItemSize(e), PairBytes(Snap(S), p));
    PutValue(p, Scal(Extend(p.value.s, e)), p.datasize + ItemSize(e), S.ps);
  }

  lemma {:induction false} PairScal(S: Objs, p: NvPair)
    requires Inv(S) && p in S.ps && p.value.Scal?
    ensures WfScalar(p.value.s) && ScalarSize(p.value.s) == p.datasize
  {
    assert PairOk(Snap(S), p);
  }

  // ---- one more list in an array of lists

  ghost predicate HasLast(st: Store, p: NvPair) {
    p in st.pairs && st.pairs[p].value.Kids? && st.pairs[p].value.kids != [] &&
    st.pairs[p].value.kids[|st.pairs[p].value.kids| - 1] in st.lists
  }

  /** List k becomes the last element of pair p. */
  ghost function Appended(st: Store, p: NvPair, k: NvList): Store {
    if HasLast(st, p) && k in st.lists then
      var r, ks := st.pairs[p], st.pairs[p].value.kids;
      var last := ks[|ks| - 1];
      st.(lists := st.lists[last := st.lists[last].(next := k)][k := st.lists[k].(parent := p, inArray := true)],
          pairs := st.pairs[p := r.(value := Kids(ks + [k]))])
    else st
  }

  /** Pair p of list l can take the root k, which lies deeper than l. */
  ghost predicate Room(st: Store, l: NvList, p: NvPair, k: NvList) {
    && HasLast(st, p) && st.pairs[p].list == l
    && k in st.lists && st.lists[k].parent == null && l in st.depths && k in st.depths && st.depths[l] < st.depths[k]
  }

  lemma {:induction false} RootNotKid(st: Store, offs: map<NvList, int>, q: NvPair, k: NvList)
    requires Consistent(st, offs) && q in st.pairs && k in st.lists && st.lists[k].parent == null
    ensures k !in KidsOf(st.pairs[q].value)
  {
    assert PairOk(st, q);
    var ks := KidsOf(st.pairs[q].value);
    forall j | 0 <= j < |ks| ensures ks[j] != k { assert KidOk(st, q, j); }
  }

  lemma {:induction false} AppendedIs(st: Store, offs: map<NvList, int>, l: NvList, p: NvPair, k: NvList)
    requires Consistent(st, offs) && Room(st, l, p, k)
    ensures p in st.pairs && st.pairs[p].value.Kids? && st.pairs[p].value.kids != [] && st.pairs[p].list == l
    ensures var st', r, ks := Appended(st, p, k), st.pairs[p], st.pairs[p].value.kids;
      && k !in ks && st'.sizes == st.sizes && st'.depths == st.depths && st'.lists.Keys == st.lists.Keys
      && st'.pairs == st.pairs[p := r.(value := Kids(ks + [k]))]
      && (forall x :: x in st.lists ==> st'.lists[x] == st.lists[x].(
            next := if x == ks[|ks| - 1] then k else st.lists[x].next,
            parent := if x == k then p else st.lists[x].parent,
            inArray := if x == k then true else st.lists[x].inArray))
  {
    hide ListOk;
    RootNotKid(st, offs, p, k);
  }

  lemma {:induction false} AppendedKid(st: Store, l: NvList, b: int, p: NvPair, k: NvList, q: NvPair, j: nat)
    requires Consistent(st, Only(l, b)) && Room(st, l, p, k) && q in st.pairs && j < |KidsOf(st.pairs[q].value)|
    ensures var st' := Appended(st, p, k);
      q in st'.pairs && j < |KidsOf(st'.pairs[q].value)| && KidOk(st', q, j)
  {
    hide ListOk, ValidName, WfScalar, ScalarSize, Appended;
    AppendedIs(st, Only(l, b), l, p, k);
    RootNotKid(st, Only(l, b), q, k);
    assert PairOk(st, q) && PairOk(st, p);
    var n := |KidsOf(st.pairs[p].value)| - 1;
    assert KidOk(st, p, n);
    assert KidOk(st, q, j) && KidsOf(st.pairs[q].value)[j] in KidsOf(st.pairs[q].value);
    assert KidsOf(st.pairs[q].value)[j] == KidsOf(st.pairs[p].value)[n] ==> q == p && j == n;
  }

  lemma {:induction false} AppendedPair(st: Store, l: NvList, b: int, p: NvPair, k: NvList, q: NvPair)
    requires Consistent(st, Only(l, b)) && Room(st, l, p, k) && q in st.pairs
    ensures PairOk(Appended(st, p, k), q)
  {
    hide HeadSize, UniqueNames, ValidName, WfScalar, ScalarSize, Appended;
    var st', ks := Appended(st, p, k), KidsOf(st.pairs[q].value);
    assert ListOk(st, k, if k == l then b else 0);
    AppendedIs(st, Only(l, b), l, p, k);
    assert PairOk(st, q);
    forall j | 0 <= j < |KidsOf(st'.pairs[q].value)| ensures KidOk(st', q, j) {
      if j < |ks| { AppendedKid(st, l, b, p, k, q, j); }
    }
  }

  lemma {:induction false} AppendedBytes(st: Store, l: NvList, b: int, p: NvPair, k: NvList, q: NvPair)
    requires Consistent(st, Only(l, b)) && Room(st, l, p, k)
    ensures PairBytes(Appended(st, p, k), q) == PairBytes(st, q) + if q == p then Cached(st, k) + MARK else 0
  {
    hide Consistent, Appended, Room;
    var st' := Appended(st, p, k);
    AppendedIs(st, Only(l, b), l, p, k);
    if q == p {
      KidsSizeSnoc(st', st.pairs[p].value.kids, k);
      KidsSizeSame(st, st', st.pairs[p].value.kids);
    } else if q in st.pairs {
      KidsSizeSame(st, st', KidsOf(st.pairs[q].value));
    }
  }

  lemma {:induction false} KidsSizeSnoc(st: Store, ks: seq<NvList>, k: NvList)
    ensures KidsSize(st, ks + [k]) == KidsSize(st, ks) + Cached(st, k) + MARK
  {
    if ks != [] {
      KidsSizeSnoc(st, ks[1..], k);
      assert (ks + [k])[1..] == ks[1..] + [k];
    } else {
      assert (ks + [k])[1..] == [];
    }
  }

  lemma {:induction false} AppendedSum(st: Store, l: NvList, b: int, p: NvPair, k: NvList, x: NvList)
    requires Consistent(st, Only(l, b)) && Room(st, l, p, k) && x in st.lists
    ensures HeadSize(Appended(st, p, k), st.lists[x].head) == HeadSize(st, st.lists[x].head) + if x ==
      l then Cached(st, k) + MARK else 0
  {
    var st', d := Appended(st, p, k), Cached(st, k) + MARK;
    hide PairBytes, HeadSize, Cached, Room, Appended, UniqueNames;
    AppendedIs(st, Only(l, b), l, p, k);
    assert ListOk(st, x, if x == l then b else 0) && PairOk(st, p);
    forall q
      ensures PairBytes(st', q) == PairBytes(st, q) + if q == p then d else 0
    {
      AppendedBytes(st, l, b, p, k, q);
    }
    HeadSizeBump(st, st', st.lists[x].head, p, d);
    assert p in st.lists[x].head <==> x == l;
  }

  lemma {:induction false} SameNames(st: Store, st': Store, flags: byte, ps: seq<NvPair>)
    requires UniqueNames(st, flags, ps) && forall q :: NameOf(st', q) == NameOf(st, q)
    ensures UniqueNames(st', flags, ps)
  {
  }

  lemma {:induction false} AppendedParent(st: Store, l: NvList, b: int, p: NvPair, k: NvList, x: NvList)
    requires Consistent(st, Only(l, b)) && Room(st, l, p, k) && x in st.lists
    ensures var st' := Appended(st, p, k);
      && x in st'.lists
      && (st'.lists[x].parent != null ==>
           st'.lists[x].parent in st'.pairs && x in KidsOf(st'.pairs[st'.lists[x].parent].value))
      && (st'.lists[x].parent == null ==> !st'.lists[x].inArray && st'.lists[x].next == null)
  {
    hide HeadSize, UniqueNames, Appended, Room, ValidName, WfScalar, ScalarSize;
    AppendedIs(st, Only(l, b), l, p, k);
    assert ListOk(st, x, if x == l then b else 0) && PairOk(st, p);
    assert KidOk(st, p, |st.pairs[p].value.kids| - 1);
  }

  lemma {:induction false} AppendedList(st: Store, l: NvList, b: int, p: NvPair, k: NvList, x: NvList)
    requires Consistent(st, Only(l, b)) && Room(st, l, p, k) && x in st.lists
    ensures ListOk(Appended(st, p, k), x, if x == l then b + Cached(st, k) + MARK else 0)
  {
    hide PairBytes, HeadSize, Cached, UniqueNames, Appended, Room, PairOk;
    var st' := Appended(st, p, k);
    AppendedIs(st, Only(l, b), l, p, k);
    AppendedParent(st, l, b, p, k, x);
    assert ListOk(st, x, if x == l then b else 0);
    AppendedSum(st, l, b, p, k, x);
    SameNames(st, st', st.lists[x].flags, st.lists[x].head);
  }

  lemma {:induction false} AppendedOk(st: Store, l: NvList, p: NvPair, k: NvList)
    requires Room(st, l, p, k) && Consistent(st, Only(l, PairBytes(st, p)))
    ensures var st' := Appended(st, p, k); Consistent(st', Only(l, PairBytes(st', p)))
  {
    hide ListOk, PairOk, PairBytes, Cached, Room, Appended;
    AppendedIs(st, Only(l, PairBytes(st, p)), l, p, k);
    var st', b := Appended(st, p, k), PairBytes(st, p);
    AppendedBytes(st, l, b, p, k, p);
    forall x | x in st'.lists
      ensures ListOk(st', x, if x == l then PairBytes(st', p) else 0)
    {
      AppendedList(st, l, b, p, k, x);
    }
    forall q | q in st'.pairs ensures PairOk(st', q) { AppendedPair(st, l, b, p, k, q); }
  }

  method PutLast(prev: NvList, k: NvList, p: NvPair, ghost ls: set<NvList>)
    requires prev in ls && k in ls && prev != k
    modifies prev`arrayNext, k`parent, k`inArray
    ensures SnapLists(ls) ==
      old(SnapLists(ls))[prev := old(SnapLists(ls))[prev].(next := k)][k := old(SnapLists(ls))[k].(parent := p, inArray := true)]
  {
    prev.arrayNext := k;
    k.parent, k.inArray := p, true;
  }

  method Link(nvl: NvList, p: NvPair, k: NvList, ghost S: Objs)
    requires nvl in S.ls && p in S.ps && Room(Snap(S), nvl, p, k)
    requires Consistent(Snap(S), Only(nvl, PairBytes(Snap(S), p)))
    modifies S.ls`arrayNext, S.ls`parent, S.ls`inArray, p`value, p`datasize
    ensures Snap(S) == Appended(old(Snap(S)), p, k) && Consistent(Snap(S), Only(nvl, PairBytes(Snap(S), p)))
  {
    hide Consistent, SnapLists, SnapSizes, SnapDepths, SnapPairs, PairBytes;
    SnapPair(S, p);
    ghost var st := Snap(S);
    AppendedOk(st, nvl, p, k);
    RootNotKid(st, Only(nvl, PairBytes(st, p)), p, k);
    var ks := p.value.kids;
    PutLast(ks[|ks| - 1], k, p, S.ls);
    ghost var lists := SnapLists(S.ls);
    assert SnapPairs(S.ps) == st.pairs && SnapSizes(S.ls) == st.sizes && SnapDepths(S.ls) == st.depths;
    PutValue(p, Kids(ks + [k]), p.datasize, S.ps);
    assert SnapLists(S.ls) == lists && SnapSizes(S.ls) == st.sizes && SnapDepths(S.ls) == st.depths;
    assert Snap(S) == Appended(st, p, k);
  }

  /** Objects side by side, with p still short on nvl. */
  lemma {:induction false} UnionShort(a: Store, b: Store, l: NvList, p: NvPair)
    requires Separate(a, b) && l in a.lists && p in a.pairs && Consistent(a, Only(l, PairBytes(a, p)))
    requires Consistent(b, map[])
    ensures Consistent(Union(a, b), Only(l, PairBytes(Union(a, b), p)))
  {
    hide PairBytes, SameList, SamePair, ListOk;
    UnionParts(a, b);
    assert PairOk(a, p);
    forall k | k in KidsOf(a.pairs[p].value) ensures k in a.lists { KidIn(a, p, k); }
    PairKeeps(a, Union(a, b), p);
    UnionOk(a, b, Only(l, PairBytes(a, p)));
  }

  lemma {:induction false} RoomFor(a: Store, b: Store, l: NvList, p: NvPair, k: NvList, d: int)
    requires Separate(a, b) && Consistent(a, Only(l, d)) && l in a.lists && p in a.pairs && a.pairs[p].list == l
    requires a.pairs[p].value.Kids?
    requires k in b.lists && b.lists[k].parent == null && a.depths[l] < b.depths[k]
    ensures Room(Union(a, b), l, p, k)
  {
    hide ListOk;
    var ks := a.pairs[p].value.kids;
    assert PairOk(a, p);
    assert KidOk(a, p, |ks| - 1);
  }

  /** Sets the error of nvl while p is still short on it. */
  method Refuse(nvl: NvList, p: NvPair, e: int, ghost S: Objs)
    requires nvl in S.ls && p in S.ps && Consistent(Snap(S), Only(nvl, PairBytes(Snap(S), p)))
    modifies S.ls`datasize, nvl`error
    ensures Inv(S) && Snap(S).(sizes := old(Snap(S)).sizes) == WithError(old(Snap(S)), nvl, e)
  {
    hide Consistent, SnapLists, SnapSizes, SnapDepths, SnapPairs, PairBytes;
    ErrorOk(Snap(S), Only(nvl, PairBytes(Snap(S), p)), nvl, e);
    ErrorBytes(Snap(S), nvl, e, p);
    PutError(nvl, e, S.ls);
    Settle(nvl, p, S);
  }

  lemma {:induction false} ErrorBytes(st: Store, l: NvList, e: int, p: NvPair)
    requires l in st.lists
    ensures PairBytes(WithError(st, l, e), p) == PairBytes(st, p)
  {
    if p in st.pairs { KidsSizeSame(st, WithError(st, l, e), KidsOf(st.pairs[p].value)); }
  }

  ghost method DeepenCopy(k: nat, N: Objs)
    requires Inv(N)
    modifies N.ls`depth
    ensures Inv(N) && Snap(N) == old(Deepened(Snap(N), N.ls, k))
  {
    AllClosed(Snap(N));
    Deepen(k, N, N.ls);
  }

  lemma {:induction false} AllClosed(st: Store)
    requires Consistent(st, map[])
    ensures Closed(st, st.lists.Keys)
  {
    hide ListOk;
    forall q, k | q in st.pairs && k in KidsOf(st.pairs[q].value) ensures k in st.lists.Keys {
      assert PairOk(st, q);
      KidIn(st, q, k);
    }
  }

  ghost predicate SameHead(r: ListRec, r': ListRec) {
    r'.head == r.head && r'.flags == r.flags && r'.error == r.error && (r.parent != null ==> r'.parent == r.parent)
  }

  /** Pairs other than p, and what hangs on each list and above it, are as before. */
  ghost predicate OnlyLinks(st: Store, st': Store, p: NvPair) {
    && (forall q :: q in st.pairs && q != p ==> q in st'.pairs && st'.pairs[q] == st.pairs[q])
    && (forall x :: x in st.lists ==> x in st'.lists && SameHead(st.lists[x], st'.lists[x]))
  }

  /** The pair gained one element that stands for t, in lists of N only. */
  ghost predicate GainedElem(st: Store, st': Store, p: NvPair, k: NvList, N: set<NvList>, t: Tree) {
    && p in st.pairs && st.pairs[p].value.Kids? && p in st'.pairs
    && st'.pairs[p] == st.pairs[p].(value := Kids(st.pairs[p].value.kids + [k]))
    && IsTree(st', N, k, t) && OnlyLinks(st, st', p)
  }

  lemma {:induction false} AppendedLinks(st: Store, offs: map<NvList, int>, l: NvList, p: NvPair, k: NvList, st': Store)
    requires Consistent(st, offs) && Room(st, l, p, k) && st'.lists == Appended(st, p, k).lists
    requires st'.pairs == Appended(st, p, k).pairs
    ensures OnlyLinks(st, st', p) && p in st.pairs && st.pairs[p].value.Kids? && p in st'.pairs
    ensures st'.pairs[p] == st.pairs[p].(value := Kids(st.pairs[p].value.kids + [k]))
  {
    hide Consistent, Appended;
    AppendedIs(st, offs, l, p, k);
  }

  lemma {:induction false} PartLinks(a: Store, st: Store, st': Store, p: NvPair)
    requires PartOf(a, st) && OnlyLinks(st, st', p)
    ensures OnlyLinks(a, st', p)
  {
  }

  lemma {:induction false} GainedTree(b: Store, st': Store, p: NvPair, k: NvList, t: Tree)
    requires OnlyLinks(b, st', p) && p !in b.pairs && IsTree(b, b.lists.Keys, k, t)
    ensures IsTree(st', b.lists.Keys, k, t)
  {
    hide IsTree;
    TreeFrame(b, b.lists.Keys, st', b.lists.Keys, k, t);
  }

  lemma {:induction false} Gained(a: Store, b: Store, st': Store, l: NvList, p: NvPair, k: NvList, t: Tree)
    requires Separate(a, b) && Room(Union(a, b), l, p, k) && p in a.pairs && IsTree(b, b.lists.Keys, k, t)
    requires Consistent(Union(a, b), Only(l, PairBytes(Union(a, b), p)))
    requires st'.lists == Appended(Union(a, b), p, k).lists && st'.pairs == Appended(Union(a, b), p, k).pairs
    ensures GainedElem(a, st', p, k, b.lists.Keys, t)
  {
    hide IsTree, PairBytes, Consistent, Appended, Room, OnlyLinks, SameList;
    var st := Union(a, b);
    UnionParts(a, b);
    AppendedLinks(st, Only(l, PairBytes(st, p)), l, p, k, st');
    PartLinks(a, st, st', p);
    PartLinks(b, st, st', p);
    GainedTree(b, st', p, k, t);
  }

  lemma {:induction false} GainedSame(st0: Store, st: Store, st': Store, p: NvPair, k: NvList, N: set<NvList>, t: Tree)
    requires GainedElem(st, st', p, k, N, t) && st.lists == st0.lists && st.pairs == st0.pairs
    ensures GainedElem(st0, st', p, k, N, t)
  {
  }

  lemma {:induction false} ClearSame(st: Store, st': Store, l: NvList, t: Tree)
    requires st'.lists == st.lists && st'.pairs == st.pairs
    ensures Clear(st', l, t) == Clear(st, l, t)
    decreases t
  {
    if l in st.lists {
      var head := st.lists[l].head;
      forall i | 0 <= i < |t.pairs| && i < |head|
        ensures PairClear(st', head[i], t.pairs[i]) == PairClear(st, head[i], t.pairs[i])
      {
        PairClearSame(st, st', head[i], t.pairs[i]);
      }
      assert PairsClear(st', head, t.pairs) == PairsClear(st, head, t.pairs);
    }
  }

  lemma {:induction false} PairClearSame(st: Store, st': Store, p: NvPair, q: Pair)
    requires st'.lists == st.lists && st'.pairs == st.pairs
    ensures PairClear(st', p, q) == PairClear(st, p, q)
    decreases q
  {
    if p in st.pairs {
      var v := st.pairs[p].value;
      if q.value.Nested? && v.Kid? { ClearSame(st, st', v.kid, q.value.list); }
      if q.value.Elems? && v.Kids? {
        var ts := q.value.lists;
        forall i | 0 <= i < |ts| && i < |v.kids| ensures Clear(st', v.kids[i], ts[i]) == Clear(st, v.kids[i], ts[i]) {
          ClearSame(st, st', v.kids[i], ts[i]);
        }
        assert ListsClear(st', v.kids, ts) == ListsClear(st, v.kids, ts);
      }
    }
  }

  lemma {:induction false} ClearError(S: Objs, l: NvList, t: Tree)
    requires l in S.ls && Clear(Snap(S), l, t)
    ensures l.error == 0
  {
  }

  lemma {:induction false} CopyFacts(N: Objs, copy: NvList, t: Tree)
    requires Copy(N, copy, t)
    ensures Inv(N) && copy in N.ls && Snap(N).lists[copy].parent == null && IsTree(Snap(N), N.ls, copy, t)
  {
  }

  /** Hang the finished copy under p. */
  method Attach(nvl: NvList, p: NvPair, copy: NvList, ghost S: Objs, ghost N: Objs, ghost t: Tree)
      returns (ghost S': Objs)
    requires nvl in S.ls && p in S.ps && p.list == nvl && p.value.Kids? && S.ls !! N.ls && S.ps !! N.ps
    requires Copy(N, copy, t)
    requires Consistent(Snap(S), Only(nvl, PairBytes(Snap(S), p)))
    modifies S.ls, N.ls, p
    ensures S' == Both(S, N) && Inv(S') && GainedElem(old(Snap(S)), Snap(S'), p, copy, N.ls, t)
  {
    hide Snap, Consistent, PairBytes, IsTree, Separate, Union, Room, Appended, GainedElem, Copy;
    ghost var a, n := Snap(S), PairBytes(Snap(S), p);
    CopyFacts(N, copy, t);
    ghost var b0 := Snap(N);
    SnapPair(S, p);
    SnapList(S, nvl);
    DeepenCopy(nvl.depth + 1, N);
    ghost var b := Snap(N);
    TreeFrame(b0, N.ls, b, N.ls, copy, t);
    S' := Both(S, N);
    SnapBoth(S, N);
    CleanInv(N);
    UnionShort(a, b, nvl, p);
    RoomFor(a, b, nvl, p, copy, n);
    Link(nvl, p, copy, S');
    ghost var st := Snap(S');
    Settle(nvl, p, S');
    Gained(a, b, Snap(S'), nvl, p, copy, t);
  }

  /**
   * Appends a copy of value to the list array p of nvl. err is the error that
   * a failing copy leaves behind.
   */
  method AppendList(nvl: NvList, p: NvPair, value: NvList, err: int, ghost S: Objs, ghost C: set<NvList>, ghost t: Tree)
    returns (ok: bool, ghost k: NvList, ghost S': Objs)
    requires Inv(S) && nvl in S.ls && p in S.ps && p.list == nvl && p.value.Kids?
    requires value in S.ls && IsTree(Snap(S), C, value, t)
    modifies S.ls, p
    ensures Inv(S') && S.ls <= S'.ls && S.ps <= S'.ps && fresh(S'.ls - S.ls) && fresh(S'.ps - S.ps)
    ensures ok <==> old(value.parent == null && Clear(Snap(S), value, t))
    ensures ok ==> GainedElem(old(Snap(S)), Snap(S'), p, k, S'.ls - S.ls, t)
    ensures !ok ==> S' == S
    ensures !ok ==>
      Snap(S).(sizes := old(Snap(S)).sizes) ==
        WithError(old(Snap(S)), nvl, if old(value.error != 0 || value.parent != null) then EINVAL else err)
  {
    hide Snap, Consistent, PairBytes, IsTree, Clear, Separate, Union, Room, Copy, WfTree, GainedElem;
    ghost var st0 := Snap(S);
    TreeWf(st0, C, value, t);
    SnapPair(S, p);
    Discount(nvl, p, S);
    TreeFrame(st0, C, Snap(S), C, value, t);
    ok, k, S' := false, nvl, S;
    ClearSame(st0, Snap(S), value, t);
    if value.error != 0 || value.parent != null {
      if Clear(st0, value, t) { ClearError(S, value, t); }
      Refuse(nvl, p, EINVAL, S);
      return;
    }
    var copy;
    ghost var N;
    copy, N := Clone(value, S, C, t);
    if copy == null {
      Refuse(nvl, p, err, S);
      return;
    }
    ok, k := true, copy;
    ghost var st1 := Snap(S);
    S' := Attach(nvl, p, copy, S, N, t);
    assert S'.ls - S.ls == N.ls;
    GainedSame(st0, st1, Snap(S'), p, copy, N.ls, t);
  }
}

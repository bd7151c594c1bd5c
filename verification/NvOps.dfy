/** The operations that edit lists in place, each keeping every link and cached size right. */
module NvOps {
  import opened Bytes
  import opened NvTree
  import opened NvHeap

  /** Only l is off, by n. */
  ghost function Only(l: NvList, n: int): map<NvList, int> { map[l := n] }

  lemma {:induction false} SameOffs(st: Store, offs: map<NvList, int>, offs': map<NvList, int>)
    requires Consistent(st, offs)
    requires forall l :: l in st.lists ==> (if l in offs then offs[l] else 0) == (if l in offs' then offs'[l] else 0)
    ensures Consistent(st, offs')
  {
    forall l | l in st.lists ensures ListOk(st, l, if l in offs' then offs'[l] else 0) {
      assert ListOk(st, l, if l in offs then offs[l] else 0);
    }
  }

  lemma {:induction false} Settled(st: Store, l: NvList, a: int, b: int)
    requires a + b == 0 && Consistent(st, Plus(Only(l, a), l, b))
    ensures Consistent(st, map[])
  {
    hide Consistent;
    SameOffs(st, Plus(Only(l, a), l, b), map[]);
  }

  lemma {:induction false} SnapList(S: Objs, l: NvList)
    requires l in S.ls
    ensures var st := Snap(S);
      && st.lists[l] == ListRec(l.error, l.flags, l.inArray, l.parent, l.arrayNext, l.head)
      && st.sizes[l] == l.datasize && st.depths[l] == l.depth
  {
  }

  lemma {:induction false} SnapPair(S: Objs, p: NvPair)
    requires p in S.ps
    ensures Snap(S).pairs[p] == PairRec(p.name, p.value, p.datasize, p.list)
  {
  }

  method Bumped(l: NvList, d: int, ghost S: Objs)
    requires l in S.ls
    modifies l`datasize
    ensures Snap(S) == Bump(old(Snap(S)), l, d)
  {
    ghost var sizes := SnapSizes(S.ls);
    l.datasize := l.datasize + d;
    assert SnapSizes(S.ls) == sizes[l := sizes[l] + d];
  }

  /** Add d to one cached size; the list above is then short of d. */
  method GrowOne(l: NvList, d: int, ghost S: Objs, ghost offs: map<NvList, int>) returns (up: NvList?)
    requires l in S.ls && Consistent(Snap(S), offs)
    modifies l`datasize
    ensures up != null ==> up in S.ls && up != l && up.depth < l.depth && Snap(S).depths[up] < Snap(S).depths[l]
    ensures Consistent(Snap(S), Plus(Plus(offs, l, -d), up, d))
    ensures Snap(S) == Bump(old(Snap(S)), l, d)
  {
    hide Consistent, Snap;
    ghost var st := Snap(S);
    Bumped(l, d, S);
    BumpOne(st, offs, l, d);
    ParentUp(st, offs, l);
    SnapList(S, l);
    if l.parent != null { SnapPair(S, l.parent); }
    up := if l.parent == null then null else l.parent.list;
    if up != null { SnapList(S, up); }
  }

  /** Lists deeper than l have the same cached size in both. */
  ghost predicate SizesBelow(st: Store, st': Store, l: NvList) {
    l in st.depths && forall x :: x in st.depths && st.depths[x] > st.depths[l] ==> Cached(st', x) == Cached(st, x)
  }

  lemma {:induction false} BumpAbove(st0: Store, st: Store, l: NvList, x: NvList, d: int)
    requires SizesBelow(st0, st, l) && x in st.sizes && x in st0.depths && st0.depths[x] <= st0.depths[l]
    ensures SizesBelow(st0, Bump(st, x, d), l)
    ensures Bump(st, x, d).(sizes := st0.sizes) == st.(sizes := st0.sizes)
  {
  }

  /** Add d to nvl's cached size and to that of every list above it. */
  method AddSize(nvl: NvList, d: int, ghost S: Objs, ghost offs: map<NvList, int>)
    requires nvl in S.ls && Consistent(Snap(S), offs)
    modifies S.ls`datasize
    ensures Consistent(Snap(S), Plus(offs, nvl, -d))
    ensures Snap(S).(sizes := old(Snap(S)).sizes) == old(Snap(S))
    ensures SizesBelow(old(Snap(S)), Snap(S), nvl)
  {
    hide Consistent, Snap, SizesBelow, Bump, Plus;
    ghost var offs1 := Plus(offs, nvl, -d);
    ghost var st0 := Snap(S);
    assert SizesBelow(st0, st0, nvl) by { SizesHere(st0, nvl); }
    BumpAbove(st0, st0, nvl, nvl, d);
    var parent := GrowOne(nvl, d, S, offs);
    NoMore(offs1, d);
    while parent != null
      invariant parent == null ==> Consistent(Snap(S), offs1)
      invariant parent != null ==> parent in S.ls && Consistent(Snap(S), Plus(offs1, parent, d))
      invariant Snap(S).(sizes := st0.sizes) == st0
      invariant parent != null ==> st0.depths[parent] < st0.depths[nvl]
      invariant SizesBelow(st0, Snap(S), nvl)
      decreases if parent == null then 0 else 1 + parent.depth
    {
      ghost var was := parent;
      BumpAbove(st0, Snap(S), nvl, parent, d);
      parent := GrowOne(parent, d, S, Plus(offs1, parent, d));
      Passed(Snap(S), offs1, was, parent, d);
    }
  }

  /** The shortfall has moved from one list to the next. */
  lemma {:induction false} Passed(st: Store, offs: map<NvList, int>, l: NvList, up: NvList?, d: int)
    requires Consistent(st, Plus(Plus(Plus(offs, l, d), l, -d), up, d)) && up != l
    ensures Consistent(st, Plus(offs, up, d))
  {
    hide Consistent;
    SameOffs(st, Plus(Plus(Plus(offs, l, d), l, -d), up, d), Plus(offs, up, d));
  }

  lemma {:induction false} NoMore(offs: map<NvList, int>, d: int)
    ensures Plus(offs, null, d) == offs
  {
  }

  lemma {:induction false} SizesHere(st: Store, l: NvList)
    requires l in st.depths
    ensures SizesBelow(st, st, l)
  {
  }

  // ---- the size of one pair, as nvlist_update_size computes it

  ghost function KidsNow(ks: seq<NvList>): int
    reads (set k | k in ks)`datasize
  {
    if ks == [] then 0 else ks[0].datasize + MARK + KidsNow(ks[1..])
  }

  ghost function PairNow(p: NvPair): int
    reads p`name, p`value, p`datasize, (set k | k in KidsOf(p.value))`datasize
  {
    HDR + |p.name| + 1 + if p.value.Scal? then p.datasize else KidsNow(KidsOf(p.value))
  }

  lemma {:induction false} KidsNowSnoc(ks: seq<NvList>, k: NvList)
    ensures KidsNow(ks + [k]) == KidsNow(ks) + k.datasize + MARK
  {
    if ks == [] {
      assert ks + [k] == [k];
      assert KidsNow([k]) == k.datasize + MARK + KidsNow([k][1..]);
    } else {
      KidsNowSnoc(ks[1..], k);
      assert (ks + [k])[1..] == ks[1..] + [k];
    }
  }

  lemma {:induction false} KidsNowSnap(ks: seq<NvList>, S: Objs)
    requires forall i :: 0 <= i < |ks| ==> ks[i] in S.ls
    ensures KidsNow(ks) == KidsSize(Snap(S), ks)
  {
    if ks != [] { KidsNowSnap(ks[1..], S); }
  }

  lemma {:induction false} PairNowSnap(p: NvPair, S: Objs)
    requires p in S.ps && forall i :: 0 <= i < |KidsOf(p.value)| ==> KidsOf(p.value)[i] in S.ls
    ensures PairNow(p) == PairBytes(Snap(S), p)
  {
    KidsNowSnap(KidsOf(p.value), S);
  }

  method SizeOf(p: NvPair) returns (size: int)
    ensures size == PairNow(p)
  {
    size := HDR + |p.name| + 1;
    match p.value
    case Kid(k) =>
      size := size + k.datasize;
      size := size + MARK;
      assert KidsNow([k]) == k.datasize + MARK + KidsNow([k][1..]);
    case Kids(ks) =>
      size := size + MARK * |ks|;
      for ii := 0 to |ks|
        invariant size == HDR + |p.name| + 1 + KidsNow(ks[..ii]) + MARK * (|ks| - ii)
      {
        KidsNowSnoc(ks[..ii], ks[ii]);
        assert ks[..ii + 1] == ks[..ii] + [ks[ii]];
        size := size + ks[ii].datasize;
      }
      assert ks[..|ks|] == ks;
    case Scal(_) =>
      size := size + p.datasize;
  }

  /** Charge pair p to nvl (mul 1) or take it off (mul -1), up to the root. */
  method UpdateSize(nvl: NvList, p: NvPair, mul: int, ghost S: Objs, ghost offs: map<NvList, int>)
    requires nvl in S.ls && Consistent(Snap(S), offs) && (mul == 1 || mul == -1)
    modifies S.ls`datasize
    ensures Consistent(Snap(S), Plus(offs, nvl, if mul == 1 then -old(PairNow(p)) else old(PairNow(p))))
    ensures Snap(S).(sizes := old(Snap(S)).sizes) == old(Snap(S))
    ensures SizesBelow(old(Snap(S)), Snap(S), nvl)
  {
    hide Consistent, Snap;
    var size := SizeOf(p);
    var delta := size * mul;
    assert delta == if mul == 1 then size else -size;
    AddSize(nvl, delta, S, offs);
  }

  // ---- attaching a pair

  /** No pair of the list has this name, or the list does not ask for unique names. */
  ghost predicate NameFree(st: Store, l: NvList, name: seq<byte>)
    requires l in st.lists
  {
    var r := st.lists[l];
    NoUnique(r.flags) || forall i :: 0 <= i < |r.head| ==> !SameName(r.flags, NameOf(st, r.head[i]), name)
  }

  ghost function Attached(st: Store, l: NvList, p: NvPair): Store
    requires l in st.lists && p in st.pairs
  {
    st.(lists := st.lists[l := st.lists[l].(head := st.lists[l].head + [p])],
        pairs := st.pairs[p := st.pairs[p].(list := l)])
  }

  lemma {:induction false} AttachBytes(st: Store, l: NvList, p: NvPair, q: NvPair)
    requires l in st.lists && p in st.pairs
    ensures PairBytes(Attached(st, l, p), q) == PairBytes(st, q)
  {
    if q in st.pairs { KidsSizeSame(st, Attached(st, l, p), KidsOf(st.pairs[q].value)); }
  }

  lemma {:induction false} AttachHead(st: Store, l: NvList, p: NvPair)
    requires l in st.lists && p in st.pairs && Distinct(st.lists[l].head)
    requires forall i :: 0 <= i < |st.lists[l].head| ==>
      st.lists[l].head[i] in st.pairs && st.pairs[st.lists[l].head[i]].list == l
    requires st.pairs[p].list == null && UniqueNames(st, st.lists[l].flags, st.lists[l].head)
    requires NameFree(st, l, st.pairs[p].name)
    ensures var st', head := Attached(st, l, p), st.lists[l].head + [p];
      && Distinct(head)
      && (forall i :: 0 <= i < |head| ==> head[i] in st'.pairs && st'.pairs[head[i]].list == l)
      && UniqueNames(st', st.lists[l].flags, head)
      && HeadSize(st', head) == HeadSize(st, st.lists[l].head) + PairBytes(st, p)
  {
    var st', head := Attached(st, l, p), st.lists[l].head;
    forall q ensures PairBytes(st', q) == PairBytes(st, q) { AttachBytes(st, l, p, q); }
    HeadSizeSame(st, st', head);
    HeadSizeConcat(st', head, [p]);
    assert HeadSize(st', [p]) == PairBytes(st', p) + HeadSize(st', [p][1..]);
  }

  lemma {:induction false} AttachList(st: Store, l: NvList, p: NvPair, x: NvList)
    requires Consistent(st, map[]) && l in st.lists && p in st.pairs && x in st.lists
    requires st.pairs[p].list == null && NameFree(st, l, st.pairs[p].name)
    ensures ListOk(Attached(st, l, p), x, if x == l then PairBytes(st, p) else 0)
  {
    hide HeadSize, PairBytes;
    assert ListOk(st, x, 0);
    if x == l {
      AttachHead(st, l, p);
    } else {
      forall q ensures PairBytes(Attached(st, l, p), q) == PairBytes(st, q) { AttachBytes(st, l, p, q); }
      HeadSizeSame(st, Attached(st, l, p), st.lists[x].head);
    }
  }

  lemma {:induction false} AttachPair(st: Store, l: NvList, p: NvPair, q: NvPair)
    requires Consistent(st, map[]) && l in st.lists && p in st.pairs && q in st.pairs
    requires st.pairs[p].list == null && l in st.depths
    requires forall k :: k in KidsOf(st.pairs[p].value) ==> k in st.depths && st.depths[l] < st.depths[k]
    ensures PairOk(Attached(st, l, p), q)
  {
    var st', ks := Attached(st, l, p), KidsOf(st.pairs[q].value);
    assert PairOk(st, q);
    forall j | 0 <= j < |ks| ensures KidOk(st', q, j) {
      assert KidOk(st, q, j);
    }
    assert q == p ==> p in st'.lists[l].head by {
      assert st'.lists[l].head[|st.lists[l].head|] == p;
    }
    assert st.pairs[q].list == l && q != p ==> q in st'.lists[l].head by {
      assert forall i :: 0 <= i < |st.lists[l].head| ==> st'.lists[l].head[i] == st.lists[l].head[i];
    }
  }

  /** A detached pair joins a list: only that list's cached size is then short, by the pair's size. */
  lemma {:induction false} AttachOk(st: Store, l: NvList, p: NvPair)
    requires Consistent(st, map[]) && l in st.lists && p in st.pairs && st.pairs[p].list == null && l in st.depths
    requires NameFree(st, l, st.pairs[p].name)
    requires forall k :: k in KidsOf(st.pairs[p].value) ==> k in st.depths && st.depths[l] < st.depths[k]
    ensures Consistent(Attached(st, l, p), Only(l, PairBytes(st, p)))
  {
    var st', offs := Attached(st, l, p), Only(l, PairBytes(st, p));
    forall x | x in st'.lists ensures ListOk(st', x, if x in offs then offs[x] else 0) { AttachList(st, l, p, x); }
    forall q | q in st'.pairs ensures PairOk(st', q) { AttachPair(st, l, p, q); }
  }

  // ---- making room below a list: the lists under a pair are pushed deeper

  ghost function Deepened(st: Store, U: set<NvList>, k: nat): Store {
    st.(depths := map l | l in st.depths :: st.depths[l] + if l in U then k else 0)
  }

  /** U holds the lists of p and everything below them. */
  ghost predicate Below(st: Store, p: NvPair, U: set<NvList>) {
    && p in st.pairs
    && (forall k :: k in KidsOf(st.pairs[p].value) ==> k in U)
    && Closed(st, U)
  }

  /** With a list, U holds the lists of its pairs. */
  ghost predicate Closed(st: Store, U: set<NvList>) {
    forall q, k :: q in st.pairs && st.pairs[q].list in U && k in KidsOf(st.pairs[q].value) ==> k in U
  }

  lemma {:induction false} DeepenOk(st: Store, U: set<NvList>, k: nat)
    requires Consistent(st, map[]) && Closed(st, U)
    ensures Consistent(Deepened(st, U, k), map[])
  {
    var st' := Deepened(st, U, k);
    forall x | x in st'.lists ensures ListOk(st', x, 0) {
      assert ListOk(st, x, 0);
      forall q ensures PairBytes(st', q) == PairBytes(st, q) {
        if q in st.pairs { KidsSizeSame(st, st', KidsOf(st.pairs[q].value)); }
      }
      HeadSizeSame(st, st', st.lists[x].head);
    }
    forall q | q in st'.pairs ensures PairOk(st', q) {
      assert PairOk(st, q);
      forall j | 0 <= j < |KidsOf(st.pairs[q].value)| ensures KidOk(st', q, j) {
        assert KidOk(st, q, j);
        assert st.pairs[q].list in U ==> KidsOf(st.pairs[q].value)[j] in U;
      }
    }
  }

  // ---- lookup and move

  const EEXIST: int := 17

  function TypeOf(v: Payload): nat {
    match v
    case Scal(s) => ScalarType(s)
    case Kid(_) => T_NVLIST
    case Kids(_) => T_NVLIST_ARRAY
  }

  predicate Matches(p: NvPair, flags: byte, typ: nat, name: seq<byte>)
    reads p
  {
    (typ == 0 || TypeOf(p.value) == typ) && SameName(flags, p.name, name)
  }

  /** The pair has that name: the very same, or up to the case of letters where the flags (1 and 3) say so. */
  predicate Called(p: NvPair, flags: nat, name: seq<byte>)
    reads p
  {
    if flags == 0 || flags == 2 then p.name == name else SameLetters(p.name, name)
  }

  ghost predicate FirstMatch(nvl: NvList, i: nat, typ: nat, name: seq<byte>)
    requires i < |nvl.head|
    reads nvl, nvl.head
  {
    Matches(nvl.head[i], nvl.flags, typ, name) && forall j :: 0 <= j < i ==> !Matches(nvl.head[j], nvl.flags, typ, name)
  }

  /** The first pair with the name, and the type unless it is 0. */
  method Find(nvl: NvList, typ: nat, name: seq<byte>) returns (p: NvPair?)
    ensures p == null ==> forall i :: 0 <= i < |nvl.head| ==> !Matches(nvl.head[i], nvl.flags, typ, name)
    ensures p != null ==> exists i :: 0 <= i < |nvl.head| && nvl.head[i] == p && FirstMatch(nvl, i, typ, name)
    ensures p != null && nvl.flags < 4 ==> Called(p, nvl.flags, name) && (typ == 0 || TypeOf(p.value) == typ)
    ensures p == null && nvl.flags < 4 ==> forall i :: 0 <= i < |nvl.head| ==>
      !(Called(nvl.head[i], nvl.flags, name) && (typ == 0 || TypeOf(nvl.head[i].value) == typ))
  {
    hide SameName, SameLetters;
    for i := 0 to |nvl.head|
      invariant forall j :: 0 <= j < i ==> !Matches(nvl.head[j], nvl.flags, typ, name)
      invariant nvl.flags < 4 ==> forall j :: 0 <= j < i ==>
        !(Called(nvl.head[j], nvl.flags, name) && (typ == 0 || TypeOf(nvl.head[j].value) == typ))
    {
      if nvl.flags < 4 { SameNameIs(nvl.flags, nvl.head[i].name, name); }
      if Matches(nvl.head[i], nvl.flags, typ, name) { return nvl.head[i]; }
    }
    return null;
  }

  lemma {:induction false} HeadPairs(S: Objs, l: NvList)
    requires Inv(S) && l in S.ls
    ensures Snap(S).lists[l].head == l.head && Snap(S).lists[l].flags == l.flags
    ensures forall i :: 0 <= i < |l.head| ==> l.head[i] in S.ps && NameOf(Snap(S), l.head[i]) == l.head[i].name
  {
    assert ListOk(Snap(S), l, 0);
  }

  method NameIsFree(nvl: NvList, name: seq<byte>, ghost S: Objs) returns (free: bool)
    requires Inv(S) && nvl in S.ls
    ensures free == NameFree(Snap(S), nvl, name)
  {
    HeadPairs(S, nvl);
    hide Inv, Snap;
    if NoUnique(nvl.flags) { return true; }
    var p := Find(nvl, 0, name);
    return p == null;
  }

  ghost method PushDown(ls: set<NvList>, k: nat, U: set<NvList>)
    modifies ls`depth
    ensures SnapDepths(ls) == map l | l in ls :: old(SnapDepths(ls))[l] + if l in U then k else 0
  {
    forall l | l in ls && l in U { l.depth := l.depth + k; }
  }

  /** Push the lists U deeper, so that they may hang below another list. */
  ghost method Deepen(k: nat, S: Objs, U: set<NvList>)
    requires Inv(S) && Closed(Snap(S), U)
    modifies S.ls`depth
    ensures Inv(S) && Snap(S) == old(Deepened(Snap(S), U, k))
  {
    hide Consistent, Closed, SnapDepths, SnapLists, SnapSizes, SnapPairs;
    var st := Snap(S);
    DeepenOk(st, U, k);
    PushDown(S.ls, k, U);
    assert Snap(S).depths == Deepened(st, U, k).depths;
    assert Snap(S) == Deepened(st, U, k);
  }

  // ---- single field writes, seen on the snapshot

  method PutHead(l: NvList, head: seq<NvPair>, ghost ls: set<NvList>)
    requires l in ls
    modifies l`head
    ensures SnapLists(ls) == old(SnapLists(ls))[l := old(SnapLists(ls))[l].(head := head)]
    ensures l.head == head
  {
    l.head := head;
  }

  method PutError(l: NvList, error: int, ghost ls: set<NvList>)
    requires l in ls
    modifies l`error
    ensures SnapLists(ls) == old(SnapLists(ls))[l := old(SnapLists(ls))[l].(error := error)]
    ensures l.error == error
  {
    l.error := error;
  }

  method PutOwner(p: NvPair, list: NvList?, ghost ps: set<NvPair>)
    requires p in ps
    modifies p`list
    ensures SnapPairs(ps) == old(SnapPairs(ps))[p := old(SnapPairs(ps))[p].(list := list)]
    ensures p.list == list
  {
    p.list := list;
  }

  method Hook(nvl: NvList, p: NvPair, ghost S: Objs)
    requires nvl in S.ls && p in S.ps
    modifies nvl`head, p`list
    ensures Snap(S) == Attached(old(Snap(S)), nvl, p)
  {
    SnapList(S, nvl);
    hide SnapLists, SnapPairs, SnapSizes, SnapDepths;
    PutHead(nvl, nvl.head + [p], S.ls);
    PutOwner(p, nvl, S.ps);
  }

  ghost function WithError(st: Store, l: NvList, e: int): Store
    requires l in st.lists
  {
    st.(lists := st.lists[l := st.lists[l].(error := e)])
  }

  lemma {:induction false} ErrorOk(st: Store, offs: map<NvList, int>, l: NvList, e: int)
    requires Consistent(st, offs) && l in st.lists
    ensures Consistent(WithError(st, l, e), offs)
  {
    hide PairBytes, HeadSize;
    var st' := WithError(st, l, e);
    forall q | q in st.pairs ensures PairOk(st', q) && PairBytes(st', q) == PairBytes(st, q) {
      assert PairOk(st, q);
      KeepAll(st, offs, st', q);
    }
    forall x | x in st'.lists ensures ListOk(st', x, if x in offs then offs[x] else 0) {
      var off := if x in offs then offs[x] else 0;
      assert ListOk(st, x, off);
      ListKeeps(st, st', x, off);
    }
  }

  lemma {:induction false} KeepAll(st: Store, offs: map<NvList, int>, st': Store, q: NvPair)
    requires Consistent(st, offs) && SamePair(st, st', q)
    requires forall x :: x in st.lists ==> SameList(st, st', x)
    ensures PairOk(st', q) && PairBytes(st', q) == PairBytes(st, q)
  {
    assert PairOk(st, q);
    var ks := KidsOf(st.pairs[q].value);
    forall k | k in ks ensures k in st.lists {
      var j :| 0 <= j < |ks| && ks[j] == k;
      assert KidOk(st, q, j);
    }
    PairKeeps(st, st', q);
  }

  method SetError(nvl: NvList, e: int, ghost S: Objs)
    requires Inv(S) && nvl in S.ls
    modifies nvl`error
    ensures Inv(S) && Snap(S) == WithError(old(Snap(S)), nvl, e)
  {
    hide Consistent, SnapLists, SnapPairs, SnapSizes, SnapDepths;
    ErrorOk(Snap(S), map[], nvl, e);
    PutError(nvl, e, S.ls);
  }

  lemma {:induction false} DeepEnough(st: Store, l: NvList, p: NvPair, U: set<NvList>)
    requires Consistent(st, map[]) && l in st.lists && p in st.pairs && Below(st, p, U) && l !in U && l in st.depths
    ensures var st' := Deepened(st, U, st.depths[l] + 1);
      forall k :: k in KidsOf(st.pairs[p].value) ==> k in st'.depths && st'.depths[l] < st'.depths[k]
  {
    assert PairOk(st, p);
    var ks := KidsOf(st.pairs[p].value);
    forall k | k in ks ensures k in st.depths {
      var j :| 0 <= j < |ks| && ks[j] == k;
      assert KidOk(st, p, j);
    }
  }

  /** Deepen, then attach: the list is short of exactly the pair's size. */
  lemma {:induction false} MoveOk(st: Store, l: NvList, p: NvPair, U: set<NvList>)
    requires Consistent(st, map[]) && l in st.lists && p in st.pairs && l in st.depths && st.pairs[p].list == null
    requires Below(st, p, U) && l !in U && NameFree(st, l, st.pairs[p].name)
    ensures var st' := Attached(Deepened(st, U, st.depths[l] + 1), l, p);
      && st'.lists == Attached(st, l, p).lists && st'.pairs == Attached(st, l, p).pairs
      && Consistent(st', Only(l, PairBytes(st', p)))
  {
    hide Consistent, Closed, PairBytes;
    DeepEnough(st, l, p, U);
    var k := st.depths[l] + 1;
    DeepenOk(st, U, k);
    var st1 := Deepened(st, U, k);
    assert forall q :: NameOf(st1, q) == NameOf(st, q);
    AttachOk(st1, l, p);
    AttachBytes(st1, l, p, p);
  }

  lemma {:induction false} KidsKnown(S: Objs, offs: map<NvList, int>, p: NvPair)
    requires Consistent(Snap(S), offs) && p in S.ps
    ensures forall i :: 0 <= i < |KidsOf(p.value)| ==> KidsOf(p.value)[i] in S.ls
  {
    assert PairOk(Snap(S), p);
    forall i | 0 <= i < |KidsOf(p.value)| ensures KidsOf(p.value)[i] in S.ls { assert KidOk(Snap(S), p, i); }
  }

  /** Charge p to nvl when nvl is short of exactly p. */
  method Settle(nvl: NvList, p: NvPair, ghost S: Objs)
    requires nvl in S.ls && p in S.ps && Consistent(Snap(S), Only(nvl, PairBytes(Snap(S), p)))
    modifies S.ls`datasize
    ensures Inv(S) && Snap(S).(sizes := old(Snap(S)).sizes) == old(Snap(S))
  {
    hide Consistent, SnapLists, SnapSizes, SnapDepths, SnapPairs, PairBytes, PairNow, KidsOf;
    ghost var n := PairBytes(Snap(S), p);
    KidsKnown(S, Only(nvl, n), p);
    PairNowSnap(p, S);
    UpdateSize(nvl, p, 1, S, Only(nvl, n));
    Settled(Snap(S), nvl, n, -n);
  }

  method Join(nvl: NvList, p: NvPair, ghost S: Objs, ghost U: set<NvList>)
    requires Inv(S) && nvl in S.ls && p in S.ps && p.list == null
    requires Below(Snap(S), p, U) && nvl !in U && NameFree(Snap(S), nvl, p.name)
    modifies S.ls`head, S.ls`datasize, S.ls`depth, p`list
    ensures Inv(S)
    ensures Snap(S).lists == Attached(old(Snap(S)), nvl, p).lists
    ensures Snap(S).pairs == Attached(old(Snap(S)), nvl, p).pairs
  {
    hide Consistent, Closed, SnapLists, SnapSizes, SnapDepths, SnapPairs, NameFree, PairBytes, Deepened, Attached;
    SnapList(S, nvl);
    SnapPair(S, p);
    MoveOk(Snap(S), nvl, p, U);
    Deepen(nvl.depth + 1, S, U);
    Hook(nvl, p, S);
    Settle(nvl, p, S);
  }

  /** Put a detached pair at the end of a list. U is everything below the pair. */
  method MovePair(nvl: NvList, p: NvPair, ghost S: Objs, ghost U: set<NvList>) returns (ok: bool)
    requires Inv(S) && nvl in S.ls && p in S.ps && p.list == null
    requires Below(Snap(S), p, U) && nvl !in U
    modifies S.ls`head, S.ls`datasize, S.ls`depth, S.ls`error, p`list
    ensures Inv(S)
    ensures ok == (old(nvl.error) == 0 && NameFree(old(Snap(S)), nvl, p.name))
    ensures ok ==>
      Snap(S).lists == Attached(old(Snap(S)), nvl, p).lists && Snap(S).pairs == Attached(old(Snap(S)), nvl, p).pairs
    ensures !ok ==> Snap(S) == WithError(old(Snap(S)), nvl, if old(nvl.error) == 0 then EEXIST else old(nvl.error))
  {
    hide Consistent, Below, SnapLists, SnapSizes, SnapDepths, SnapPairs, NameFree, Attached;
    SnapList(S, nvl);
    if nvl.error != 0 {
      return false;
    }
    var free := NameIsFree(nvl, p.name, S);
    if !free {
      SetError(nvl, EEXIST, S);
      return false;
    }
    Join(nvl, p, S, U);
    return true;
  }
}

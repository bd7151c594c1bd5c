/** Creating lists and pairs, removing pairs, appending to arrays. */
module NvEdit {
  import opened Bytes
  import opened NvTree
  import opened NvHeap
  import opened NvOps

  lemma {:induction false} KidsInStore(st: Store, offs: map<NvList, int>, q: NvPair)
    requires Consistent(st, offs) && q in st.pairs
    ensures forall k :: k in KidsOf(st.pairs[q].value) ==> k in st.lists && k in st.depths && st.lists[k].parent == q
  {
    assert PairOk(st, q);
    var ks := KidsOf(st.pairs[q].value);
    forall k | k in ks ensures k in st.lists && k in st.depths && st.lists[k].parent == q {
      var j :| 0 <= j < |ks| && ks[j] == k;
      assert KidOk(st, q, j);
    }
  }

  // ---- a new, empty list

  ghost function AddedList(st: Store, l: NvList, flags: byte): Store {
    Store(st.lists[l := ListRec(0, flags, false, null, null, [])], st.pairs, st.sizes[l := HDR], st.depths[l := 0])
  }

  lemma {:induction false} AddedKeeps(st: Store, l: NvList, flags: byte)
    requires Consistent(st, map[]) && l !in st.lists
    ensures forall x :: x in st.lists ==> SameList(st, AddedList(st, l, flags), x)
  {
    hide PairOk, HeadSize, UniqueNames;
    assert forall x :: x in st.lists ==> ListOk(st, x, 0);
  }

  lemma {:induction false} AddedListOk(st: Store, l: NvList, flags: byte)
    requires Consistent(st, map[]) && l !in st.lists && flags < 4
    ensures Consistent(AddedList(st, l, flags), map[])
  {
    hide PairBytes, HeadSize, SameList, UniqueNames;
    var st' := AddedList(st, l, flags);
    AddedKeeps(st, l, flags);
    forall q | q in st.pairs ensures PairOk(st', q) && PairBytes(st', q) == PairBytes(st, q) {
      KeepAll(st, map[], st', q);
    }
    forall x | x in st'.lists ensures ListOk(st', x, 0) {
      if x == l {
        NoPairs(st');
        NoNames(st', flags);
      } else {
        assert ListOk(st, x, 0);
        ListKeeps(st, st', x, 0);
      }
    }
  }

  lemma {:induction false} NoNames(st: Store, flags: byte)
    ensures UniqueNames(st, flags, [])
  {
  }

  lemma {:induction false} NoPairs(st: Store)
    ensures HeadSize(st, []) == 0
  {
  }

  // ---- a new pair that takes over root lists

  function NextIn(ks: seq<NvList>, l: NvList): NvList? {
    if |ks| <= 1 then null else if ks[0] == l then ks[1] else NextIn(ks[1..], l)
  }

  function NextAt(ks: seq<NvList>, j: nat): NvList? {
    if j + 1 < |ks| then ks[j + 1] else null
  }

  lemma {:induction false} NextInAt(ks: seq<NvList>, j: nat)
    requires j < |ks| && Distinct(ks)
    ensures NextIn(ks, ks[j]) == NextAt(ks, j)
  {
    if |ks| > 1 && j > 0 { NextInAt(ks[1..], j - 1); }
  }

  ghost function TakenOver(lists: map<NvList, ListRec>, p: NvPair, v: Payload): map<NvList, ListRec> {
    map l | l in lists ::
      if l in KidsOf(v) then lists[l].(parent := p, inArray := v.Kids?, next := NextIn(KidsOf(v), l)) else lists[l]
  }

  ghost function Adopted(st: Store, p: NvPair, r: PairRec): Store {
    st.(lists := TakenOver(st.lists, p, r.value), pairs := st.pairs[p := r])
  }

  /** Lists that a new pair may take over: roots, no list twice. */
  ghost predicate Adoptable(st: Store, v: Payload) {
    && Distinct(KidsOf(v)) && (v.Kids? ==> v.kids != []) && (v.Scal? ==> WfScalar(v.s))
    && forall k :: k in KidsOf(v) ==> k in st.lists && st.lists[k].parent == null
  }

  ghost function NewRec(name: seq<byte>, v: Payload): PairRec {
    PairRec(name, v, if v.Scal? then ScalarSize(v.s) else 0, null)
  }

  lemma {:induction false} AdoptedOk(st: Store, p: NvPair, name: seq<byte>, v: Payload)
    requires Consistent(st, map[]) && p !in st.pairs && ValidName(name) && Adoptable(st, v)
    ensures Consistent(Adopted(st, p, NewRec(name, v)), map[])
  {
    var st' := Adopted(st, p, NewRec(name, v));
    forall x | x in st'.lists ensures ListOk(st', x, 0) { AdoptedList(st, p, name, v, x); }
    forall q | q in st'.pairs ensures PairOk(st', q) {
      if q == p {
        AdoptedNew(st, p, name, v);
      } else {
        assert PairOk(st, q);
        KidsInStore(st, map[], q);
        forall j | 0 <= j < |KidsOf(st.pairs[q].value)| ensures KidOk(st', q, j) { assert KidOk(st, q, j); }
      }
    }
  }

  lemma {:induction false} AdoptedNew(st: Store, p: NvPair, name: seq<byte>, v: Payload)
    requires Consistent(st, map[]) && p !in st.pairs && ValidName(name) && Adoptable(st, v)
    ensures PairOk(Adopted(st, p, NewRec(name, v)), p)
  {
    var st', ks := Adopted(st, p, NewRec(name, v)), KidsOf(v);
    forall j | 0 <= j < |ks| ensures KidOk(st', p, j) {
      assert ks[j] in ks;
      assert ListOk(st, ks[j], 0);
      NextInAt(ks, j);
    }
  }

  lemma {:induction false} AdoptedList(st: Store, p: NvPair, name: seq<byte>, v: Payload, x: NvList)
    requires Consistent(st, map[]) && p !in st.pairs && ValidName(name) && Adoptable(st, v) && x in st.lists
    ensures ListOk(Adopted(st, p, NewRec(name, v)), x, 0)
  {
    hide HeadSize, PairBytes, KidsSize;
    var st', head := Adopted(st, p, NewRec(name, v)), st.lists[x].head;
    assert ListOk(st, x, 0);
    forall i | 0 <= i < |head| ensures PairBytes(st', head[i]) == PairBytes(st, head[i]) {
      BytesKeep(st, st', head[i]);
    }
    HeadSizeSame(st, st', head);
  }

  // ---- the same on objects

  method NewList(flags: byte, ghost S: Objs) returns (l: NvList, ghost S': Objs)
    requires Inv(S) && flags < 4
    ensures fresh(l) && S' == Objs(S.ls + {l}, S.ps)
    ensures Inv(S') && Snap(S') == AddedList(old(Snap(S)), l, flags)
  {
    hide Consistent;
    ghost var st := Snap(S);
    l := new NvList(flags);
    S' := Objs(S.ls + {l}, S.ps);
    assert SnapLists(S'.ls) == AddedList(st, l, flags).lists;
    assert SnapSizes(S'.ls) == AddedList(st, l, flags).sizes;
    assert SnapDepths(S'.ls) == AddedList(st, l, flags).depths;
    AddedListOk(st, l, flags);
  }

  // ---- pairs

  /** Give array elements their links: each to the next one, all marked as in an array. */
  method LinkElems(ks: seq<NvList>)
    requires ks != [] && Distinct(ks) && forall j :: 0 <= j < |ks| ==> ks[j].arrayNext == null
    modifies (set k | k in ks)`arrayNext, (set k | k in ks)`inArray
    ensures forall j :: 0 <= j < |ks| ==> ks[j].inArray && ks[j].arrayNext == NextAt(ks, j)
  {
    for ii := 1 to |ks|
      invariant forall j :: 0 <= j < ii - 1 ==> ks[j].inArray && ks[j].arrayNext == ks[j + 1]
      invariant forall j :: ii - 1 <= j < |ks| ==> ks[j].arrayNext == null
    {
      ks[ii - 1].arrayNext := ks[ii];
      ks[ii - 1].inArray := true;
    }
    ks[|ks| - 1].inArray := true;
  }

  method SetParents(ks: seq<NvList>, p: NvPair)
    modifies (set k | k in ks)`parent
    ensures forall j :: 0 <= j < |ks| ==> ks[j].parent == p
  {
    for ii := 0 to |ks|
      invariant forall j :: 0 <= j < ii ==> ks[j].parent == p
    {
      ks[ii].parent := p;
    }
  }

  method TakeKids(ks: seq<NvList>, p: NvPair, ghost ls: set<NvList>)
    requires ks != [] && Distinct(ks) && forall j :: 0 <= j < |ks| ==> ks[j] in ls && ks[j].arrayNext == null
    modifies (set k | k in ks)`arrayNext, (set k | k in ks)`inArray, (set k | k in ks)`parent
    ensures SnapLists(ls) == TakenOver(old(SnapLists(ls)), p, Kids(ks))
  {
    hide NextIn, NextAt;
    ghost var was := SnapLists(ls);
    LinkElems(ks);
    SetParents(ks, p);
    forall l | l in ls ensures SnapLists(ls)[l] == TakenOver(was, p, Kids(ks))[l] {
      if l in ks {
        var j :| 0 <= j < |ks| && ks[j] == l;
        NextInAt(ks, j);
      }
    }
  }

  method TakeKid(k: NvList, p: NvPair, ghost ls: set<NvList>)
    requires k in ls && k.arrayNext == null && !k.inArray
    modifies k`parent
    ensures SnapLists(ls) == TakenOver(old(SnapLists(ls)), p, Kid(k))
  {
    k.parent := p;
  }

  method AllocPair(name: seq<byte>, v: Payload, ghost S: Objs) returns (p: NvPair, ghost S': Objs)
    ensures fresh(p) && S' == Objs(S.ls, S.ps + {p})
    ensures SnapPairs(S'.ps) == old(SnapPairs(S.ps))[p := NewRec(name, v)]
  {
    p := new NvPair(name, v, if v.Scal? then ScalarSize(v.s) else 0);
    S' := Objs(S.ls, S.ps + {p});
  }

  lemma {:induction false} FreeRoots(S: Objs, v: Payload)
    requires Inv(S) && Adoptable(Snap(S), v)
    ensures forall k :: k in KidsOf(v) ==> k in S.ls && k.parent == null && k.arrayNext == null && !k.inArray
    ensures v.Kid? ==> v.kid in S.ls && v.kid.arrayNext == null && !v.kid.inArray
    ensures v.Kids? ==> v.kids != [] && Distinct(v.kids)
    ensures v.Kids? ==> forall j :: 0 <= j < |v.kids| ==> v.kids[j] in S.ls && v.kids[j].arrayNext == null
  {
    forall k | k in KidsOf(v) ensures k in S.ls && k.parent == null && k.arrayNext == null && !k.inArray {
      assert ListOk(Snap(S), k, 0);
    }
    if v.Kid? { assert v.kid in KidsOf(v); }
  }

  lemma {:induction false} NoneTaken(lists: map<NvList, ListRec>, p: NvPair, s: Scalar)
    ensures TakenOver(lists, p, Scal(s)) == lists
  {
  }

  method TakeAll(v: Payload, p: NvPair, ghost ls: set<NvList>)
    requires v.Kid? ==> v.kid in ls && v.kid.arrayNext == null && !v.kid.inArray
    requires v.Kids? ==> v.kids != [] && Distinct(v.kids)
    requires v.Kids? ==> forall j :: 0 <= j < |v.kids| ==> v.kids[j] in ls && v.kids[j].arrayNext == null
    modifies (set k | k in KidsOf(v))`arrayNext, (set k | k in KidsOf(v))`inArray, (set k | k in KidsOf(v))`parent
    ensures SnapLists(ls) == TakenOver(old(SnapLists(ls)), p, v)
  {
    hide SnapLists, TakenOver;
    match v {
      case Scal(s) => NoneTaken(SnapLists(ls), p, s);
      case Kid(k) => TakeKid(k, p, ls);
      case Kids(ks) => TakeKids(ks, p, ls);
    }
  }

  /** A pair object for v; lists in v become its own. */
  method NewPair(name: seq<byte>, v: Payload, ghost S: Objs) returns (p: NvPair, ghost S': Objs)
    requires Inv(S) && ValidName(name) && Adoptable(Snap(S), v)
    modifies (set k | k in KidsOf(v))`arrayNext, (set k | k in KidsOf(v))`inArray, (set k | k in KidsOf(v))`parent
    ensures fresh(p) && S' == Objs(S.ls, S.ps + {p})
    ensures Inv(S') && Snap(S') == Adopted(old(Snap(S)), p, NewRec(name, v))
  {
    hide Consistent, SnapLists, SnapPairs, SnapSizes, SnapDepths, TakenOver, Adoptable, ScalarSize;
    ghost var st := Snap(S);
    FreeRoots(S, v);
    p, S' := AllocPair(name, v, S);
    AdoptedOk(st, p, name, v);
    assert SnapLists(S.ls) == st.lists && SnapSizes(S.ls) == st.sizes && SnapDepths(S.ls) == st.depths;
    TakeAll(v, p, S.ls);
    assert SnapPairs(S'.ps) == st.pairs[p := NewRec(name, v)];
    assert SnapSizes(S.ls) == st.sizes;
    assert SnapDepths(S.ls) == st.depths;
  }

  // ---- removing a pair

  ghost function Cut<T>(s: seq<T>, i: nat): seq<T>
    requires i < |s|
  {
    s[..i] + s[i + 1..]
  }

  ghost function Released(lists: map<NvList, ListRec>, v: Payload): map<NvList, ListRec> {
    map l | l in lists :: if l in KidsOf(v) then lists[l].(parent := null, inArray := false, next := null) else lists[l]
  }

  ghost function Detached(st: Store, l: NvList, i: nat): Store
    requires l in st.lists && i < |st.lists[l].head| && st.lists[l].head[i] in st.pairs
  {
    var p := st.lists[l].head[i];
    st.(lists := CutLists(st.lists, st.pairs[p].value, l, i), pairs := st.pairs - {p})
  }

  ghost function CutLists(lists: map<NvList, ListRec>, v: Payload, l: NvList, i: nat): map<NvList, ListRec>
    requires l in lists && i < |lists[l].head|
  {
    var lists' := Released(lists, v);
    lists'[l := lists'[l].(head := Cut(lists'[l].head, i))]
  }

  lemma {:induction false} CutSize(st: Store, ps: seq<NvPair>, i: nat)
    requires i < |ps|
    ensures HeadSize(st, Cut(ps, i)) == HeadSize(st, ps) - PairBytes(st, ps[i])
  {
    HeadSizeConcat(st, ps[..i], ps[i + 1..]);
    HeadSizeConcat(st, ps[..i], ps[i..]);
    assert ps[..i] + ps[i..] == ps && ps[i..][1..] == ps[i + 1..];
  }

  lemma {:induction false} CutIndex<T>(s: seq<T>, i: nat)
    requires i < |s|
    ensures forall j :: 0 <= j < |s| - 1 ==> Cut(s, i)[j] == s[if j < i then j else j + 1]
    ensures forall x :: x in s && x != s[i] ==> x in Cut(s, i)
  {
    forall x | x in s && x != s[i] ensures x in Cut(s, i) {
      var j :| 0 <= j < |s| && s[j] == x;
      assert Cut(s, i)[if j < i then j else j - 1] == x;
    }
  }

  ghost predicate Owned(st: Store, l: NvList, i: nat) {
    l in st.lists && l in st.depths && i < |st.lists[l].head| && st.lists[l].head[i] in st.pairs
  }

  /** l holds p, so l is not one of p's own lists, and kids of other pairs are not p's. */
  lemma {:induction false} Apart(st: Store, l: NvList, i: nat)
    requires Consistent(st, map[]) && Owned(st, l, i)
    ensures var p := st.lists[l].head[i]; var ks := KidsOf(st.pairs[p].value);
      && st.pairs[p].list == l && l !in ks
      && (forall k :: k in ks ==> k in st.lists && st.lists[k].parent == p)
      && (forall x :: x in st.lists && st.lists[x].parent == p ==> x in ks)
      && (forall q, k :: q in st.pairs && q != p && k in KidsOf(st.pairs[q].value) ==> k !in ks)
      && (forall x, j :: x in st.lists && x != l && 0 <= j < |st.lists[x].head| ==> st.lists[x].head[j] != p)
  {
    var p := st.lists[l].head[i];
    assert ListOk(st, l, 0);
    KidsInStore(st, map[], p);
    var ks := KidsOf(st.pairs[p].value);
    forall k | k in ks ensures k != l {
      assert PairOk(st, p);
      var j :| 0 <= j < |ks| && ks[j] == k;
      assert KidOk(st, p, j);
    }
    forall x | x in st.lists && st.lists[x].parent == p ensures x in ks { assert ListOk(st, x, 0); }
    forall q, k | q in st.pairs && q != p && k in KidsOf(st.pairs[q].value)
      ensures k !in ks
    {
      KidsInStore(st, map[], q);
    }
    forall x, j | x in st.lists && x != l && 0 <= j < |st.lists[x].head|
      ensures st.lists[x].head[j] != p
    {
      assert ListOk(st, x, 0);
    }
  }

  lemma {:induction false} DetachBytes(st: Store, l: NvList, i: nat, q: NvPair)
    requires Owned(st, l, i) && q in st.pairs && q != st.lists[l].head[i]
    ensures PairBytes(Detached(st, l, i), q) == PairBytes(st, q)
  {
    BytesKeep(st, Detached(st, l, i), q);
  }

  lemma {:induction false} DetachPair(st: Store, l: NvList, i: nat, q: NvPair)
    requires Consistent(st, map[]) && Owned(st, l, i) && q in st.pairs && q != st.lists[l].head[i]
    ensures PairOk(Detached(st, l, i), q)
  {
    hide ListOk, ValidName, WfScalar, ScalarSize;
    var st', ks := Detached(st, l, i), KidsOf(st.pairs[q].value);
    Apart(st, l, i);
    CutIndex(st.lists[l].head, i);
    assert PairOk(st, q);
    forall j | 0 <= j < |ks| ensures KidOk(st', q, j) {
      assert KidOk(st, q, j) && ks[j] in ks;
    }
  }

  lemma {:induction false} CutHead(st: Store, st': Store, l: NvList, i: nat)
    requires l in st.lists && i < |st.lists[l].head| && Distinct(st.lists[l].head)
    requires UniqueNames(st, st.lists[l].flags, st.lists[l].head)
    requires forall j :: 0 <= j < |st.lists[l].head| && j != i ==>
      SamePair(st, st', st.lists[l].head[j]) &&
      PairBytes(st', st.lists[l].head[j]) == PairBytes(st, st.lists[l].head[j])
    ensures var head := Cut(st.lists[l].head, i);
      && Distinct(head) && UniqueNames(st', st.lists[l].flags, head)
      && HeadSize(st', head) == HeadSize(st, st.lists[l].head) - PairBytes(st, st.lists[l].head[i])
  {
    hide PairBytes, HeadSize;
    CutIndex(st.lists[l].head, i);
    CutSize(st, st.lists[l].head, i);
    HeadSizeSame(st, st', Cut(st.lists[l].head, i));
  }

  lemma {:induction false} DetachOwner(st: Store, l: NvList, i: nat)
    requires Consistent(st, map[]) && Owned(st, l, i)
    ensures ListOk(Detached(st, l, i), l, -PairBytes(st, st.lists[l].head[i]))
  {
    hide PairBytes, HeadSize, UniqueNames;
    var st', head := Detached(st, l, i), st.lists[l].head;
    Apart(st, l, i);
    assert ListOk(st, l, 0);
    forall q | q in st.pairs && q != head[i] ensures PairBytes(st', q) == PairBytes(st, q) { DetachBytes(st, l, i, q); }
    CutHead(st, st', l, i);
    CutIndex(head, i);
  }

  lemma {:induction false} DetachOther(st: Store, l: NvList, i: nat, x: NvList)
    requires Consistent(st, map[]) && Owned(st, l, i) && x in st.lists && x != l
    ensures ListOk(Detached(st, l, i), x, 0)
  {
    hide PairBytes, HeadSize, SameName, NoUnique, PairOk;
    var st', p, head := Detached(st, l, i), st.lists[l].head[i], st.lists[x].head;
    Apart(st, l, i);
    assert ListOk(st, x, 0);
    forall j | 0 <= j < |head| ensures SamePair(st, st', head[j]) && PairBytes(st', head[j]) == PairBytes(st, head[j]) {
      DetachBytes(st, l, i, head[j]);
    }
    HeadSizeSame(st, st', head);
    assert UniqueNames(st', st.lists[x].flags, head) by {
      assert forall j :: 0 <= j < |head| ==> SamePair(st, st', head[j]);
    }
    assert st'.lists[x].head == head && st'.lists[x].flags == st.lists[x].flags;
  }

  lemma {:induction false} DetachKeys(st: Store, l: NvList, i: nat)
    requires Owned(st, l, i)
    ensures Detached(st, l, i).lists.Keys == st.lists.Keys
    ensures Detached(st, l, i).pairs.Keys == st.pairs.Keys - {st.lists[l].head[i]}
  {
  }

  /** Taking a pair out leaves its list's cached size too large by exactly that pair. */
  lemma {:induction false} DetachOk(st: Store, l: NvList, i: nat)
    requires Consistent(st, map[]) && Owned(st, l, i)
    ensures Consistent(Detached(st, l, i), Only(l, -PairBytes(st, st.lists[l].head[i])))
  {
    hide PairBytes, Detached, ListOk, PairOk;
    DetachKeys(st, l, i);
    var st', offs := Detached(st, l, i), Only(l, -PairBytes(st, st.lists[l].head[i]));
    forall x | x in st'.lists ensures ListOk(st', x, if x in offs then offs[x] else 0) {
      if x == l { DetachOwner(st, l, i); } else { DetachOther(st, l, i, x); }
    }
    forall q | q in st'.pairs ensures PairOk(st', q) { DetachPair(st, l, i, q); }
  }

  method ReleaseKids(v: Payload, ghost ls: set<NvList>)
    requires forall k :: k in KidsOf(v) ==> k in ls
    requires v.Kid? ==> v.kid.arrayNext == null && !v.kid.inArray
    modifies (set k | k in KidsOf(v))`arrayNext, (set k | k in KidsOf(v))`inArray, (set k | k in KidsOf(v))`parent
    ensures SnapLists(ls) == Released(old(SnapLists(ls)), v)
  {
    match v {
      case Scal(_) =>
      case Kid(k) => k.parent := null;
      case Kids(ks) =>
        for i := 0 to |ks|
          invariant forall j :: 0 <= j < i ==> ks[j].arrayNext == null && !ks[j].inArray && ks[j].parent == null
        {
          ks[i].arrayNext, ks[i].inArray, ks[i].parent := null, false, null;
        }
    }
  }

  method IndexOf(nvl: NvList, p: NvPair) returns (i: nat)
    requires p in nvl.head
    ensures i < |nvl.head| && nvl.head[i] == p
  {
    i := 0;
    while nvl.head[i] != p
      invariant i < |nvl.head| && p in nvl.head[i..]
      decreases |nvl.head| - i
    {
      assert p in nvl.head[i + 1..];
      i := i + 1;
    }
  }

  lemma {:induction false} SingleKid(S: Objs, p: NvPair)
    requires Inv(S) && p in S.ps
    ensures p.value.Kid? ==> p.value.kid.arrayNext == null && !p.value.kid.inArray
  {
    assert PairOk(Snap(S), p);
    if p.value.Kid? { assert KidOk(Snap(S), p, 0); }
  }

  lemma {:induction false} OwnedHere(S: Objs, nvl: NvList, p: NvPair)
    requires Inv(S) && nvl in S.ls && p in S.ps && p.list == nvl
    ensures p in nvl.head && Snap(S).lists[nvl].head == nvl.head && Snap(S).pairs[p].value == p.value
    ensures forall k :: k in KidsOf(p.value) ==> k in S.ls
  {
    assert PairOk(Snap(S), p);
    KidsInStore(Snap(S), map[], p);
  }

  method UnhookLists(nvl: NvList, v: Payload, i: nat, ghost ls: set<NvList>)
    requires nvl in ls && i < |nvl.head| && nvl !in KidsOf(v) && forall k :: k in KidsOf(v) ==> k in ls
    requires v.Kid? ==> v.kid.arrayNext == null && !v.kid.inArray
    modifies (set k | k in KidsOf(v))`arrayNext, (set k | k in KidsOf(v))`inArray, (set k | k in KidsOf(v))`parent
    modifies nvl`head
    ensures SnapLists(ls)[nvl].head == nvl.head
    ensures old(SnapLists(ls))[nvl].head == old(nvl.head)
    ensures SnapLists(ls) == CutLists(old(SnapLists(ls)), v, nvl, i)
  {
    ReleaseKids(v, ls);
    PutHead(nvl, nvl.head[..i] + nvl.head[i + 1..], ls);
  }

  method Unhook(nvl: NvList, p: NvPair, i: nat, ghost S: Objs, ghost S': Objs)
    requires nvl in S.ls && p in S.ps && i < |nvl.head| && nvl.head[i] == p && S' == Objs(S.ls, S.ps - {p})
    requires nvl !in KidsOf(p.value) && forall k :: k in KidsOf(p.value) ==> k in S.ls
    requires p.value.Kid? ==> p.value.kid.arrayNext == null && !p.value.kid.inArray
    modifies (set k | k in KidsOf(p.value))`arrayNext, (set k | k in KidsOf(p.value))`inArray
    modifies (set k | k in KidsOf(p.value))`parent
    modifies nvl`head, p`list
    ensures Snap(S') == Detached(old(Snap(S)), nvl, i)
  {
    hide SnapLists, SnapPairs, SnapSizes, SnapDepths, CutLists;
    SnapList(S, nvl);
    SnapPair(S, p);
    PairsWithout(S.ps, p);
    ghost var st := Snap(S);
    UnhookLists(nvl, p.value, i, S.ls);
    assert SnapPairs(S'.ps) == st.pairs - {p} && SnapSizes(S.ls) == st.sizes && SnapDepths(S.ls) == st.depths;
    p.list := null;
  }

  lemma {:induction false} PairsWithout(ps: set<NvPair>, p: NvPair)
    ensures SnapPairs(ps - {p}) == SnapPairs(ps) - {p}
  {
  }

  /** Take a pair out of its list; the pair is then gone, its lists are roots. */
  method RemovePair(nvl: NvList, p: NvPair, ghost S: Objs) returns (ghost i: nat, ghost S': Objs)
    requires Inv(S) && nvl in S.ls && p in S.ps && p.list == nvl
    modifies S.ls`arrayNext, S.ls`inArray, S.ls`parent, S.ls`head, S.ls`datasize, p`list
    ensures S' == Objs(S.ls, S.ps - {p}) && Inv(S')
    ensures i < |old(nvl.head)| && old(nvl.head)[i] == p && old(Owned(Snap(S), nvl, i))
    ensures Snap(S').lists == old(Detached(Snap(S), nvl, i)).lists
    ensures Snap(S').pairs == old(Detached(Snap(S), nvl, i)).pairs
  {
    hide Consistent, SnapLists, SnapPairs, SnapSizes, SnapDepths, PairBytes, PairNow, Detached;
    OwnedHere(S, nvl, p);
    SingleKid(S, p);
    var k := IndexOf(nvl, p);
    Apart(Snap(S), nvl, k);
    i, S' := k, Objs(S.ls, S.ps - {p});
    ghost var n := PairBytes(Snap(S), p);
    PairNowSnap(p, S);
    DetachOk(Snap(S), nvl, k);
    Unhook(nvl, p, k, S, S');
    assert PairNow(p) == n;
    UpdateSize(nvl, p, -1, S', Only(nvl, -n));
    Settled(Snap(S'), nvl, -n, n);
  }
}

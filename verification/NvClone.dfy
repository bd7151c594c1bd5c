/** Copying a list: an equal tree built from new objects only. */
module NvClone {
  import opened Bytes
  import opened NvTree
  import opened NvHeap
  import opened NvView
  import opened NvOps
  import opened NvEdit

  // ---- two disjoint sets of objects side by side

  ghost predicate Tidy(st: Store) {
    st.lists.Keys == st.sizes.Keys == st.depths.Keys
  }

  ghost function Union(a: Store, b: Store): Store {
    Store(a.lists + b.lists, a.pairs + b.pairs, a.sizes + b.sizes, a.depths + b.depths)
  }

  ghost predicate Separate(a: Store, b: Store) {
    Tidy(a) && Tidy(b) && a.lists.Keys !! b.lists.Keys && a.pairs.Keys !! b.pairs.Keys
  }

  ghost predicate PartOf(a: Store, st: Store) {
    && (forall l :: l in a.lists ==> l in st.lists && SameList(a, st, l) && st.lists[l] == a.lists[l])
    && (forall q :: q in a.pairs ==> q in st.pairs && SamePair(a, st, q))
  }

  lemma {:induction false} UnionParts(a: Store, b: Store)
    requires Separate(a, b)
    ensures PartOf(a, Union(a, b)) && PartOf(b, Union(a, b))
  {
  }

  lemma {:induction false} PartOk(a: Store, st: Store, offs: map<NvList, int>)
    requires Consistent(a, offs) && PartOf(a, st)
    ensures forall q :: q in a.pairs ==> PairOk(st, q)
    ensures forall l :: l in a.lists ==> ListOk(st, l, if l in offs then offs[l] else 0)
  {
    hide PairBytes, HeadSize, SameList, SamePair;
    forall q | q in a.pairs ensures PairOk(st, q) && PairBytes(st, q) == PairBytes(a, q) {
      assert PairOk(a, q);
      forall k | k in KidsOf(a.pairs[q].value) ensures k in a.lists { KidIn(a, q, k); }
      PairKeeps(a, st, q);
    }
    forall l | l in a.lists ensures ListOk(st, l, if l in offs then offs[l] else 0) {
      var off := if l in offs then offs[l] else 0;
      assert ListOk(a, l, off);
      PartParent(a, st, l, off);
      ListKeeps(a, st, l, off);
    }
  }

  lemma {:induction false} KidIn(a: Store, q: NvPair, k: NvList)
    requires q in a.pairs && PairOk(a, q) && k in KidsOf(a.pairs[q].value)
    ensures k in a.lists
  {
    var j :| 0 <= j < |KidsOf(a.pairs[q].value)| && KidsOf(a.pairs[q].value)[j] == k;
    assert KidOk(a, q, j);
  }

  lemma {:induction false} PartParent(a: Store, st: Store, l: NvList, off: int)
    requires PartOf(a, st) && l in a.lists && ListOk(a, l, off)
    ensures var p := a.lists[l].parent; p != null ==> p in st.pairs && st.pairs[p].value == a.pairs[p].value
  {
    var p := a.lists[l].parent;
    if p != null { assert SamePair(a, st, p); }
  }

  lemma {:induction false} UnionOk(a: Store, b: Store, offs: map<NvList, int>)
    requires Consistent(a, offs) && Consistent(b, map[]) && Separate(a, b) && offs.Keys <= a.lists.Keys
    ensures Consistent(Union(a, b), offs)
  {
    hide ListOk, PairOk;
    UnionParts(a, b);
    PartOk(a, Union(a, b), offs);
    PartOk(b, Union(a, b), map[]);
  }

  function Both(N: Objs, M: Objs): Objs { Objs(N.ls + M.ls, N.ps + M.ps) }

  lemma {:induction false} SnapBoth(N: Objs, M: Objs)
    requires N.ls !! M.ls && N.ps !! M.ps
    ensures Snap(Both(N, M)) == Union(Snap(N), Snap(M)) && Separate(Snap(N), Snap(M))
  {
    assert SnapLists(N.ls + M.ls) == SnapLists(N.ls) + SnapLists(M.ls);
    assert SnapPairs(N.ps + M.ps) == SnapPairs(N.ps) + SnapPairs(M.ps);
    assert SnapSizes(N.ls + M.ls) == SnapSizes(N.ls) + SnapSizes(M.ls);
    assert SnapDepths(N.ls + M.ls) == SnapDepths(N.ls) + SnapDepths(M.ls);
  }

  // ---- errors anywhere below

  /** No list of the tree carries an error. */
  ghost predicate Clear(st: Store, l: NvList, t: Tree)
    decreases t
  {
    l in st.lists && st.lists[l].error == 0 && PairsClear(st, st.lists[l].head, t.pairs)
  }

  ghost predicate PairsClear(st: Store, ps: seq<NvPair>, qs: seq<Pair>)
    decreases qs
  {
    |ps| == |qs| && forall i :: 0 <= i < |qs| ==> PairClear(st, ps[i], qs[i])
  }

  ghost predicate PairClear(st: Store, p: NvPair, q: Pair)
    decreases q
  {
    && p in st.pairs
    && match q.value
       case Leaf(_) => true
       case Nested(t) => st.pairs[p].value.Kid? && Clear(st, st.pairs[p].value.kid, t)
       case Elems(ts) => st.pairs[p].value.Kids? && ListsClear(st, st.pairs[p].value.kids, ts)
  }

  ghost predicate ListsClear(st: Store, ks: seq<NvList>, ts: seq<Tree>)
    decreases ts
  {
    |ks| == |ts| && forall i :: 0 <= i < |ts| ==> Clear(st, ks[i], ts[i])
  }

  lemma {:induction false} PairsClearStep(st: Store, ps: seq<NvPair>, qs: seq<Pair>, i: nat)
    requires i < |ps| == |qs| && PairsClear(st, ps[..i], qs[..i])
    ensures PairClear(st, ps[i], qs[i]) ==> PairsClear(st, ps[..i + 1], qs[..i + 1])
    ensures !PairClear(st, ps[i], qs[i]) ==> !PairsClear(st, ps, qs)
  {
  }

  lemma {:induction false} NoneClear(st: Store)
    ensures PairsClear(st, [], []) && ListsClear(st, [], [])
  {
  }

  lemma {:induction false} ListsClearStep(st: Store, ks: seq<NvList>, ts: seq<Tree>, i: nat)
    requires i < |ks| == |ts| && ListsClear(st, ks[..i], ts[..i])
    ensures Clear(st, ks[i], ts[i]) ==> ListsClear(st, ks[..i + 1], ts[..i + 1])
    ensures !Clear(st, ks[i], ts[i]) ==> !ListsClear(st, ks, ts)
  {
  }

  // ---- the copy

  ghost predicate Clean(st: Store) {
    Consistent(st, map[]) && forall l :: l in st.lists ==> st.lists[l].error == 0
  }

  /** Root k of st stands for t. */
  ghost predicate IsRoot(st: Store, k: NvList, t: Tree) {
    k in st.lists && st.lists[k].parent == null && IsTree(st, st.lists.Keys, k, t)
  }

  ghost predicate IsLoose(st: Store, p: NvPair, q: Pair) {
    p in st.pairs && st.pairs[p].list == null && IsPair(st, st.lists.Keys, p, q)
  }

  ghost predicate IsRoots(st: Store, ks: seq<NvList>, ts: seq<Tree>) {
    Distinct(ks) && |ks| == |ts| && forall i :: 0 <= i < |ks| ==> IsRoot(st, ks[i], ts[i])
  }

  lemma {:induction false} UnionClean(a: Store, b: Store)
    requires Clean(a) && Clean(b) && Separate(a, b)
    ensures Clean(Union(a, b))
  {
    hide Consistent;
    UnionOk(a, b, map[]);
  }

  lemma {:induction false} PartRoot(a: Store, st: Store, k: NvList, t: Tree)
    requires PartOf(a, st) && a.lists.Keys <= st.lists.Keys && IsRoot(a, k, t)
    ensures IsRoot(st, k, t)
  {
    hide IsTree;
    TreeFrame(a, a.lists.Keys, st, st.lists.Keys, k, t);
  }

  lemma {:induction false} UnionRoots(a: Store, b: Store, ks: seq<NvList>, ts: seq<Tree>, k: NvList, t: Tree)
    requires Separate(a, b) && IsRoots(a, ks, ts) && IsRoot(b, k, t)
    ensures IsRoots(Union(a, b), ks + [k], ts + [t])
  {
    hide IsTree, Separate, SameList, SamePair;
    var st := Union(a, b);
    UnionParts(a, b);
    forall i | 0 <= i < |ks| + 1 ensures IsRoot(st, (ks + [k])[i], (ts + [t])[i]) {
      if i < |ks| { PartRoot(a, st, ks[i], ts[i]); } else { PartRoot(b, st, k, t); }
    }
    assert Distinct(ks + [k]) by { Apart(a, b, ks, ts, k); }
  }

  lemma {:induction false} Apart(a: Store, b: Store, ks: seq<NvList>, ts: seq<Tree>, k: NvList)
    requires Separate(a, b) && IsRoots(a, ks, ts) && k in b.lists
    ensures k !in ks
  {
  }

  /** Handing the roots to a new pair keeps the trees. */
  lemma {:induction false} AdoptedTree(st: Store, p: NvPair, name: seq<byte>, v: Payload, k: NvList, t: Tree)
    requires p !in st.pairs && IsTree(st, st.lists.Keys, k, t)
    requires forall x :: x in KidsOf(v) ==> x in st.lists
    ensures var st' := Adopted(st, p, NewRec(name, v)); IsTree(st', st'.lists.Keys, k, t)
  {
    var st' := Adopted(st, p, NewRec(name, v));
    TreeFrame(st, st.lists.Keys, st', st'.lists.Keys, k, t);
  }

  lemma {:induction false} LooseOf(st: Store, p: NvPair, ks: seq<NvList>, ts: seq<Tree>, v: Payload, q: Pair)
    requires Clean(st) && IsRoots(st, ks, ts) && p !in st.pairs
    requires Consistent(Adopted(st, p, NewRec(q.name, v)), map[]) && Spells(v, ks, ts, q)
    ensures var st' := Adopted(st, p, NewRec(q.name, v)); Clean(st') && IsLoose(st', p, q)
  {
    hide Consistent, IsTree;
    var st' := Adopted(st, p, NewRec(q.name, v));
    forall i | 0 <= i < |ks| ensures IsTree(st', st'.lists.Keys, ks[i], ts[i]) {
      assert IsRoot(st, ks[i], ts[i]);
      AdoptedTree(st, p, q.name, v, ks[i], ts[i]);
    }
    assert v.Kid? ==> v.kid == ks[0];
    assert IsPair(st', st'.lists.Keys, p, q);
  }

  /** Payload v, with lists ks, spells out the value of q. */
  ghost predicate Spells(v: Payload, ks: seq<NvList>, ts: seq<Tree>, q: Pair) {
    && KidsOf(v) == ks
    && match q.value
       case Leaf(s) => v == Scal(s)
       case Nested(t) => v.Kid? && ts == [t]
       case Elems(ts') => v.Kids? && ts == ts'
  }

  lemma {:induction false} RootsFit(st: Store, ks: seq<NvList>, ts: seq<Tree>, v: Payload, q: Pair)
    requires IsRoots(st, ks, ts) && Spells(v, ks, ts, q) && WfPair(q)
    ensures Adoptable(st, v) && forall k :: k in KidsOf(v) ==> k in st.lists
  {
  }

  /** Root l carries the pairs of t, whose own lists are all other lists. */
  ghost predicate Grown(st: Store, l: NvList, t: Tree) {
    && l in st.lists && st.lists[l].parent == null && st.lists[l].flags == t.flags && |st.lists[l].head| == |t.pairs|
    && forall i :: 0 <= i < |t.pairs| ==> IsPair(st, st.lists.Keys - {l}, st.lists[l].head[i], t.pairs[i])
  }

  lemma {:induction false} GrownRoot(st: Store, l: NvList, t: Tree)
    requires Grown(st, l, t)
    ensures IsRoot(st, l, t)
  {
    forall i | 0 <= i < |t.pairs| ensures IsPair(st, st.lists.Keys, st.lists[l].head[i], t.pairs[i]) {
      PairFrame(st, st.lists.Keys - {l}, st, st.lists.Keys, st.lists[l].head[i], t.pairs[i]);
    }
  }

  lemma {:induction false} JoinBelow(a: Store, b: Store, p: NvPair)
    requires Consistent(a, map[]) && Consistent(b, map[]) && Separate(a, b) && p in b.pairs
    ensures Below(Union(a, b), p, b.lists.Keys)
  {
    hide ListOk;
    var st := Union(a, b);
    forall x | x in a.pairs ensures st.pairs[x].list !in b.lists.Keys { assert PairOk(a, x); }
    forall x, k | x in b.pairs && k in KidsOf(st.pairs[x].value) ensures k in b.lists.Keys {
      assert PairOk(b, x);
      KidIn(b, x, k);
    }
  }

  lemma {:induction false} JoinName(a: Store, b: Store, l: NvList, t: Tree, name: seq<byte>)
    requires Separate(a, b) && Grown(a, l, t) && Fresh(t.flags, name, t.pairs)
    ensures l in Union(a, b).lists && NameFree(Union(a, b), l, name)
  {
    var st, head := Union(a, b), a.lists[l].head;
    assert forall i :: 0 <= i < |head| ==> IsPair(a, a.lists.Keys - {l}, head[i], t.pairs[i]) && NameOf(st, head[i]) == t.pairs[i].name;
  }

  lemma {:induction false} Joined(a: Store, b: Store, st': Store, l: NvList, p: NvPair, t: Tree, q: Pair)
    requires Separate(a, b) && Grown(a, l, t) && IsLoose(b, p, q)
    requires st'.lists == Attached(Union(a, b), l, p).lists && st'.pairs == Attached(Union(a, b), l, p).pairs
    ensures Grown(st', l, Tree(t.flags, t.pairs + [q]))
  {
    hide IsPair;
    var C := st'.lists.Keys - {l};
    JoinedPair(b, a, b, st', l, p, b.lists.Keys, p, q);
    forall i | 0 <= i < |t.pairs| ensures IsPair(st', C, st'.lists[l].head[i], (t.pairs + [q])[i]) {
      JoinedPair(a, a, b, st', l, p, a.lists.Keys - {l}, a.lists[l].head[i], t.pairs[i]);
    }
  }

  lemma {:induction false} JoinedPair(c: Store, a: Store, b: Store, st': Store, l: NvList, p: NvPair, C: set<NvList>,
      r: NvPair, q: Pair)
    requires Separate(a, b) && l in a.lists && p in b.pairs && (c == a || c == b) && C <= c.lists.Keys - {l}
    requires IsPair(c, C, r, q)
    requires st'.lists == Attached(Union(a, b), l, p).lists && st'.pairs == Attached(Union(a, b), l, p).pairs
    ensures IsPair(st', st'.lists.Keys - {l}, r, q)
  {
    hide IsPair;
    PairFrame(c, C, st', st'.lists.Keys - {l}, r, q);
  }

  lemma {:induction false} JoinedClean(a: Store, b: Store, st': Store, l: NvList, p: NvPair)
    requires Clean(a) && Clean(b) && Separate(a, b) && l in a.lists && p in b.pairs && Consistent(st', map[])
    requires st'.lists == Attached(Union(a, b), l, p).lists
    ensures Clean(st')
  {
    hide Consistent;
  }

  // ---- the code

  /** Fresh objects N hold a root standing for t. */
  ghost predicate Copy(N: Objs, k: NvList, t: Tree)
    reads N.ls, N.ps
  {
    Clean(Snap(N)) && k in N.ls && IsRoot(Snap(N), k, t)
  }

  lemma {:induction false} InvClean(N: Objs)
    requires Clean(Snap(N))
    ensures Inv(N)
  {
  }

  lemma {:induction false} CleanInv(N: Objs)
    requires Inv(N)
    ensures Consistent(Snap(N), map[])
  {
  }

  method JoinPair(copy: NvList, p: NvPair, ghost N: Objs, ghost M: Objs, ghost t: Tree, ghost q: Pair)
      returns (ghost N': Objs)
    requires N.ls !! M.ls && N.ps !! M.ps && Clean(Snap(N)) && Clean(Snap(M))
    requires copy in N.ls && Grown(Snap(N), copy, t) && p in M.ps && IsLoose(Snap(M), p, q)
    requires Fresh(t.flags, q.name, t.pairs)
    modifies N.ls, M.ls, p
    ensures N' == Both(N, M) && Clean(Snap(N')) && Grown(Snap(N'), copy, Tree(t.flags, t.pairs + [q]))
  {
    hide Snap, Grown, Consistent, Separate, Union, Below, NameFree, Attached, Fresh;
    ghost var a, b := Snap(N), Snap(M);
    N' := Both(N, M);
    SnapBoth(N, M);
    JoinBelow(a, b, p);
    JoinName(a, b, copy, t, q.name);
    UnionClean(a, b);
    InvClean(N');
    SnapList(N', copy);
    SnapPair(M, p);
    var ok := MovePair(copy, p, N', M.ls);
    CleanInv(N');
    JoinedClean(a, b, Snap(N'), copy, p);
    Joined(a, b, Snap(N'), copy, p, t, q);
  }

  /** Nothing copied yet. */
  lemma {:induction false} Nothing(N: Objs)
    requires N == Objs({}, {})
    ensures Clean(Snap(N)) && IsRoots(Snap(N), [], []) && Inv(N)
  {
    assert Snap(N) == Store(map[], map[], map[], map[]);
  }

  lemma {:induction false} NewGrown(st: Store, l: NvList, flags: byte)
    requires Clean(st) && l !in st.lists && flags < 4
    ensures Clean(AddedList(st, l, flags)) && Grown(AddedList(st, l, flags), l, Tree(flags, []))
  {
    hide Consistent;
    AddedListOk(st, l, flags);
  }

  method NewCopy(flags: byte) returns (copy: NvList, ghost N: Objs)
    requires flags < 4
    ensures fresh(N.ls) && fresh(N.ps) && copy in N.ls && Clean(Snap(N)) && Grown(Snap(N), copy, Tree(flags, []))
  {
    hide Snap, Clean, Grown, Inv, AddedList;
    N := Objs({}, {});
    Nothing(N);
    ghost var st := Snap(N);
    copy, N := NewList(flags, N);
    NewGrown(st, copy, flags);
  }

  lemma {:induction false} FreshNext(t: Tree, i: nat)
    requires WfTree(t) && i < |t.pairs|
    ensures Fresh(t.flags, t.pairs[i].name, t.pairs[..i]) && WfPair(t.pairs[i])
    ensures t.pairs[..i] + [t.pairs[i]] == t.pairs[..i + 1]
  {
  }

  lemma {:induction false} PairIn(st: Store, C: set<NvList>, p: NvPair, q: Pair)
    requires IsPair(st, C, p, q)
    ensures p in st.pairs
  {
  }

  /** Copies the list that stands for t; fails exactly when a list in it carries an error. */
  method Clone(nvl: NvList, ghost S: Objs, ghost C: set<NvList>, ghost t: Tree) returns (copy: NvList?, ghost N: Objs)
    requires nvl in S.ls && IsTree(Snap(S), C, nvl, t) && WfTree(t)
    ensures copy != null <==> Clear(Snap(S), nvl, t)
    ensures fresh(N.ls) && fresh(N.ps)
    ensures copy != null ==> Copy(N, copy, t)
    decreases t, 1
  {
    hide Snap, IsPair, Grown, Consistent, PairClear, PairsClear, Clean, Copy, WfTree;
    SnapList(S, nvl);
    copy, N := null, Objs({}, {});
    if nvl.error != 0 { return; }
    WfFlags(t);
    var made;
    made, N := NewCopy(nvl.flags);
    var ok;
    ok, N := ClonePairs(nvl.head, made, S, C, t, N);
    if !ok { return; }
    GrownRoot(Snap(N), made, t);
    CopyOf(N, made, t);
    copy := made;
  }

  lemma {:induction false} WfFlags(t: Tree)
    requires WfTree(t)
    ensures t.flags < 4
  {
  }

  method ClonePairs(head: seq<NvPair>, made: NvList, ghost S: Objs, ghost C: set<NvList>, ghost t: Tree,
      ghost N0: Objs) returns (ok: bool, ghost N: Objs)
    requires |head| == |t.pairs| && WfTree(t) && S.ls !! N0.ls && S.ps !! N0.ps
    requires forall i :: 0 <= i < |head| ==> IsPair(Snap(S), C, head[i], t.pairs[i])
    requires made in N0.ls && Clean(Snap(N0)) && Grown(Snap(N0), made, Tree(t.flags, []))
    modifies N0.ls, N0.ps
    ensures N0.ls <= N.ls && N0.ps <= N.ps && fresh(N.ls - N0.ls) && fresh(N.ps - N0.ps)
    ensures ok <==> PairsClear(old(Snap(S)), head, t.pairs)
    ensures ok ==> Clean(Snap(N)) && Grown(Snap(N), made, t)
    decreases t, 0, 1
  {
    hide Snap, IsPair, Grown, Consistent, PairClear, PairsClear, Fresh, Clean, WfTree, WfPair;
    ghost var st := Snap(S);
    NoneClear(st);
    ok, N := false, N0;
    var i := 0;
    while i < |head|
      invariant i <= |head| && N0.ls <= N.ls && N0.ps <= N.ps && fresh(N.ls - N0.ls) && fresh(N.ps - N0.ps)
      invariant unchanged(S.ls) && unchanged(S.ps) && made in N.ls && S.ls !! N.ls && S.ps !! N.ps
      invariant Clean(Snap(N)) && Grown(Snap(N), made, Tree(t.flags, t.pairs[..i]))
      invariant PairsClear(st, head[..i], t.pairs[..i])
    {
      PairIn(st, C, head[i], t.pairs[i]);
      PairsClearStep(st, head, t.pairs, i);
      var more;
      ghost var B := N;
      more, N := CloneNext(head[i], made, S, C, t, i, N);
      MoreFresh(N0, B, N);
      if !more { return; }
      i := i + 1;
    }
    assert t.pairs[..i] == t.pairs && head[..i] == head;
    ok := true;
  }

  lemma {:induction false} MoreFresh(A: Objs, B: Objs, N: Objs)
    requires A.ls <= B.ls <= N.ls && A.ps <= B.ps <= N.ps
    ensures N.ls - A.ls == (N.ls - B.ls) + (B.ls - A.ls) && N.ps - A.ps == (N.ps - B.ps) + (B.ps - A.ps)
  {
  }

  method CloneNext(p: NvPair, made: NvList, ghost S: Objs, ghost C: set<NvList>, ghost t: Tree, ghost i: nat,
      ghost N: Objs) returns (ok: bool, ghost N': Objs)
    requires i < |t.pairs| && WfTree(t) && S.ls !! N.ls && S.ps !! N.ps && p in S.ps
    requires IsPair(Snap(S), C, p, t.pairs[i])
    requires made in N.ls && Clean(Snap(N)) && Grown(Snap(N), made, Tree(t.flags, t.pairs[..i]))
    modifies N.ls, N.ps
    ensures N.ls <= N'.ls && N.ps <= N'.ps && fresh(N'.ls - N.ls) && fresh(N'.ps - N.ps)
    ensures ok <==> PairClear(old(Snap(S)), p, t.pairs[i])
    ensures ok ==> Clean(Snap(N')) && Grown(Snap(N'), made, Tree(t.flags, t.pairs[..i + 1]))
    decreases t, 0, 0
  {
    hide Snap, IsPair, Grown, Consistent, PairClear, Fresh, Clean, WfTree, WfPair;
    ok, N' := false, N;
    FreshNext(t, i);
    var np;
    ghost var M;
    np, M := ClonePair(p, S, C, t.pairs[i]);
    if np == null { return; }
    assert N.ls !! M.ls && N.ps !! M.ps;
    N' := JoinPair(made, np, N, M, Tree(t.flags, t.pairs[..i]), t.pairs[i]);
    ok := true;
  }

  lemma {:induction false} CopyOf(N: Objs, k: NvList, t: Tree)
    requires Clean(Snap(N)) && k in N.ls && IsRoot(Snap(N), k, t)
    ensures Copy(N, k, t)
  {
  }

  method ClonePair(p: NvPair, ghost S: Objs, ghost C: set<NvList>, ghost q: Pair) returns (np: NvPair?, ghost M: Objs)
    requires p in S.ps && IsPair(Snap(S), C, p, q) && WfPair(q)
    ensures np != null <==> PairClear(Snap(S), p, q)
    ensures fresh(M.ls) && fresh(M.ps)
    ensures np != null ==> np in M.ps && Clean(Snap(M)) && IsLoose(Snap(M), np, q)
    decreases q, 1
  {
    hide Snap, Clean, IsLoose, IsTree, Clear, ListsClear, IsRoots, WfTree, Copy, WfScalar, ValidName;
    SnapPair(S, p);
    np, M := null, Objs({}, {});
    Nothing(M);
    ghost var st := Snap(S);
    var v, ks := p.value, [];
    ghost var ts := [];
    match v {
      case Scal(_) =>
      case Kid(k) =>
        ts := [q.value.list];
        TreeIn(Snap(S), C, k, ts[0]);
        var copy;
        copy, M := Clone(k, S, C, ts[0]);
        if copy == null { return; }
        OneRoot(M, copy, ts[0]);
        ks, v := [copy], Kid(copy);
      case Kids(was) =>
        ts := q.value.lists;
        forall i | 0 <= i < |ts| ensures was[i] in S.ls { TreeIn(Snap(S), C, was[i], ts[i]); }
        var ok;
        ok, ks, M := CloneKids(was, S, C, ts);
        if !ok { return; }
        v := Kids(ks);
    }
    np, M := MakePair(p.name, v, ks, M, ts, q);
    assert Snap(S) == st;
  }

  lemma {:induction false} TreeIn(st: Store, C: set<NvList>, l: NvList, t: Tree)
    requires IsTree(st, C, l, t)
    ensures l in st.lists
  {
  }

  lemma {:induction false} OneRoot(M: Objs, k: NvList, t: Tree)
    requires Copy(M, k, t)
    ensures Clean(Snap(M)) && IsRoots(Snap(M), [k], [t])
  {
  }

  method MakePair(name: seq<byte>, v: Payload, ghost ks: seq<NvList>, ghost M: Objs, ghost ts: seq<Tree>,
      ghost q: Pair) returns (p: NvPair, ghost M': Objs)
    requires Clean(Snap(M)) && IsRoots(Snap(M), ks, ts) && Spells(v, ks, ts, q) && q.name == name && WfPair(q)
    modifies M.ls
    ensures fresh(p) && M' == Objs(M.ls, M.ps + {p}) && Clean(Snap(M')) && IsLoose(Snap(M'), p, q)
  {
    hide Snap, Consistent, IsRoots, Spells, Adoptable;
    ghost var st := Snap(M);
    RootsFit(st, ks, ts, v, q);
    InvClean(M);
    p, M' := NewPair(name, v, M);
    CleanInv(M');
    LooseOf(st, p, ks, ts, v, q);
  }

  lemma {:induction false} KidsStep(N: Objs, M: Objs, cs: seq<NvList>, ts: seq<Tree>, c: NvList, t: Tree)
    requires N.ls !! M.ls && N.ps !! M.ps && Clean(Snap(N)) && IsRoots(Snap(N), cs, ts) && Copy(M, c, t)
    ensures Clean(Snap(Both(N, M))) && IsRoots(Snap(Both(N, M)), cs + [c], ts + [t])
  {
    hide Clean, IsRoots, IsRoot, Separate, Union;
    SnapBoth(N, M);
    UnionClean(Snap(N), Snap(M));
    UnionRoots(Snap(N), Snap(M), cs, ts, c, t);
  }

  method CloneKids(ks: seq<NvList>, ghost S: Objs, ghost C: set<NvList>, ghost ts: seq<Tree>) returns (ok: bool,
      cs: seq<NvList>, ghost N: Objs)
    requires |ks| == |ts| && forall i :: 0 <= i < |ts| ==>
      ks[i] in S.ls && IsTree(Snap(S), C, ks[i], ts[i]) && WfTree(ts[i])
    ensures ok <==> ListsClear(Snap(S), ks, ts)
    ensures fresh(N.ls) && fresh(N.ps)
    ensures ok ==> Clean(Snap(N)) && IsRoots(Snap(N), cs, ts)
    decreases ts, 0
  {
    hide Snap, IsTree, Consistent, Clear, ListsClear, Clean, IsRoots, Copy, WfTree;
    NoneClear(Snap(S));
    ok, cs, N := false, [], Objs({}, {});
    Nothing(N);
    ghost var st := Snap(S);
    var i := 0;
    while i < |ks|
      invariant i <= |ks| && fresh(N.ls) && fresh(N.ps) && Snap(S) == st
      invariant Clean(Snap(N)) && IsRoots(Snap(N), cs, ts[..i])
      invariant ListsClear(st, ks[..i], ts[..i])
    {
      var c;
      ghost var M;
      ListsClearStep(st, ks, ts, i);
      c, M := Clone(ks[i], S, C, ts[i]);
      if c == null { return; }
      KidsStep(N, M, cs, ts[..i], c, ts[i]);
      assert ts[..i] + [ts[i]] == ts[..i + 1];
      N, cs, i := Both(N, M), cs + [c], i + 1;
    }
    assert ts[..i] == ts && ks[..i] == ks;
    ok := true;
  }
}

/** Arrays of lists that grow by copies, and pairs taken out again, as changes of the trees. */
module NvLists {
  import opened Bytes
  import opened NvTree
  import opened NvHeap
  import opened NvView
  import opened NvOps
  import opened NvEdit
  import opened NvClone
  import opened NvAppend
  import opened NvAbove
  import opened NvApi

  // ---- a new array of one list

  /** The fresh copy beside the old objects: everything stands for what it stood for. */
  lemma {:induction false} CopyBeside(S: Objs, N: Objs, C: set<NvList>, nvl: NvList, t: Tree, copy: NvList, u: Tree)
    requires Inv(S) && nvl in S.ls && IsTree(Snap(S), C, nvl, t) && Copy(N, copy, u) && S.ls !! N.ls && S.ps !! N.ps
    ensures var B := Both(S, N);
      Inv(B) && copy in N.ls && copy.parent == null && copy.error == 0 && IsTree(Snap(B), C, nvl, t) &&
      Closed(Snap(B), N.ls) &&
      SpellsIn(Snap(B), N.ls, Kids([copy]), Elems([u]))
  {
    hide Snap, Consistent, IsTree, Copy, Separate, Union, SameList, SamePair, Closed;
    var a, b := Snap(S), Snap(N);
    CopyFacts(N, copy, u);
    CleanInv(S);
    CleanInv(N);
    SnapBoth(S, N);
    UnionOk(a, b, map[]);
    UnionParts(a, b);
    BesideTree(a, Union(a, b), C, nvl, t);
    BesideTree(b, Union(a, b), N.ls, copy, u);
    BesideClosed(S, N);
    CopyRoot(N, copy, u);
    InvOf(Both(S, N));
  }

  lemma {:induction false} InvOf(B: Objs)
    requires Consistent(Snap(B), map[])
    ensures Inv(B)
  {
  }

  lemma {:induction false} BesideTree(a: Store, st: Store, C: set<NvList>, l: NvList, t: Tree)
    requires PartOf(a, st) && IsTree(a, C, l, t)
    ensures IsTree(st, C, l, t)
  {
    hide IsTree;
    TreeFrame(a, C, st, C, l, t);
  }

  lemma {:induction false} CopyRoot(N: Objs, copy: NvList, u: Tree)
    requires Copy(N, copy, u)
    ensures copy in N.ls && copy.parent == null && copy.error == 0
  {
    SnapList(N, copy);
  }

  lemma {:induction false} BesideClosed(S: Objs, N: Objs)
    requires Inv(S) && Inv(N) && S.ls !! N.ls && S.ps !! N.ps
    ensures Closed(Snap(Both(S, N)), N.ls)
  {
    hide ListOk;
    AllClosed(Snap(N));
    SnapBoth(S, N);
    var st := Snap(Both(S, N));
    forall q | q in S.ps ensures Snap(S).pairs[q].list !in N.ls {
      assert PairOk(Snap(S), q);
    }
  }

  /** Adds an array called name that holds one list, a copy of value; err is what a failing copy leaves behind. */
  method AddListArray(nvl: NvList, name: seq<byte>, value: NvList, err: int, ghost S: Objs, ghost C: set<NvList>,
      ghost t: Tree, ghost D: set<NvList>, ghost u: Tree)
    returns (ghost S': Objs, ghost N: set<NvList>)
    requires Inv(S) && nvl in S.ls && IsTree(Snap(S), C, nvl, t) && NoNul(name) && err != 0
    requires value in S.ls && IsTree(Snap(S), D, value, u)
    modifies S.ls
    ensures Inv(S') && S.ls <= S'.ls && S.ps <= S'.ps && fresh(S'.ls - S.ls) && fresh(S'.ps - S.ps) && N <= S'.ls
    ensures N !! S.ls
    ensures OnlyIn(old(Snap(S)), Snap(S'), nvl)
    ensures if old(nvl.error) != 0 then S' == S && Snap(S) == old(Snap(S))
      else if !old(Clear(Snap(S), value, u)) then nvl.error == err && IsTree(Snap(S'), C, nvl, t)
      else if AddOutcome(0, 0, t.flags, name, t.pairs).Failed? then
        nvl.error == AddOutcome(0, 0, t.flags, name, t.pairs).error && IsTree(Snap(S'), C, nvl, t)
      else nvl.error == 0 && IsTree(Snap(S'), C + N, nvl, Tree(t.flags, t.pairs + [Pair(name, Elems([u]))]))
  {
    hide Snap, Inv, Consistent, IsTree, Clear, Copy, WfTree, Adoptable, SpellsIn, Closed, AddOutcome, OnlyIn, PartOf;
    ghost var st := Snap(S);
    S', N := S, {};
    OnlySame(st, nvl);
    if nvl.error != 0 { return; }
    OutcomeIs(t, name);
    CleanInv(S);
    TreeWf(st, D, value, u);
    var copy;
    ghost var M;
    copy, M := Clone(value, S, D, u);
    if copy == null {
      SetError(nvl, err, S);
      ErrorTree(st, C, nvl, t, err);
      ErrorOnly(st, nvl, err);
      SnapList(S, nvl);
      return;
    }
    N := M.ls;
    S' := AddCopy(nvl, name, copy, S, M, C, t, u);
  }

  /** Hands over the fresh copy, beside the objects there are. */
  method AddCopy(nvl: NvList, name: seq<byte>, copy: NvList, ghost S: Objs, ghost M: Objs, ghost C: set<NvList>,
      ghost t: Tree, ghost u: Tree)
    returns (ghost S': Objs)
    requires Inv(S) && nvl in S.ls && nvl.error == 0 && IsTree(Snap(S), C, nvl, t) && NoNul(name)
    requires Copy(M, copy, u) && S.ls !! M.ls && S.ps !! M.ps
    modifies S.ls, M.ls
    ensures Inv(S') && S'.ls == S.ls + M.ls && S.ps + M.ps <= S'.ps && fresh(S'.ps - S.ps - M.ps)
    ensures OnlyIn(old(Snap(S)), Snap(S'), nvl)
    ensures var o := AddOutcome(0, 0, t.flags, name, t.pairs);
      if o.Failed? then nvl.error == o.error && IsTree(Snap(S'), C, nvl, t)
      else nvl.error == 0 && IsTree(Snap(S'), C + M.ls, nvl, Tree(t.flags, t.pairs + [Pair(name, Elems([u]))]))
  {
    hide Snap, Inv, Consistent, IsTree, Copy, SpellsIn, Closed, AddOutcome, OnlyIn, PartOf, Adoptable, Refusal, KidsOf,
        Distinct;
    OutcomeIs(t, name);
    CopyBeside(S, M, C, nvl, t, copy, u);
    CopyAccepted(copy);
    ghost var st, mid := Snap(S), Snap(Both(S, M));
    BesidePart(S, M);
    S' := Add(nvl, name, Kids([copy]), Both(S, M), C, t, M.ls, Elems([u]));
    PartOnly(st, mid, Snap(S'), nvl);
  }

  lemma {:induction false} CopyAccepted(copy: NvList)
    requires copy.parent == null && copy.error == 0
    ensures Refusal(Kids([copy])) == 0 && Distinct(KidsOf(Kids([copy]))) && forall k :: k in KidsOf(Kids([copy])) ==>
      k == copy
  {
  }

  lemma {:induction false} BesidePart(S: Objs, N: Objs)
    requires S.ls !! N.ls && S.ps !! N.ps
    ensures PartOf(Snap(S), Snap(Both(S, N)))
  {
    SnapBoth(S, N);
    UnionParts(Snap(S), Snap(N));
  }

  lemma {:induction false} OutcomeIs(t: Tree, name: seq<byte>)
    ensures var o := AddOutcome(0, 0, t.flags, name, t.pairs); !o.Ignored? && (o.Failed? ==> o.error != 0)
  {
  }

  /** A change in the union of two stores is a change in its first part. */
  lemma {:induction false} PartOnly(a: Store, st: Store, st': Store, l: NvList)
    requires PartOf(a, st) && OnlyIn(st, st', l)
    ensures OnlyIn(a, st', l)
  {
    hide SameList;
  }

  // ---- appending to an array

  function AfterAppendList(t: Tree, name: seq<byte>, u: Tree): Tree {
    var i := FirstOf(t.flags, t.pairs, T_NVLIST_ARRAY, name);
    if i == |t.pairs| then Tree(t.flags, t.pairs + [Pair(name, Elems([u]))])
    else t.(pairs := t.pairs[i := Pair(t.pairs[i].name, Elems(t.pairs[i].value.lists + [u]))])
  }

  /** The error that appending a list to the array called name leaves. */
  ghost function ListError(st: Store, t: Tree, name: seq<byte>, value: NvList, u: Tree, err: int): int
    requires value in st.lists
  {
    var r, found := st.lists[value], FirstOf(t.flags, t.pairs, T_NVLIST_ARRAY, name) < |t.pairs|;
    if found && (r.error != 0 || r.parent != null) then EINVAL
    else if !Clear(st, value, u) then err
    else AppendError(t, T_NVLIST_ARRAY, name)
  }

  /** Appends a copy of value to the array of lists called name, making the array when there is none. */
  method AppendNvlist(nvl: NvList, name: seq<byte>, value: NvList, err: int, ghost S: Objs, ghost C: set<NvList>,
      ghost t: Tree, ghost D: set<NvList>, ghost u: Tree)
    returns (ghost S': Objs, ghost N: set<NvList>)
    requires Inv(S) && nvl in S.ls && IsTree(Snap(S), C, nvl, t) && NoNul(name) && err != 0
    requires value in S.ls && IsTree(Snap(S), D, value, u)
    modifies S.ls, S.ps
    ensures Inv(S') && S.ls <= S'.ls && S.ps <= S'.ps && fresh(S'.ls - S.ls) && fresh(S'.ps - S.ps)
    ensures OnlyIn(old(Snap(S)), Snap(S'), nvl)
    ensures old(nvl.error) != 0 ==> S' == S && Snap(S) == old(Snap(S))
    ensures old(nvl.error) == 0 ==> nvl.error == ListError(old(Snap(S)), t, name, value, u, err)
    ensures nvl.error == 0 ==> IsTree(Snap(S'), C + N, nvl, AfterAppendList(t, name, u))
    ensures nvl.error != 0 ==> IsTree(Snap(S'), C, nvl, t)
  {
    hide Snap, Inv, Consistent, IsTree, Clear, AddOutcome, OnlyIn;
    S', N := S, {};
    OnlySame(Snap(S), nvl);
    if nvl.error != 0 { return; }
    var p := Find(nvl, T_NVLIST_ARRAY, name);
    FoundFirst(S, C, nvl, t, T_NVLIST_ARRAY, name, p);
    OutcomeIs(t, name);
    if p == null {
      S', N := AddListArray(nvl, name, value, err, S, C, t, D, u);
    } else {
      S', N := AppendFound(nvl, name, p, value, err, S, C, t, D, u, FirstOf(t.flags, t.pairs, T_NVLIST_ARRAY, name));
    }
  }

  /** Appends a copy of value to pair i of nvl, the array found. */
  method AppendFound(nvl: NvList, ghost name: seq<byte>, p: NvPair, value: NvList, err: int, ghost S: Objs,
      ghost C: set<NvList>, ghost t: Tree, ghost D: set<NvList>, ghost u: Tree, ghost i: nat)
    returns (ghost S': Objs, ghost N: set<NvList>)
    requires Inv(S) && nvl in S.ls && nvl.error == 0 && IsTree(Snap(S), C, nvl, t) && err != 0
    requires i == FirstOf(t.flags, t.pairs, T_NVLIST_ARRAY, name) < |t.pairs| == |nvl.head| && nvl.head[i] == p
    requires value in S.ls && IsTree(Snap(S), D, value, u)
    modifies S.ls, S.ps
    ensures Inv(S') && S.ls <= S'.ls && S.ps <= S'.ps && fresh(S'.ls - S.ls) && fresh(S'.ps - S.ps)
    ensures OnlyIn(old(Snap(S)), Snap(S'), nvl)
    ensures nvl.error == ListError(old(Snap(S)), t, name, value, u, err)
    ensures nvl.error == 0 ==> IsTree(Snap(S'), C + N, nvl, AfterAppendList(t, name, u))
    ensures nvl.error != 0 ==> IsTree(Snap(S'), C, nvl, t)
  {
    hide Snap, Inv, Consistent, IsTree, Clear, GainedElem, AddOutcome, IsPair, OnlyIn;
    ghost var st := Snap(S);
    HeadPair(st, C, nvl, t, i);
    SnapList(S, nvl);
    SnapList(S, value);
    SnapPair(S, p);
    InHead(S, nvl, i);
    CleanInv(S);
    ArrayPair(st, C, p, t.pairs[i]);
    SnapKeys(S);
    if Clear(st, value, u) { ClearError(S, value, u); }
    ghost var e := if value.error != 0 || value.parent != null then EINVAL else err;
    var ok;
    ghost var k;
    ok, k, S' := AppendList(nvl, p, value, err, S, D, u);
    N := S'.ls - S.ls;
    SnapList(S', nvl);
    if ok {
      ArrayGrows(st, Snap(S'), C, N, nvl, i, t, k, u);
      KeptError(st, Snap(S'), nvl, p, k, N, u);
      LinksOnly(st, Snap(S'), nvl, p, k, N, u);
    } else {
      RefusedTree(st, Snap(S), C, nvl, t, e);
      RefusedOnly(st, Snap(S), nvl, e);
    }
  }

  lemma {:induction false} ArrayPair(st: Store, C: set<NvList>, p: NvPair, q: Pair)
    requires IsPair(st, C, p, q) && q.value.Elems?
    ensures p in st.pairs && st.pairs[p].value.Kids?
  {
  }

  lemma {:induction false} SnapKeys(S: Objs)
    ensures Snap(S).lists.Keys == S.ls
  {
  }

  lemma {:induction false} KeptError(st: Store, st': Store, l: NvList, p: NvPair, k: NvList, N: set<NvList>, u: Tree)
    requires GainedElem(st, st', p, k, N, u) && l in st.lists
    ensures l in st'.lists && st'.lists[l].error == st.lists[l].error
  {
    hide IsTree;
    assert SameHead(st.lists[l], st'.lists[l]);
  }

  lemma {:induction false} LinksOnly(st: Store, st': Store, l: NvList, p: NvPair, k: NvList, N: set<NvList>, u: Tree)
    requires GainedElem(st, st', p, k, N, u) && st.pairs[p].list == l
    ensures OnlyIn(st, st', l)
  {
    hide IsTree;
    forall x | x in st.lists
      ensures x in st'.lists && st'.lists[x].flags == st.lists[x].flags && st'.lists[x].head == st.lists[x].head
    {
      assert SameHead(st.lists[x], st'.lists[x]);
    }
  }

  lemma {:induction false} RefusedOnly(st: Store, st': Store, l: NvList, e: int)
    requires l in st.lists && st'.(sizes := st.sizes) == WithError(st, l, e)
    ensures OnlyIn(st, st', l)
  {
  }

  lemma {:induction false} RefusedTree(st: Store, st': Store, C: set<NvList>, l: NvList, t: Tree, e: int)
    requires IsTree(st, C, l, t) && l in st.lists && st'.(sizes := st.sizes) == WithError(st, l, e)
    ensures IsTree(st', C, l, t) && l in st'.lists && st'.lists[l].error == e
  {
    hide IsTree;
    TreeFrame(st, C, st', C, l, t);
  }

  // ---- taking a pair out

  /** A detached pair leaves heads and flags of all other lists alone. */
  lemma {:induction false} DetachedLists(st: Store, l: NvList, i: nat)
    requires Consistent(st, map[]) && Owned(st, l, i)
    ensures var st', p := Detached(st, l, i), st.lists[l].head[i];
      st.pairs[p].list == l && l in st'.lists && st'.lists[l].head == Cut(st.lists[l].head, i) &&
      st'.lists[l].flags == st.lists[l].flags &&
      (forall x :: x in st.lists && x != l ==>
        x in st'.lists && st'.lists[x].head == st.lists[x].head && st'.lists[x].flags == st.lists[x].flags) &&
      (forall q :: q in st.pairs && q != p ==> q in st'.pairs && st'.pairs[q] == st.pairs[q])
  {
    hide Consistent;
    NvEdit.Apart(st, l, i);
  }

  /** The list stands for its tree without pair i; the pair's own lists stand for what they stood for. */
  lemma {:induction false} RemovedTree(st: Store, st': Store, C: set<NvList>, l: NvList, i: nat, t: Tree)
    requires Consistent(st, map[]) && IsTree(st, C, l, t) && Owned(st, l, i)
    requires st'.lists == Detached(st, l, i).lists && st'.pairs == Detached(st, l, i).pairs
    ensures i < |t.pairs| && IsTree(st', C, l, t.(pairs := t.pairs[..i] + t.pairs[i + 1..]))
  {
    hide IsPair, Detached, Consistent;
    DetachedLists(st, l, i);
    HeadsApart(st, l);
    NotBelowItself(st, C, l, t);
    var head, p, qs := st.lists[l].head, st.lists[l].head[i], t.pairs[..i] + t.pairs[i + 1..];
    forall j | 0 <= j < |qs| ensures IsPair(st', C, Cut(head, i)[j], qs[j]) {
      var k := if j < i then j else j + 1;
      assert head[k] != p;
      PairStays(st, st', C, l, head[k], t.pairs[k], p);
    }
  }

  lemma {:induction false} PairStays(st: Store, st': Store, C: set<NvList>, l: NvList, r: NvPair, q: Pair, p: NvPair)
    requires Consistent(st, map[]) && IsPair(st, C - {l}, r, q) && p in st.pairs && st.pairs[p].list == l && r != p
    requires forall x :: x in st.lists && x != l ==>
      x in st'.lists && st'.lists[x].head == st.lists[x].head && st'.lists[x].flags == st.lists[x].flags
    requires forall q :: q in st.pairs && q != p ==> q in st'.pairs && st'.pairs[q] == st.pairs[q]
    ensures IsPair(st', C, r, q)
  {
    hide IsPair, Consistent;
    PairExcept(st, C - {l}, st', r, q, p);
    PairFrame(st', C - {l}, st', C, r, q);
  }

  /** Takes pair p out of nvl. */
  method Remove(nvl: NvList, p: NvPair, ghost S: Objs, ghost C: set<NvList>, ghost t: Tree) returns (ghost i: nat,
      ghost S': Objs)
    requires Inv(S) && nvl in S.ls && p in S.ps && p.list == nvl && IsTree(Snap(S), C, nvl, t)
    modifies S.ls`arrayNext, S.ls`inArray, S.ls`parent, S.ls`head, S.ls`datasize, p`list
    ensures S' == Objs(S.ls, S.ps - {p}) && Inv(S')
    ensures i < |old(nvl.head)| == |t.pairs| && old(nvl.head)[i] == p
    ensures IsTree(Snap(S'), C, nvl, t.(pairs := t.pairs[..i] + t.pairs[i + 1..]))
  {
    hide Snap, Consistent, IsTree, Detached;
    ghost var st := Snap(S);
    CleanInv(S);
    SnapList(S, nvl);
    HeadLength(st, C, nvl, t);
    i, S' := RemovePair(nvl, p, S);
    RemovedTree(st, Snap(S'), C, nvl, i, t);
  }

  lemma {:induction false} HeadLength(st: Store, C: set<NvList>, l: NvList, t: Tree)
    requires IsTree(st, C, l, t)
    ensures l in st.lists && |st.lists[l].head| == |t.pairs|
  {
  }
}

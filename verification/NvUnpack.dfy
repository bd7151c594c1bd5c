/**
 * Unpacking into objects: the loop builds lists and pairs as it reads, and
 * stays in step with the state machine on values.
 */
module NvUnpack {
  import opened Bytes
  import opened NvTree
  import opened NvCodec
  import opened NvHeap
  import opened NvView
  import opened NvOps
  import opened NvEdit

  // ---- the objects under construction and the state machine

  /**
   * List object l is the list o under construction: the pairs done so far lie
   * in C, its links lead to the lists o names, and array elements not reached
   * yet are empty. extra is 1 when a further pair is being filled below.
   */
  ghost predicate Sim(st: Store, C: set<NvList>, root: NvList, l: NvList, o: Open, extra: nat)
    decreases o, 1
  {
    && l in st.lists && l !in C && st.lists[l].flags == o.flags
    && |st.lists[l].head| == |o.done| + extra
    && (forall i :: 0 <= i < |o.done| ==> IsPair(st, C, st.lists[l].head[i], o.done[i]))
    && LinkOk(st, C, root, l, o.link)
  }

  ghost predicate LinkOk(st: Store, C: set<NvList>, root: NvList, l: NvList, link: Link)
    requires l in st.lists
    decreases link, 0
  {
    var p := st.lists[l].parent;
    match link
    case Root => p == null && l == root
    case Child(name, up) =>
      && p != null && p in st.pairs && st.pairs[p].name == name && st.pairs[p].value == Kid(l)
      && st.pairs[p].list != null
      && Sim(st, C, root, st.pairs[p].list, up, 1) && st.lists[st.pairs[p].list].head[|up.done|] == p
    case Elem(name, before, after, up) =>
      && p != null && p in st.pairs && st.pairs[p].name == name && st.pairs[p].value.Kids? && st.pairs[p].list != null
      && Sim(st, C, root, st.pairs[p].list, up, 1) && st.lists[st.pairs[p].list].head[|up.done|] == p
      && var ks := st.pairs[p].value.kids;
         && |ks| == |before| + 1 + after && ks[|before|] == l
         && (forall j :: 0 <= j < |before| ==> IsTree(st, C, ks[j], before[j]))
         && (forall j :: |before| < j < |ks| ==> Pending(st, C, ks[j]))
  }

  ghost predicate Pending(st: Store, C: set<NvList>, k: NvList) {
    k in st.lists && k !in C && st.lists[k].head == [] && st.lists[k].flags == 0
  }

  /** x hangs somewhere below l. */
  ghost predicate Under(st: Store, l: NvList, x: NvList) {
    && x in st.lists && x in st.depths && l in st.depths && st.depths[l] < st.depths[x]
    && var q := st.lists[x].parent;
       && q != null && q in st.pairs && st.pairs[q].list != null
       && st.pairs[q].list in st.depths && st.depths[l] <= st.depths[st.pairs[q].list]
  }

  /** st' differs from st only in lists of X and in pairs that were detached or are new. */
  ghost predicate Touches(st: Store, st': Store, X: set<NvList>) {
    && (forall y :: y in st.lists && y !in X ==>
          y in st'.lists && st'.lists[y].flags == st.lists[y].flags && st'.lists[y].head == st.lists[y].head &&
          st'.lists[y].parent == st.lists[y].parent)
    && (forall q :: q in st.pairs ==>
         q in st'.pairs && st'.pairs[q].name == st.pairs[q].name && st'.pairs[q].value == st.pairs[q].value)
    && (forall q :: q in st.pairs && st.pairs[q].list != null ==> st'.pairs[q].list == st.pairs[q].list)
  }

  /** Edits below l leave l and everything above it in step. */
  lemma {:induction false} SimKeeps(st: Store, C: set<NvList>, st': Store, C': set<NvList>, root: NvList, l: NvList,
      o: Open, extra: nat, X: set<NvList>)
    requires Consistent(st, map[]) && Sim(st, C, root, l, o, extra)
    requires Touches(st, st', X) && X !! C && C <= C' <= C + X && l !in X
    requires forall x :: x in X ==> Under(st, l, x)
    ensures Sim(st', C', root, l, o, extra)
    decreases o, 1
  {
    forall i | 0 <= i < |o.done| ensures IsPair(st', C', st.lists[l].head[i], o.done[i]) {
      PairFrame(st, C, st', C', st.lists[l].head[i], o.done[i]);
    }
    LinkKeeps(st, C, st', C', root, l, o.link, X);
  }

  /** The links of l, when X is touched: l itself, or lists that hang below it or below its parent. */
  lemma {:induction false} LinkKeeps(st: Store, C: set<NvList>, st': Store, C': set<NvList>, root: NvList, l: NvList,
      link: Link, X: set<NvList>)
    requires Consistent(st, map[]) && l in st.lists && LinkOk(st, C, root, l, link)
    requires Touches(st, st', X) && X !! C && C <= C' <= C + X
    requires l in st'.lists && st'.lists[l].parent == st.lists[l].parent
    requires forall x :: x in X ==> x == l || Under(st, l, x)
    ensures LinkOk(st', C', root, l, link)
    decreases link, 0
  {
    if !link.Root? {
      ParentUp(st, map[], l);
      var p := st.lists[l].parent;
      SimKeeps(st, C, st', C', root, st.pairs[p].list, link.up, 1, X);
      if link.Elem? { ElemKeeps(st, C, st', C', root, l, link, X); }
    }
  }

  lemma {:induction false} ElemKeeps(st: Store, C: set<NvList>, st': Store, C': set<NvList>, root: NvList, l: NvList,
      link: Link, X: set<NvList>)
    requires Consistent(st, map[]) && l in st.lists && LinkOk(st, C, root, l, link) && link.Elem?
    requires Touches(st, st', X) && X !! C && C <= C' <= C + X
    requires forall x :: x in X ==> x == l || Under(st, l, x)
    ensures var ks := st.pairs[st.lists[l].parent].value.kids;
      && (forall j :: 0 <= j < |link.before| ==> IsTree(st', C', ks[j], link.before[j]))
      && (forall j :: |link.before| < j < |ks| ==> Pending(st', C', ks[j]))
  {
    var p := st.lists[l].parent;
    var ks := st.pairs[p].value.kids;
    ParentUp(st, map[], l);
    forall j | 0 <= j < |link.before| ensures IsTree(st', C', ks[j], link.before[j]) {
      TreeFrame(st, C, st', C', ks[j], link.before[j]);
    }
    forall j | |link.before| < j < |ks| ensures Pending(st', C', ks[j]) {
      assert PairOk(st, p);
      assert KidOk(st, p, j);
      assert ks[j] !in X;
    }
  }

  // ---- the moves of the state machine

  /** A pair was put at the end of l; it is still to be filled. */
  lemma {:induction false} SimGrow(st: Store, C: set<NvList>, st': Store, root: NvList, l: NvList, o: Open, p: NvPair)
    requires Consistent(st, map[]) && Sim(st, C, root, l, o, 0) && Touches(st, st', {l})
    requires l in st'.lists && st'.lists[l].head == st.lists[l].head + [p]
    requires st'.lists[l].flags == st.lists[l].flags && st'.lists[l].parent == st.lists[l].parent
    ensures Sim(st', C, root, l, o, 1) && st'.lists[l].head[|o.done|] == p
  {
    forall i | 0 <= i < |o.done| ensures IsPair(st', C, st'.lists[l].head[i], o.done[i]) {
      PairFrame(st, C, st', C, st.lists[l].head[i], o.done[i]);
    }
    LinkKeeps(st, C, st', C, root, l, o.link, {l});
  }

  /** The pair being filled is complete. */
  lemma {:induction false} SimDone(st: Store, C: set<NvList>, root: NvList, l: NvList, o: Open, q: Pair)
    requires Sim(st, C, root, l, o, 1) && IsPair(st, C, st.lists[l].head[|o.done|], q)
    ensures Sim(st, C, root, l, o.(done := o.done + [q]), 0)
  {
  }

  ghost function PendingOf(st: Store, l: NvList, link: Link): set<NvList>
    requires l in st.lists
  {
    var p := st.lists[l].parent;
    if link.Elem? && p != null && p in st.pairs && st.pairs[p].value.Kids?
    then set j | |link.before| < j < |st.pairs[p].value.kids| :: st.pairs[p].value.kids[j]
    else {}
  }

  lemma {:induction false} Closable(st: Store, C: set<NvList>, root: NvList, l: NvList, o: Open)
    requires Consistent(st, map[]) && Sim(st, C, root, l, o, 0) && !o.link.Root?
    ensures ParentList(st, l) != null
    ensures forall x :: x == l || x in PendingOf(st, l, o.link) ==>
      x !in C && x != ParentList(st, l) && Under(st, ParentList(st, l), x)
  {
    ParentUp(st, map[], l);
    var p := st.lists[l].parent;
    forall x | x in PendingOf(st, l, o.link) ensures x !in C && Under(st, st.pairs[p].list, x) {
      var ks := st.pairs[p].value.kids;
      var j :| |o.link.before| < j < |ks| && ks[j] == x;
      assert PairOk(st, p) && KidOk(st, p, j);
      assert Pending(st, C, ks[j]);
    }
  }

  lemma {:induction false} SelfTree(st: Store, C: set<NvList>, st': Store, C': set<NvList>, root: NvList, l: NvList,
      o: Open)
    requires Sim(st, C, root, l, o, 0) && C + {l} <= C'
    requires forall x :: x in C + {l} && x in st.lists ==>
      x in st'.lists && st'.lists[x].head == st.lists[x].head && st'.lists[x].flags == st.lists[x].flags
    requires forall p :: p in st.pairs ==>
      p in st'.pairs && st'.pairs[p].name == st.pairs[p].name && st'.pairs[p].value == st.pairs[p].value
    ensures IsTree(st', C', l, Current(o))
  {
    forall i | 0 <= i < |o.done| ensures IsPair(st', C', st'.lists[l].head[i], o.done[i]) {
      PairFrame(st, C, st', C', st.lists[l].head[i], o.done[i]);
    }
  }

  /** Leaving l for the list above: l's pair is complete there. */
  lemma {:induction false} SimClose(st: Store, C: set<NvList>, root: NvList, l: NvList, o: Open)
    requires Consistent(st, map[]) && Sim(st, C, root, l, o, 0) && !o.link.Root?
    ensures ParentList(st, l) != null
    ensures Sim(st, C + {l} + PendingOf(st, l, o.link), root, ParentList(st, l), Close(o), 0)
  {
    hide Consistent, IsTree, Under;
    var X, C', p := {l} + PendingOf(st, l, o.link), C + {l} + PendingOf(st, l, o.link), st.lists[l].parent;
    Closable(st, C, root, l, o);
    SimKeeps(st, C, st, C', root, st.pairs[p].list, o.link.up, 1, X);
    SelfTree(st, C, st, C', root, l, o);
    if o.link.Elem? { ElemsClosed(st, C, C', root, l, o, p); }
  }

  lemma {:induction false} ElemsClosed(st: Store, C: set<NvList>, C': set<NvList>, root: NvList, l: NvList, o: Open,
      p: NvPair)
    requires Sim(st, C, root, l, o, 0) && o.link.Elem? && C' == C + {l} + PendingOf(st, l, o.link)
    requires IsTree(st, C', l, Current(o)) && p == st.lists[l].parent
    ensures IsPair(st, C', p, Pair(o.link.name, Elems(o.link.before + [Current(o)] + Empties(o.link.after))))
  {
    var ks, ts := st.pairs[p].value.kids, o.link.before + [Current(o)] + Empties(o.link.after);
    forall j | 0 <= j < |ts| ensures IsTree(st, C', ks[j], ts[j]) {
      if j < |o.link.before| {
        TreeFrame(st, C, st, C', ks[j], ts[j]);
      } else if j > |o.link.before| {
        assert Pending(st, C, ks[j]);
        assert ks[j] in PendingOf(st, l, o.link);
      }
    }
  }

  ghost function WithFlags(st: Store, k: NvList, flags: byte): Store
    requires k in st.lists
  {
    st.(lists := st.lists[k := st.lists[k].(flags := flags)])
  }

  /** The element after the current one, as the array next link names it. */
  lemma {:induction false} NextLink(st: Store, C: set<NvList>, root: NvList, l: NvList, o: Open)
    requires Consistent(st, map[]) && Sim(st, C, root, l, o, 0)
    ensures st.lists[l].next == null <==> !(o.link.Elem? && o.link.after > 0)
    ensures st.lists[l].next != null ==>
      st.lists[l].next in PendingOf(st, l, o.link) && Pending(st, C, st.lists[l].next) && st.lists[l].next != l
    ensures st.lists[l].parent == null <==> o.link.Root?
    ensures o.link.Elem? && o.link.after > 0 ==>
      st.lists[l].next == st.pairs[st.lists[l].parent].value.kids[|o.link.before| + 1]
  {
    assert ListOk(st, l, 0);
    if !o.link.Root? {
      var p := st.lists[l].parent;
      assert PairOk(st, p);
      if o.link.Child? { assert KidOk(st, p, 0); } else { assert KidOk(st, p, |o.link.before|); }
    }
  }

  lemma {:induction false} NextElems(st: Store, C: set<NvList>, root: NvList, l: NvList, k: NvList, o: Open,
      flags: byte, p: NvPair)
    requires Consistent(st, map[]) && Sim(st, C, root, l, o, 0) && o.link.Elem? && o.link.after > 0
    requires p == st.lists[l].parent && k in st.lists && k == st.lists[l].next && Pending(st, C, k) && k != l
    requires p in st.pairs && st.pairs[p].value.Kids? && |o.link.before| + 1 < |st.pairs[p].value.kids|
    requires k == st.pairs[p].value.kids[|o.link.before| + 1]
    ensures var st', C', ks, n := WithFlags(st, k, flags), C + {l}, st.pairs[p].value.kids, |o.link.before|;
      && IsTree(st', C', l, Current(o))
      && (forall j :: 0 <= j < n ==> IsTree(st', C', ks[j], o.link.before[j]))
      && (forall j :: n + 1 < j < |ks| ==> Pending(st', C', ks[j]))
      && st.lists[k].parent == p && st.lists[k].head == []
  {
    var st', C', ks, n := WithFlags(st, k, flags), C + {l}, st.pairs[p].value.kids, |o.link.before|;
    assert PairOk(st, p) && KidOk(st, p, n + 1);
    SelfTree(st, C, st', C', root, l, o);
    forall j | 0 <= j < n ensures IsTree(st', C', ks[j], o.link.before[j]) {
      TreeFrame(st, C, st', C', ks[j], o.link.before[j]);
    }
    forall j | n + 1 < j < |ks| ensures Pending(st', C', ks[j]) {
      assert Pending(st, C, ks[j]);
    }
  }

  /** Moving on to the next array element, whose flags were just read. */
  lemma {:induction false} SimNext(st: Store, C: set<NvList>, root: NvList, l: NvList, k: NvList, o: Open, flags: byte)
    requires Consistent(st, map[]) && Sim(st, C, root, l, o, 0) && o.link.Elem? && o.link.after > 0
    requires k in st.lists && k == st.lists[l].next
    ensures Sim(WithFlags(st, k, flags), C + {l}, root, k, NextElem(o, flags), 0)
  {
    hide Consistent, IsTree, IsPair, Pending, Under;
    var st', C', p := WithFlags(st, k, flags), C + {l}, st.lists[l].parent;
    Closable(st, C, root, l, o);
    NextLink(st, C, root, l, o);
    NextElems(st, C, root, l, k, o, flags, p);
    SimKeeps(st, C, st', C', root, st.pairs[p].list, o.link.up, 1, {l, k});
    assert k !in C';
  }

  /** Wherever the input stops, the objects stand for the tree the state machine yields. */
  lemma {:induction false} SimFinish(st: Store, C: set<NvList>, root: NvList, l: NvList, o: Open)
      returns (C': set<NvList>)
    requires Consistent(st, map[]) && Sim(st, C, root, l, o, 0)
    ensures IsTree(st, C', root, Finish(o))
    decreases Depth(o)
  {
    if o.link.Root? {
      C' := C + {l};
      forall i | 0 <= i < |o.done| ensures IsPair(st, C', st.lists[l].head[i], o.done[i]) {
        PairFrame(st, C, st, C', st.lists[l].head[i], o.done[i]);
      }
    } else {
      SimClose(st, C, root, l, o);
      C' := SimFinish(st, C + {l} + PendingOf(st, l, o.link), root, ParentList(st, l), Close(o));
    }
  }

  // ---- the same moves on objects

  ghost predicate NoErrors(st: Store) {
    forall l :: l in st.lists ==> st.lists[l].error == 0
  }

  /** The objects agree with the state o of the unpacker. */
  ghost predicate InStep(S: Objs, C: set<NvList>, root: NvList, nvl: NvList, o: Open)
    reads S.ls, S.ps
  {
    Inv(S) && NoErrors(Snap(S)) && nvl in S.ls && root in S.ls && C <= S.ls && Sim(Snap(S), C, root, nvl, o, 0)
  }

  /** Fresh empty lists ks were added to st. */
  ghost predicate Adds(st: Store, st': Store, ks: seq<NvList>, flags: byte) {
    && Distinct(ks) && st'.pairs == st.pairs
    && (forall l :: l in st.lists ==> l in st'.lists && st'.lists[l] == st.lists[l] && l !in ks)
    && (forall i :: 0 <= i < |ks| ==>
         ks[i] in st'.lists && st'.lists[ks[i]] == ListRec(0, if i == 0 then flags else 0, false, null, null, []))
  }

  lemma {:induction false} AddsOne(st: Store, st1: Store, ks: seq<NvList>, flags: byte, k: NvList)
    requires Adds(st, st1, ks, flags) && k !in st1.lists
    ensures Adds(st, AddedList(st1, k, if ks == [] then flags else 0), ks + [k], flags)
  {
  }

  method MakeLists(n: nat, flags: byte, ghost S: Objs) returns (ks: seq<NvList>, ghost S': Objs)
    requires Inv(S) && NoErrors(Snap(S)) && flags < 4
    ensures |ks| == n && Inv(S') && NoErrors(Snap(S')) && S.ls <= S'.ls && S'.ps == S.ps
    ensures Adds(old(Snap(S)), Snap(S'), ks, flags) && fresh(S'.ls - S.ls)
  {
    hide Inv, Snap, Consistent, Adds;
    ks, S' := [], S;
    ghost var st := Snap(S);
    AddsNone(st, flags);
    while |ks| < n
      invariant |ks| <= n && Inv(S') && NoErrors(Snap(S')) && S.ls <= S'.ls && S'.ps == S.ps
      invariant Adds(st, Snap(S'), ks, flags) && fresh(S'.ls - S.ls)
    {
      var k;
      ghost var st1 := Snap(S');
      k, S' := NewList(if ks == [] then flags else 0, S');
      SnapList(S', k);
      AddsOne(st, st1, ks, flags, k);
      ks := ks + [k];
    }
  }

  lemma {:induction false} AddsNone(st: Store, flags: byte)
    ensures Adds(st, st, [], flags)
  {
  }

  // ---- hanging a new pair on the current list

  /** kids are new and empty, so nothing hangs below them. */
  lemma {:induction false} NothingBelow(st: Store, p: NvPair, U: set<NvList>)
    requires Consistent(st, map[]) && p in st.pairs && (forall k :: k in KidsOf(st.pairs[p].value) <==> k in U)
    requires forall k :: k in U ==> k in st.lists && st.lists[k].head == []
    ensures Below(st, p, U)
  {
    forall q | q in st.pairs ensures st.pairs[q].list !in U { assert PairOk(st, q); }
  }

  /** The name rule of the list object is the name rule of the state. */
  lemma {:induction false} SameFresh(st: Store, C: set<NvList>, root: NvList, l: NvList, o: Open, name: seq<byte>)
    requires Sim(st, C, root, l, o, 0)
    ensures NameFree(st, l, name) == Fresh(o.flags, name, o.done)
  {
    var head := st.lists[l].head;
    assert forall i :: 0 <= i < |o.done| ==> IsPair(st, C, head[i], o.done[i]) && NameOf(st, head[i]) == o.done[i].name;
  }

  lemma {:induction false} HangTouches(st0: Store, st1: Store, st3: Store, l: NvList, p: NvPair, name: seq<byte>,
      v: Payload)
    requires Touches(st0, st1, {}) && l in st0.lists && l in st1.lists && p !in st1.pairs
    requires forall k :: k in KidsOf(v) ==> k !in st0.lists
    requires var st2 := Adopted(st1, p, NewRec(name, v));
      l in st2.lists && st3.lists == Attached(st2, l, p).lists && st3.pairs == Attached(st2, l, p).pairs
    ensures Touches(st0, st3, {l}) && l in st3.lists && p in st3.pairs
    ensures st3.lists[l].head == st0.lists[l].head + [p] && st3.lists[l].flags == st0.lists[l].flags
    ensures st3.lists[l].parent == st0.lists[l].parent
    ensures st3.pairs[p].name == name && st3.pairs[p].value == v && st3.pairs[p].list == l
    ensures NoErrors(st1) ==> NoErrors(st3)
    ensures forall k :: k in KidsOf(v) && k in st1.lists ==>
      k in st3.lists && st3.lists[k].parent == p && st3.lists[k].flags == st1.lists[k].flags &&
      st3.lists[k].head == st1.lists[k].head
  {
  }

  lemma {:induction false} HangReady(st0: Store, st1: Store, l: NvList, p: NvPair, name: seq<byte>, v: Payload,
                                     U: set<NvList>, C: set<NvList>, root: NvList, o: Open)
    requires Touches(st0, st1, {}) && l in st1.lists && p !in st1.pairs && Sim(st0, C, root, l, o, 0)
    requires forall k :: k in KidsOf(v) <==> k in U
    requires forall k :: k in U ==> k in st1.lists && k !in st0.lists && st1.lists[k].head == []
    requires Consistent(Adopted(st1, p, NewRec(name, v)), map[])
    ensures var st2 := Adopted(st1, p, NewRec(name, v));
      && l !in U && l in st2.lists && Below(st2, p, U) && st2.lists[l].error == st1.lists[l].error
      && st2.pairs[p].list == null && st2.pairs[p].name == name
      && NameFree(st2, l, name) == Fresh(o.flags, name, o.done)
  {
    var st2 := Adopted(st1, p, NewRec(name, v));
    NothingBelow(st2, p, U);
    hide Consistent, Closed, Below, NameFree, Sim, IsPair;
    NamesStay(st0, st1, l, p, name, v, C, root, o);
  }

  lemma {:induction false} NamesStay(st0: Store, st1: Store, l: NvList, p: NvPair, name: seq<byte>, v: Payload,
      C: set<NvList>,
      root: NvList, o: Open)
    requires Touches(st0, st1, {}) && l in st1.lists && p !in st1.pairs && Sim(st0, C, root, l, o, 0)
    ensures var st2 := Adopted(st1, p, NewRec(name, v));
      l in st2.lists && NameFree(st2, l, name) == Fresh(o.flags, name, o.done)
  {
    var st2 := Adopted(st1, p, NewRec(name, v));
    SameFresh(st0, C, root, l, o, name);
    var head := st0.lists[l].head;
    assert forall i :: 0 <= i < |head| ==> IsPair(st0, C, head[i], o.done[i]) && NameOf(st2, head[i]) == NameOf(st0, head[i]);
  }

  /** Create a pair and put it on the current list; its lists are new. */
  method Hang(nvl: NvList, name: seq<byte>, v: Payload, ghost S: Objs, ghost st0: Store, ghost C: set<NvList>,
      ghost root: NvList, ghost o: Open)
    returns (ok: bool, p: NvPair, ghost S': Objs)
    requires Inv(S) && NoErrors(Snap(S)) && nvl in S.ls && ValidName(name) && Adoptable(Snap(S), v)
    requires Consistent(st0, map[]) && Sim(st0, C, root, nvl, o, 0) && Touches(st0, Snap(S), {})
    requires forall k :: k in KidsOf(v) ==> k in S.ls && k !in st0.lists && Snap(S).lists[k].head == []
    modifies S.ls
    ensures fresh(p) && S' == Objs(S.ls, S.ps + {p}) && Inv(S')
    ensures ok == Fresh(o.flags, name, o.done)
    ensures ok ==> NoErrors(Snap(S')) && Sim(Snap(S'), C, root, nvl, o, 1) && Snap(S').lists[nvl].head[|o.done|] == p
    ensures ok ==> Snap(S').pairs[p].name == name && Snap(S').pairs[p].value == v && Snap(S').pairs[p].list == nvl
    ensures ok ==> forall k :: k in KidsOf(v) ==>
      Snap(S').lists[k].parent == p && Snap(S').lists[k].flags == old(Snap(S)).lists[k].flags &&
      Snap(S').lists[k].head == []
  {
    hide Inv, Snap, Consistent, Sim, Touches, Adopted, Attached, Below, NameFree, Adoptable, Fresh;
    ghost var st1 := Snap(S);
    SnapList(S, nvl);
    InSim(st0, C, root, nvl, o);
    p, S' := NewPair(name, v, S);
    ghost var U := set k | k in KidsOf(v);
    InvSnap(S');
    HangReady(st0, st1, nvl, p, name, v, U, C, root, o);
    SnapPair(S', p);
    SnapList(S', nvl);
    ok := MovePair(nvl, p, S', U);
    if ok {
      HangTouches(st0, st1, Snap(S'), nvl, p, name, v);
      SimGrow(st0, C, Snap(S'), root, nvl, o, p);
    }
  }

  lemma {:induction false} InvSnap(S: Objs)
    requires Inv(S)
    ensures Consistent(Snap(S), map[])
  {
  }

  lemma {:induction false} InSim(st: Store, C: set<NvList>, root: NvList, l: NvList, o: Open)
    requires Sim(st, C, root, l, o, 0)
    ensures l in st.lists
  {
  }

  // ---- one turn of the loop

  /** The new list k of pair p becomes the current one. */
  lemma {:induction false} SimEnter(st: Store, C: set<NvList>, root: NvList, l: NvList, o: Open, p: NvPair,
      name: seq<byte>, ks: seq<NvList>, flags: byte, v: Payload)
    requires Sim(st, C, root, l, o, 1) && st.lists[l].head[|o.done|] == p && p in st.pairs
    requires st.pairs[p].name == name && st.pairs[p].value == v && st.pairs[p].list == l
    requires ks != [] && (v == Kids(ks) || (v == Kid(ks[0]) && |ks| == 1))
    requires forall i :: 0 <= i < |ks| ==>
      ks[i] in st.lists && ks[i] !in C && st.lists[ks[i]].parent == p && st.lists[ks[i]].head == [] &&
      st.lists[ks[i]].flags == if i == 0 then flags else 0
    ensures Sim(st, C, root, ks[0], Open(flags, [], if v.Kid? then Child(name, o) else Elem(name, [], |ks| - 1, o)), 0)
  {
    var link := if v.Kid? then Child(name, o) else Elem(name, [], |ks| - 1, o);
    assert forall j :: 0 < j < |ks| ==> Pending(st, C, ks[j]);
    assert LinkOk(st, C, root, ks[0], link);
  }

  lemma {:induction false} AddsTouches(st: Store, st': Store, ks: seq<NvList>, flags: byte)
    requires Adds(st, st', ks, flags) && |ks| > 0
    ensures Touches(st, st', {}) && Adoptable(st', Kids(ks)) && (|ks| == 1 ==> Adoptable(st', Kid(ks[0])))
    ensures forall i :: 0 <= i < |ks| ==>
      ks[i] in st'.lists && ks[i] !in st.lists && st'.lists[ks[i]].head == [] &&
      st'.lists[ks[i]].flags == if i == 0 then flags else 0
  {
  }

  method ReadScalar(nvl: NvList, name: seq<byte>, s: Scalar, ghost S: Objs, ghost C: set<NvList>, ghost root: NvList,
      ghost o: Open)
    returns (ok: bool, ghost S': Objs)
    requires InStep(S, C, root, nvl, o) && ValidName(name) && WfScalar(s)
    modifies S.ls
    ensures ok == Fresh(o.flags, name, o.done)
    ensures S'.ls == S.ls && S.ps <= S'.ps && fresh(S'.ps - S.ps)
    ensures ok ==> InStep(S', C, root, nvl, o.(done := o.done + [Pair(name, Leaf(s))]))
  {
    hide Inv, Snap, Consistent, Sim, Fresh, NoErrors;
    var p;
    InvSnap(S);
    ok, p, S' := Hang(nvl, name, Scal(s), S, Snap(S), C, root, o);
    if ok {
      SimDone(Snap(S'), C, root, nvl, o, Pair(name, Leaf(s)));
    }
  }

  method ReadLists(nvl: NvList, name: seq<byte>, n: nat, asArray: bool, flags: byte, ghost S: Objs,
      ghost C: set<NvList>, ghost root: NvList, ghost o: Open)
    returns (ok: bool, k: NvList, ghost S': Objs)
    requires InStep(S, C, root, nvl, o) && ValidName(name) && n > 0 && flags < 4 && (asArray || n == 1)
    modifies S.ls
    ensures ok == Fresh(o.flags, name, o.done)
    ensures S.ls <= S'.ls && S.ps <= S'.ps && fresh(S'.ps - S.ps) && fresh(S'.ls - S.ls)
    ensures ok ==> InStep(S', C, root, k, Open(flags, [], if asArray then Elem(name, [], n - 1, o) else Child(name, o)))
  {
    hide Inv, Snap, Consistent, Sim, Fresh, NoErrors, Touches, Adds, Adoptable, ValidName, KidsOf;
    ghost var st0, S1 := Snap(S), S;
    var ks, p;
    InvSnap(S);
    ks, S1 := MakeLists(n, flags, S);
    k := ks[0];
    AddsTouches(st0, Snap(S1), ks, flags);
    var v := if asArray then Kids(ks) else Kid(k);
    SameKids(v, ks);
    ok, p, S' := Hang(nvl, name, v, S1, st0, C, root, o);
    if ok {
      SimEnter(Snap(S'), C, root, nvl, o, p, name, ks, flags, v);
    }
  }

  lemma {:induction false} SameKids(v: Payload, ks: seq<NvList>)
    requires v == Kids(ks) || (|ks| == 1 && v == Kid(ks[0]))
    ensures KidsOf(v) == ks
  {
  }

  /** Leave the current list for the one that holds it. */
  method ClimbOut(nvl: NvList, ghost S: Objs, ghost C: set<NvList>, ghost root: NvList, ghost o: Open)
    returns (up: NvList?, ghost C': set<NvList>)
    requires InStep(S, C, root, nvl, o)
    ensures up == null <==> o.link.Root?
    ensures up != null ==> InStep(S, C', root, up, Close(o))
  {
    hide Inv, Snap, Consistent, Sim, NoErrors;
    InvSnap(S);
    SnapList(S, nvl);
    NextLink(Snap(S), C, root, nvl, o);
    up, C' := null, C;
    if nvl.parent != null {
      SimClose(Snap(S), C, root, nvl, o);
      Closable(Snap(S), C, root, nvl, o);
      SnapPair(S, nvl.parent);
      up := nvl.parent.list;
      C' := C + {nvl} + PendingOf(Snap(S), nvl, o.link);
      InSim(Snap(S), C', root, up, Close(o));
    }
  }

  lemma {:induction false} FlagsOk(st: Store, k: NvList, flags: byte)
    requires Consistent(st, map[]) && k in st.lists && st.lists[k].head == [] && flags < 4
    ensures Consistent(WithFlags(st, k, flags), map[])
  {
    var st' := WithFlags(st, k, flags);
    forall q | q in st'.pairs ensures PairOk(st', q) && PairBytes(st', q) == PairBytes(st, q) {
      assert PairOk(st, q);
      BytesKeep(st, st', q);
      forall j | 0 <= j < |KidsOf(st.pairs[q].value)| ensures KidOk(st', q, j) { assert KidOk(st, q, j); }
    }
    forall x | x in st'.lists ensures ListOk(st', x, 0) {
      assert ListOk(st, x, 0);
      HeadSizeSame(st, st', st.lists[x].head);
    }
  }

  method PutFlags(k: NvList, flags: byte, ghost S: Objs)
    requires k in S.ls
    modifies k`flags
    ensures Snap(S) == WithFlags(old(Snap(S)), k, flags)
  {
    ghost var st := Snap(S);
    k.flags := flags;
    assert SnapLists(S.ls) == WithFlags(st, k, flags).lists;
    assert SnapSizes(S.ls) == st.sizes && SnapDepths(S.ls) == st.depths && SnapPairs(S.ps) == st.pairs;
  }

  method NextElement(nvl: NvList, flags: byte, ghost S: Objs, ghost C: set<NvList>, ghost root: NvList, ghost o: Open)
    returns (k: NvList, ghost C': set<NvList>)
    requires InStep(S, C, root, nvl, o) && o.link.Elem? && o.link.after > 0 && flags < 4
    modifies S.ls`flags
    ensures InStep(S, C', root, k, NextElem(o, flags))
  {
    hide Inv, Snap, Consistent, Sim;
    ghost var st := Snap(S);
    InvSnap(S);
    SnapList(S, nvl);
    NextLink(st, C, root, nvl, o);
    k, C' := nvl.arrayNext, C + {nvl};
    SimNext(st, C, root, nvl, k, o, flags);
    FlagsOk(st, k, flags);
    PutFlags(k, flags, S);
    assert Inv(S) by { InvOf(S); }
  }

  lemma {:induction false} InvOf(S: Objs)
    requires Consistent(Snap(S), map[])
    ensures Inv(S)
  {
  }

  method Turn(bs: seq<byte>, isbe: bool, nvl: NvList, ghost S: Objs, ghost C: set<NvList>, ghost root: NvList,
      ghost o: Open)
    returns (ok: bool, used: nat, isbe': bool, nvl': NvList, ghost S': Objs, ghost C': set<NvList>, ghost o': Open)
    requires InStep(S, C, root, nvl, o)
    modifies S.ls
    ensures S.ls <= S'.ls && S.ps <= S'.ps && fresh(S'.ps - S.ps) && fresh(S'.ls - S.ls)
    ensures ok == Step(bs, isbe, o).Goto?
    ensures ok ==> Step(bs, isbe, o) == Goto(used, isbe', o') && InStep(S', C', root, nvl', o')
  {
    hide InStep, ParsePairHdr, ParseListHdr, ParseScalar, Fresh, Close, NextElem;
    ok, used, isbe', nvl', S', C', o' := false, 0, isbe, nvl, S, C, o;
    var ph := ParsePairHdr(isbe, bs);
    if ph.None? { return; }
    var h := ph.value;
    used := h.Size();
    if h.typ == T_UP || h.typ == T_NEXT {
      var up;
      up, C' := ClimbOut(nvl, S, C, root, o);
      if up == null { return; }
      NextLinkOf(S, C, root, nvl, o);
      if h.typ == T_NEXT && nvl.arrayNext != null {
        var lh := ParseListHdr(bs[used..]);
        if lh.None? { return; }
        nvl', C' := NextElement(nvl, lh.value.flags, S, C, root, o);
        ok, used, isbe', o' := true, used + HDR, lh.value.isbe, NextElem(o, lh.value.flags);
      } else {
        ok, nvl', o' := true, up, Close(o);
      }
    } else if h.typ == T_NVLIST || h.typ == T_NVLIST_ARRAY {
      var lh := ParseListHdr(bs[used..]);
      var asArray := h.typ == T_NVLIST_ARRAY;
      if lh.None? || (if asArray then h.nitems == 0 || HDR * h.nitems > |bs| - used else h.datasize == 0) { return; }
      var n := if asArray then h.nitems else 1;
      ok, nvl', S' := ReadLists(nvl, h.name, n, asArray, lh.value.flags, S, C, root, o);
      used, isbe' := used + HDR, if asArray then lh.value.isbe else isbe;
      o' := Open(lh.value.flags, [], if asArray then Elem(h.name, [], n - 1, o) else Child(h.name, o));
    } else {
      var s := ParseScalar(h, isbe, bs[used..]);
      if s.None? { return; }
      ok, S' := ReadScalar(nvl, h.name, s.value, S, C, root, o);
      used, o' := used + h.datasize, o.(done := o.done + [Pair(h.name, Leaf(s.value))]);
    }
  }

  lemma {:induction false} NextLinkOf(S: Objs, C: set<NvList>, root: NvList, nvl: NvList, o: Open)
    requires InStep(S, C, root, nvl, o)
    ensures nvl.arrayNext == null <==> !(o.link.Elem? && o.link.after > 0)
  {
    SnapList(S, nvl);
    NextLink(Snap(S), C, root, nvl, o);
  }

  lemma {:induction false} RunStep(bs: seq<byte>, isbe: bool, o: Open)
    requires bs != []
    ensures var s := Step(bs, isbe, o); Run(bs, isbe, o) == if s.Fail? then None else Run(bs[s.used..], s.isbe, s.open)
  {
  }

  lemma {:induction false} RootStep(S: Objs, root: NvList, flags: byte, st: Store)
    requires root in S.ls && Inv(S) && Snap(S) == AddedList(st, root, flags) && st.lists.Keys == {}
    ensures InStep(S, {}, root, root, Open(flags, [], Root))
  {
  }

  lemma {:induction false} NoObjects(S: Objs)
    requires S == Objs({}, {})
    ensures Inv(S) && Snap(S).lists.Keys == {}
  {
  }

  method NewRoot(flags: byte) returns (nvl: NvList, ghost S: Objs)
    requires flags < 4
    ensures fresh(nvl) && fresh(S.ls) && fresh(S.ps) && InStep(S, {}, nvl, nvl, Open(flags, [], Root))
  {
    hide Snap, Inv, AddedList, InStep;
    S := Objs({}, {});
    NoObjects(S);
    ghost var st := Snap(S);
    nvl, S := NewList(flags, S);
    RootStep(S, nvl, flags, st);
  }

  /** What the loop holds together: objects in step with a state that still leads to the result. */
  ghost predicate Ahead(bs: seq<byte>, isbe: bool, goal: Option<Tree>, S: Objs, C: set<NvList>, root: NvList,
      nvl: NvList, o: Open)
    reads S.ls, S.ps
  {
    InStep(S, C, root, nvl, o) && Run(bs, isbe, o) == goal
  }

  /** The list where it all began has no parent. */
  lemma {:induction false} RootFree(st: Store, C: set<NvList>, root: NvList, l: NvList, o: Open, extra: nat)
    requires Sim(st, C, root, l, o, extra)
    ensures root in st.lists && st.lists[root].parent == null
    decreases o
  {
    hide IsPair, IsTree, Pending;
    match o.link
    case Root =>
    case Child(_, up) => RootFree(st, C, root, st.pairs[st.lists[l].parent].list, up, 1);
    case Elem(_, _, _, up) => RootFree(st, C, root, st.pairs[st.lists[l].parent].list, up, 1);
  }

  lemma {:induction false} Arrived(isbe: bool, goal: Option<Tree>, S: Objs, C: set<NvList>, root: NvList, nvl: NvList,
      o: Open)
      returns (C': set<NvList>)
    requires Ahead([], isbe, goal, S, C, root, nvl, o)
    ensures Inv(S) && root in S.ls && goal.Some? && IsTree(Snap(S), C', root, goal.value) && root.parent == null
    ensures root.error == 0
  {
    C' := SimFinish(Snap(S), C, root, nvl, o);
    RootFree(Snap(S), C, root, nvl, o, 0);
    SnapList(S, root);
  }

  /**
   * Unpacks any bytes at all. What is accepted is a consistent set of list
   * objects standing for exactly the tree the format describes; everything
   * else is refused.
   */
  method Unpack(buf: array<byte>, flags: byte) returns (root: NvList?, ghost S: Objs, ghost C: set<NvList>)
    requires flags < 4
    ensures root == null <==> Unpacked(buf[..], flags).None?
    ensures root != null ==>
      fresh(S.ls) && fresh(S.ps) && root in S.ls && Inv(S) && root.parent == null && root.error == 0
    ensures root != null ==> IsTree(Snap(S), C, root, Unpacked(buf[..], flags).value)
  {
    hide InStep, ParseListHdr, Step, Run, Inv, IsTree;
    root, S, C := null, Objs({}, {}), {};
    var lh := ParseListHdr(buf[..]);
    if lh.None? || lh.value.flags != flags { return; }
    ghost var goal, o := Unpacked(buf[..], flags), Open(flags, [], Root);
    var isbe, ptr := lh.value.isbe, HDR;
    var first: NvList;
    first, S := NewRoot(flags);
    var nvl := first;
    while ptr < buf.Length
      invariant ptr <= buf.Length && fresh(S.ls) && fresh(S.ps)
      invariant Ahead(buf[ptr..], isbe, goal, S, C, first, nvl, o)
      decreases buf.Length - ptr
    {
      var ok, used;
      ghost var bs := buf[ptr..];
      RunStep(bs, isbe, o);
      ok, used, isbe, nvl, S, C, o := Turn(buf[ptr..], isbe, nvl, S, C, first, o);
      if !ok { return; }
      assert buf[ptr..][used..] == buf[ptr + used..];
      ptr := ptr + used;
    }
    assert buf[ptr..] == [];
    C := Arrived(isbe, goal, S, C, first, nvl, o);
    root := first;
  }
}

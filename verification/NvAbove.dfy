/**
 * What a change inside one list means for other lists: nothing for those that do not hold it, one subtree for
 * those that do.
 */
module NvAbove {
  import opened NvTree
  import opened NvHeap
  import opened NvView

  /** From st to st' pairs changed, or came, inside list l only. */
  ghost predicate OnlyIn(st: Store, st': Store, l: NvList) {
    && (forall x :: x in st.lists ==> x in st'.lists && st'.lists[x].flags == st.lists[x].flags)
    && (forall x :: x in st.lists && x != l ==> st'.lists[x].head == st.lists[x].head)
    && (forall q :: q in st.pairs ==> q in st'.pairs && st'.pairs[q].name == st.pairs[q].name)
    && (forall q :: q in st.pairs && st.pairs[q].list != l ==> st'.pairs[q].value == st.pairs[q].value)
  }

  /** A list that does not hold l stands for the tree it stood for. */
  lemma {:induction false} Elsewhere(st: Store, st': Store, C: set<NvList>, x: NvList, t: Tree, l: NvList)
    requires Consistent(st, map[]) && OnlyIn(st, st', l) && IsTree(st, C, x, t) && l !in C
    ensures IsTree(st', C, x, t)
    decreases t
  {
    assert ListOk(st, x, 0);
    forall i | 0 <= i < |t.pairs| ensures IsPair(st', C, st.lists[x].head[i], t.pairs[i]) {
      PairElsewhere(st, st', C, st.lists[x].head[i], t.pairs[i], l);
    }
  }

  lemma {:induction false} PairElsewhere(st: Store, st': Store, C: set<NvList>, p: NvPair, q: Pair, l: NvList)
    requires Consistent(st, map[]) && OnlyIn(st, st', l) && IsPair(st, C, p, q) && l !in C && st.pairs[p].list != l
    ensures IsPair(st', C, p, q)
    decreases q
  {
    hide Consistent, OnlyIn;
    assert st'.pairs[p].name == st.pairs[p].name && st'.pairs[p].value == st.pairs[p].value by {
      OnePair(st, st', l, p);
    }
    match q.value
    case Leaf(_) =>
    case Nested(t) => Elsewhere(st, st', C, st.pairs[p].value.kid, t, l);
    case Elems(ts) =>
      forall j | 0 <= j < |ts| ensures IsTree(st', C, st.pairs[p].value.kids[j], ts[j]) {
        Elsewhere(st, st', C, st.pairs[p].value.kids[j], ts[j], l);
      }
  }

  lemma {:induction false} OnePair(st: Store, st': Store, l: NvList, p: NvPair)
    requires OnlyIn(st, st', l) && p in st.pairs && st.pairs[p].list != l
    ensures p in st'.pairs && st'.pairs[p].name == st.pairs[p].name && st'.pairs[p].value == st.pairs[p].value
  {
  }

  // ---- the lists above

  /** The list n levels above l. */
  ghost function Climb(st: Store, l: NvList, n: nat): NvList? {
    if n == 0 then l
    else
      var x := Climb(st, l, n - 1);
      if x == null || x !in st.lists then null else ParentList(st, x)
  }

  lemma {:induction false} ClimbUp(st: Store, l: NvList, m: nat, n: nat)
    requires Consistent(st, map[]) && m < n && Climb(st, l, n) != null && l in st.lists
    ensures Climb(st, l, m) != null && Climb(st, l, m) in st.depths && Climb(st, l, n) in st.lists
    ensures Climb(st, l, n) in st.depths
    ensures st.depths[Climb(st, l, n)] < st.depths[Climb(st, l, m)]
    decreases n
  {
    hide Consistent, ParentList;
    var x := Climb(st, l, n - 1);
    ParentUp(st, map[], x);
    if m < n - 1 { ClimbUp(st, l, m, n - 1); }
  }

  /** No list appears twice on the way up. */
  lemma {:induction false} ClimbOnce(st: Store, l: NvList, m: nat, n: nat)
    requires Consistent(st, map[]) && Climb(st, l, m) != null && Climb(st, l, m) == Climb(st, l, n) && l in st.lists
    ensures m == n
  {
    hide Consistent, Climb;
    if m < n { ClimbUp(st, l, m, n); }
    if n < m { ClimbUp(st, l, n, m); }
  }

  ghost predicate Above(st: Store, l: NvList, x: NvList) { exists n: nat :: Climb(st, l, n) == x }

  /** A list that is not above l does not hold it. */
  lemma {:induction false} NotBelow(st: Store, C: set<NvList>, x: NvList, t: Tree, l: NvList)
    requires Consistent(st, map[]) && IsTree(st, C, x, t) && !Above(st, l, x)
    ensures IsTree(st, C - {l}, x, t)
    decreases t
  {
    assert Climb(st, l, 0) == l;
    assert ListOk(st, x, 0);
    forall i | 0 <= i < |t.pairs| ensures IsPair(st, C - {l}, st.lists[x].head[i], t.pairs[i]) {
      PairNotBelow(st, C, st.lists[x].head[i], t.pairs[i], x, l);
    }
  }

  lemma {:induction false} PairNotBelow(st: Store, C: set<NvList>, p: NvPair, q: Pair, x: NvList, l: NvList)
    requires Consistent(st, map[]) && IsPair(st, C, p, q) && st.pairs[p].list == x && !Above(st, l, x)
    ensures IsPair(st, C - {l}, p, q)
    decreases q
  {
    hide Consistent;
    match q.value
    case Leaf(_) =>
    case Nested(t) =>
      var k := st.pairs[p].value.kid;
      KidUp(st, p, 0);
      UpAbove(st, l, k);
      NotBelow(st, C, k, t, l);
    case Elems(ts) =>
      forall j | 0 <= j < |ts| ensures IsTree(st, C - {l}, st.pairs[p].value.kids[j], ts[j]) {
        KidUp(st, p, j);
        UpAbove(st, l, st.pairs[p].value.kids[j]);
        NotBelow(st, C, st.pairs[p].value.kids[j], ts[j], l);
      }
  }

  lemma {:induction false} KidUp(st: Store, p: NvPair, j: nat)
    requires Consistent(st, map[]) && p in st.pairs && j < |KidsOf(st.pairs[p].value)|
    ensures var k := KidsOf(st.pairs[p].value)[j];
      k in st.lists && st.lists[k].parent == p && ParentList(st, k) == st.pairs[p].list
  {
    assert PairOk(st, p);
    assert KidOk(st, p, j);
  }

  /** What is above l has its parent above l, too. */
  lemma {:induction false} UpAbove(st: Store, l: NvList, k: NvList)
    requires k in st.lists && ParentList(st, k) != null
    ensures Above(st, l, k) ==> Above(st, l, ParentList(st, k))
  {
    hide ParentList;
    if Above(st, l, k) {
      var n: nat :| Climb(st, l, n) == k;
      assert Climb(st, l, n + 1) == ParentList(st, k);
    }
  }

  // ---- what they stand for

  /** s' is s with the subtree t, n levels down, replaced by t'. */
  ghost predicate Swapped(s: Tree, s': Tree, n: nat, t: Tree, t': Tree)
    decreases n, 0
  {
    if n == 0 then s == t && s' == t'
    else
      |s'.pairs| == |s.pairs| &&
      exists i :: 0 <= i < |s.pairs| && PairSwapped(s.pairs[i], s'.pairs[i], n - 1, t, t') && s' == s.(pairs := s.pairs[i := s'.pairs[i]])
  }

  ghost predicate PairSwapped(q: Pair, q': Pair, n: nat, t: Tree, t': Tree)
    decreases n, 2
  {
    q'.name == q.name &&
    match q.value
    case Leaf(_) => false
    case Nested(u) => q'.value.Nested? && Swapped(u, q'.value.list, n, t, t')
    case Elems(us) => q'.value.Elems? && ElemSwapped(us, q'.value.lists, n, t, t')
  }

  ghost predicate ElemSwapped(us: seq<Tree>, us': seq<Tree>, n: nat, t: Tree, t': Tree)
    decreases n, 1
  {
    |us'| == |us| && exists j :: 0 <= j < |us| && Swapped(us[j], us'[j], n, t, t') && us' == us[j := us'[j]]
  }

  /** Another child of x than the one on the way up from l. */
  lemma {:induction false} KidAside(st: Store, st': Store, C: set<NvList>, C': set<NvList>, l: NvList, n: nat,
      x: NvList, z: NvList,
      t: Tree)
    requires Consistent(st, map[]) && OnlyIn(st, st', l) && l in st.lists && C <= C' && n > 0 && Climb(st, l, n) == x
    requires z in st.lists && ParentList(st, z) == x && z != Climb(st, l, n - 1) && IsTree(st, C, z, t)
    ensures IsTree(st', C', z, t)
  {
    hide Consistent, OnlyIn, IsTree, ParentList;
    if m: nat :| Climb(st, l, m) == z {
      assert Climb(st, l, m + 1) == x;
      ClimbOnce(st, l, m + 1, n);
    }
    NotBelow(st, C, z, t, l);
    Elsewhere(st, st', C - {l}, z, t, l);
    TreeFrame(st', C - {l}, st', C', z, t);
  }

  lemma {:induction false} PairAside(st: Store, st': Store, C: set<NvList>, C': set<NvList>, l: NvList, n: nat,
      x: NvList, r: NvPair,
      q: Pair)
    requires Consistent(st, map[]) && OnlyIn(st, st', l) && l in st.lists && C <= C' && n > 0 && Climb(st, l, n) == x
    requires IsPair(st, C, r, q) && st.pairs[r].list == x && x != l
    requires var y := Climb(st, l, n - 1); y != null && y in st.lists && st.lists[y].parent != r
    ensures IsPair(st', C', r, q)
  {
    hide Consistent, OnlyIn, Climb, ParentList, IsTree;
    OnePair(st, st', l, r);
    match q.value
    case Leaf(_) =>
    case Nested(t) =>
      KidUp(st, r, 0);
      KidAside(st, st', C, C', l, n, x, st.pairs[r].value.kid, t);
    case Elems(ts) =>
      forall j | 0 <= j < |ts| ensures IsTree(st', C', st.pairs[r].value.kids[j], ts[j]) {
        KidUp(st, r, j);
        KidAside(st, st', C, C', l, n, x, st.pairs[r].value.kids[j], ts[j]);
      }
  }

  /** One step of the way up: the pair that holds y, and where it is in the list above. */
  lemma {:induction false} UpOne(st: Store, l: NvList, n: nat, x: NvList) returns (y: NvList, p: NvPair, i: nat, j: nat)
    requires Consistent(st, map[]) && l in st.lists && n > 0 && Climb(st, l, n) == x
    ensures y == Climb(st, l, n - 1) && y in st.lists && st.lists[y].parent == p && p in st.pairs
    ensures st.pairs[p].list == x && x in st.lists && x != l
    ensures i < |st.lists[x].head| && st.lists[x].head[i] == p && j < |KidsOf(st.pairs[p].value)|
    ensures KidsOf(st.pairs[p].value)[j] == y
  {
    ClimbUp(st, l, 0, n);
    y := Climb(st, l, n - 1);
    ParentUp(st, map[], y);
    p := st.lists[y].parent;
    assert PairOk(st, p);
    i :| 0 <= i < |st.lists[x].head| && st.lists[x].head[i] == p;
    j :| 0 <= j < |KidsOf(st.pairs[p].value)| && KidsOf(st.pairs[p].value)[j] == y;
  }

  /** The pair on the way up, once the list it holds at j stands for u'. */
  lemma {:induction false} PairUp(st: Store, st': Store, C: set<NvList>, C': set<NvList>, l: NvList, t: Tree, t': Tree,
      n: nat, x: NvList,
      y: NvList, p: NvPair, j: nat, q: Pair, u': Tree)
      returns (q': Pair)
    requires Consistent(st, map[]) && OnlyIn(st, st', l) && l in st.lists && C <= C' && n > 0 && Climb(st, l, n) == x
    requires x != l
    requires y == Climb(st, l, n - 1) && p in st.pairs && st.pairs[p].list == x && IsPair(st, C, p, q)
    requires j < |KidsOf(st.pairs[p].value)| && KidsOf(st.pairs[p].value)[j] == y && IsTree(st', C', y, u')
    requires Swapped(SubtreeAt(q.value, j), u', n - 1, t, t')
    ensures IsPair(st', C', p, q') && PairSwapped(q, q', n - 1, t, t')
  {
    hide Consistent, OnlyIn, Climb, ParentList, IsTree, Swapped;
    OnePair(st, st', l, p);
    match q.value
    case Leaf(_) => q' := q;
    case Nested(_) => q' := Pair(q.name, Nested(u'));
    case Elems(us) =>
      var us' := us[j := u'];
      q' := Pair(q.name, Elems(us'));
      KidsApart(st, p);
      forall m | 0 <= m < |us| ensures IsTree(st', C', st.pairs[p].value.kids[m], us'[m]) {
        if m != j {
          KidUp(st, p, m);
          KidAside(st, st', C, C', l, n, x, st.pairs[p].value.kids[m], us[m]);
        }
      }
      assert us'[j] == u' && us' == us[j := us'[j]];
  }

  function SubtreeAt(v: Value, j: nat): Tree {
    match v
    case Nested(u) => u
    case Elems(us) => if j < |us| then us[j] else Tree(0, [])
    case Leaf(_) => Tree(0, [])
  }

  lemma {:induction false} KidsApart(st: Store, p: NvPair)
    requires Consistent(st, map[]) && p in st.pairs
    ensures Distinct(KidsOf(st.pairs[p].value))
  {
    assert PairOk(st, p);
  }

  lemma {:induction false} KidTree(st: Store, C: set<NvList>, p: NvPair, q: Pair, j: nat)
    requires IsPair(st, C, p, q) && j < |KidsOf(st.pairs[p].value)|
    ensures IsTree(st, C, KidsOf(st.pairs[p].value)[j], SubtreeAt(q.value, j))
  {
  }

  lemma {:induction false} HeadsApart(st: Store, x: NvList)
    requires Consistent(st, map[]) && x in st.lists
    ensures Distinct(st.lists[x].head) && forall i :: 0 <= i < |st.lists[x].head| ==>
      st.lists[x].head[i] in st.pairs && st.pairs[st.lists[x].head[i]].list == x
  {
    assert ListOk(st, x, 0);
  }

  /** The list n levels above l stands for its tree with l's tree replaced by the new one, and nothing else changed. */
  lemma {:induction false} SwappedAbove(st: Store, st': Store, C: set<NvList>, C': set<NvList>, l: NvList, t: Tree,
      t': Tree, n: nat, x: NvList, s: Tree)
      returns (s': Tree)
    requires Consistent(st, map[]) && OnlyIn(st, st', l) && l in st.lists && C <= C' && Climb(st, l, n) == x
    requires IsTree(st, C, l, t) && IsTree(st, C, x, s) && IsTree(st', C', l, t')
    ensures IsTree(st', C', x, s') && Swapped(s, s', n, t, t')
    decreases n
  {
    hide Consistent, OnlyIn, IsPair, PairSwapped;
    if n == 0 {
      TreeUnique(st, C, C, l, t, s);
      s' := t';
    } else {
      var y, p, i, j := UpOne(st, l, n, x);
      var q := s.pairs[i];
      KidTree(st, C, p, q, j);
      var u' := SwappedAbove(st, st', C, C', l, t, t', n - 1, y, SubtreeAt(q.value, j));
      var q' := PairUp(st, st', C, C', l, t, t', n, x, y, p, j, q, u');
      s' := s.(pairs := s.pairs[i := q']);
      HeadsApart(st, x);
      ListSame(st, st', l, x);
      forall k | 0 <= k < |s.pairs| ensures IsPair(st', C', st'.lists[x].head[k], s'.pairs[k]) {
        if k != i { PairAside(st, st', C, C', l, n, x, st.lists[x].head[k], s.pairs[k]); }
      }
      assert s'.pairs[i] == q';
      assert x in C';
    }
  }

  lemma {:induction false} ListSame(st: Store, st': Store, l: NvList, x: NvList)
    requires OnlyIn(st, st', l) && x in st.lists && x != l
    ensures x in st'.lists && st'.lists[x].head == st.lists[x].head && st'.lists[x].flags == st.lists[x].flags
  {
  }
}

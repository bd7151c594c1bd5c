/** The tree a list object stands for, and what consistency says about it. */
module NvView {
  import opened NvTree
  import opened NvHeap

  /** List l and everything below it lie in C and spell out t. */
  ghost predicate IsTree(st: Store, C: set<NvList>, l: NvList, t: Tree)
    decreases t
  {
    && l in C && l in st.lists
    && st.lists[l].flags == t.flags
    && |st.lists[l].head| == |t.pairs|
    && forall i :: 0 <= i < |t.pairs| ==> IsPair(st, C, st.lists[l].head[i], t.pairs[i])
  }

  ghost predicate IsPair(st: Store, C: set<NvList>, p: NvPair, q: Pair)
    decreases q
  {
    && p in st.pairs && st.pairs[p].name == q.name
    && match q.value
       case Leaf(s) => st.pairs[p].value == Scal(s)
       case Nested(t) => st.pairs[p].value.Kid? && IsTree(st, C, st.pairs[p].value.kid, t)
       case Elems(ts) => st.pairs[p].value.Kids? && |st.pairs[p].value.kids| == |ts|
                         && forall i :: 0 <= i < |ts| ==> IsTree(st, C, st.pairs[p].value.kids[i], ts[i])
  }

  // ---- consistency and trees

  /** The cached size of a list is the packed size of the tree it stands for. */
  lemma {:induction false} CachedSize(st: Store, C: set<NvList>, l: NvList, t: Tree)
    requires Consistent(st, map[]) && IsTree(st, C, l, t)
    ensures l in st.sizes && st.sizes[l] == TreeSize(t)
    decreases t, 1
  {
    assert ListOk(st, l, 0);
    HeadBytes(st, C, st.lists[l].head, t.pairs);
  }

  lemma {:induction false} HeadBytes(st: Store, C: set<NvList>, ps: seq<NvPair>, qs: seq<Pair>)
    requires Consistent(st, map[]) && |ps| == |qs| && forall i :: 0 <= i < |qs| ==> IsPair(st, C, ps[i], qs[i])
    ensures HeadSize(st, ps) == PairsSize(qs)
    decreases qs, 0
  {
    if qs != [] {
      PairBytesIs(st, C, ps[0], qs[0]);
      HeadBytes(st, C, ps[1..], qs[1..]);
    }
  }

  lemma {:induction false} PairBytesIs(st: Store, C: set<NvList>, p: NvPair, q: Pair)
    requires Consistent(st, map[]) && IsPair(st, C, p, q)
    ensures PairBytes(st, p) == PairSize(q)
    decreases q, 1
  {
    assert PairOk(st, p);
    match q.value
    case Leaf(_) =>
    case Nested(t) =>
      var k := st.pairs[p].value.kid;
      CachedSize(st, C, k, t);
      assert KidsSize(st, [k]) == Cached(st, k) + MARK + KidsSize(st, [k][1..]);
    case Elems(ts) =>
      KidsBytes(st, C, st.pairs[p].value.kids, ts);
  }

  lemma {:induction false} KidsBytes(st: Store, C: set<NvList>, ks: seq<NvList>, ts: seq<Tree>)
    requires Consistent(st, map[]) && |ks| == |ts| && forall i :: 0 <= i < |ts| ==> IsTree(st, C, ks[i], ts[i])
    ensures KidsSize(st, ks) == ElemsSize(ts)
    decreases ts, 0
  {
    if ts != [] {
      CachedSize(st, C, ks[0], ts[0]);
      KidsBytes(st, C, ks[1..], ts[1..]);
    }
  }

  /** The tree of a consistent list is well formed: valid names, unique where asked, arrays non-empty. */
  lemma {:induction false} TreeWf(st: Store, C: set<NvList>, l: NvList, t: Tree)
    requires Consistent(st, map[]) && IsTree(st, C, l, t)
    ensures WfTree(t)
    decreases t
  {
    assert ListOk(st, l, 0);
    var head := st.lists[l].head;
    assert forall i :: 0 <= i < |t.pairs| ==> NameOf(st, head[i]) == t.pairs[i].name by {
      assert forall i :: 0 <= i < |t.pairs| ==> IsPair(st, C, head[i], t.pairs[i]);
    }
    forall i | 0 <= i < |t.pairs| ensures WfPair(t.pairs[i]) {
      assert IsPair(st, C, head[i], t.pairs[i]);
      assert PairOk(st, head[i]);
      match t.pairs[i].value
      case Leaf(_) =>
      case Nested(t') => TreeWf(st, C, st.pairs[head[i]].value.kid, t');
      case Elems(ts) =>
        forall j | 0 <= j < |ts| ensures WfTree(ts[j]) { TreeWf(st, C, st.pairs[head[i]].value.kids[j], ts[j]); }
    }
  }

  // ---- every list stands for a tree

  ghost function MaxDepth(depths: map<NvList, nat>): (m: nat)
    ensures forall l :: l in depths ==> depths[l] <= m
    decreases |depths|
  {
    if depths.Keys == {} then 0
    else
      var l :| l in depths;
      var rest := depths - {l};
      var m := MaxDepth(rest);
      assert forall x :: x in depths && x != l ==> x in rest && rest[x] == depths[x];
      if m < depths[l] then depths[l] else m
  }

  lemma {:induction false} TreeExists(st: Store, l: NvList) returns (t: Tree)
    requires Consistent(st, map[]) && l in st.lists
    ensures l in st.depths && IsTree(st, st.lists.Keys, l, t)
    decreases MaxDepth(st.depths) - (if l in st.depths then st.depths[l] else 0), 3, 0
  {
    assert ListOk(st, l, 0);
    var qs := PairsExist(st, l, st.lists[l].head);
    t := Tree(st.lists[l].flags, qs);
  }

  lemma {:induction false} PairsExist(st: Store, l: NvList, ps: seq<NvPair>) returns (qs: seq<Pair>)
    requires Consistent(st, map[]) && l in st.depths
    requires forall i :: 0 <= i < |ps| ==> ps[i] in st.pairs && st.pairs[ps[i]].list == l
    ensures |qs| == |ps| && forall i :: 0 <= i < |ps| ==> IsPair(st, st.lists.Keys, ps[i], qs[i])
    decreases MaxDepth(st.depths) - st.depths[l], 2, |ps|
  {
    hide Consistent, IsPair, MaxDepth;
    if ps == [] { return []; }
    var q := PairExists(st, l, ps[0]);
    var qs' := PairsExist(st, l, ps[1..]);
    qs := [q] + qs';
  }

  lemma {:induction false} PairExists(st: Store, l: NvList, p: NvPair) returns (q: Pair)
    requires Consistent(st, map[]) && l in st.depths && p in st.pairs && st.pairs[p].list == l
    ensures IsPair(st, st.lists.Keys, p, q)
    decreases MaxDepth(st.depths) - st.depths[l], 1, 0
  {
    var v := st.pairs[p].value;
    assert PairOk(st, p);
    forall j | 0 <= j < |KidsOf(v)|
      ensures KidsOf(v)[j] in st.lists && KidsOf(v)[j] in st.depths && st.depths[l] < st.depths[KidsOf(v)[j]]
    {
      assert KidOk(st, p, j);
    }
    var ts := KidsExist(st, l, KidsOf(v));
    match v
    case Scal(s) => q := Pair(st.pairs[p].name, Leaf(s));
    case Kid(k) => assert KidsOf(v)[0] == k; q := Pair(st.pairs[p].name, Nested(ts[0]));
    case Kids(_) => q := Pair(st.pairs[p].name, Elems(ts));
  }

  lemma {:induction false} KidsExist(st: Store, l: NvList, ks: seq<NvList>) returns (ts: seq<Tree>)
    requires Consistent(st, map[]) && l in st.depths
    requires forall j :: 0 <= j < |ks| ==> ks[j] in st.lists && ks[j] in st.depths && st.depths[l] < st.depths[ks[j]]
    ensures |ts| == |ks| && forall j :: 0 <= j < |ks| ==> IsTree(st, st.lists.Keys, ks[j], ts[j])
    decreases MaxDepth(st.depths) - st.depths[l], 0, |ks|
  {
    if ks == [] { return []; }
    var t := TreeExists(st, ks[0]);
    var ts' := KidsExist(st, l, ks[1..]);
    ts := [t] + ts';
  }

  /** In a consistent store every list's cached size is the packed size of its tree, at any depth. */
  lemma {:induction false} SizeLaw(st: Store, l: NvList)
    requires Consistent(st, map[]) && l in st.lists
    ensures l in st.sizes && exists t :: IsTree(st, st.lists.Keys, l, t) && WfTree(t) && st.sizes[l] == TreeSize(t)
  {
    var t := TreeExists(st, l);
    CachedSize(st, st.lists.Keys, l, t);
    TreeWf(st, st.lists.Keys, l, t);
  }

  lemma {:induction false} TreeUnique(st: Store, C: set<NvList>, C': set<NvList>, l: NvList, t: Tree, t': Tree)
    requires IsTree(st, C, l, t) && IsTree(st, C', l, t')
    ensures t == t'
    decreases t
  {
    forall i | 0 <= i < |t.pairs| ensures t.pairs[i] == t'.pairs[i] {
      var p, q, q' := st.lists[l].head[i], t.pairs[i], t'.pairs[i];
      assert IsPair(st, C, p, q) && IsPair(st, C', p, q');
      match q.value
      case Leaf(_) =>
      case Nested(u) => TreeUnique(st, C, C', st.pairs[p].value.kid, u, q'.value.list);
      case Elems(ts) =>
        forall j | 0 <= j < |ts| ensures ts[j] == q'.value.lists[j] {
          TreeUnique(st, C, C', st.pairs[p].value.kids[j], ts[j], q'.value.lists[j]);
        }
    }
  }

  /** Changing nothing inside C leaves the trees inside C as they are. */
  lemma {:induction false} TreeFrame(st: Store, C: set<NvList>, st': Store, C': set<NvList>, l: NvList, t: Tree)
    requires IsTree(st, C, l, t) && C <= C'
    requires forall x :: x in C && x in st.lists ==>
      x in st'.lists && st'.lists[x].head == st.lists[x].head && st'.lists[x].flags == st.lists[x].flags
    requires forall p :: p in st.pairs ==>
      p in st'.pairs && st'.pairs[p].name == st.pairs[p].name && st'.pairs[p].value == st.pairs[p].value
    ensures IsTree(st', C', l, t)
    decreases t
  {
    forall i | 0 <= i < |t.pairs| ensures IsPair(st', C', st'.lists[l].head[i], t.pairs[i]) {
      var p, q := st.lists[l].head[i], t.pairs[i];
      assert IsPair(st, C, p, q);
      match q.value
      case Leaf(_) =>
      case Nested(u) => TreeFrame(st, C, st', C', st.pairs[p].value.kid, u);
      case Elems(ts) =>
        forall j | 0 <= j < |ts| ensures IsTree(st', C', st.pairs[p].value.kids[j], ts[j]) {
          TreeFrame(st, C, st', C', st.pairs[p].value.kids[j], ts[j]);
        }
    }
  }

  lemma {:induction false} PairFrame(st: Store, C: set<NvList>, st': Store, C': set<NvList>, p: NvPair, q: Pair)
    requires IsPair(st, C, p, q) && C <= C'
    requires forall x :: x in C && x in st.lists ==>
      x in st'.lists && st'.lists[x].head == st.lists[x].head && st'.lists[x].flags == st.lists[x].flags
    requires forall p :: p in st.pairs ==>
      p in st'.pairs && st'.pairs[p].name == st.pairs[p].name && st'.pairs[p].value == st.pairs[p].value
    ensures IsPair(st', C', p, q)
  {
    match q.value
    case Leaf(_) =>
    case Nested(t) => TreeFrame(st, C, st', C', st.pairs[p].value.kid, t);
    case Elems(ts) =>
      forall i | 0 <= i < |ts| ensures IsTree(st', C', st.pairs[p].value.kids[i], ts[i]) {
        TreeFrame(st, C, st', C', st.pairs[p].value.kids[i], ts[i]);
      }
  }

  // ---- what lies below a list lies deeper

  ghost function Deeper(st: Store, C: set<NvList>, d: nat): set<NvList> {
    set x | x in C && x in st.depths && st.depths[x] >= d
  }

  lemma {:induction false} TreeDeep(st: Store, C: set<NvList>, l: NvList, t: Tree, d: nat)
    requires Consistent(st, map[]) && IsTree(st, C, l, t) && l in st.depths && st.depths[l] >= d
    ensures IsTree(st, Deeper(st, C, d), l, t)
    ensures forall i :: 0 <= i < |t.pairs| ==>
      IsPair(st, Deeper(st, C, st.depths[l] + 1), st.lists[l].head[i], t.pairs[i])
    decreases t
  {
    hide Deeper;
    var head, D := st.lists[l].head, Deeper(st, C, st.depths[l] + 1);
    assert ListOk(st, l, 0);
    forall i | 0 <= i < |t.pairs|
      ensures IsPair(st, D, head[i], t.pairs[i]) && IsPair(st, Deeper(st, C, d), head[i], t.pairs[i])
    {
      PairDeep(st, C, l, head[i], t.pairs[i]);
      DeeperMore(st, C, st.depths[l] + 1, d);
      PairFrame(st, D, st, Deeper(st, C, d), head[i], t.pairs[i]);
    }
    assert l in Deeper(st, C, d) by { DeeperIn(st, C, l, d); }
  }

  lemma {:induction false} KidDeep(st: Store, l: NvList, p: NvPair, j: nat)
    requires Consistent(st, map[]) && p in st.pairs && l in st.depths && st.pairs[p].list == l
    requires j < |KidsOf(st.pairs[p].value)|
    ensures KidsOf(st.pairs[p].value)[j] in st.depths && st.depths[l] < st.depths[KidsOf(st.pairs[p].value)[j]]
  {
    hide ListOk;
    assert PairOk(st, p);
    assert KidOk(st, p, j);
  }

  lemma {:induction false} PairDeep(st: Store, C: set<NvList>, l: NvList, p: NvPair, q: Pair)
    requires Consistent(st, map[]) && IsPair(st, C, p, q) && l in st.depths && st.pairs[p].list == l
    ensures IsPair(st, Deeper(st, C, st.depths[l] + 1), p, q)
    decreases q
  {
    hide Deeper, Consistent, IsTree;
    match q.value
    case Leaf(_) =>
    case Nested(t) =>
      KidDeep(st, l, p, 0);
      TreeDeep(st, C, st.pairs[p].value.kid, t, st.depths[l] + 1);
    case Elems(ts) =>
      forall j | 0 <= j < |ts| ensures IsTree(st, Deeper(st, C, st.depths[l] + 1), st.pairs[p].value.kids[j], ts[j]) {
        KidDeep(st, l, p, j);
        TreeDeep(st, C, st.pairs[p].value.kids[j], ts[j], st.depths[l] + 1);
      }
  }

  lemma {:induction false} DeeperIn(st: Store, C: set<NvList>, l: NvList, d: nat)
    requires l in C && l in st.depths && st.depths[l] >= d
    ensures l in Deeper(st, C, d)
  {
  }

  lemma {:induction false} DeeperMore(st: Store, C: set<NvList>, d: nat, e: nat)
    requires e <= d
    ensures Deeper(st, C, d) <= Deeper(st, C, e) <= C
  {
  }

  /** No list hangs below itself. */
  lemma {:induction false} NotBelowItself(st: Store, C: set<NvList>, l: NvList, t: Tree)
    requires Consistent(st, map[]) && IsTree(st, C, l, t)
    ensures forall i :: 0 <= i < |t.pairs| ==> IsPair(st, C - {l}, st.lists[l].head[i], t.pairs[i])
  {
    hide IsPair;
    assert ListOk(st, l, 0);
    var D := Deeper(st, C, st.depths[l] + 1);
    TreeDeep(st, C, l, t, 0);
    forall i | 0 <= i < |t.pairs| ensures IsPair(st, C - {l}, st.lists[l].head[i], t.pairs[i]) {
      PairFrame(st, D, st, C - {l}, st.lists[l].head[i], t.pairs[i]);
    }
  }

  /** Changing a pair of a list outside C leaves the trees inside C as they are. */
  lemma {:induction false} TreeExcept(st: Store, C: set<NvList>, st': Store, l: NvList, t: Tree, p: NvPair)
    requires Consistent(st, map[]) && IsTree(st, C, l, t) && p in st.pairs && st.pairs[p].list !in C
    requires forall x :: x in C && x in st.lists ==>
      x in st'.lists && st'.lists[x].head == st.lists[x].head && st'.lists[x].flags == st.lists[x].flags
    requires forall q :: q in st.pairs && q != p ==>
      q in st'.pairs && st'.pairs[q].name == st.pairs[q].name && st'.pairs[q].value == st.pairs[q].value
    ensures IsTree(st', C, l, t)
    decreases t
  {
    var head := st.lists[l].head;
    assert ListOk(st, l, 0);
    forall i | 0 <= i < |t.pairs| ensures IsPair(st', C, head[i], t.pairs[i]) {
      assert IsPair(st, C, head[i], t.pairs[i]);
      PairExcept(st, C, st', head[i], t.pairs[i], p);
    }
  }

  lemma {:induction false} PairExcept(st: Store, C: set<NvList>, st': Store, r: NvPair, q: Pair, p: NvPair)
    requires Consistent(st, map[]) && IsPair(st, C, r, q) && p in st.pairs && st.pairs[p].list !in C && r != p
    requires forall x :: x in C && x in st.lists ==>
      x in st'.lists && st'.lists[x].head == st.lists[x].head && st'.lists[x].flags == st.lists[x].flags
    requires forall q :: q in st.pairs && q != p ==>
      q in st'.pairs && st'.pairs[q].name == st.pairs[q].name && st'.pairs[q].value == st.pairs[q].value
    ensures IsPair(st', C, r, q)
    decreases q
  {
    match q.value
    case Leaf(_) =>
    case Nested(u) => TreeExcept(st, C, st', st.pairs[r].value.kid, u, p);
    case Elems(ts) =>
      forall j | 0 <= j < |ts| ensures IsTree(st', C, st.pairs[r].value.kids[j], ts[j]) {
        TreeExcept(st, C, st', st.pairs[r].value.kids[j], ts[j], p);
      }
  }
}

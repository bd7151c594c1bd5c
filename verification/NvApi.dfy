/** The calls a user of the library makes, and what they mean for the trees the lists stand for. */
module NvApi {
  import opened Bytes
  import opened NvTree
  import opened NvCodec
  import opened NvRoundTrip
  import opened NvHeap
  import opened NvView
  import opened NvOps
  import opened NvEdit
  import opened NvClone
  import opened NvAppend
  import opened NvAbove
  import NvPack
  import NvUnpack

  const ENAMETOOLONG: int := 63

  // ---- adding

  /** After a successful add, the list stands for its tree with one more pair. */
  lemma {:induction false} AddedTree(st: Store, st': Store, C: set<NvList>, D: set<NvList>, l: NvList, p: NvPair,
      t: Tree, q: Pair)
    requires Consistent(st, map[]) && IsTree(st, C, l, t) && IsPair(st, D, p, q) && l !in D
    requires st'.lists == Attached(st, l, p).lists && st'.pairs == Attached(st, l, p).pairs
    ensures IsTree(st', C + D, l, Tree(t.flags, t.pairs + [q]))
  {
    hide IsPair, Consistent;
    NotBelowItself(st, C, l, t);
    forall i | 0 <= i <= |t.pairs| ensures IsPair(st', C + D, st'.lists[l].head[i], (t.pairs + [q])[i]) {
      if i < |t.pairs| {
        PairFrame(st, C - {l}, st', C + D, st.lists[l].head[i], t.pairs[i]);
      } else {
        PairFrame(st, D, st', C + D, p, q);
      }
    }
  }

  lemma {:induction false} FreeIsFresh(st: Store, C: set<NvList>, l: NvList, t: Tree, name: seq<byte>)
    requires IsTree(st, C, l, t)
    ensures NameFree(st, l, name) == Fresh(t.flags, name, t.pairs)
  {
    var head := st.lists[l].head;
    assert forall i :: 0 <= i < |head| ==> IsPair(st, C, head[i], t.pairs[i]) && NameOf(st, head[i]) == t.pairs[i].name;
  }

  /** What handing over the payload v under name does: nothing, an error, or one more pair. */
  datatype Outcome = Ignored | Failed(error: int) | Added

  /** The error of handing over lists that are in use or broken. */
  function Refusal(v: Payload): int
    reads KidsOf(v)
  {
    match v
    case Scal(_) => 0
    case Kid(k) => assert KidsOf(v)[0] == k; if k.parent != null then EINVAL else k.error
    case Kids(ks) => if ks == [] || exists i :: 0 <= i < |ks| && (ks[i].error != 0 || ks[i].parent != null) then EINVAL else 0
  }

  /** Nothing is refused exactly when every list handed over is free and without an error, and there is one. */
  lemma {:induction false} RefusedWhen(v: Payload)
    ensures Refusal(v) == 0 <==>
      match v
      case Scal(_) => true
      case Kid(k) => k.parent == null && k.error == 0
      case Kids(ks) => ks != [] && forall i :: 0 <= i < |ks| ==> ks[i].parent == null && ks[i].error == 0
  {
  }

  function AddOutcome(error: int, refusal: int, flags: nat, name: seq<byte>, ps: seq<Pair>): Outcome {
    if error != 0 then Ignored
    else if refusal != 0 then Failed(refusal)
    else if |name| >= NAME_MAX then Failed(ENAMETOOLONG)
    else if !Fresh(flags, name, ps) then Failed(EEXIST)
    else Added
  }

  /**
   * A pair is added exactly when nothing went wrong before, its lists are free, and its name is short and not
   * taken.
   */
  lemma {:induction false} AddedWhen(error: int, refusal: int, flags: nat, name: seq<byte>, ps: seq<Pair>)
    requires flags < 4
    ensures AddOutcome(error, refusal, flags, name, ps) == Added <==>
      error == 0 && refusal == 0 && |name| < 2048 &&
      (flags >= 2 || forall i :: 0 <= i < |ps| ==>
         if flags == 0 then ps[i].name != name else !SameLetters(ps[i].name, name))
    ensures AddOutcome(error, refusal, flags, name, ps) == Failed(EEXIST) && refusal == 0 ==>
      exists i :: 0 <= i < |ps| && if flags == 0 then ps[i].name == name else SameLetters(ps[i].name, name)
  {
    hide Fresh, SameLetters;
    FreshIs(flags, name, ps);
  }

  ghost predicate SpellsIn(st: Store, D: set<NvList>, v: Payload, w: Value) {
    match w
    case Leaf(s) => v == Scal(s)
    case Nested(t) => v.Kid? && IsTree(st, D, v.kid, t)
    case Elems(ts) => v.Kids? && |v.kids| == |ts| && forall i :: 0 <= i < |ts| ==> IsTree(st, D, v.kids[i], ts[i])
  }

  lemma {:induction false} AdoptedValue(st: Store, D: set<NvList>, p: NvPair, name: seq<byte>, v: Payload, w: Value)
    requires p !in st.pairs && SpellsIn(st, D, v, w)
    requires forall k :: k in KidsOf(v) ==> k in st.lists
    ensures IsPair(Adopted(st, p, NewRec(name, v)), D, p, Pair(name, w))
  {
    var st' := Adopted(st, p, NewRec(name, v));
    match w
    case Leaf(_) =>
    case Nested(t) => TreeFrame(st, D, st', D, v.kid, t);
    case Elems(ts) =>
      forall i | 0 <= i < |ts| ensures IsTree(st', D, v.kids[i], ts[i]) { TreeFrame(st, D, st', D, v.kids[i], ts[i]); }
  }

  lemma {:induction false} AdoptedStill(st: Store, C: set<NvList>, l: NvList, t: Tree, p: NvPair, name: seq<byte>,
      v: Payload)
    requires p !in st.pairs && IsTree(st, C, l, t)
    requires forall k :: k in KidsOf(v) ==> k in st.lists
    ensures IsTree(Adopted(st, p, NewRec(name, v)), C, l, t)
  {
    TreeFrame(st, C, Adopted(st, p, NewRec(name, v)), C, l, t);
  }

  lemma {:induction false} AdoptedBelow(st: Store, p: NvPair, name: seq<byte>, v: Payload, D: set<NvList>)
    requires Closed(st, D) && p !in st.pairs && forall k :: k in KidsOf(v) ==> k in D
    ensures Below(Adopted(st, p, NewRec(name, v)), p, D)
  {
  }

  lemma {:induction false} RefusalIs(S: Objs, v: Payload)
    requires Distinct(KidsOf(v)) && (v.Scal? ==> WfScalar(v.s)) && forall k :: k in KidsOf(v) ==> k in S.ls
    ensures Refusal(v) == 0 ==> Adoptable(Snap(S), v)
  {
    forall k | k in KidsOf(v) ensures k in Snap(S).lists && (Refusal(v) == 0 ==> Snap(S).lists[k].parent == null) {
      SnapList(S, k);
    }
  }

  lemma {:induction false} ErrorOnly(st: Store, l: NvList, e: int)
    requires l in st.lists
    ensures OnlyIn(st, WithError(st, l, e), l)
  {
  }

  lemma {:induction false} AdoptedOnly(st: Store, p: NvPair, r: PairRec, st': Store, l: NvList)
    requires p !in st.pairs && OnlyIn(Adopted(st, p, r), st', l)
    ensures OnlyIn(st, st', l)
  {
  }

  /**
   * Hands the payload v to nvl under name: scalars, or lists that lie in D with everything below
   * them. Lists that are in use or carry an error are refused.
   */
  method Add(nvl: NvList, name: seq<byte>, v: Payload, ghost S: Objs, ghost C: set<NvList>, ghost t: Tree,
      ghost D: set<NvList>, ghost w: Value)
    returns (ghost S': Objs)
    requires Inv(S) && nvl in S.ls && IsTree(Snap(S), C, nvl, t) && NoNul(name)
    requires Distinct(KidsOf(v)) && (v.Scal? ==> WfScalar(v.s)) && forall k :: k in KidsOf(v) ==> k in S.ls && k in D
    requires SpellsIn(Snap(S), D, v, w) && Closed(Snap(S), D) && nvl !in D
    modifies S.ls
    ensures Inv(S') && S'.ls == S.ls && S.ps <= S'.ps && fresh(S'.ps - S.ps) && OnlyIn(old(Snap(S)), Snap(S'), nvl)
    ensures match old(AddOutcome(nvl.error, Refusal(v), t.flags, name, t.pairs))
            case Ignored => S' == S && Snap(S) == old(Snap(S))
            case Failed(e) => nvl.error == e && IsTree(Snap(S'), C, nvl, t)
            case Added => nvl.error == 0 && IsTree(Snap(S'), C + D, nvl, Tree(t.flags, t.pairs + [Pair(name, w)]))
  {
    hide Snap, Consistent, IsTree, Fresh, Adoptable, SpellsIn, Closed, NewRec, Adopted, Below, IsPair, Refusal,
        Distinct, OnlyIn, WithError;
    S' := S;
    OnlySame(Snap(S), nvl);
    if nvl.error != 0 { return; }
    SnapList(S, nvl);
    ghost var st := Snap(S);
    var e := if Refusal(v) != 0 then Refusal(v) else if |name| >= NAME_MAX then ENAMETOOLONG else 0;
    if e != 0 {
      SetError(nvl, e, S);
      ErrorOnly(st, nvl, e);
      ErrorTree(st, C, nvl, t, e);
      SnapList(S, nvl);
      return;
    }
    RefusalIs(S, v);
    AdoptableIn(st, v);
    var p: NvPair;
    p, S' := NewPair(name, v, S);
    AdoptedValue(st, D, p, name, v, w);
    AdoptedStill(st, C, nvl, t, p, name, v);
    AdoptedBelow(st, p, name, v, D);
    SnapPair(S', p);
    SnapList(S', nvl);
    AdoptedFields(st, p, name, v, nvl);
    Place(nvl, p, S', C, t, D, Pair(name, w));
    AdoptedOnly(st, p, NewRec(name, v), Snap(S'), nvl);
  }

  /** Puts the new pair on the list, or records why it cannot go there. */
  method Place(nvl: NvList, p: NvPair, ghost S: Objs, ghost C: set<NvList>, ghost t: Tree, ghost D: set<NvList>,
      ghost q: Pair)
    requires Inv(S) && nvl in S.ls && p in S.ps && p.list == null && p.name == q.name && nvl.error == 0
    requires IsTree(Snap(S), C, nvl, t) && IsPair(Snap(S), D, p, q) && Below(Snap(S), p, D) && nvl !in D
    modifies S.ls`head, S.ls`datasize, S.ls`depth, S.ls`error, p`list
    ensures Inv(S) && OnlyIn(old(Snap(S)), Snap(S), nvl)
    ensures if Fresh(t.flags, q.name, t.pairs)
            then nvl.error == 0 && IsTree(Snap(S), C + D, nvl, Tree(t.flags, t.pairs + [q]))
            else nvl.error == EEXIST && IsTree(Snap(S), C, nvl, t)
  {
    hide Snap, Consistent, IsTree, IsPair, Fresh, Attached, NameFree, Below, OnlyIn, WithError;
    ghost var st := Snap(S);
    FreeIsFresh(st, C, nvl, t, q.name);
    SnapList(S, nvl);
    SnapPair(S, p);
    CleanInv(S);
    var ok := MovePair(nvl, p, S, D);
    SnapList(S, nvl);
    AttachedError(st, nvl, p);
    if ok {
      AddedTree(st, Snap(S), C, D, nvl, p, t, q);
      AttachedOnly(st, Snap(S), nvl, p);
    } else {
      ErrorOnly(st, nvl, EEXIST);
      ErrorTree(st, C, nvl, t, EEXIST);
    }
  }

  lemma {:induction false} AttachedOnly(st: Store, st': Store, l: NvList, p: NvPair)
    requires l in st.lists && p in st.pairs
    ensures st'.lists == Attached(st, l, p).lists && st'.pairs == Attached(st, l, p).pairs ==> OnlyIn(st, st', l)
  {
  }

  lemma {:induction false} OnlySame(st: Store, l: NvList)
    ensures OnlyIn(st, st, l)
  {
  }

  lemma {:induction false} ErrorTree(st: Store, C: set<NvList>, l: NvList, t: Tree, e: int)
    requires IsTree(st, C, l, t) && l in st.lists
    ensures IsTree(WithError(st, l, e), C, l, t) && l in WithError(st, l, e).lists
    ensures WithError(st, l, e).lists[l].error == e
  {
    TreeFrame(st, C, WithError(st, l, e), C, l, t);
  }

  lemma {:induction false} AdoptableIn(st: Store, v: Payload)
    requires Adoptable(st, v)
    ensures forall k :: k in KidsOf(v) ==> k in st.lists
  {
  }

  lemma {:induction false} AdoptedFields(st: Store, p: NvPair, name: seq<byte>, v: Payload, l: NvList)
    requires l in st.lists
    ensures var st' := Adopted(st, p, NewRec(name, v));
      p in st'.pairs && st'.pairs[p].list == null && st'.pairs[p].name == name && l in st'.lists &&
      st'.lists[l].error == st.lists[l].error
  {
  }

  lemma {:induction false} AttachedError(st: Store, l: NvList, p: NvPair)
    requires l in st.lists && p in st.pairs
    ensures l in Attached(st, l, p).lists && Attached(st, l, p).lists[l].error == st.lists[l].error
  {
  }

  // ---- appending

  function ValueType(w: Value): nat {
    match w
    case Leaf(s) => ScalarType(s)
    case Nested(_) => T_NVLIST
    case Elems(_) => T_NVLIST_ARRAY
  }

  /** The first pair of that type and name. */
  function FirstOf(flags: byte, ps: seq<Pair>, typ: nat, name: seq<byte>): (i: nat)
    ensures i <= |ps|
    ensures i < |ps| ==> ValueType(ps[i].value) == typ && SameName(flags, ps[i].name, name)
    ensures forall j :: 0 <= j < i ==> !(ValueType(ps[j].value) == typ && SameName(flags, ps[j].name, name))
  {
    if ps == [] || (ValueType(ps[0].value) == typ && SameName(flags, ps[0].name, name)) then 0
    else 1 + FirstOf(flags, ps[1..], typ, name)
  }

  /** Pair i of l, the pair p, took the new value of q: so did the tree. */
  lemma {:induction false} ChangedTree(st: Store, st': Store, C: set<NvList>, D: set<NvList>, l: NvList, i: nat,
      t: Tree, q: Pair)
    requires Consistent(st, map[]) && IsTree(st, C, l, t) && i < |t.pairs| && l !in D
    requires OnlyLinks(st, st', st.lists[l].head[i]) && IsPair(st', C - {l} + D, st.lists[l].head[i], q)
    ensures IsTree(st', C + D, l, t.(pairs := t.pairs[i := q]))
  {
    hide IsPair;
    var head, p := st.lists[l].head, st.lists[l].head[i];
    assert ListOk(st, l, 0);
    NotBelowItself(st, C, l, t);
    forall j | 0 <= j < |t.pairs| ensures IsPair(st', C + D, head[j], t.pairs[i := q][j]) {
      if j == i {
        PairFrame(st', C - {l} + D, st', C + D, p, q);
      } else {
        PairExcept(st, C - {l}, st', head[j], t.pairs[j], p);
        PairFrame(st', C - {l}, st', C + D, head[j], t.pairs[j]);
      }
    }
  }

  /** A list array that gained an element stands for the longer array. */
  lemma {:induction false} ArrayGrows(st: Store, st': Store, C: set<NvList>, N: set<NvList>, l: NvList, i: nat, t: Tree,
      k: NvList, u: Tree)
    requires Consistent(st, map[]) && IsTree(st, C, l, t) && i < |t.pairs| && t.pairs[i].value.Elems?
    requires N !! st.lists.Keys
    requires GainedElem(st, st', st.lists[l].head[i], k, N, u)
    ensures IsTree(st', C + N, l, t.(pairs := t.pairs[i := Pair(t.pairs[i].name, Elems(t.pairs[i].value.lists + [u]))]))
  {
    var p, ts := st.lists[l].head[i], t.pairs[i].value.lists;
    var q := Pair(t.pairs[i].name, Elems(ts + [u]));
    NotBelowItself(st, C, l, t);
    assert IsPair(st, C - {l}, p, t.pairs[i]);
    assert ListOk(st, l, 0);
    forall j | 0 <= j <= |ts| ensures IsTree(st', C - {l} + N, st'.pairs[p].value.kids[j], (ts + [u])[j]) {
      if j < |ts| {
        TreeExcept(st, C - {l}, st', st.pairs[p].value.kids[j], ts[j], p);
        TreeFrame(st', C - {l}, st', C - {l} + N, st.pairs[p].value.kids[j], ts[j]);
      } else {
        TreeFrame(st', N, st', C - {l} + N, k, u);
      }
    }
    ChangedTree(st, st', C, N, l, i, t, q);
  }

  lemma {:induction false} ItemLinks(st: Store, st': Store, p: NvPair, s: Scalar, d: int)
    requires p in st.pairs && st'.lists == st.lists && st'.pairs == Revalued(st, p, s, d).pairs
    ensures OnlyLinks(st, st', p) && p in st'.pairs && st'.pairs[p].name == st.pairs[p].name
    ensures st'.pairs[p].value == Scal(s)
  {
  }

  lemma {:induction false} ItemGrows(st: Store, st': Store, C: set<NvList>, l: NvList, i: nat, t: Tree, p: NvPair,
      s: Scalar, d: int)
    requires Consistent(st, map[]) && IsTree(st, C, l, t) && i < |t.pairs| && p == st.lists[l].head[i] && p in st.pairs
    requires st'.lists == st.lists && st'.pairs == Revalued(st, p, s, d).pairs
    ensures IsTree(st', C, l, t.(pairs := t.pairs[i := Pair(t.pairs[i].name, Leaf(s))]))
  {
    HeadPair(st, C, l, t, i);
    ItemLinks(st, st', p, s, d);
    var q := Pair(t.pairs[i].name, Leaf(s));
    assert IsPair(st, C, p, t.pairs[i]) && IsPair(st', C - {l} + {}, p, q);
    hide *;
    ChangedTree(st, st', C, {}, l, i, t, q);
    assert C + {} == C;
  }

  lemma {:induction false} HeadPair(st: Store, C: set<NvList>, l: NvList, t: Tree, i: nat)
    requires IsTree(st, C, l, t) && i < |t.pairs|
    ensures l in st.lists && |st.lists[l].head| == |t.pairs| && IsPair(st, C, st.lists[l].head[i], t.pairs[i])
  {
  }

  function AfterAppend(t: Tree, name: seq<byte>, e: Item): Tree {
    var i := FirstOf(t.flags, t.pairs, ItemType(e), name);
    if i == |t.pairs| then Tree(t.flags, t.pairs + [Pair(name, Leaf(Single(e)))])
    else t.(pairs := t.pairs[i := Pair(t.pairs[i].name, Leaf(Extend(t.pairs[i].value.s, e)))])
  }

  /** Why a new array cannot go under the name, if the list has none of that type yet. */
  function AppendError(t: Tree, typ: nat, name: seq<byte>): int {
    var o := AddOutcome(0, 0, t.flags, name, t.pairs);
    if FirstOf(t.flags, t.pairs, typ, name) < |t.pairs| || !o.Failed? then 0 else o.error
  }

  /** Appends e to the array called name, making the array when the list has none of that type. */
  method Append(nvl: NvList, name: seq<byte>, e: Item, ghost S: Objs, ghost C: set<NvList>, ghost t: Tree)
      returns (ghost S': Objs)
    requires Inv(S) && nvl in S.ls && IsTree(Snap(S), C, nvl, t) && NoNul(name) && WfItem(e)
    modifies S.ls, S.ps
    ensures Inv(S') && S'.ls == S.ls && S.ps <= S'.ps && fresh(S'.ps - S.ps) && OnlyIn(old(Snap(S)), Snap(S'), nvl)
    ensures old(nvl.error) != 0 ==> S' == S && Snap(S) == old(Snap(S))
    ensures old(nvl.error) == 0 ==> nvl.error == AppendError(t, ItemType(e), name)
    ensures nvl.error == 0 ==> IsTree(Snap(S'), C, nvl, AfterAppend(t, name, e))
    ensures nvl.error != 0 ==> IsTree(Snap(S'), C, nvl, t)
  {
    hide Snap, Consistent, IsTree, Fresh, Adoptable, SpellsIn, Closed, Revalued, OnlyIn;
    S' := S;
    OnlySame(Snap(S), nvl);
    if nvl.error != 0 { return; }
    var p := Find(nvl, ItemType(e), name);
    ghost var st := Snap(S);
    FoundFirst(S, C, nvl, t, ItemType(e), name, p);
    ghost var i := FirstOf(t.flags, t.pairs, ItemType(e), name);
    if p == null {
      ItemFits(st, e);
      S' := Add(nvl, name, Scal(Single(e)), S, C, t, {}, Leaf(Single(e)));
      assert C + {} == C;
    } else {
      HeadPair(st, C, nvl, t, i);
      SnapList(S, nvl);
      SnapPair(S, p);
      InHead(S, nvl, i);
      AppendItem(nvl, p, e, S);
      ItemOnly(st, Snap(S), nvl, p, Extend(t.pairs[i].value.s, e), ItemSize(e));
      ItemGrows(st, Snap(S), C, nvl, i, t, p, Extend(t.pairs[i].value.s, e), ItemSize(e));
      SnapList(S, nvl);
    }
  }

  lemma {:induction false} ItemOnly(st: Store, st': Store, l: NvList, p: NvPair, s: Scalar, d: int)
    requires p in st.pairs && st.pairs[p].list == l && st'.lists == st.lists && st'.pairs == Revalued(st, p, s, d).pairs
    ensures OnlyIn(st, st', l)
  {
  }

  lemma {:induction false} ItemFits(st: Store, e: Item)
    requires WfItem(e)
    ensures WfScalar(Single(e)) && SpellsIn(st, {}, Scal(Single(e)), Leaf(Single(e))) && Closed(st, {})
  {
  }

  lemma {:induction false} InHead(S: Objs, nvl: NvList, i: nat)
    requires Inv(S) && nvl in S.ls && i < |nvl.head|
    ensures nvl.head[i] in S.ps && nvl.head[i].list == nvl
  {
    assert ListOk(Snap(S), nvl, 0);
  }

  /** A pair object matches exactly when the pair of the tree at its index does. */
  lemma {:induction false} MatchesAt(S: Objs, C: set<NvList>, nvl: NvList, t: Tree, typ: nat, name: seq<byte>, i: nat)
    requires Inv(S) && nvl in S.ls && IsTree(Snap(S), C, nvl, t) && typ != 0 && i < |t.pairs| == |nvl.head|
    ensures Matches(nvl.head[i], nvl.flags, typ, name) <==>
      ValueType(t.pairs[i].value) == typ && SameName(t.flags, t.pairs[i].name, name)
  {
    HeadPairs(S, nvl);
    HeadPair(Snap(S), C, nvl, t, i);
  }

  lemma {:induction false} AsLong(S: Objs, C: set<NvList>, nvl: NvList, t: Tree)
    requires Inv(S) && nvl in S.ls && IsTree(Snap(S), C, nvl, t)
    ensures |nvl.head| == |t.pairs|
  {
    HeadPairs(S, nvl);
  }

  /** Looking a pair up finds the pair the tree names. */
  lemma {:induction false} FoundFirst(S: Objs, C: set<NvList>, nvl: NvList, t: Tree, typ: nat, name: seq<byte>,
      p: NvPair?)
    requires Inv(S) && nvl in S.ls && IsTree(Snap(S), C, nvl, t) && typ != 0
    requires p == null ==> forall i :: 0 <= i < |nvl.head| ==> !Matches(nvl.head[i], nvl.flags, typ, name)
    requires p != null ==> exists i :: 0 <= i < |nvl.head| && nvl.head[i] == p && FirstMatch(nvl, i, typ, name)
    ensures |nvl.head| == |t.pairs|
    ensures var i := FirstOf(t.flags, t.pairs, typ, name);
      if p == null then i == |t.pairs| else i < |t.pairs| && nvl.head[i] == p
  {
    hide Inv, IsTree, Snap, Matches, FirstOf, ValueType, SameName;
    AsLong(S, C, nvl, t);
    forall i | 0 <= i < |t.pairs|
      ensures Matches(nvl.head[i], nvl.flags, typ, name) <==>
        ValueType(t.pairs[i].value) == typ && SameName(t.flags, t.pairs[i].name, name)
    {
      MatchesAt(S, C, nvl, t, typ, name, i);
    }
  }

  // ---- copying and sending

  /** A copy has the size and flags of the original and stands for the same tree. */
  lemma {:induction false} CopySize(S: Objs, C: set<NvList>, nvl: NvList, t: Tree, N: Objs, copy: NvList)
    requires Inv(S) && nvl in S.ls && IsTree(Snap(S), C, nvl, t) && Copy(N, copy, t)
    ensures copy.datasize == nvl.datasize == TreeSize(t) && copy.flags == nvl.flags && copy.error == 0
    ensures copy.parent == null
  {
    CachedSize(Snap(S), C, nvl, t);
    CachedSize(Snap(N), N.ls, copy, t);
    SnapList(N, copy);
    SnapList(S, nvl);
  }

  /**
   * Packing a list and unpacking the bytes with the list's own flags gives new
   * objects that stand for the same tree, with the same cached size.
   */
  method Transfer(nvl: NvList, ghost S: Objs, ghost t: Tree) returns (buf: array?<byte>, got: NvList?, ghost S': Objs,
      ghost C: set<NvList>)
    requires Inv(S) && nvl in S.ls && nvl.parent == null && IsTree(Snap(S), S.ls, nvl, t) && nvl.datasize < U64
    ensures got != null <==> nvl.error == 0
    ensures got != null ==>
      fresh(S'.ls) && fresh(S'.ps) && Inv(S') && got in S'.ls && got.parent == null && got.error == 0
    ensures got != null ==>
      IsTree(Snap(S'), C, got, t) && got.datasize == nvl.datasize && buf != null && buf.Length == nvl.datasize
  {
    hide Snap, Consistent, IsTree, Packed, Unpacked, WfTree;
    ghost var st := Snap(S);
    SnapList(S, nvl);
    CleanInv(S);
    CachedSize(st, S.ls, nvl, t);
    TreeWf(st, S.ls, nvl, t);
    RoundTrip(false, t);
    SameFlags(st, S.ls, nvl, t);
    got, S', C := null, Objs({}, {}), {};
    buf := NvPack.Pack(nvl, S, t);
    if buf == null { return; }
    got, S', C := NvUnpack.Unpack(buf, nvl.flags);
    CleanInv(S');
    CachedSize(Snap(S'), C, got, t);
    SnapList(S', got);
  }

  lemma {:induction false} SameFlags(st: Store, C: set<NvList>, l: NvList, t: Tree)
    requires IsTree(st, C, l, t) && Consistent(st, map[])
    ensures l in st.lists && st.lists[l].flags == t.flags && t.flags < 4
  {
    assert ListOk(st, l, 0);
  }
}

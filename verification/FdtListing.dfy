/**
 * What the fixups of an overlay list, said about the tree: every entry of every property of every node below
 * the fixups, and the cell it points at. The plan of the fixup walk holds exactly these cells.
 */
module FdtListing {
  import opened Bytes
  import opened FdtTokens
  import opened FdtTree
  import opened FdtRefine
  import opened FdtOps
  import opened FdtIter
  import opened FdtOverlay
  import opened FdtFixup
  import opened FdtRefs
  import opened FdtPlaces
  import opened FdtCells

  /** Entry j of property prop of the fixup node at path. */
  datatype Entry = Entry(path: seq<nat>, prop: nat, j: nat)

  /** The four bytes from at in property prop of the node at path. */
  datatype Cell = Cell(path: seq<nat>, prop: nat, at: nat)

  function PropAt(a: ANode, path: seq<nat>, x: nat): Option<AProp> {
    var n := NodeAt(a, path);
    if n.Some? && x < |n.value.props| then Some(n.value.props[x]) else None
  }

  function Word(v: seq<byte>, j: nat): nat
    requires j < |v| / 4
  {
    BeDec(v[4 * j..4 * j + 4])
  }

  /** The fixups f hold the entry. */
  predicate Written(f: ANode, e: Entry) {
    var g := PropAt(f, e.path, e.prop);
    g.Some? && e.j < |g.value.val| / 4
  }

  /** The node reached from a by the names along a path below f, each time the first child that answers. */
  function Follow(a: ANode, f: ANode, path: seq<nat>): (r: Option<seq<nat>>)
    requires NodeAt(f, path).Some?
    ensures r.Some? ==> |r.value| == |path| && NodeAt(a, r.value).Some?
    decreases |path|
  {
    if path == [] then Some([])
    else
      var g := f.kids[path[0]];
      var k := KidIndex(a.kids, g.name);
      if k == |a.kids| then None
      else
        var r := Follow(a.kids[k], g, path[1..]);
        if r.None? then None
        else
          NodeBelow(a, k, r.value);
          Some([k] + r.value)
  }

  /** Entry e of the fixups f points at cell c of the tree a: the first property so called, of the node so named. */
  predicate Points(a: ANode, f: ANode, e: Entry, c: Cell) {
    && Written(f, e) && Follow(a, f, e.path) == Some(c.path)
    && var g, n := PropAt(f, e.path, e.prop).value, NodeAt(a, c.path).value;
       && c.prop == FirstCalled(n.props, g.name) < |n.props|
       && c.at == Word(g.val, e.j) && c.at + 4 <= |n.props[c.prop].val|
  }

  /** The fixup property g is in order: whole cells, and each an offset in the property of that name. */
  predicate Fits(props: seq<AProp>, g: AProp) {
    var x := FirstCalled(props, g.name);
    |g.val| % 4 == 0 && x < |props| && forall j :: 0 <= j < |g.val| / 4 ==> Word(g.val, j) + 4 <= |props[x].val|
  }

  predicate FitsAt(a: ANode, f: ANode, path: seq<nat>, x: nat)
    requires PropAt(f, path, x).Some?
  {
    var t := Follow(a, f, path);
    t.Some? && Fits(NodeAt(a, t.value).value.props, PropAt(f, path, x).value)
  }

  /** Every node of the fixups has its node in the tree, and every property is in order. */
  ghost predicate Answered(a: ANode, f: ANode) {
    && (forall path :: NodeAt(f, path).Some? ==> Follow(a, f, path).Some?)
    && (forall path, x :: PropAt(f, path, x).Some? ==> FitsAt(a, f, path, x))
  }

  // ---- parts of the fixups

  datatype Part = All | One(x: nat) | Props(x: nat) | Kid(i: nat) | Kids(i: nat)

  predicate On(p: Part, path: seq<nat>) {
    match p
    case All => true
    case Kid(i) => path != [] && path[0] == i
    case Kids(i) => path != [] && path[0] >= i
    case _ => false
  }

  predicate Holding(p: Part, path: seq<nat>, x: nat) {
    match p
    case One(y) => path == [] && x == y
    case Props(y) => path == [] && x >= y
    case _ => On(p, path)
  }

  ghost predicate PartAnswered(a: ANode, f: ANode, p: Part) {
    && (forall path :: On(p, path) && NodeAt(f, path).Some? ==> Follow(a, f, path).Some?)
    && (forall path, x :: Holding(p, path, x) && PropAt(f, path, x).Some? ==> FitsAt(a, f, path, x))
  }

  predicate RefAt(ts: seq<Tok>, t: nat, c: Cell, r: Ref)
    requires t < |ts|
  {
    ValueTok(ts, t, c.path, c.prop) == Some(r.dst) && c.at == r.at
  }

  predicate Distinct(es: seq<Entry>) { forall i, j :: 0 <= i < j < |es| ==> es[i] != es[j] }

  /** The cells of the plan, in order, are those that different entries of the part point at. */
  ghost predicate Listed(ts: seq<Tok>, t: nat, q: nat, a: ANode, f: ANode, p: Part, refs: seq<Ref>, es: seq<Entry>,
      cs: seq<Cell>)
    requires t < |ts| && q < |ts|
  {
    && |es| == |cs| == |refs| && Distinct(es)
    && (forall i :: 0 <= i < |es| ==>
         Holding(p, es[i].path, es[i].prop) && Points(a, f, es[i], cs[i]) && RefAt(ts, t, cs[i], refs[i]))
  }

  /** A plan that ends well leaves no entry and no property of the part out, and ends well if all is in order. */
  ghost predicate Whole(ts: seq<Tok>, q: nat, a: ANode, f: ANode, p: Part, plan: Plan, es: seq<Entry>)
    requires q < |ts|
  {
    && (plan.err == 0 ==> forall e :: Written(f, e) && Holding(p, e.path, e.prop) ==> e in es)
    && (plan.err == 0 <==> PartAnswered(a, f, p))
    && (forall s :: s in plan.srcs ==> exists path, x :: Holding(p, path, x) && ValueTok(ts, q, path, x) == Some(s))
    && (plan.err == 0 ==> forall path, x :: Holding(p, path, x) && ValueTok(ts, q, path, x).Some? ==>
         ValueTok(ts, q, path, x).value in plan.srcs)
  }

  ghost predicate Spelled(ts: seq<Tok>, t: nat, q: nat, a: ANode, f: ANode, p: Part, plan: Plan, es: seq<Entry>,
      cs: seq<Cell>)
    requires t < |ts| && q < |ts|
  {
    Listed(ts, t, q, a, f, p, plan.refs, es, cs) && Whole(ts, q, a, f, p, plan, es)
  }

  /** p is p1 and p2, which have nothing in common. */
  ghost predicate Both(p: Part, p1: Part, p2: Part) {
    && (forall path :: On(p, path) ==> On(p1, path) || On(p2, path) || path == [])
    && (forall path :: On(p1, path) || On(p2, path) ==> On(p, path))
    && (forall path, x :: Holding(p, path, x) <==> Holding(p1, path, x) || Holding(p2, path, x))
    && (forall path, x :: !(Holding(p1, path, x) && Holding(p2, path, x)))
  }

  lemma {:induction false} BothListed(ts: seq<Tok>, t: nat, q: nat, a: ANode, f: ANode, p: Part, p1: Part, p2: Part,
      r1: seq<Ref>, r2: seq<Ref>, e1: seq<Entry>, e2: seq<Entry>, c1: seq<Cell>, c2: seq<Cell>)
    requires t < |ts| && q < |ts| && Both(p, p1, p2)
    requires Listed(ts, t, q, a, f, p1, r1, e1, c1) && Listed(ts, t, q, a, f, p2, r2, e2, c2)
    ensures Listed(ts, t, q, a, f, p, r1 + r2, e1 + e2, c1 + c2)
  {
    hide Points, RefAt, On, Holding;
    var es, cs, refs := e1 + e2, c1 + c2, r1 + r2;
    forall i | 0 <= i < |es|
      ensures Holding(p, es[i].path, es[i].prop) && Points(a, f, es[i], cs[i]) && RefAt(ts, t, cs[i], refs[i])
    {
      if i < |e1| {
        assert es[i] == e1[i] && cs[i] == c1[i] && refs[i] == r1[i];
      } else {
        assert es[i] == e2[i - |e1|] && cs[i] == c2[i - |e1|] && refs[i] == r2[i - |e1|];
      }
    }
    forall i, j | 0 <= i < j < |es| ensures es[i] != es[j] {
      if i < |e1| && j >= |e1| {
        assert Holding(p1, e1[i].path, e1[i].prop) && Holding(p2, e2[j - |e1|].path, e2[j - |e1|].prop);
      }
    }
  }

  lemma {:induction false} BothAnswered(a: ANode, f: ANode, p: Part, p1: Part, p2: Part)
    requires Both(p, p1, p2)
    ensures PartAnswered(a, f, p) <==> PartAnswered(a, f, p1) && PartAnswered(a, f, p2)
  {
    hide On, Holding, Fits, FitsAt;
    if PartAnswered(a, f, p1) && PartAnswered(a, f, p2) {
      forall path | On(p, path) && NodeAt(f, path).Some? ensures Follow(a, f, path).Some? {
        assert On(p1, path) || On(p2, path) || path == [];
      }
    }
  }

  lemma {:induction false} BothWhole(ts: seq<Tok>, q: nat, a: ANode, f: ANode, p: Part, p1: Part, p2: Part, a1: Plan,
      a2: Plan, e1: seq<Entry>, e2: seq<Entry>)
    requires q < |ts| && Both(p, p1, p2) && Whole(ts, q, a, f, p1, a1, e1)
    requires a1.err == 0 ==> Whole(ts, q, a, f, p2, a2, e2)
    ensures Whole(ts, q, a, f, p, Then(a1, a2), if a1.err == 0 then e1 + e2 else e1)
  {
    hide On, Holding, Fits, FitsAt, Written, PartAnswered, ValueTok;
    BothAnswered(a, f, p, p1, p2);
  }

  lemma {:induction false} NoneListed(ts: seq<Tok>, t: nat, q: nat, a: ANode, f: ANode, p: Part)
    requires t < |ts| && q < |ts|
    ensures Listed(ts, t, q, a, f, p, [], [], [])
  {
  }

  lemma {:induction false} BothSpelled(ts: seq<Tok>, t: nat, q: nat, a: ANode, f: ANode, p: Part, p1: Part, p2: Part,
      a1: Plan, a2: Plan, e1: seq<Entry>, e2: seq<Entry>, c1: seq<Cell>, c2: seq<Cell>)
      returns (es: seq<Entry>, cs: seq<Cell>)
    requires t < |ts| && q < |ts| && Both(p, p1, p2) && Spelled(ts, t, q, a, f, p1, a1, e1, c1)
    requires a1.err == 0 ==> Spelled(ts, t, q, a, f, p2, a2, e2, c2)
    ensures Spelled(ts, t, q, a, f, p, Then(a1, a2), es, cs)
  {
    hide Listed, Whole, Both, On, Holding;
    BothWhole(ts, q, a, f, p, p1, p2, a1, a2, e1, e2);
    if a1.err == 0 {
      es, cs := e1 + e2, c1 + c2;
      BothListed(ts, t, q, a, f, p, p1, p2, a1.refs, a2.refs, e1, e2, c1, c2);
    } else {
      es, cs := e1, c1;
      NoneListed(ts, t, q, a, f, p2);
      assert e1 + [] == e1 && c1 + [] == c1 && a1.refs + [] == a1.refs;
      BothListed(ts, t, q, a, f, p, p1, p2, a1.refs, [], e1, [], c1, []);
    }
  }

  // ---- one fixup property

  lemma {:induction false} CellsAre(ts: seq<Tok>, p: nat, j: nat, i: nat)
    requires p < |ts| && j < |ts| && ts[p].Prop? && ts[j].Prop? && |ts[p].val| % 4 == 0 && i <= |ts[p].val| / 4
    ensures var plan, v := PlanCells(ts, p, j, i), ts[p].val;
      && plan.srcs == {p} && i + |plan.refs| <= |v| / 4
      && (forall m :: 0 <= m < |plan.refs| ==>
           plan.refs[m] == Ref(j, Word(v, i + m)) && Word(v, i + m) + 4 <= |ts[j].val|)
      && (plan.err == 0 <==> forall m :: i <= m < |v| / 4 ==> Word(v, m) + 4 <= |ts[j].val|)
      && (plan.err == 0 ==> i + |plan.refs| == |v| / 4)
    decreases |ts[p].val| - 4 * i
  {
    hide BeDec;
    var v := ts[p].val;
    if i < |v| / 4 {
      var at := BeDec(v[4 * i..4 * i + 4]);
      assert at == Word(v, i);
      Wraps(at, |ts[j].val|);
      if at + 4 <= |ts[j].val| {
        CellsAre(ts, p, j, i + 1);
        var rest, plan := PlanCells(ts, p, j, i + 1), PlanCells(ts, p, j, i);
        assert plan == Then(Plan([Ref(j, at)], {p}, 0), rest);
        forall m | 0 <= m < |plan.refs|
          ensures plan.refs[m] == Ref(j, Word(v, i + m)) && Word(v, i + m) + 4 <= |ts[j].val|
        {
          if m > 0 { assert plan.refs[m] == rest.refs[m - 1]; }
        }
      }
    }
  }

  lemma {:induction false} Wraps(at: nat, len: nat)
    ensures at + 4 <= len ==> (4 + at) % U32 <= len
  {
  }

  /** The entries of property x of the fixups. */
  lemma {:induction false} PropSpelled(ts: seq<Tok>, strs: seq<byte>, ct: Ctx, nt: Node, cq: Ctx, nq: Node,
      tail: seq<Tok>, x: nat) returns (es: seq<Entry>, cs: seq<Cell>)
    requires Holds(ts, ct, nt, tail) && Holds(ts, cq, nq, tail) && |Pre(ct)| < |ts| && |Pre(cq)| < |ts|
    requires x < |AbsProps(nq.items, strs)|
    ensures var r := PropTok(ts, |Pre(cq)|, x);
      r.Some? &&
      Spelled(ts, |Pre(ct)|, |Pre(cq)|, Abs(nt, strs), Abs(nq, strs), One(x), PlanProp(ts, strs, |Pre(ct)|, r.value),
        es, cs)
  {
    hide Holds, Pre, PropTok, PropHere, AbsKids, AbsProps, NameAt, PropOf, PlanCells, Word, FirstCalled, Whole, Points;
    var t, q, a, f := |Pre(ct)|, |Pre(cq)|, Abs(nt, strs), Abs(nq, strs);
    AbsParts(nt, strs);
    AbsParts(nq, strs);
    var k := PropTokIs(ts, cq, nq, tail, strs, x);
    var p := PropTok(ts, q, x).value;
    PropParts(ts, cq, nq, strs, x, k, p);
    var g, plan := f.props[x], PlanProp(ts, strs, t, p);
    var m := NamedTok(ts, ct, nt, tail, strs, g.name);
    var y := FirstCalled(a.props, g.name);
    es, cs := [], [];
    if |g.val| % 4 == 0 && y < |a.props| {
      PropParts(ts, ct, nt, strs, y, m, PropTok(ts, t, y).value);
      var j := PropTok(ts, t, y).value;
      CellsAre(ts, p, j, 0);
      es := seq(|plan.refs|, i requires 0 <= i => Entry([], x, i));
      cs := seq(|plan.refs|, i requires 0 <= i < |plan.refs| => Cell([], y, plan.refs[i].at));
      forall i | 0 <= i < |es|
        ensures Holding(One(x), es[i].path, es[i].prop) && Points(a, f, es[i], cs[i])
        ensures RefAt(ts, t, cs[i], plan.refs[i])
      {
        assert plan.refs[i] == Ref(j, Word(g.val, 0 + i));
        OnePoints(a, f, x, i);
        OneTok(ts, t, y);
      }
      forall i | 0 <= i < |g.val| / 4 && plan.err == 0 ensures Entry([], x, i) in es {
        assert es[i] == Entry([], x, i);
      }
    }
    OneWhole(ts, strs, cq, nq, tail, a, x, plan, es);
  }

  lemma {:induction false} OnePoints(a: ANode, f: ANode, x: nat, i: nat)
    requires x < |f.props| && i < |f.props[x].val| / 4
    requires var y := FirstCalled(a.props, f.props[x].name);
      y < |a.props| && Word(f.props[x].val, i) + 4 <= |a.props[y].val|
    ensures Points(a, f, Entry([], x, i), Cell([], FirstCalled(a.props, f.props[x].name), Word(f.props[x].val, i)))
  {
    hide Word;
  }

  lemma {:induction false} OneTok(ts: seq<Tok>, t: nat, y: nat)
    requires t < |ts|
    ensures ValueTok(ts, t, [], y) == PropTok(ts, t, y)
  {
  }

  lemma {:induction false} OneWhole(ts: seq<Tok>, strs: seq<byte>, cq: Ctx, nq: Node, tail: seq<Tok>, a: ANode, x: nat,
      plan: Plan, es: seq<Entry>)
    requires Holds(ts, cq, nq, tail) && |Pre(cq)| < |ts| && x < |Abs(nq, strs).props|
    requires PropTok(ts, |Pre(cq)|, x).Some? && plan.srcs == {PropTok(ts, |Pre(cq)|, x).value}
    requires plan.err == 0 <==> Fits(a.props, Abs(nq, strs).props[x])
    requires plan.err == 0 ==> forall i :: 0 <= i < |Abs(nq, strs).props[x].val| / 4 ==> Entry([], x, i) in es
    ensures Whole(ts, |Pre(cq)|, a, Abs(nq, strs), One(x), plan, es)
  {
    hide Holds, Pre, PropTok, Abs, Fits;
    var f := Abs(nq, strs);
    OneTok(ts, |Pre(cq)|, x);
    assert Holding(One(x), [], x);
    assert PropAt(f, [], x).Some?;
    assert Fits(a.props, f.props[x]) <==> FitsAt(a, f, [], x);
    forall e | Written(f, e) && Holding(One(x), e.path, e.prop) && plan.err == 0 ensures e in es {
      assert e == Entry([], x, e.j);
    }
  }

  // ---- the properties of a fixup node

  lemma {:induction false} PropsEnd(ts: seq<Tok>, strs: seq<byte>, cq: Ctx, nq: Node, tail: seq<Tok>, a: ANode, x: nat)
    requires Holds(ts, cq, nq, tail) && |Pre(cq)| < |ts| && x >= |Abs(nq, strs).props|
    ensures Whole(ts, |Pre(cq)|, a, Abs(nq, strs), Props(x), Plan([], {}, 0), [])
  {
    hide Holds, Pre, ValueTok, Abs, FitsAt;
    var f := Abs(nq, strs);
    forall path, y | Holding(Props(x), path, y)
      ensures !PropAt(f, path, y).Some? && !ValueTok(ts, |Pre(cq)|, path, y).Some?
    {
      ValueTokIs(ts, cq, nq, tail, strs, path, y);
    }
  }

  lemma {:induction false} PropsBoth(x: nat)
    ensures Both(Props(x), One(x), Props(x + 1))
  {
  }

  /** The plan goes on with the next property behind token k - 1. */
  lemma {:induction false} PlanPropsIs(ts: seq<Tok>, strs: seq<byte>, t: nat, k: nat)
    requires t < |ts| && 0 < k <= |ts|
    ensures var r := PropBehind(ts, k - 1);
      PlanProps(ts, strs, t, k) ==
        if r.None? then Plan([], {}, 0) else Then(PlanProp(ts, strs, t, r.value), PlanProps(ts, strs, t, r.value + 1))
  {
    hide NextPropOf, PlanProp;
  }

  lemma {:induction false} PropTokNext(ts: seq<Tok>, q: nat, x: nat)
    requires q < |ts| && PropTok(ts, q, x).Some?
    ensures PropTok(ts, q, x + 1) == PropBehind(ts, PropTok(ts, q, x).value)
  {
    hide PropBehind;
  }

  /** The entries of the properties from x on; k is where the walk looks for the next. */
  lemma {:induction false} PropsSpelled(ts: seq<Tok>, strs: seq<byte>, ct: Ctx, nt: Node, cq: Ctx, nq: Node,
      tail: seq<Tok>, x: nat, k: nat) returns (es: seq<Entry>, cs: seq<Cell>)
    requires Holds(ts, ct, nt, tail) && Holds(ts, cq, nq, tail) && |Pre(ct)| < |ts| && |Pre(cq)| < |ts|
    requires 0 < k <= |ts| && PropTok(ts, |Pre(cq)|, x) == PropBehind(ts, k - 1)
    ensures Spelled(ts, |Pre(ct)|, |Pre(cq)|, Abs(nt, strs), Abs(nq, strs), Props(x),
      PlanProps(ts, strs, |Pre(ct)|, k), es, cs)
    decreases |ts| - k
  {
    hide Holds, Pre, PropHere, Abs, AbsKids, AbsProps, PropTok, PropBehind, PlanProps, Listed, Whole, PlanProp, Both,
        Then;
    var t, q := |Pre(ct)|, |Pre(cq)|;
    AbsParts(nq, strs);
    PlanPropsIs(ts, strs, t, k);
    var i := PropTokIs(ts, cq, nq, tail, strs, x);
    if x < |AbsProps(nq.items, strs)| {
      var p := PropTok(ts, q, x).value;
      PropTokNext(ts, q, x);
      var e1, c1 := PropSpelled(ts, strs, ct, nt, cq, nq, tail, x);
      var e2, c2 := PropsSpelled(ts, strs, ct, nt, cq, nq, tail, x + 1, p + 1);
      PropsBoth(x);
      es, cs := BothSpelled(ts, t, q, Abs(nt, strs), Abs(nq, strs), Props(x), One(x), Props(x + 1),
        PlanProp(ts, strs, t, p), PlanProps(ts, strs, t, p + 1), e1, e2, c1, c2);
    } else {
      es, cs := [], [];
      PropsEnd(ts, strs, cq, nq, tail, Abs(nt, strs), x);
      NoneListed(ts, t, q, Abs(nt, strs), Abs(nq, strs), Props(x));
    }
  }

  // ---- a child of a fixup node

  lemma {:induction false} FollowBelow(a: ANode, f: ANode, i: nat, path: seq<nat>)
    requires i < |f.kids| && NodeAt(f.kids[i], path).Some?
    ensures NodeAt(f, [i] + path).Some?
    ensures var k := KidIndex(a.kids, f.kids[i].name);
      Follow(a, f, [i] + path) ==
        if k == |a.kids| then None
        else if Follow(a.kids[k], f.kids[i], path).None? then None
        else Some([k] + Follow(a.kids[k], f.kids[i], path).value)
  {
    hide KidIndex;
    NodeBelow(f, i, path);
    assert ([i] + path)[1..] == path;
  }

  /** f' is child i of the fixups f, and a' is the child of a that answers to its name, number k. */
  predicate KidPair(a: ANode, f: ANode, i: nat, k: nat, a': ANode, f': ANode) {
    i < |f.kids| && f' == f.kids[i] && k == KidIndex(a.kids, f'.name) < |a.kids| && a' == a.kids[k]
  }

  function Under(i: nat, e: Entry): Entry { e.(path := [i] + e.path) }

  function UnderCell(k: nat, c: Cell): Cell { c.(path := [k] + c.path) }

  lemma {:induction false} PropBelow(f: ANode, i: nat, path: seq<nat>, x: nat)
    requires i < |f.kids|
    ensures PropAt(f, [i] + path, x) == PropAt(f.kids[i], path, x)
  {
    NodeBelow(f, i, path);
  }

  lemma {:induction false} PointsBelow(a: ANode, f: ANode, i: nat, k: nat, a': ANode, f': ANode, e: Entry, c: Cell)
    requires KidPair(a, f, i, k, a', f') && Points(a', f', e, c)
    ensures Points(a, f, Under(i, e), UnderCell(k, c))
  {
    hide KidIndex, FirstCalled, Word;
    PropBelow(f, i, e.path, e.prop);
    FollowBelow(a, f, i, e.path);
    NodeBelow(a, k, c.path);
  }

  lemma {:induction false} FitsBelow(a: ANode, f: ANode, i: nat, k: nat, a': ANode, f': ANode, path: seq<nat>, x: nat)
    requires KidPair(a, f, i, k, a', f') && PropAt(f', path, x).Some?
    ensures PropAt(f, [i] + path, x).Some? && (FitsAt(a, f, [i] + path, x) <==> FitsAt(a', f', path, x))
  {
    hide KidIndex, Fits;
    PropBelow(f, i, path, x);
    FollowBelow(a, f, i, path);
    var t := Follow(a', f', path);
    if t.Some? { NodeBelow(a, k, t.value); }
  }

  lemma {:induction false} AnsweredBelow(a: ANode, f: ANode, i: nat, k: nat, a': ANode, f': ANode)
    requires KidPair(a, f, i, k, a', f')
    ensures PartAnswered(a, f, Kid(i)) <==> PartAnswered(a', f', All)
  {
    hide KidIndex, Fits, FitsAt, Follow, PropAt;
    if PartAnswered(a, f, Kid(i)) {
      forall path | NodeAt(f', path).Some? ensures Follow(a', f', path).Some? {
        FollowBelow(a, f, i, path);
        assert On(Kid(i), [i] + path);
      }
      forall path, x | PropAt(f', path, x).Some? ensures FitsAt(a', f', path, x) {
        FitsBelow(a, f, i, k, a', f', path, x);
        assert Holding(Kid(i), [i] + path, x);
      }
    }
    if PartAnswered(a', f', All) {
      forall path | On(Kid(i), path) && NodeAt(f, path).Some? ensures Follow(a, f, path).Some? {
        Split(path, i);
        NodeBelow(f, i, path[1..]);
        assert On(All, path[1..]);
        FollowBelow(a, f, i, path[1..]);
      }
      forall path, x | Holding(Kid(i), path, x) && PropAt(f, path, x).Some? ensures FitsAt(a, f, path, x) {
        Split(path, i);
        PropBelow(f, i, path[1..], x);
        assert Holding(All, path[1..], x);
        FitsBelow(a, f, i, k, a', f', path[1..], x);
      }
    }
  }

  lemma {:induction false} Split(path: seq<nat>, i: nat)
    requires path != [] && path[0] == i
    ensures path == [i] + path[1..]
  {
  }

  lemma {:induction false} KidListed(ts: seq<Tok>, t: nat, q: nat, a: ANode, f: ANode, i: nat, k: nat, t': nat, q': nat,
      a': ANode, f': ANode, refs: seq<Ref>, es: seq<Entry>, cs: seq<Cell>)
    requires t < |ts| && q < |ts| && KidTok(ts, t, k) == Some(t') && KidTok(ts, q, i) == Some(q')
    requires KidPair(a, f, i, k, a', f') && Listed(ts, t', q', a', f', All, refs, es, cs)
    ensures Listed(ts, t, q, a, f, Kid(i), refs, seq(|es|, m requires 0 <= m < |es| => Under(i, es[m])),
      seq(|cs|, m requires 0 <= m < |cs| => UnderCell(k, cs[m])))
  {
    hide KidPair, Points, ValueTok, KidTok;
    var es', cs' := seq(|es|, m requires 0 <= m < |es| => Under(i, es[m])),
      seq(|cs|, m requires 0 <= m < |cs| => UnderCell(k, cs[m]));
    forall m | 0 <= m < |es'|
      ensures Holding(Kid(i), es'[m].path, es'[m].prop) && Points(a, f, es'[m], cs'[m]) && RefAt(ts, t, cs'[m], refs[m])
    {
      PointsBelow(a, f, i, k, a', f', es[m], cs[m]);
      TokBelow(ts, t, k, cs[m].path, cs[m].prop);
      assert RefAt(ts, t', cs[m], refs[m]);
    }
    forall m, j | 0 <= m < j < |es'| ensures es'[m] != es'[j] {
      assert es[m] != es[j];
      assert es'[m].path[1..] == es[m].path && es'[j].path[1..] == es[j].path;
    }
  }

  lemma {:induction false} KidWhole(ts: seq<Tok>, q: nat, a: ANode, f: ANode, i: nat, k: nat, q': nat, a': ANode,
      f': ANode, plan: Plan, es: seq<Entry>, es': seq<Entry>)
    requires q < |ts| && KidTok(ts, q, i) == Some(q') && KidPair(a, f, i, k, a', f')
    requires Whole(ts, q', a', f', All, plan, es)
    requires forall e :: e in es ==> Under(i, e) in es'
    ensures Whole(ts, q, a, f, Kid(i), plan, es')
  {
    hide KidTok, KidIndex, PartAnswered, PropAt, ValueTok;
    AnsweredBelow(a, f, i, k, a', f');
    if plan.err == 0 {
      forall e | Written(f, e) && Holding(Kid(i), e.path, e.prop) ensures e in es' {
        Split(e.path, i);
        PropBelow(f, i, e.path[1..], e.prop);
        var e' := e.(path := e.path[1..]);
        assert Written(f', e') && Holding(All, e'.path, e'.prop);
        assert Under(i, e') == e;
      }
      forall path, x | Holding(Kid(i), path, x) && ValueTok(ts, q, path, x).Some?
        ensures ValueTok(ts, q, path, x).value in plan.srcs
      {
        Split(path, i);
        TokBelow(ts, q, i, path[1..], x);
        assert Holding(All, path[1..], x);
      }
    }
    forall s | s in plan.srcs
      ensures exists path, x :: Holding(Kid(i), path, x) && ValueTok(ts, q, path, x) == Some(s)
    {
      var path, x :| Holding(All, path, x) && ValueTok(ts, q', path, x) == Some(s);
      TokBelow(ts, q, i, path, x);
      assert Holding(Kid(i), [i] + path, x);
    }
  }

  lemma {:induction false} KidSpelled(ts: seq<Tok>, t: nat, q: nat, a: ANode, f: ANode, i: nat, k: nat, t': nat,
      q': nat,
      a': ANode, f': ANode, plan: Plan, es: seq<Entry>, cs: seq<Cell>) returns (es': seq<Entry>, cs': seq<Cell>)
    requires t < |ts| && q < |ts| && KidTok(ts, t, k) == Some(t') && KidTok(ts, q, i) == Some(q')
    requires KidPair(a, f, i, k, a', f') && Spelled(ts, t', q', a', f', All, plan, es, cs)
    ensures Spelled(ts, t, q, a, f, Kid(i), plan, es', cs')
  {
    hide KidTok, KidPair, Listed, Whole;
    es', cs' := seq(|es|, m requires 0 <= m < |es| => Under(i, es[m])),
      seq(|cs|, m requires 0 <= m < |cs| => UnderCell(k, cs[m]));
    KidListed(ts, t, q, a, f, i, k, t', q', a', f', plan.refs, es, cs);
    forall e | e in es ensures Under(i, e) in es' {
      var m :| 0 <= m < |es| && es[m] == e;
      assert es'[m] == Under(i, e);
    }
    KidWhole(ts, q, a, f, i, k, q', a', f', plan, es, es');
  }

  /** No child of a answers to the name of child i of the fixups. */
  lemma {:induction false} KidMissing(ts: seq<Tok>, t: nat, q: nat, a: ANode, f: ANode, i: nat, err: int)
    requires t < |ts| && q < |ts| && i < |f.kids| && KidIndex(a.kids, f.kids[i].name) == |a.kids| && err != 0
    ensures Spelled(ts, t, q, a, f, Kids(i), Plan([], {}, err), [], [])
  {
    hide KidIndex, FitsAt, ValueTok;
    FollowBelow(a, f, i, []);
    assert [i] + [] == [i];
    assert On(Kids(i), [i]);
    NoneListed(ts, t, q, a, f, Kids(i));
  }

  lemma {:induction false} KidsEnd(ts: seq<Tok>, strs: seq<byte>, cq: Ctx, nq: Node, tail: seq<Tok>, a: ANode, i: nat)
    requires Holds(ts, cq, nq, tail) && |Pre(cq)| < |ts| && i >= |Abs(nq, strs).kids|
    ensures Whole(ts, |Pre(cq)|, a, Abs(nq, strs), Kids(i), Plan([], {}, 0), [])
  {
    hide Holds, Pre, ValueTok, Abs, FitsAt;
    var f := Abs(nq, strs);
    forall path, y | Holding(Kids(i), path, y)
      ensures !PropAt(f, path, y).Some? && !ValueTok(ts, |Pre(cq)|, path, y).Some?
    {
      ValueTokIs(ts, cq, nq, tail, strs, path, y);
    }
    forall path | On(Kids(i), path) ensures NodeAt(f, path).None? { }
  }

  lemma {:induction false} KidsBoth(i: nat)
    ensures Both(Kids(i), Kid(i), Kids(i + 1)) && Both(All, Props(0), Kids(0))
  {
  }

  /** The entries of the children from i on. */
  lemma {:induction false} KidsSpelled(ts: seq<Tok>, strs: seq<byte>, ct: Ctx, nt: Node, cq: Ctx, nq: Node,
      tail: seq<Tok>, i: nat, was: nat) returns (es: seq<Entry>, cs: seq<Cell>)
    requires Holds(ts, ct, nt, tail) && Holds(ts, cq, nq, tail) && |Pre(ct)| < |ts| && |Pre(cq)| <= was < |ts|
    requires var child := KidTok(ts, |Pre(cq)|, i); child.Some? ==> was < child.value
    ensures Spelled(ts, |Pre(ct)|, |Pre(cq)|, Abs(nt, strs), Abs(nq, strs), Kids(i),
      PlanKids(ts, strs, |Pre(ct)|, KidTok(ts, |Pre(cq)|, i), was), es, cs)
    decreases |ts| - was, 0
  {
    hide Holds, Pre, KidHere, Abs, SubOf, Listed, Whole, Both, KidIndex, PlanNode, NextSib, FirstSibling;
    var t, q, a, f := |Pre(ct)|, |Pre(cq)|, Abs(nt, strs), Abs(nq, strs);
    var k := KidTokIs(ts, cq, nq, tail, strs, i);
    if i < |f.kids| {
      var c := KidTok(ts, q, i).value;
      KidParts(ts, cq, nq, tail, strs, i, k, c);
      var c', n' := Child(cq, nq, k), nq.items[k].node;
      TokHere(ts, c', n', tail);
      var m := SubTok(ts, ct, nt, tail, strs, n'.name);
      var j := KidIndex(a.kids, n'.name);
      if j < |a.kids| {
        var x := SubOf(ts[t + 1..], 0, n'.name).i;
        KidParts(ts, ct, nt, tail, strs, j, m, t + 1 + x);
        var e0, c0 := NodeSpelled(ts, strs, Child(ct, nt, m), nt.items[m].node, c', n', tail);
        var plan := PlanNode(ts, strs, t + 1 + x, c);
        var e1, c1 := KidSpelled(ts, t, q, a, f, i, j, t + 1 + x, c, Abs(nt.items[m].node, strs), Abs(n', strs), plan,
          e0, c0);
        var e2, c2 := KidsSpelled(ts, strs, ct, nt, cq, nq, tail, i + 1, c);
        KidsBoth(i);
        es, cs := BothSpelled(ts, t, q, a, f, Kids(i), Kid(i), Kids(i + 1), plan,
          PlanKids(ts, strs, t, NextSib(ts, c), c), e1, e2, c1, c2);
      } else {
        KidMissing(ts, t, q, a, f, i, BADOVERLAY);
        es, cs := [], [];
      }
    } else {
      es, cs := [], [];
      KidsEnd(ts, strs, cq, nq, tail, a, i);
      NoneListed(ts, t, q, a, f, Kids(i));
    }
  }

  lemma {:induction false} TokHere(ts: seq<Tok>, c: Ctx, n: Node, tail: seq<Tok>)
    requires Holds(ts, c, n, tail)
    ensures |Pre(c)| < |ts| && ts[|Pre(c)|] == Begin(n.name, n.pad)
  {
    hide FlatItems;
    InsideNode(ts, Pre(c), n, Post(c) + tail);
  }

  /** The plan of a fixup node holds the cells that the entries below it point at, each entry once, and no others. */
  lemma {:induction false} NodeSpelled(ts: seq<Tok>, strs: seq<byte>, ct: Ctx, nt: Node, cq: Ctx, nq: Node,
      tail: seq<Tok>) returns (es: seq<Entry>, cs: seq<Cell>)
    requires Holds(ts, ct, nt, tail) && Holds(ts, cq, nq, tail)
    ensures |Pre(ct)| < |ts| && |Pre(cq)| < |ts|
    ensures Spelled(ts, |Pre(ct)|, |Pre(cq)|, Abs(nt, strs), Abs(nq, strs), All,
      PlanNode(ts, strs, |Pre(ct)|, |Pre(cq)|), es, cs)
    decreases |ts| - |Pre(cq)|, 1
  {
    hide Holds, Pre, Abs, Spelled, Both, PlanProps, PlanKids, FirstSibling, NextPropOf;
    TokHere(ts, ct, nt, tail);
    TokHere(ts, cq, nq, tail);
    var t, q, a, f := |Pre(ct)|, |Pre(cq)|, Abs(nt, strs), Abs(nq, strs);
    var e1, c1 := PropsSpelled(ts, strs, ct, nt, cq, nq, tail, 0, q + 1);
    var e2, c2 := KidsSpelled(ts, strs, ct, nt, cq, nq, tail, 0, q);
    KidsBoth(0);
    es, cs := BothSpelled(ts, t, q, a, f, All, Props(0), Kids(0), PlanProps(ts, strs, t, q + 1),
      PlanKids(ts, strs, t, FirstSibling(ts, q), q), e1, e2, c1, c2);
  }
}

/**
 * The whole overlay after both steps, as a reader sees it: which cells were shifted, that nothing else changed, and
 * exactly when the fixups are carried out.
 */
module FdtOutcome {
  import opened Bytes
  import opened FdtTokens
  import opened FdtTree
  import opened FdtRefine
  import opened FdtOps
  import opened FdtOverlay
  import opened FdtPhandle
  import opened FdtMaxPhandle
  import opened FdtFixup
  import opened FdtKept
  import opened FdtRefs
  import opened FdtFollow
  import opened FdtPlaces
  import opened FdtMoves
  import opened FdtCells
  import opened FdtListing

  /** "__local_fixups__" */
  const LOCAL_FIXUPS: seq<byte> :=
    [0x5f, 0x5f, 0x6c, 0x6f, 0x63, 0x61, 0x6c, 0x5f, 0x66, 0x69, 0x78, 0x75, 0x70, 0x73, 0x5f, 0x5f]

  /** The references of the whole overlay: from the root, by the fixups that hang under it, if there are any. */
  function FixTree(ts: seq<Tok>, strs: seq<byte>, delta: nat): Fixed
    requires ts != []
  {
    SubOfFacts(ts[1..], 0, LOCAL_FIXUPS);
    match SubOf(ts[1..], 0, LOCAL_FIXUPS)
    case Err(e) => Fixed(ts, if e == NOTFOUND then 0 else e)
    case At(x) => FixNode(ts, strs, 0, 1 + x, delta)
  }

  /** What the fixups of the whole overlay ask for. */
  function PlanTree(ts: seq<Tok>, strs: seq<byte>): Plan
    requires ts != []
  {
    SubOfFacts(ts[1..], 0, LOCAL_FIXUPS);
    match SubOf(ts[1..], 0, LOCAL_FIXUPS)
    case Err(e) => Plan([], {}, if e == NOTFOUND then 0 else e)
    case At(x) => PlanNode(ts, strs, 0, 1 + x)
  }

  /** The second step leaves the phandles of the first. */
  lemma {:induction false} AllKept(ts: seq<Tok>, strs: seq<byte>, delta: nat)
    requires ts != [] && ts[0].Begin? && ToksMoved(ts, strs, delta)
    ensures Keeps(ts, FixTree(ts, strs, delta).toks, strs)
  {
    hide ToksMoved, Keeps, FixNode, SubOf;
    KeepsSelf(ts, strs);
    SubOfFacts(ts[1..], 0, LOCAL_FIXUPS);
    var s := SubOf(ts[1..], 0, LOCAL_FIXUPS);
    if s.At? {
      assert ts[1..][s.i] == ts[1 + s.i];
      NodeKeeps(ts, strs, 0, 1 + s.i, delta);
    }
  }

  /** The tree after both steps: its phandles are those of the overlay as it came, plus delta. */
  lemma {:induction false} TreeAfter(n: Node, n1: Node, delta: nat, ts: seq<Tok>, strs: seq<byte>) returns (n2: Node)
    requires MoveNode(Abs(n, strs), delta) == Good(Abs(n1, strs)) && ts == FixTree(Flat(n1) + [End], strs, delta).toks
    ensures Holds(ts, Top, n2, [End]) && ToksMoved(Flat(n1) + [End], strs, delta)
    ensures Handles(Abs(n2, strs)) == Plus(Handles(Abs(n, strs)), delta)
    ensures forall m :: 0 <= m < |Handles(Abs(n2, strs))| ==> SmallHandle(Handles(Abs(n2, strs))[m])
  {
    hide MoveNode, Abs, Flat, FixTree, Handles, ToksMoved, Keeps, Plus, NodeMoved;
    var a, mid := Abs(n, strs), Flat(n1) + [End];
    MoveMoves(a, delta);
    EndMoved(strs, delta);
    NodeToks(n1, [End], strs, delta);
    AllKept(mid, strs, delta);
    KeepsParts(Flat(n1), [End], ts, strs);
    KeepsOne(End, ts[|Flat(n1)|..], strs);
    n2 := NodeAfter(n1, ts[..|Flat(n1)|], strs);
    HoldsTree(ts, Top, n2, [End]);
    HandlesMove(a, delta);
    MovedBelow(a, delta);
  }

  lemma {:induction false} EndMoved(strs: seq<byte>, delta: nat)
    ensures ToksMoved([End], strs, delta)
  {
  }

  // ---- the fixups of a tree

  function FixupsAt(a: ANode): nat { KidIndex(a.kids, LOCAL_FIXUPS) }

  predicate HasFixups(a: ANode) { FixupsAt(a) < |a.kids| }

  function Fixups(a: ANode): ANode
    requires HasFixups(a)
  {
    a.kids[FixupsAt(a)]
  }

  /** An entry of the fixups points at the cell. */
  predicate Aims(a: ANode, e: Entry, c: Cell) { HasFixups(a) && Points(a, Fixups(a), e, c) }

  predicate CellsApart(c: Cell, d: Cell) {
    c.path != d.path || c.prop != d.prop || c.at + 4 <= d.at || d.at + 4 <= c.at
  }

  /** No entry points into the fixups themselves, and no two at cells that overlap. */
  ghost predicate Tidy(a: ANode) {
    && (forall e, c :: Aims(a, e, c) ==> !(c.path != [] && c.path[0] == FixupsAt(a)))
    && (forall e, c, e', c' :: Aims(a, e, c) && Aims(a, e', c') && e != e' ==> CellsApart(c, c'))
  }

  ghost predicate NoHandles(f: ANode) {
    forall path, x :: PropAt(f, path, x).Some? ==> !HandleName(PropAt(f, path, x).value.name)
  }

  /** All the fixups can be carried out when phandles move by delta. */
  ghost predicate Ready(a: ANode, delta: nat) {
    HasFixups(a) ==> Answered(a, Fixups(a)) && (delta == 0 || NoHandles(Fixups(a)))
  }

  /** Where the fixups lie in the overlay, and what their plan says. */
  lemma {:induction false} FixupsHere(n: Node, strs: seq<byte>) returns (k: nat)
    ensures var ts, a, r := Flat(n) + [End], Abs(n, strs), SubOf((Flat(n) + [End])[1..], 0, LOCAL_FIXUPS);
      && Holds(ts, Top, n, [End]) && |Pre(Top)| == 0
      && (if HasFixups(a) then r.At? && KidTok(ts, 0, FixupsAt(a)) == Some(1 + r.i) &&
             KidHere(ts, Top, n, [End], strs, FixupsAt(a), k, 1 + r.i)
          else r == Err(NOTFOUND))
  {
    hide KidTok, Abs, KidHere, SubOf, KidIndex, Flat;
    var ts := Flat(n) + [End];
    HoldsTree(ts, Top, n, [End]);
    k := SubTok(ts, Top, n, [End], strs, LOCAL_FIXUPS);
  }

  /** The cells of the plan are those that different entries aim at. */
  ghost predicate Mapped(ts: seq<Tok>, a: ANode, plan: Plan, es: seq<Entry>, cs: seq<Cell>)
    requires ts != []
  {
    && |es| == |cs| == |plan.refs| && Distinct(es)
    && (forall i :: 0 <= i < |es| ==> Aims(a, es[i], cs[i]) && RefAt(ts, 0, cs[i], plan.refs[i]))
    && (plan.err == 0 ==> forall e, c :: Aims(a, e, c) ==> e in es)
    && (plan.err == 0 <==> (HasFixups(a) ==> Answered(a, Fixups(a))))
  }

  /** The sources of the plan are properties of the fixups. */
  ghost predicate Sourced(ts: seq<Tok>, a: ANode, plan: Plan)
    requires ts != []
  {
    && (forall s :: s in plan.srcs ==> exists path, x :: ValueTok(ts, 0, [FixupsAt(a)] + path, x) == Some(s))
    && (plan.err == 0 && HasFixups(a) ==> forall path, x :: ValueTok(ts, 0, [FixupsAt(a)] + path, x).Some? ==>
         ValueTok(ts, 0, [FixupsAt(a)] + path, x).value in plan.srcs)
  }

  lemma {:induction false} AllMapped(n: Node, strs: seq<byte>) returns (es: seq<Entry>, cs: seq<Cell>)
    ensures var ts := Flat(n) + [End];
      Mapped(ts, Abs(n, strs), PlanTree(ts, strs), es, cs) && Sourced(ts, Abs(n, strs), PlanTree(ts, strs))
  {
    hide KidTok, Abs, KidHere, SubOf, KidIndex, Flat, Holds, Pre, PlanNode, Points, ValueTok;
    var ts, a := Flat(n) + [End], Abs(n, strs);
    var k := FixupsHere(n, strs);
    es, cs := [], [];
    if HasFixups(a) {
      var q := 1 + SubOf(ts[1..], 0, LOCAL_FIXUPS).i;
      KidParts(ts, Top, n, [End], strs, FixupsAt(a), k, q);
      es, cs := NodeSpelled(ts, strs, Top, n, Child(Top, n, k), n.items[k].node, [End]);
      MappedIs(ts, q, a, PlanTree(ts, strs), es, cs);
      AllSourced(ts, q, a, Fixups(a), PlanTree(ts, strs), es);
    }
  }

  lemma {:induction false} MappedIs(ts: seq<Tok>, q: nat, a: ANode, plan: Plan, es: seq<Entry>, cs: seq<Cell>)
    requires q < |ts| && HasFixups(a) && Spelled(ts, 0, q, a, Fixups(a), All, plan, es, cs)
    ensures Mapped(ts, a, plan, es, cs)
  {
    hide KidIndex, ValueTok, FitsAt, Follow;
    var f := Fixups(a);
    assert PartAnswered(a, f, All) <==> Answered(a, f) by {
      assert forall path :: On(All, path);
      assert forall path, x :: Holding(All, path, x);
    }
    forall e, c | plan.err == 0 && Aims(a, e, c) ensures e in es {
      assert Written(f, e) && Holding(All, e.path, e.prop);
    }
  }

  lemma {:induction false} AllSourced(ts: seq<Tok>, q: nat, a: ANode, f: ANode, plan: Plan, es: seq<Entry>)
    requires q < |ts| && KidTok(ts, 0, FixupsAt(a)) == Some(q) && Whole(ts, q, a, f, All, plan, es)
    ensures Sourced(ts, a, plan)
  {
    hide KidTok, ValueTok, PartAnswered, Written, KidIndex;
    var i := FixupsAt(a);
    forall s | s in plan.srcs ensures exists path, x :: ValueTok(ts, 0, [i] + path, x) == Some(s) {
      var path, x :| Holding(All, path, x) && ValueTok(ts, q, path, x) == Some(s);
      TokBelow(ts, 0, i, path, x);
    }
    forall path, x | plan.err == 0 && ValueTok(ts, 0, [i] + path, x).Some?
      ensures ValueTok(ts, 0, [i] + path, x).value in plan.srcs
    {
      TokBelow(ts, 0, i, path, x);
      assert Holding(All, path, x);
    }
  }

  /** In a tidy overlay no fixup property is a target and no two planned cells overlap. */
  lemma {:induction false} TidyPlan(n: Node, strs: seq<byte>, plan: Plan, es: seq<Entry>, cs: seq<Cell>)
    requires var ts, a := Flat(n) + [End], Abs(n, strs);
      Mapped(ts, a, plan, es, cs) && Sourced(ts, a, plan) && Tidy(a)
    ensures Clear(plan, plan.srcs) && RefsApart(plan.refs)
  {
    hide Abs, KidIndex, Flat, ValueTok, Aims, Holds;
    var ts, a := Flat(n) + [End], Abs(n, strs);
    WholeHolds(n);
    forall i | 0 <= i < |plan.refs| ensures plan.refs[i].dst !in plan.srcs {
      if plan.refs[i].dst in plan.srcs {
        var path, x :| ValueTok(ts, 0, [FixupsAt(a)] + path, x) == Some(plan.refs[i].dst);
        assert RefAt(ts, 0, cs[i], plan.refs[i]) && Aims(a, es[i], cs[i]);
        ValuesApart(ts, Top, n, [End], strs, cs[i].path, cs[i].prop, [FixupsAt(a)] + path, x);
      }
    }
    forall i, j | 0 <= i < j < |plan.refs| ensures RefApart(plan.refs[i], plan.refs[j]) {
      assert RefAt(ts, 0, cs[i], plan.refs[i]) && RefAt(ts, 0, cs[j], plan.refs[j]);
      assert Aims(a, es[i], cs[i]) && Aims(a, es[j], cs[j]) && es[i] != es[j];
      assert CellsApart(cs[i], cs[j]);
      if plan.refs[i].dst == plan.refs[j].dst {
        ValuesApart(ts, Top, n, [End], strs, cs[i].path, cs[i].prop, cs[j].path, cs[j].prop);
      }
    }
  }

  lemma {:induction false} WholeHolds(n: Node)
    ensures Holds(Flat(n) + [End], Top, n, [End]) && |Pre(Top)| == 0
  {
    hide Flat;
    HoldsTree(Flat(n) + [End], Top, n, [End]);
  }

  lemma {:induction false} PlainIs(n: Node, mid: seq<Tok>, strs: seq<byte>, plan: Plan)
    requires var ts, a := Flat(n) + [End], Abs(n, strs);
      SameSkel(ts, mid) && Sourced(ts, a, plan) && plan.err == 0 && HasFixups(a)
    ensures Plain(plan.srcs, mid, strs) <==> NoHandles(Fixups(Abs(n, strs)))
  {
    hide Abs, KidIndex, Flat, ValueTok, Holds, NameAt, Pre;
    var ts, a := Flat(n) + [End], Abs(n, strs);
    var i, f := FixupsAt(a), Fixups(a);
    WholeHolds(n);
    forall path, x
      ensures var r := ValueTok(ts, 0, [i] + path, x);
        && (r.Some? <==> PropAt(f, path, x).Some?)
        && (r.Some? ==> (IsHandle(mid[r.value], strs) <==> HandleName(PropAt(f, path, x).value.name)))
    {
      ValueTokIs(ts, Top, n, [End], strs, [i] + path, x);
      PropBelow(a, i, path, x);
      var r := ValueTok(ts, 0, [i] + path, x);
      if r.Some? { assert SkelTok(ts[r.value], mid[r.value]); }
    }
    if NoHandles(f) {
      forall s | s in plan.srcs && s < |mid| ensures !IsHandle(mid[s], strs) {
        var path, x :| ValueTok(ts, 0, [i] + path, x) == Some(s);
      }
    }
  }

  // ---- the walk over the whole overlay

  lemma {:induction false} AllSucceeds(ts: seq<Tok>, mid: seq<Tok>, strs: seq<byte>, delta: nat)
    requires FirstStep(ts, mid, strs, delta) && |mid| == |ts| > 0 && mid[0].Begin?
    requires var plan := PlanTree(ts, strs); Clear(plan, plan.srcs) && RefsApart(plan.refs)
    ensures var plan, r := PlanTree(ts, strs), FixTree(mid, strs, delta);
      && (r.err == 0 <==> plan.err == 0 && (delta == 0 || Plain(plan.srcs, mid, strs)))
      && (r.err == 0 ==> Carried(mid, plan, delta, r) && CellsShifted(ts, r.toks, plan.refs, delta))
  {
    hide FirstStep, FixNode, PlanNode, SubOf, Clear, RefsApart, CellsShifted, Carried;
    Skeletons(ts, mid, strs, delta);
    SkelFrom(ts, mid, 1);
    SkelSub(ts[1..], mid[1..], 0, LOCAL_FIXUPS);
    SubOfFacts(mid[1..], 0, LOCAL_FIXUPS);
    var s := SubOf(mid[1..], 0, LOCAL_FIXUPS);
    if s.At? {
      assert mid[1..][s.i] == mid[1 + s.i];
      NodeSucceeds(ts, mid, strs, 0, 1 + s.i, delta);
      if FixTree(mid, strs, delta).err == 0 { NodeShifted(ts, mid, strs, 0, 1 + s.i, delta); }
    } else {
      CarriedNone(mid, {}, FixTree(mid, strs, delta).err, delta);
      NoCells(ts, mid, delta);
    }
  }

  lemma {:induction false} NoCells(ts: seq<Tok>, now: seq<Tok>, delta: nat)
    ensures CellsShifted(ts, now, [], delta)
  {
  }

  // ---- what a reader sees afterwards

  function CellAt(a: ANode, c: Cell): Option<nat> {
    var g := PropAt(a, c.path, c.prop);
    if g.Some? && c.at + 4 <= |g.value.val| then Some(BeDec(g.value.val[c.at..c.at + 4])) else None
  }

  /** The same nodes and properties, with values of the same lengths. */
  ghost predicate Alike(a: ANode, b: ANode) {
    && (forall path :: NodeAt(a, path).Some? <==> NodeAt(b, path).Some?)
    && (forall path :: NodeAt(a, path).Some? ==> NodeAt(a, path).value.name == NodeAt(b, path).value.name)
    && (forall path, x :: PropAt(a, path, x).Some? <==> PropAt(b, path, x).Some?)
    && (forall path, x :: PropAt(a, path, x).Some? ==> AlikeProp(PropAt(a, path, x).value, PropAt(b, path, x).value))
  }

  predicate AlikeProp(g: AProp, h: AProp) { g.name == h.name && |g.val| == |h.val| }

  lemma {:induction false} SameNodes(n: Node, m: Node, strs: seq<byte>, path: seq<nat>)
    requires SameSkel(Flat(n) + [End], Flat(m) + [End])
    ensures var a, b := NodeAt(Abs(n, strs), path), NodeAt(Abs(m, strs), path);
      (a.Some? <==> b.Some?) && (a.Some? ==> a.value.name == b.value.name)
  {
    hide AbsKids, AbsProps, Flat, NodeTok, Holds, Pre;
    var ts, us := Flat(n) + [End], Flat(m) + [End];
    WholeHolds(n);
    WholeHolds(m);
    var c, x := NodeTokIs(ts, Top, n, [End], strs, path);
    var d, y := NodeTokIs(us, Top, m, [End], strs, path);
    NodeTokSkel(ts, us, 0, path);
    if NodeAt(Abs(n, strs), path).Some? {
      TokHere(ts, c, x, [End]);
      TokHere(us, d, y, [End]);
      assert SkelTok(ts[|Pre(c)|], us[|Pre(c)|]);
    }
  }

  /** A property of the tree and its token. */
  lemma {:induction false} PropToken(n: Node, strs: seq<byte>, path: seq<nat>, x: nat)
    ensures var ts, g := Flat(n) + [End], PropAt(Abs(n, strs), path, x);
      var r := ValueTok(ts, 0, path, x);
      && (r.Some? <==> g.Some?)
      && (r.Some? ==> g.value == AProp(NameAt(strs, ts[r.value].nameoff), ts[r.value].val))
  {
    hide Abs, Flat, ValueTok, Holds, Pre, NameAt;
    WholeHolds(n);
    ValueTokIs(Flat(n) + [End], Top, n, [End], strs, path, x);
  }

  lemma {:induction false} AlikeTrees(n: Node, m: Node, strs: seq<byte>)
    requires SameSkel(Flat(n) + [End], Flat(m) + [End])
    ensures Alike(Abs(n, strs), Abs(m, strs))
  {
    hide Abs, Flat, ValueTok, NameAt;
    forall path
      ensures var a, b := NodeAt(Abs(n, strs), path), NodeAt(Abs(m, strs), path);
        (a.Some? <==> b.Some?) && (a.Some? ==> a.value.name == b.value.name)
    {
      SameNodes(n, m, strs, path);
    }
    forall path, x
      ensures var a, b := PropAt(Abs(n, strs), path, x), PropAt(Abs(m, strs), path, x);
        (a.Some? <==> b.Some?) && (a.Some? ==> AlikeProp(a.value, b.value))
    {
      PropToken(n, strs, path, x);
      PropToken(m, strs, path, x);
      ValueTokSkel(Flat(n) + [End], Flat(m) + [End], 0, path, x);
      var r := ValueTok(Flat(n) + [End], 0, path, x);
      if r.Some? { assert SkelTok((Flat(n) + [End])[r.value], (Flat(m) + [End])[r.value]); }
    }
  }

  /** An entry aims at one cell only. */
  lemma {:induction false} AimsOnce(a: ANode, e: Entry, c: Cell, d: Cell)
    requires Aims(a, e, c) && Aims(a, e, d)
    ensures c == d
  {
  }

  lemma {:induction false} CellShiftedAt(n: Node, m: Node, strs: seq<byte>, plan: Plan, es: seq<Entry>, cs: seq<Cell>,
      delta: nat, e: Entry, c: Cell)
    requires SameSkel(Flat(n) + [End], Flat(m) + [End]) && Mapped(Flat(n) + [End], Abs(n, strs), plan, es, cs)
    requires plan.err == 0 && CellsShifted(Flat(n) + [End], Flat(m) + [End], plan.refs, delta)
    requires Aims(Abs(n, strs), e, c)
    ensures var was, now := CellAt(Abs(n, strs), c), CellAt(Abs(m, strs), c);
      was.Some? && now == Some((was.value + delta) % U32)
  {
    hide Abs, Flat, ValueTok, NameAt, Aims, Answered, BeDec, SameSkel;
    var ts, us, a := Flat(n) + [End], Flat(m) + [End], Abs(n, strs);
    var i :| 0 <= i < |es| && es[i] == e;
    assert Aims(a, es[i], cs[i]) && RefAt(ts, 0, cs[i], plan.refs[i]);
    AimsOnce(a, e, c, cs[i]);
    PropToken(n, strs, c.path, c.prop);
    PropToken(m, strs, c.path, c.prop);
    ValueTokSkel(ts, us, 0, c.path, c.prop);
    var r := plan.refs[i];
    assert RefFits(ts, r) && RefFits(us, r) && CellOf(us, r) == (CellOf(ts, r) + delta) % U32;
  }

  /** A cell that an entry aims at covers byte b of the property. */
  ghost predicate Covered(a: ANode, path: seq<nat>, x: nat, b: nat) {
    exists e, c :: Aims(a, e, c) && c.path == path && c.prop == x && c.at <= b < c.at + 4
  }

  lemma {:induction false} ByteKept(n: Node, n1: Node, m: Node, strs: seq<byte>, plan: Plan, es: seq<Entry>,
      cs: seq<Cell>, delta: nat, path: seq<nat>, x: nat, b: nat)
    requires SameSkel(Flat(n) + [End], Flat(n1) + [End]) && SameSkel(Flat(n1) + [End], Flat(m) + [End])
    requires Mapped(Flat(n) + [End], Abs(n, strs), plan, es, cs)
    requires Carried(Flat(n1) + [End], plan, delta, Fixed(Flat(m) + [End], 0))
    requires PropAt(Abs(m, strs), path, x).Some? && b < |PropAt(Abs(m, strs), path, x).value.val|
    requires !Covered(Abs(n, strs), path, x, b)
    ensures var was, now := PropAt(Abs(n1, strs), path, x), PropAt(Abs(m, strs), path, x).value;
      was.Some? && |was.value.val| == |now.val| && now.val[b] == was.value.val[b]
  {
    hide Abs, Flat, ValueTok, NameAt, Aims, Answered, SameSkel, ShiftAll, PropAt;
    var ts, mid, fin := Flat(n) + [End], Flat(n1) + [End], Flat(m) + [End];
    PropToken(n1, strs, path, x);
    PropToken(m, strs, path, x);
    ValueTokSkel(ts, mid, 0, path, x);
    ValueTokSkel(mid, fin, 0, path, x);
    var s := ValueTok(fin, 0, path, x).value;
    SameLen(mid, fin, s);
    WholeHolds(n);
    forall i | 0 <= i < |plan.refs| ensures !(plan.refs[i].dst == s && plan.refs[i].at <= b < plan.refs[i].at + 4) {
      assert Aims(Abs(n, strs), es[i], cs[i]) && RefAt(ts, 0, cs[i], plan.refs[i]);
      if plan.refs[i].dst == s { SamePlace(n, strs, cs[i].path, cs[i].prop, path, x); }
    }
    ShiftAllByte(mid, plan.refs, delta, s, b);
  }

  lemma {:induction false} SameLen(a: seq<Tok>, b: seq<Tok>, s: nat)
    requires SameSkel(a, b) && s < |b| && b[s].Prop?
    ensures |a| == |b| && a[s].Prop? && |a[s].val| == |b[s].val|
  {
    assert SkelTok(a[s], b[s]);
  }

  lemma {:induction false} SamePlace(n: Node, strs: seq<byte>, p: seq<nat>, x: nat, q: seq<nat>, y: nat)
    requires ValueTok(Flat(n) + [End], 0, p, x).Some?
    requires ValueTok(Flat(n) + [End], 0, p, x) == ValueTok(Flat(n) + [End], 0, q, y)
    ensures p == q && x == y
  {
    hide Flat, ValueTok, Holds, Pre;
    WholeHolds(n);
    ValuesApart(Flat(n) + [End], Top, n, [End], strs, p, x, q, y);
  }

  /** Property x of the node at path is a phandle. */
  predicate HandleAt(a: ANode, path: seq<nat>, x: nat) {
    NodeAt(a, path).Some? && HandleProp(NodeAt(a, path).value.props, x)
  }

  /**
   * The overlay a became b by delta: every cell that a fixup entry aims at grew by delta, and so did every phandle;
   * every byte besides is the same.
   */
  ghost predicate Settled(a: ANode, b: ANode, delta: nat) {
    && Alike(a, b)
    && (forall e, c :: Aims(a, e, c) ==> GrownBy(CellAt(a, c), CellAt(b, c), delta))
    && (forall path, x :: HandleAt(a, path, x) ==> GrownHandle(PropAt(a, path, x), PropAt(b, path, x), delta))
    && (forall path, x, i :: !HandleAt(a, path, x) && !Covered(a, path, x, i) ==>
         SameByte(PropAt(a, path, x), PropAt(b, path, x), i))
  }

  predicate GrownBy(was: Option<nat>, now: Option<nat>, delta: nat) {
    was.Some? && now == Some((was.value + delta) % U32)
  }

  predicate GrownHandle(was: Option<AProp>, now: Option<AProp>, delta: nat) {
    was.Some? && now.Some? && |was.value.val| == 4 && BeDec(was.value.val) + delta < U32 - 1 &&
    now.value == AProp(was.value.name, Be(BeDec(was.value.val) + delta, 4))
  }

  /** Byte i of the property, if there is one. */
  predicate SameByte(was: Option<AProp>, now: Option<AProp>, i: nat) {
    was.Some? && i < |was.value.val| ==> now.Some? && i < |now.value.val| && now.value.val[i] == was.value.val[i]
  }

  /** The first step, property by property. */
  lemma {:induction false} MovedProperty(a: ANode, delta: nat, path: seq<nat>, x: nat)
    requires MoveNode(a, delta).Good? && PropAt(a, path, x).Some?
    ensures var was, now := PropAt(a, path, x).value, PropAt(MoveNode(a, delta).value, path, x);
      now == Some(if HandleAt(a, path, x) then AProp(was.name, Be(BeDec(was.val) + delta, 4)) else was)
    ensures HandleAt(a, path, x) ==> Movable(PropAt(a, path, x).value.val, delta)
  {
    hide MoveNode, HandleProp, BeDec, Be, NodeAt;
    MovedNode(a, delta, path);
    MoveRefused(a, delta);
  }

  /** The second step keeps phandles. */
  lemma {:induction false} HandleKept(n1: Node, n2: Node, strs: seq<byte>, path: seq<nat>, x: nat)
    requires Keeps(Flat(n1) + [End], Flat(n2) + [End], strs)
    requires PropAt(Abs(n1, strs), path, x).Some? && HandleName(PropAt(Abs(n1, strs), path, x).value.name)
    ensures PropAt(Abs(n2, strs), path, x) == PropAt(Abs(n1, strs), path, x)
  {
    hide Abs, Flat, ValueTok, NameAt, PropAt;
    var mid, fin := Flat(n1) + [End], Flat(n2) + [End];
    PropToken(n1, strs, path, x);
    PropToken(n2, strs, path, x);
    ValueTokSkel(mid, fin, 0, path, x);
    var s := ValueTok(mid, 0, path, x).value;
    assert IsHandle(mid[s], strs);
  }

  /** What the tree is afterwards, from what the tokens are. */
  lemma {:induction false} SettledIs(n: Node, n1: Node, n2: Node, strs: seq<byte>, delta: nat, plan: Plan,
      es: seq<Entry>, cs: seq<Cell>)
    requires MoveNode(Abs(n, strs), delta) == Good(Abs(n1, strs))
    requires SameSkel(Flat(n) + [End], Flat(n1) + [End]) && Keeps(Flat(n1) + [End], Flat(n2) + [End], strs)
    requires Mapped(Flat(n) + [End], Abs(n, strs), plan, es, cs) && plan.err == 0
    requires Carried(Flat(n1) + [End], plan, delta, Fixed(Flat(n2) + [End], 0))
    requires CellsShifted(Flat(n) + [End], Flat(n2) + [End], plan.refs, delta)
    ensures Settled(Abs(n, strs), Abs(n2, strs), delta)
  {
    hide Abs, Flat, Mapped, Carried, CellsShifted, Aims, Covered, CellAt, HandleAt, PropAt, Alike, SameSkel, MoveNode,
        BeDec, Be;
    var a, b := Abs(n, strs), Abs(n2, strs);
    KeepsSkel(Flat(n1) + [End], Flat(n2) + [End], strs);
    SkelTrans(Flat(n) + [End], Flat(n1) + [End], Flat(n2) + [End]);
    AlikeTrees(n, n2, strs);
    forall e, c | Aims(a, e, c) ensures GrownBy(CellAt(a, c), CellAt(b, c), delta) {
      CellShiftedAt(n, n2, strs, plan, es, cs, delta, e, c);
    }
    forall path, x | HandleAt(a, path, x) ensures GrownHandle(PropAt(a, path, x), PropAt(b, path, x), delta) {
      HandleIs(a, path, x);
      MovedProperty(a, delta, path, x);
      HandleKept(n1, n2, strs, path, x);
    }
    forall path, x, i: nat | !HandleAt(a, path, x) && !Covered(a, path, x, i)
      ensures SameByte(PropAt(a, path, x), PropAt(b, path, x), i)
    {
      if PropAt(a, path, x).Some? && i < |PropAt(a, path, x).value.val| {
        AlikeAt(a, b, path, x);
        ByteKept(n, n1, n2, strs, plan, es, cs, delta, path, x, i);
        MovedProperty(a, delta, path, x);
      }
    }
  }

  lemma {:induction false} HandleIs(a: ANode, path: seq<nat>, x: nat)
    requires HandleAt(a, path, x)
    ensures PropAt(a, path, x).Some? && HandleName(PropAt(a, path, x).value.name)
  {
  }

  lemma {:induction false} AlikeAt(a: ANode, b: ANode, path: seq<nat>, x: nat)
    requires Alike(a, b) && PropAt(a, path, x).Some?
    ensures PropAt(b, path, x).Some? && AlikeProp(PropAt(a, path, x).value, PropAt(b, path, x).value)
  {
  }

  lemma {:induction false} KeepsSkel(a: seq<Tok>, b: seq<Tok>, strs: seq<byte>)
    requires Keeps(a, b, strs)
    ensures SameSkel(a, b)
  {
  }

  /** The fixups of a tidy overlay are carried out exactly if it is ready for them. */
  lemma {:induction false} Outcome(n: Node, n1: Node, n2: Node, strs: seq<byte>, delta: nat, err: int)
    requires MoveNode(Abs(n, strs), delta) == Good(Abs(n1, strs)) && Tidy(Abs(n, strs))
    requires FirstStep(Flat(n) + [End], Flat(n1) + [End], strs, delta)
    requires FixTree(Flat(n1) + [End], strs, delta) == Fixed(Flat(n2) + [End], err)
    ensures err == 0 <==> Ready(Abs(n, strs), delta)
    ensures err == 0 ==> Settled(Abs(n, strs), Abs(n2, strs), delta)
  {
    hide Abs, Flat, Mapped, Sourced, Carried, CellsShifted, Tidy, Clear, RefsApart, Settled, FixTree, PlanTree, Plain,
        Answered, NoHandles, HasFixups, Keeps, ToksMoved, OnlyHandles, MoveNode;
    var ts, mid := Flat(n) + [End], Flat(n1) + [End];
    var plan := PlanTree(ts, strs);
    var es, cs := AllMapped(n, strs);
    TidyPlan(n, strs, plan, es, cs);
    Skeletons(ts, mid, strs, delta);
    AllSucceeds(ts, mid, strs, delta);
    MappedErr(ts, Abs(n, strs), plan, es, cs);
    if plan.err == 0 && HasFixups(Abs(n, strs)) { PlainIs(n, mid, strs, plan); }
    if plan.err == 0 && !HasFixups(Abs(n, strs)) { NoSources(n, strs, mid); }
    if err == 0 {
      AllKept(mid, strs, delta);
      SettledIs(n, n1, n2, strs, delta, plan, es, cs);
    }
  }

  lemma {:induction false} MappedErr(ts: seq<Tok>, a: ANode, plan: Plan, es: seq<Entry>, cs: seq<Cell>)
    requires ts != [] && Mapped(ts, a, plan, es, cs)
    ensures plan.err == 0 <==> (HasFixups(a) ==> Answered(a, Fixups(a)))
  {
  }

  lemma {:induction false} NoSources(n: Node, strs: seq<byte>, mid: seq<Tok>)
    requires !HasFixups(Abs(n, strs))
    ensures Plain(PlanTree(Flat(n) + [End], strs).srcs, mid, strs)
  {
    hide Abs, Flat, SubOf, HasFixups, Holds, KidTok, KidHere;
    var k := FixupsHere(n, strs);
  }

  /** In a settled overlay every entry has found its cell. */
  lemma {:induction false} EntryAims(a: ANode, e: Entry) returns (c: Cell)
    requires HasFixups(a) && Answered(a, Fixups(a)) && Written(Fixups(a), e)
    ensures Aims(a, e, c)
  {
    hide KidIndex, FirstCalled, Word;
    var f := Fixups(a);
    assert FitsAt(a, f, e.path, e.prop);
    var g, t := PropAt(f, e.path, e.prop).value, Follow(a, f, e.path).value;
    c := Cell(t, FirstCalled(NodeAt(a, t).value.props, g.name), Word(g.val, e.j));
  }

  /** A cell that an entry aims at names a node afterwards exactly if it named that node before. */
  lemma {:induction false} NamesSettled(a: ANode, b: ANode, delta: nat, hs: seq<Option<nat>>, e: Entry, c: Cell, m: nat)
    requires Settled(a, b, delta) && Aims(a, e, c) && m < |hs| && SmallHandle(Plus(hs, delta)[m])
    ensures CellAt(b, c) == Plus(hs, delta)[m] <==> CellAt(a, c) == hs[m]
  {
    hide Alike, Aims, Covered, HandleAt, BeDec, Plus, PropAt;
    assert GrownBy(CellAt(a, c), CellAt(b, c), delta);
    CellWordAt(a, c);
    if hs[m].Some? { SameHandle(CellAt(a, c).value, hs[m].value, delta); }
  }

  lemma {:induction false} CellWordAt(a: ANode, c: Cell)
    requires CellAt(a, c).Some?
    ensures CellAt(a, c).value < U32
  {
    hide BeDec;
    SpanValues();
  }
}

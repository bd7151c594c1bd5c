/** Which cells the fixup walk shifts, and that shifted references follow the nodes they name. */
module FdtRefs {
  import opened Bytes
  import opened FdtTokens
  import opened FdtTree
  import opened FdtIter
  import opened FdtFixup
  import opened FdtKept

  /** The cell at a byte offset of property token dst. */
  datatype Ref = Ref(dst: nat, at: nat)

  /** What the fixups ask for: cells in order, the fixup properties they are listed in, and how the walk ends. */
  datatype Plan = Plan(refs: seq<Ref>, srcs: set<nat>, err: int)

  function Then(a: Plan, b: Plan): Plan {
    if a.err != 0 then a else Plan(a.refs + b.refs, a.srcs + b.srcs, b.err)
  }

  // ---- the plan, read off the tokens as they are at the start

  function PlanCells(ts: seq<Tok>, p: nat, j: nat, i: nat): Plan
    requires p < |ts| && j < |ts| && ts[p].Prop? && ts[j].Prop? && |ts[p].val| % 4 == 0
    decreases |ts[p].val| - 4 * i
  {
    if 4 * i >= |ts[p].val| then Plan([], {p}, 0)
    else
      var at := BeDec(ts[p].val[4 * i..4 * i + 4]);
      if (4 + at) % U32 > |ts[j].val| then Plan([], {p}, BADOVERLAY)
      else if at + 4 > |ts[j].val| then Plan([], {p}, FAULT)
      else Then(Plan([Ref(j, at)], {p}, 0), PlanCells(ts, p, j, i + 1))
  }

  function PlanProp(ts: seq<Tok>, strs: seq<byte>, t: nat, p: nat): Plan
    requires t < |ts| && p < |ts| && ts[p].Prop?
  {
    if |ts[p].val| % 4 != 0 then Plan([], {p}, BADOVERLAY)
    else
      match PropOf(ts[t + 1..], strs, NameAt(strs, ts[p].nameoff))
      case Err(e) => Plan([], {p}, if e == NOTFOUND then BADOVERLAY else e)
      case At(x) => PlanCells(ts, p, t + 1 + x, 0)
  }

  function PlanProps(ts: seq<Tok>, strs: seq<byte>, t: nat, k: nat): Plan
    requires t < |ts| && k <= |ts|
    decreases |ts| - k
  {
    match NextPropOf(ts[k..])
    case Err(_) => Plan([], {}, 0)
    case At(m) => Then(PlanProp(ts, strs, t, k + m), PlanProps(ts, strs, t, k + m + 1))
  }

  function PlanNode(ts: seq<Tok>, strs: seq<byte>, t: nat, q: nat): Plan
    requires t < |ts| && q < |ts|
    decreases |ts| - q, 0
  {
    Then(PlanProps(ts, strs, t, q + 1), PlanKids(ts, strs, t, FirstSibling(ts, q), q))
  }

  function PlanKids(ts: seq<Tok>, strs: seq<byte>, t: nat, child: Option<nat>, q: nat): Plan
    requires t < |ts| && q < |ts| && (child.Some? ==> q < child.value < |ts| && ts[child.value].Begin?)
    decreases |ts| - (if child.Some? then child.value else q + 1), 1
  {
    if child.None? then Plan([], {}, 0)
    else
      var c := child.value;
      SubOfFacts(ts[t + 1..], 0, ts[c].name);
      match SubOf(ts[t + 1..], 0, ts[c].name)
      case Err(e) => Plan([], {}, if e == NOTFOUND then BADOVERLAY else e)
      case At(x) => Then(PlanNode(ts, strs, t + 1 + x, c), PlanKids(ts, strs, t, NextSib(ts, c), c))
  }

  // ---- carrying it out

  predicate RefFits(ts: seq<Tok>, r: Ref) {
    r.dst < |ts| && ts[r.dst].Prop? && r.at + 4 <= |ts[r.dst].val|
  }

  predicate RefsFit(ts: seq<Tok>, refs: seq<Ref>) {
    forall i :: 0 <= i < |refs| ==> RefFits(ts, refs[i])
  }

  lemma {:induction false} FitsSkel(a: seq<Tok>, b: seq<Tok>, refs: seq<Ref>)
    requires SameSkel(a, b) && RefsFit(a, refs)
    ensures RefsFit(b, refs)
  {
    forall i | 0 <= i < |refs| ensures RefFits(b, refs[i]) {
      assert RefFits(a, refs[i]) && SkelTok(a[refs[i].dst], b[refs[i].dst]);
    }
  }

  function ShiftAll(ts: seq<Tok>, refs: seq<Ref>, delta: nat): (r: seq<Tok>)
    requires RefsFit(ts, refs)
    ensures SameSkel(ts, r)
    decreases |refs|
  {
    if refs == [] then ts
    else
      assert RefFits(ts, refs[0]);
      var next := Shifted(ts, refs[0].dst, refs[0].at, delta);
      FitsSkel(ts, next, refs[1..]);
      SkelTrans(ts, next, ShiftAll(next, refs[1..], delta));
      ShiftAll(next, refs[1..], delta)
  }

  lemma {:induction false} ShiftAllCat(ts: seq<Tok>, a: seq<Ref>, b: seq<Ref>, delta: nat)
    requires RefsFit(ts, a) && RefsFit(ts, b)
    ensures RefsFit(ts, a + b) && RefsFit(ShiftAll(ts, a, delta), b)
    ensures ShiftAll(ts, a + b, delta) == ShiftAll(ShiftAll(ts, a, delta), b, delta)
    decreases |a|
  {
    hide Shifted, SameSkel, RefFits;
    FitsSkel(ts, ShiftAll(ts, a, delta), b);
    FitsCat(ts, a, b);
    if a == [] {
      assert a + b == b;
    } else {
      hide ShiftAll;
      var next := ShiftOne(ts, a, delta);
      var same := ShiftOne(ts, a + b, delta);
      FitsSkel(ts, next, b);
      ShiftAllCat(next, a[1..], b, delta);
      assert (a + b)[1..] == a[1..] + b;
    }
  }

  lemma {:induction false} FitsCat(ts: seq<Tok>, a: seq<Ref>, b: seq<Ref>)
    requires RefsFit(ts, a) && RefsFit(ts, b)
    ensures RefsFit(ts, a + b)
  {
    forall i | 0 <= i < |a + b| ensures RefFits(ts, (a + b)[i]) {
      assert (a + b)[i] == if i < |a| then a[i] else b[i - |a|];
    }
  }

  /** The first cell, then the others. */
  lemma {:induction false} ShiftOne(ts: seq<Tok>, refs: seq<Ref>, delta: nat) returns (next: seq<Tok>)
    requires RefsFit(ts, refs) && refs != []
    ensures RefFits(ts, refs[0]) && next == Shifted(ts, refs[0].dst, refs[0].at, delta) && SameSkel(ts, next)
    ensures RefsFit(next, refs[1..]) && ShiftAll(ts, refs, delta) == ShiftAll(next, refs[1..], delta)
  {
    hide Shifted;
    assert RefFits(ts, refs[0]);
    next := Shifted(ts, refs[0].dst, refs[0].at, delta);
    FitsSkel(ts, next, refs[1..]);
  }

  /** Tokens outside the targets stay as they are. */
  lemma {:induction false} ShiftAllFrame(ts: seq<Tok>, refs: seq<Ref>, delta: nat, x: nat)
    requires RefsFit(ts, refs) && x < |ts| && forall i :: 0 <= i < |refs| ==> refs[i].dst != x
    ensures ShiftAll(ts, refs, delta)[x] == ts[x]
    decreases |refs|
  {
    if refs != [] {
      assert RefFits(ts, refs[0]);
      var next := Shifted(ts, refs[0].dst, refs[0].at, delta);
      FitsSkel(ts, next, refs[1..]);
      ShiftAllFrame(next, refs[1..], delta, x);
    }
  }

  // ---- each cell

  function CellOf(ts: seq<Tok>, r: Ref): nat
    requires RefFits(ts, r)
  {
    BeDec(ts[r.dst].val[r.at..r.at + 4])
  }

  /** Different cells: in different properties, or not overlapping. */
  predicate RefApart(r: Ref, s: Ref) {
    r.dst != s.dst || r.at + 4 <= s.at || s.at + 4 <= r.at
  }

  predicate RefsApart(refs: seq<Ref>) {
    forall i, j :: 0 <= i < j < |refs| ==> RefApart(refs[i], refs[j])
  }

  lemma {:induction false} ShiftedCell(ts: seq<Tok>, r: Ref, s: Ref, delta: nat)
    requires RefFits(ts, r) && RefFits(ts, s)
    ensures RefFits(Shifted(ts, r.dst, r.at, delta), s)
    ensures CellOf(Shifted(ts, r.dst, r.at, delta), r) == (CellOf(ts, r) + delta) % U32
    ensures RefApart(r, s) ==> CellOf(Shifted(ts, r.dst, r.at, delta), s) == CellOf(ts, s)
  {
    hide Be, BeDec, Over;
    var v, c := ts[r.dst].val, (CellOf(ts, r) + delta) % U32;
    OverSlices(v, r.at, Be(c, 4), r.at, r.at);
    if s.dst == r.dst { OverSlices(v, r.at, Be(c, 4), s.at, s.at + 4); }
    SpanValues();
    BeRoundTrip(c, 4);
  }

  lemma {:induction false} ShiftAllCellFrame(ts: seq<Tok>, refs: seq<Ref>, delta: nat, s: Ref)
    requires RefsFit(ts, refs) && RefFits(ts, s) && forall i :: 0 <= i < |refs| ==> RefApart(refs[i], s)
    ensures RefFits(ShiftAll(ts, refs, delta), s) && CellOf(ShiftAll(ts, refs, delta), s) == CellOf(ts, s)
    decreases |refs|
  {
    hide BeDec, Shifted;
    if refs != [] {
      assert RefFits(ts, refs[0]);
      var next := Shifted(ts, refs[0].dst, refs[0].at, delta);
      FitsSkel(ts, next, refs[1..]);
      ShiftedCell(ts, refs[0], s, delta);
      ShiftAllCellFrame(next, refs[1..], delta, s);
    }
  }

  /** A byte that no listed cell covers stays. */
  lemma {:induction false} ShiftAllByte(ts: seq<Tok>, refs: seq<Ref>, delta: nat, x: nat, b: nat)
    requires RefsFit(ts, refs) && x < |ts| && ts[x].Prop? && b < |ts[x].val|
    requires forall i :: 0 <= i < |refs| ==> !(refs[i].dst == x && refs[i].at <= b < refs[i].at + 4)
    ensures var r := ShiftAll(ts, refs, delta);
      x < |r| && r[x].Prop? && |r[x].val| == |ts[x].val| && r[x].val[b] == ts[x].val[b]
    decreases |refs|
  {
    hide BeDec, Be;
    if refs != [] {
      assert RefFits(ts, refs[0]);
      var next := Shifted(ts, refs[0].dst, refs[0].at, delta);
      FitsSkel(ts, next, refs[1..]);
      assert SkelTok(ts[x], next[x]);
      ShiftAllByte(next, refs[1..], delta, x, b);
    }
  }

  /** With distinct cells, each listed cell ends as what it was plus delta. */
  lemma {:induction false} ShiftAllCell(ts: seq<Tok>, refs: seq<Ref>, delta: nat, i: nat)
    requires RefsFit(ts, refs) && RefsApart(refs) && i < |refs|
    ensures RefFits(ts, refs[i]) && RefFits(ShiftAll(ts, refs, delta), refs[i])
    ensures CellOf(ShiftAll(ts, refs, delta), refs[i]) == (CellOf(ts, refs[i]) + delta) % U32
    decreases |refs|
  {
    hide BeDec, Shifted;
    assert RefFits(ts, refs[0]) && RefFits(ts, refs[i]);
    var next := Shifted(ts, refs[0].dst, refs[0].at, delta);
    FitsSkel(ts, next, refs[1..]);
    ShiftedCell(ts, refs[0], refs[i], delta);
    if i == 0 {
      ShiftAllCellFrame(next, refs[1..], delta, refs[0]);
    } else {
      ShiftAllCell(next, refs[1..], delta, i - 1);
      assert RefApart(refs[0], refs[i]);
    }
  }

  /** How often the cell is listed. */
  function Times(refs: seq<Ref>, s: Ref): nat {
    if refs == [] then 0 else (if refs[0] == s then 1 else 0) + Times(refs[1..], s)
  }

  lemma {:induction false} AddTimes(c: nat, k: nat, delta: nat)
    ensures ((c + delta) % U32 + k * delta) % U32 == (c + (k + 1) * delta) % U32
  {
    var q, r := (c + delta) / U32, (c + delta) % U32;
    var m := r + k * delta;
    assert c + (k + 1) * delta == q * U32 + m;
    assert c + (k + 1) * delta == (q + m / U32) * U32 + m % U32;
    DivModUnique(c + (k + 1) * delta, U32, q + m / U32, m % U32);
  }

  /** A cell that overlaps no other listed one ends as what it was plus delta for each time it is listed. */
  lemma {:induction false} ShiftAllTimes(ts: seq<Tok>, refs: seq<Ref>, delta: nat, s: Ref)
    requires RefsFit(ts, refs) && RefFits(ts, s)
    requires forall i :: 0 <= i < |refs| ==> refs[i] == s || RefApart(refs[i], s)
    ensures RefFits(ShiftAll(ts, refs, delta), s)
    ensures CellOf(ShiftAll(ts, refs, delta), s) == (CellOf(ts, s) + Times(refs, s) * delta) % U32
    decreases |refs|
  {
    hide BeDec, Shifted, CellOf, ShiftAll, RefFits;
    if refs == [] {
      NoShift(ts, refs, delta);
      CellWord(ts, s);
    } else {
      var next := ShiftOne(ts, refs, delta);
      ShiftedCell(ts, refs[0], s, delta);
      ShiftAllTimes(next, refs[1..], delta, s);
      if refs[0] == s { AddTimes(CellOf(ts, s), Times(refs[1..], s), delta); }
    }
  }

  lemma {:induction false} NoShift(ts: seq<Tok>, refs: seq<Ref>, delta: nat)
    requires refs == []
    ensures RefsFit(ts, refs) && ShiftAll(ts, refs, delta) == ts
  {
  }

  lemma {:induction false} CellWord(ts: seq<Tok>, s: Ref)
    requires RefFits(ts, s)
    ensures CellOf(ts, s) % U32 == CellOf(ts, s)
  {
    hide BeDec;
    SpanValues();
    Small(CellOf(ts, s));
  }

  /** A cell listed twice no longer holds what it held plus delta. */
  lemma {:induction false} ListedTwice(ts: seq<Tok>, s: Ref)
    requires RefFits(ts, s)
    ensures RefsFit(ts, [s, s]) && RefFits(ShiftAll(ts, [s, s], 1), s)
    ensures CellOf(ShiftAll(ts, [s, s], 1), s) != (CellOf(ts, s) + 1) % U32
  {
    hide CellOf, ShiftAll;
    var refs := [s, s];
    assert refs[1..] == [s] && [s][1..] == [];
    assert Times([s], s) == 1;
    assert Times(refs, s) == 2;
    ShiftAllTimes(ts, refs, 1, s);
    var c := CellOf(ts, s);
    assert (c + 2) % U32 != (c + 1) % U32;
  }

  // ---- the walk carries out the plan

  /** b has a's shape, and a's tokens at S. */
  predicate Agree(a: seq<Tok>, b: seq<Tok>, S: set<nat>) {
    SameSkel(a, b) && forall p :: p in S && p < |a| ==> b[p] == a[p]
  }

  /** The plan's fixup properties are in S, and none of its cells is. */
  predicate Clear(plan: Plan, S: set<nat>) {
    plan.srcs <= S && forall i :: 0 <= i < |plan.refs| ==> plan.refs[i].dst !in S
  }

  /** Carrying out the plan from ts gives r. */
  ghost predicate Carried(ts: seq<Tok>, plan: Plan, delta: nat, r: Fixed) {
    RefsFit(ts, plan.refs) && r == Fixed(ShiftAll(ts, plan.refs, delta), plan.err)
  }

  lemma {:induction false} AgreeAfter(a: seq<Tok>, b: seq<Tok>, S: set<nat>, plan: Plan, delta: nat, r: Fixed)
    requires Agree(a, b, S) && Clear(plan, S) && Carried(b, plan, delta, r)
    ensures Agree(a, r.toks, S) && SameSkel(b, r.toks)
  {
    hide ShiftAll, SameSkel, RefsFit;
    SkelTrans(a, b, r.toks);
    SkelLen(a, b);
    forall p | p in S && p < |a| ensures r.toks[p] == a[p] {
      ShiftAllFrame(b, plan.refs, delta, p);
    }
  }

  lemma {:induction false} SkelLen(a: seq<Tok>, b: seq<Tok>)
    requires SameSkel(a, b)
    ensures |a| == |b| && SameSkel(b, a)
  {
    forall i | 0 <= i < |a| ensures SkelTok(b[i], a[i]) {
      assert SkelTok(a[i], b[i]);
    }
  }

  lemma {:induction false} ThenClear(a: Plan, b: Plan, S: set<nat>)
    requires Clear(Then(a, b), S)
    ensures Clear(a, S) && (a.err == 0 ==> Clear(b, S))
  {
    if a.err == 0 {
      var refs := a.refs + b.refs;
      forall i | 0 <= i < |a.refs| ensures a.refs[i].dst !in S {
        assert refs[i] == a.refs[i];
      }
      forall i | 0 <= i < |b.refs| ensures b.refs[i].dst !in S {
        assert refs[|a.refs| + i] == b.refs[i];
      }
    }
  }

  lemma {:induction false} ThenCarried(ts: seq<Tok>, a: Plan, b: Plan, delta: nat, r: Fixed, last: Fixed)
    requires Carried(ts, a, delta, r)
    requires if a.err != 0 then last == r else Carried(r.toks, b, delta, last)
    ensures Carried(ts, Then(a, b), delta, last)
  {
    hide ShiftAll, RefsFit, SameSkel;
    if a.err == 0 {
      SkelLen(ts, r.toks);
      FitsSkel(r.toks, ts, b.refs);
      ShiftAllCat(ts, a.refs, b.refs, delta);
    }
  }

  lemma {:induction false} CarriedOne(ts: seq<Tok>, r: Ref, srcs: set<nat>, delta: nat)
    requires RefFits(ts, r)
    ensures Carried(ts, Plan([r], srcs, 0), delta, Fixed(Shifted(ts, r.dst, r.at, delta), 0))
  {
    hide Shifted;
    var refs := [r];
    var next := ShiftOne(ts, refs, delta);
    assert refs[1..] == [];
  }

  lemma {:induction false} CarriedNone(ts: seq<Tok>, srcs: set<nat>, err: int, delta: nat)
    ensures Carried(ts, Plan([], srcs, err), delta, Fixed(ts, err))
  {
  }

  lemma {:induction false} CellsPlan(ts: seq<Tok>, now: seq<Tok>, p: nat, j: nat, i: nat, delta: nat, S: set<nat>)
    requires p < |ts| && j < |ts| && ts[p].Prop? && ts[j].Prop? && |ts[p].val| % 4 == 0
    requires Agree(ts, now, S) && p in S && Clear(PlanCells(ts, p, j, i), S)
    ensures |now| == |ts| && now[p] == ts[p] && SkelTok(ts[j], now[j])
    ensures Carried(now, PlanCells(ts, p, j, i), delta, FixCells(now, p, j, i, delta))
    decreases |ts[p].val| - 4 * i
  {
    hide BeDec, Shifted, Clear, Carried, Then;
    SkelLen(ts, now);
    assert SkelTok(ts[j], now[j]);
    if 4 * i >= |ts[p].val| {
      FixCellsEnd(now, p, j, i, delta);
      CarriedNone(now, {p}, 0, delta);
    } else {
      FixCellsStep(now, p, j, i, delta);
      var at := BeDec(ts[p].val[4 * i..4 * i + 4]);
      if (4 + at) % U32 > |ts[j].val| {
        CarriedNone(now, {p}, BADOVERLAY, delta);
      } else if at + 4 > |ts[j].val| {
        CarriedNone(now, {p}, FAULT, delta);
      } else {
        var a, b, r := Plan([Ref(j, at)], {p}, 0), PlanCells(ts, p, j, i + 1), FixCell(now, p, j, i, delta);
        ThenClear(a, b, S);
        CarriedOne(now, Ref(j, at), {p}, delta);
        AgreeAfter(ts, now, S, a, delta, r);
        CellsPlan(ts, r.toks, p, j, i + 1, delta, S);
        ThenCarried(now, a, b, delta, r, FixCells(now, p, j, i, delta));
      }
    }
  }

  lemma {:induction false} PropPlan(ts: seq<Tok>, now: seq<Tok>, strs: seq<byte>, t: nat, p: nat, delta: nat,
      S: set<nat>)
    requires t < |ts| && p < |ts| && ts[p].Prop? && Agree(ts, now, S) && Clear(PlanProp(ts, strs, t, p), S)
    ensures |now| == |ts| && now[p].Prop?
    ensures Carried(now, PlanProp(ts, strs, t, p), delta, FixProp(now, strs, t, p, delta))
  {
    hide PlanCells, FixCells, Carried, PropOf, NameAt, NextPropOf;
    SkelLen(ts, now);
    SrcIn(ts, strs, t, p, S);
    assert now[p] == ts[p];
    SkelFrom(ts, now, t + 1);
    var name := NameAt(strs, ts[p].nameoff);
    SkelProp(ts[t + 1..], now[t + 1..], strs, name);
    if |ts[p].val| % 4 != 0 {
      CarriedNone(now, {p}, BADOVERLAY, delta);
    } else {
      match PropOf(ts[t + 1..], strs, name) {
        case Err(e) => CarriedNone(now, {p}, if e == NOTFOUND then BADOVERLAY else e, delta);
        case At(x) => CellsPlan(ts, now, p, t + 1 + x, 0, delta, S);
      }
    }
  }

  lemma {:induction false} SrcIn(ts: seq<Tok>, strs: seq<byte>, t: nat, p: nat, S: set<nat>)
    requires t < |ts| && p < |ts| && ts[p].Prop? && Clear(PlanProp(ts, strs, t, p), S)
    ensures p in S
  {
    hide PropOf, NameAt, BeDec;
    assert p in PlanProp(ts, strs, t, p).srcs;
  }

  lemma {:induction false} PropsPlan(ts: seq<Tok>, now: seq<Tok>, strs: seq<byte>, t: nat, k: nat, delta: nat,
      S: set<nat>)
    requires t < |ts| && k <= |ts| && Agree(ts, now, S) && Clear(PlanProps(ts, strs, t, k), S)
    ensures |now| == |ts| && Carried(now, PlanProps(ts, strs, t, k), delta, FixProps(now, strs, t, k, delta))
    decreases |ts| - k
  {
    hide Carried, FixProps, FixProp, PlanProp, NextPropOf, Clear, Then, SameSkel;
    SkelLen(ts, now);
    SkelFrom(ts, now, k);
    SkelProp(ts[k..], now[k..], strs, []);
    FixPropsStep(now, strs, t, k, delta);
    match NextPropOf(ts[k..]) {
      case Err(_) => CarriedNone(now, {}, 0, delta);
      case At(m) =>
        var p := k + m;
        var a, b := PlanProp(ts, strs, t, p), PlanProps(ts, strs, t, p + 1);
        ThenClear(a, b, S);
        PropPlan(ts, now, strs, t, p, delta, S);
        var r := FixProp(now, strs, t, p, delta);
        AgreeAfter(ts, now, S, a, delta, r);
        ErrIs(now, a, delta, r);
        if a.err == 0 { PropsPlan(ts, r.toks, strs, t, p + 1, delta, S); }
        ThenCarried(now, a, b, delta, r, FixProps(now, strs, t, k, delta));
    }
  }

  lemma {:induction false} ErrIs(ts: seq<Tok>, plan: Plan, delta: nat, r: Fixed)
    requires Carried(ts, plan, delta, r)
    ensures r.err == plan.err
  {
  }

  /** With no fixup property among the targets, the walk shifts exactly the planned cells. */
  lemma {:induction false} NodePlan(ts: seq<Tok>, now: seq<Tok>, strs: seq<byte>, t: nat, q: nat, delta: nat,
      S: set<nat>)
    requires t < |ts| && q < |ts| && Agree(ts, now, S) && Clear(PlanNode(ts, strs, t, q), S)
    ensures |now| == |ts| && Carried(now, PlanNode(ts, strs, t, q), delta, FixNode(now, strs, t, q, delta))
    decreases |ts| - q, 0
  {
    hide Carried, FixProps, PlanProps, PlanKids, FixKids, Clear, Then, SameSkel, FirstSibling;
    SkelLen(ts, now);
    var a, b := PlanProps(ts, strs, t, q + 1), PlanKids(ts, strs, t, FirstSibling(ts, q), q);
    ThenClear(a, b, S);
    PropsPlan(ts, now, strs, t, q + 1, delta, S);
    var r := FixProps(now, strs, t, q + 1, delta);
    AgreeAfter(ts, now, S, a, delta, r);
    ErrIs(now, a, delta, r);
    if a.err == 0 {
      SiblingSkel(ts, r.toks, q);
      KidsPlan(ts, r.toks, strs, t, FirstSibling(ts, q), q, delta, S);
    }
    ThenCarried(now, a, b, delta, r, FixNode(now, strs, t, q, delta));
  }

  lemma {:induction false} SiblingSkel(a: seq<Tok>, b: seq<Tok>, q: nat)
    requires SameSkel(a, b) && q < |a|
    ensures |b| == |a| && FirstSibling(a, q) == FirstSibling(b, q) && NextSib(a, q) == NextSib(b, q)
  {
    hide SibOf;
    SkelFrom(a, b, q + 1);
    SkelSib(a[q + 1..], b[q + 1..], 0);
    SkelSib(a[q + 1..], b[q + 1..], 1);
  }

  lemma {:induction false} KidsPlan(ts: seq<Tok>, now: seq<Tok>, strs: seq<byte>, t: nat, child: Option<nat>, q: nat,
      delta: nat, S: set<nat>)
    requires t < |ts| && q < |ts| && (child.Some? ==> q < child.value < |ts| && ts[child.value].Begin?)
    requires Agree(ts, now, S) && Clear(PlanKids(ts, strs, t, child, q), S)
    ensures |now| == |ts| && (child.Some? ==> now[child.value].Begin?)
    ensures Carried(now, PlanKids(ts, strs, t, child, q), delta, FixKids(now, strs, t, child, q, delta))
    decreases |ts| - (if child.Some? then child.value else q + 1), 2
  {
    hide Carried, FixNode, PlanNode, FixKids, Clear, Then, SubOf, NextSib;
    SkelLen(ts, now);
    if child.None? {
      CarriedNone(now, {}, 0, delta);
      FixKidsEnd(now, strs, t, q, delta);
    } else {
      var c := child.value;
      assert SkelTok(ts[c], now[c]);
      SkelFrom(ts, now, t + 1);
      SkelSub(ts[t + 1..], now[t + 1..], 0, ts[c].name);
      FixKidsStep(now, strs, t, c, q, delta);
      KidPlan(ts, now, strs, t, c, q, delta, S);
    }
  }

  lemma {:induction false} KidPlan(ts: seq<Tok>, now: seq<Tok>, strs: seq<byte>, t: nat, c: nat, q: nat, delta: nat,
      S: set<nat>)
    requires t < |ts| && q < c < |ts| && ts[c].Begin? && |now| == |ts| && now[c] == ts[c]
    requires Agree(ts, now, S) && Clear(PlanKids(ts, strs, t, Some(c), q), S)
    requires SubOf(ts[t + 1..], 0, ts[c].name) == SubOf(now[t + 1..], 0, ts[c].name)
    ensures Carried(now, PlanKids(ts, strs, t, Some(c), q), delta, FixKids(now, strs, t, Some(c), q, delta))
    decreases |ts| - c, 1
  {
    hide Carried, FixNode, PlanNode, FixKids, Clear, Then, SubOf, NextSib;
    FixKidsStep(now, strs, t, c, q, delta);
    SubOfFacts(ts[t + 1..], 0, ts[c].name);
    match SubOf(ts[t + 1..], 0, ts[c].name) {
      case Err(e) => CarriedNone(now, {}, if e == NOTFOUND then BADOVERLAY else e, delta);
      case At(x) =>
        var a, b := PlanNode(ts, strs, t + 1 + x, c), PlanKids(ts, strs, t, NextSib(ts, c), c);
        ThenClear(a, b, S);
        NodePlan(ts, now, strs, t + 1 + x, c, delta, S);
        var r := FixNode(now, strs, t + 1 + x, c, delta);
        AgreeAfter(ts, now, S, a, delta, r);
        ErrIs(now, a, delta, r);
        SiblingSkel(ts, r.toks, c);
        if a.err == 0 { KidsPlan(ts, r.toks, strs, t, NextSib(ts, c), c, delta, S); }
        ThenCarried(now, a, b, delta, r, FixKids(now, strs, t, Some(c), q, delta));
    }
  }
}

/**
 * References and the nodes they name, over both steps. What the fixups ask for is read off the overlay as it
 * came; the first step changes only phandles, and no fixup that gets through is one.
 */
module FdtFollow {
  import opened Bytes
  import opened FdtTokens
  import opened FdtTree
  import opened FdtPhandle
  import opened FdtMaxPhandle
  import opened FdtFixup
  import opened FdtKept
  import opened FdtRefs

  // ---- the plan before and after the first step

  /** a is b, or stops on the way with an error. */
  predicate UpTo(a: Plan, b: Plan) {
    a.refs <= b.refs && a.srcs <= b.srcs && (a.err == 0 ==> a == b)
  }

  /** No cell of the plan lies in a phandle. */
  predicate OffHandles(plan: Plan, ts: seq<Tok>, strs: seq<byte>) {
    forall i :: 0 <= i < |plan.refs| ==> plan.refs[i].dst < |ts| && !IsHandle(ts[plan.refs[i].dst], strs)
  }

  /** The overlay ts after the first step by delta > 0 is now. */
  predicate FirstStep(ts: seq<Tok>, now: seq<Tok>, strs: seq<byte>, delta: nat) {
    OnlyHandles(ts, now, strs, delta) && ToksMoved(now, strs, delta)
  }

  /** No fixup property among srcs is a phandle. */
  predicate Plain(srcs: set<nat>, ts: seq<Tok>, strs: seq<byte>) {
    forall p :: p in srcs && p < |ts| ==> !IsHandle(ts[p], strs)
  }

  /** The plan is the one before, or stops on the way because a fixup property is a phandle. */
  predicate Follows(ts: seq<Tok>, plan: Plan, was: Plan, strs: seq<byte>) {
    && UpTo(plan, was) && OffHandles(plan, ts, strs)
    && (plan.err == 0 ==> Plain(plan.srcs, ts, strs)) && (plan == was || !Plain(was.srcs, ts, strs))
  }

  lemma {:induction false} ThenFollows(ts: seq<Tok>, a: Plan, b: Plan, a': Plan, b': Plan, strs: seq<byte>)
    requires Follows(ts, a, a', strs) && (a.err == 0 ==> Follows(ts, b, b', strs))
    ensures Follows(ts, Then(a, b), Then(a', b'), strs)
  {
    hide IsHandle;
  }

  lemma {:induction false} SameAway(ts: seq<Tok>, now: seq<Tok>, strs: seq<byte>, delta: nat, p: nat)
    requires FirstStep(ts, now, strs, delta) && p < |now|
    ensures |ts| == |now| && SkelTok(ts[p], now[p]) && (!IsHandle(now[p], strs) ==> ts[p] == now[p])
  {
    hide ToksMoved;
    SameKind(ts, now, p, strs);
    assert SkelTok(ts[p], now[p]);
  }

  lemma {:induction false} CellsSame(ts: seq<Tok>, now: seq<Tok>, strs: seq<byte>, p: nat, j: nat, i: nat)
    requires |ts| == |now| && p < |ts| && j < |ts| && ts[p].Prop? && ts[j].Prop? && |ts[p].val| % 4 == 0
    requires ts[p] == now[p] && SkelTok(ts[j], now[j]) && !IsHandle(now[j], strs)
    ensures PlanCells(ts, p, j, i) == PlanCells(now, p, j, i) && OffHandles(PlanCells(now, p, j, i), now, strs)
    decreases |ts[p].val| - 4 * i
  {
    hide BeDec, IsHandle;
    if 4 * i < |ts[p].val| { CellsSame(ts, now, strs, p, j, i + 1); }
  }

  lemma {:induction false} CellsSrc(ts: seq<Tok>, p: nat, j: nat, i: nat)
    requires p < |ts| && j < |ts| && ts[p].Prop? && ts[j].Prop? && |ts[p].val| % 4 == 0
    ensures PlanCells(ts, p, j, i).srcs == {p}
    decreases |ts[p].val| - 4 * i
  {
    hide BeDec;
    if 4 * i < |ts[p].val| { CellsSrc(ts, p, j, i + 1); }
  }

  /** A phandle among the fixups is not carried out. */
  lemma {:induction false} HandlePlan(now: seq<Tok>, strs: seq<byte>, t: nat, q: nat, p: nat, delta: nat)
    requires t < |now| && now[t].Begin? && q < p < |now| && now[q].Begin? && IsHandle(now[p], strs)
    requires delta > 0 && ToksMoved(now, strs, delta) && NoneYet(now, strs, q, p)
    ensures var a := PlanProp(now, strs, t, p); a.refs == [] && a.srcs == {p} && a.err != 0
  {
    hide PropOf, BeDec, ToksMoved, NameAt, NoneYet;
    OwnHandle(now, strs, q, p, delta);
    var name := NameAt(strs, now[p].nameoff);
    TargetHandle(now, strs, t, name, delta);
    assert now[p].val[0..4] == now[p].val;
  }

  lemma {:induction false} PropFollows(ts: seq<Tok>, now: seq<Tok>, strs: seq<byte>, t: nat, q: nat, p: nat, delta: nat)
    requires FirstStep(ts, now, strs, delta) && delta > 0 && NoneYet(now, strs, q, p)
    requires t < |now| && now[t].Begin? && q < p < |now| && now[q].Begin? && now[p].Prop?
    ensures |ts| == |now| && ts[p].Prop? && Follows(now, PlanProp(now, strs, t, p), PlanProp(ts, strs, t, p), strs)
    ensures PlanProp(now, strs, t, p).err == 0 ==> !IsHandle(now[p], strs)
  {
    hide PropOf, BeDec, NameAt, NoneYet, PlanCells, FirstStep, ToksMoved;
    SameAway(ts, now, strs, delta, p);
    var name := NameAt(strs, now[p].nameoff);
    Skeletons(ts, now, strs, delta);
    SkelFrom(ts, now, t + 1);
    SkelProp(ts[t + 1..], now[t + 1..], strs, name);
    if IsHandle(now[p], strs) {
      StepMoved(ts, now, strs, delta);
      HandlePlan(now, strs, t, q, p, delta);
      PlanSrc(ts, strs, t, p);
    } else {
      var x := PropOf(now[t + 1..], strs, name);
      if |now[p].val| % 4 == 0 && x.At? {
        var j := t + 1 + x.i;
        assert now[t + 1..][x.i] == now[j];
        SameAway(ts, now, strs, delta, j);
        CellsSame(ts, now, strs, p, j, 0);
        CellsSrc(now, p, j, 0);
      }
    }
  }

  lemma {:induction false} Skeletons(ts: seq<Tok>, now: seq<Tok>, strs: seq<byte>, delta: nat)
    requires FirstStep(ts, now, strs, delta)
    ensures SameSkel(ts, now) && |ts| == |now|
  {
  }

  lemma {:induction false} StepMoved(ts: seq<Tok>, now: seq<Tok>, strs: seq<byte>, delta: nat)
    requires FirstStep(ts, now, strs, delta)
    ensures ToksMoved(now, strs, delta)
  {
  }

  lemma {:induction false} PlanSrc(ts: seq<Tok>, strs: seq<byte>, t: nat, p: nat)
    requires t < |ts| && p < |ts| && ts[p].Prop?
    ensures p in PlanProp(ts, strs, t, p).srcs
  {
    hide PropOf, BeDec, NameAt, PlanCells;
    var x := PropOf(ts[t + 1..], strs, NameAt(strs, ts[p].nameoff));
    if |ts[p].val| % 4 == 0 && x.At? { CellsSrc(ts, p, t + 1 + x.i, 0); }
  }

  lemma {:induction false} PropsFollow(ts: seq<Tok>, now: seq<Tok>, strs: seq<byte>, t: nat, q: nat, k: nat, delta: nat)
    requires FirstStep(ts, now, strs, delta) && delta > 0 && NoneYet(now, strs, q, k)
    requires t < |now| && now[t].Begin? && q < k <= |now| && now[q].Begin?
    ensures |ts| == |now| && Follows(now, PlanProps(now, strs, t, k), PlanProps(ts, strs, t, k), strs)
    decreases |now| - k
  {
    hide FirstStep, NoneYet, PlanProp, NextPropOf, IsHandle, Follows, Then;
    Skeletons(ts, now, strs, delta);
    SkelFrom(ts, now, k);
    SkelProp(ts[k..], now[k..], strs, []);
    match NextPropOf(now[k..]) {
      case Err(_) => FollowsNone(now, 0, strs);
      case At(m) =>
        var p := k + m;
        assert now[k..][m] == now[p];
        SkelSelf(now);
        NoneNext(now, now, strs, q, k, m);
        PropFollows(ts, now, strs, t, q, p, delta);
        var a, a' := PlanProp(now, strs, t, p), PlanProp(ts, strs, t, p);
        if a.err == 0 { PropsFollow(ts, now, strs, t, q, p + 1, delta); }
        ThenFollows(now, a, PlanProps(now, strs, t, p + 1), a', PlanProps(ts, strs, t, p + 1), strs);
    }
  }

  lemma {:induction false} FollowsNone(ts: seq<Tok>, err: int, strs: seq<byte>)
    ensures Follows(ts, Plan([], {}, err), Plan([], {}, err), strs)
  {
  }

  /** After the first step the fixups ask for the same cells, or the walk fails; and no cell lies in a phandle. */
  lemma {:induction false} NodeFollows(ts: seq<Tok>, now: seq<Tok>, strs: seq<byte>, t: nat, q: nat, delta: nat)
    requires FirstStep(ts, now, strs, delta) && delta > 0
    requires t < |now| && now[t].Begin? && q < |now| && now[q].Begin?
    ensures |ts| == |now| && Follows(now, PlanNode(now, strs, t, q), PlanNode(ts, strs, t, q), strs)
    decreases |now| - q, 0
  {
    hide FirstStep, PlanProps, PlanKids, FirstSibling, Follows, Then;
    Skeletons(ts, now, strs, delta);
    PropsFollow(ts, now, strs, t, q, q + 1, delta);
    SiblingSkel(ts, now, q);
    var child := FirstSibling(now, q);
    SameBegin(ts, now, child);
    var a, a' := PlanProps(now, strs, t, q + 1), PlanProps(ts, strs, t, q + 1);
    KidsFollow(ts, now, strs, t, child, q, delta);
    ThenFollows(now, a, PlanKids(now, strs, t, child, q), a', PlanKids(ts, strs, t, child, q), strs);
  }

  lemma {:induction false} SameBegin(ts: seq<Tok>, now: seq<Tok>, child: Option<nat>)
    requires SameSkel(ts, now) && (child.Some? ==> child.value < |now| && now[child.value].Begin?)
    ensures child.Some? ==> child.value < |ts| && ts[child.value] == now[child.value]
  {
    if child.Some? { assert SkelTok(ts[child.value], now[child.value]); }
  }

  lemma {:induction false} KidsFollow(ts: seq<Tok>, now: seq<Tok>, strs: seq<byte>, t: nat, child: Option<nat>, q: nat,
      delta: nat)
    requires FirstStep(ts, now, strs, delta) && delta > 0 && |ts| == |now|
    requires t < |now| && now[t].Begin? && q < |now|
    requires child.Some? ==> q < child.value < |now| && now[child.value].Begin? && ts[child.value] == now[child.value]
    ensures Follows(now, PlanKids(now, strs, t, child, q), PlanKids(ts, strs, t, child, q), strs)
    decreases |now| - (if child.Some? then child.value else q + 1), 1
  {
    hide FirstStep, PlanNode, NextSib, SubOf, Follows, Then;
    if child.None? {
      FollowsNone(now, 0, strs);
    } else {
      var c := child.value;
      Skeletons(ts, now, strs, delta);
      SkelFrom(ts, now, t + 1);
      SkelSub(ts[t + 1..], now[t + 1..], 0, ts[c].name);
      SubOfFacts(now[t + 1..], 0, now[c].name);
      match SubOf(now[t + 1..], 0, now[c].name) {
        case Err(e) => FollowsNone(now, if e == NOTFOUND then BADOVERLAY else e, strs);
        case At(x) =>
          assert now[t + 1..][x] == now[t + 1 + x];
          NodeFollows(ts, now, strs, t + 1 + x, c, delta);
          SiblingSkel(ts, now, c);
          var next := NextSib(now, c);
          SameBegin(ts, now, next);
          KidsFollow(ts, now, strs, t, next, c, delta);
          ThenFollows(now, PlanNode(now, strs, t + 1 + x, c), PlanKids(now, strs, t, next, c),
            PlanNode(ts, strs, t + 1 + x, c), PlanKids(ts, strs, t, next, c), strs);
      }
    }
  }

  // ---- cells and the nodes they name

  /** Each listed cell held what it holds now less delta, modulo 2^32. */
  predicate CellsShifted(ts: seq<Tok>, now: seq<Tok>, refs: seq<Ref>, delta: nat) {
    forall i :: 0 <= i < |refs| ==>
      RefFits(ts, refs[i]) && RefFits(now, refs[i]) && CellOf(now, refs[i]) == (CellOf(ts, refs[i]) + delta) % U32
  }

  /** The plan of the overlay as it came, carried out after the first step. */
  lemma {:induction false} NodeShifted(ts: seq<Tok>, mid: seq<Tok>, strs: seq<byte>, t: nat, q: nat, delta: nat)
    requires FirstStep(ts, mid, strs, delta) && t < |mid| == |ts| && mid[t].Begin? && q < |mid| && mid[q].Begin?
    requires FixNode(mid, strs, t, q, delta).err == 0
    requires var plan := PlanNode(ts, strs, t, q); Clear(plan, plan.srcs) && RefsApart(plan.refs)
    ensures var plan := PlanNode(ts, strs, t, q);
      plan.err == 0 && CellsShifted(ts, FixNode(mid, strs, t, q, delta).toks, plan.refs, delta)
  {
    hide FirstStep, PlanNode, FixNode, RefsApart, Follows, Carried, OffHandles, SameSkel;
    var was, plan := PlanNode(ts, strs, t, q), PlanNode(mid, strs, t, q);
    if delta == 0 {
      NoStep(ts, mid, strs);
      PlanIs(mid, strs, t, q, delta, was.srcs);
    } else {
      NodeFollows(ts, mid, strs, t, q, delta);
      ClearUpTo(mid, plan, was, strs);
      PlanIs(mid, strs, t, q, delta, was.srcs);
    }
    var r := FixNode(mid, strs, t, q, delta);
    forall i | 0 <= i < |plan.refs|
      ensures RefFits(ts, plan.refs[i]) && RefFits(r.toks, plan.refs[i])
      ensures CellOf(r.toks, plan.refs[i]) == (CellOf(ts, plan.refs[i]) + delta) % U32
    {
      CellShifted(ts, mid, strs, plan, was, i, delta, r);
    }
  }

  /**
   * The walk after the first step ends well exactly if all is in order and, unless nothing moves, no fixup is
   * a phandle.
   */
  lemma {:induction false} NodeSucceeds(ts: seq<Tok>, mid: seq<Tok>, strs: seq<byte>, t: nat, q: nat, delta: nat)
    requires FirstStep(ts, mid, strs, delta) && t < |mid| == |ts| && mid[t].Begin? && q < |mid| && mid[q].Begin?
    requires var plan := PlanNode(ts, strs, t, q); Clear(plan, plan.srcs)
    ensures var plan, r := PlanNode(ts, strs, t, q), FixNode(mid, strs, t, q, delta);
      && (r.err == 0 <==> plan.err == 0 && (delta == 0 || Plain(plan.srcs, mid, strs)))
      && (r.err == 0 ==> Carried(mid, plan, delta, r))
  {
    hide FirstStep, PlanNode, FixNode, Carried, OffHandles, SameSkel, Plain, Clear;
    var was, plan := PlanNode(ts, strs, t, q), PlanNode(mid, strs, t, q);
    if delta == 0 {
      NoStep(ts, mid, strs);
    } else {
      NodeFollows(ts, mid, strs, t, q, delta);
      ClearUpTo(mid, plan, was, strs);
    }
    PlanIs(mid, strs, t, q, delta, was.srcs);
  }

  lemma {:induction false} NoStep(ts: seq<Tok>, mid: seq<Tok>, strs: seq<byte>)
    requires FirstStep(ts, mid, strs, 0)
    ensures ts == mid
  {
    hide ToksMoved, IsHandle;
  }

  lemma {:induction false} PlanIs(mid: seq<Tok>, strs: seq<byte>, t: nat, q: nat, delta: nat, S: set<nat>)
    requires t < |mid| && q < |mid| && Clear(PlanNode(mid, strs, t, q), S)
    ensures Carried(mid, PlanNode(mid, strs, t, q), delta, FixNode(mid, strs, t, q, delta))
    ensures PlanNode(mid, strs, t, q).err == FixNode(mid, strs, t, q, delta).err
  {
    hide PlanNode, FixNode, Carried, Clear;
    SkelSelf(mid);
    NodePlan(mid, mid, strs, t, q, delta, S);
    ErrIs(mid, PlanNode(mid, strs, t, q), delta, FixNode(mid, strs, t, q, delta));
  }

  lemma {:induction false} ClearUpTo(ts: seq<Tok>, plan: Plan, was: Plan, strs: seq<byte>)
    requires Follows(ts, plan, was, strs) && Clear(was, was.srcs)
    ensures Clear(plan, was.srcs) && (plan.err == 0 ==> plan == was) && OffHandles(plan, ts, strs)
  {
    hide OffHandles;
    forall i | 0 <= i < |plan.refs| ensures plan.refs[i].dst !in was.srcs { assert plan.refs[i] == was.refs[i]; }
  }

  lemma {:induction false} CellShifted(ts: seq<Tok>, mid: seq<Tok>, strs: seq<byte>, plan: Plan, was: Plan, i: nat,
      delta: nat, r: Fixed)
    requires FirstStep(ts, mid, strs, delta) && Carried(mid, plan, delta, r) && i < |plan.refs| && RefsApart(plan.refs)
    requires ts == mid || OffHandles(plan, mid, strs)
    ensures RefFits(ts, plan.refs[i]) && RefFits(r.toks, plan.refs[i])
    ensures CellOf(r.toks, plan.refs[i]) == (CellOf(ts, plan.refs[i]) + delta) % U32
  {
    hide FirstStep, BeDec, ShiftAll, RefsApart, IsHandle;
    ShiftAllCell(mid, plan.refs, delta, i);
    SameAway(ts, mid, strs, delta, plan.refs[i].dst);
  }

  lemma {:induction false} SameHandle(c: nat, h: nat, delta: nat)
    requires c < U32 && h + delta < U32
    ensures h + delta == (c + delta) % U32 <==> h == c
  {
    if c + delta >= U32 { DivModUnique(c + delta, U32, 1, c + delta - U32); } else { Small(c + delta); }
  }

  // ---- phandles of base and overlay

  /** hs' are the phandles of the moved overlay hs: above all of the base that count, different as they were. */
  predicate Apart(base: seq<Option<nat>>, hs: seq<Option<nat>>, hs': seq<Option<nat>>) {
    && |hs'| == |hs|
    && (forall i, j :: 0 <= i < |hs| && 0 <= j < |base| && Named(hs[i]) && base[j].Some? && base[j].value != U32 - 1 ==>
          hs'[i].Some? && base[j].value < hs'[i].value < U32 - 1)
    && (forall i, k :: 0 <= i < |hs| && 0 <= k < |hs| ==> (hs'[i] == hs'[k] <==> hs[i] == hs[k]))
  }

  predicate Named(h: Option<nat>) { h.Some? && h.value > 0 }

  lemma {:induction false} ShiftedApart(base: seq<Option<nat>>, hs: seq<Option<nat>>)
    requires forall m :: 0 <= m < |hs| ==> SmallHandle(Plus(hs, MaxOf(base))[m])
    ensures Apart(base, hs, Plus(hs, MaxOf(base)))
  {
    hide Plus, MaxOf;
    var hs' := Plus(hs, MaxOf(base));
    forall i, j | 0 <= i < |hs| && 0 <= j < |base| && Named(hs[i]) && base[j].Some? && base[j].value != U32 - 1
      ensures hs'[i].Some? && base[j].value < hs'[i].value < U32 - 1
    {
      MaxOfBounds(base, j);
      assert SmallHandle(hs'[i]);
    }
  }
}

/** The fixup walk leaves the phandles as the first step made them, and the overlay a tree. */
module FdtKept {
  import opened Bytes
  import opened FdtTokens
  import opened FdtTree
  import opened FdtSpec
  import opened FdtPhandle
  import opened FdtMaxPhandle
  import opened FdtFixup

  // ---- after the first step

  predicate CellFrom(v: Option<seq<byte>>, delta: nat) {
    v.Some? ==> |v.value| == 4 && BeDec(v.value) >= delta
  }

  predicate PropsMoved(props: seq<AProp>, delta: nat) {
    CellFrom(Get(props, PHANDLE), delta) && CellFrom(Get(props, LINUX_PHANDLE), delta)
  }

  /** Every phandle property below holds one cell of at least delta. */
  predicate NodeMoved(a: ANode, delta: nat)
    decreases a, 1
  {
    PropsMoved(a.props, delta) && KidsMoved(a.kids, delta)
  }

  predicate KidsMoved(kids: seq<ANode>, delta: nat)
    decreases kids, 0
  {
    kids == [] || (NodeMoved(kids[0], delta) && KidsMoved(kids[1..], delta))
  }

  lemma {:induction false} MoveMoves(a: ANode, delta: nat)
    requires MoveNode(a, delta).Good?
    ensures NodeMoved(MoveNode(a, delta).value, delta)
    decreases a, 1
  {
    hide MoveProp, PropsMoved;
    TwoMoved(a.props, delta);
    MoveKidsMoves(a.kids, delta);
  }

  lemma {:induction false} MoveKidsMoves(kids: seq<ANode>, delta: nat)
    requires MoveKids(kids, delta).Good?
    ensures KidsMoved(MoveKids(kids, delta).value, delta)
    decreases kids, 0
  {
    if kids != [] {
      MoveMoves(kids[0], delta);
      MoveKidsMoves(kids[1..], delta);
      var r := MoveKids(kids, delta).value;
      assert r[1..] == MoveKids(kids[1..], delta).value;
    }
  }

  lemma {:induction false} TwoMoved(props: seq<AProp>, delta: nat)
    requires MoveProp(props, PHANDLE, delta).Good?
    requires MoveProp(MoveProp(props, PHANDLE, delta).value, LINUX_PHANDLE, delta).Good?
    ensures PropsMoved(MoveProp(MoveProp(props, PHANDLE, delta).value, LINUX_PHANDLE, delta).value, delta)
  {
    hide MoveProp, BeDec;
    assert |PHANDLE| != |LINUX_PHANDLE|;
    var p := MoveProp(props, PHANDLE, delta).value;
    MovedProp(props, PHANDLE, delta, LINUX_PHANDLE);
    MovedProp(p, LINUX_PHANDLE, delta, PHANDLE);
  }

  // ---- the same on tokens

  predicate HereMoved(ts: seq<Tok>, strs: seq<byte>, delta: nat)
    requires ts != []
  {
    CellFrom(ValueHere(ts, strs, PHANDLE), delta) && CellFrom(ValueHere(ts, strs, LINUX_PHANDLE), delta)
  }

  predicate ToksMoved(ts: seq<Tok>, strs: seq<byte>, delta: nat) {
    forall b :: 0 <= b < |ts| && ts[b].Begin? ==> HereMoved(ts[b..], strs, delta)
  }

  lemma {:induction false} ConsMoved(ts: seq<Tok>, strs: seq<byte>, delta: nat)
    requires ts != [] && ToksMoved(ts[1..], strs, delta) && (ts[0].Begin? ==> HereMoved(ts, strs, delta))
    ensures ToksMoved(ts, strs, delta)
  {
    hide HereMoved;
    forall b | 0 <= b < |ts| && ts[b].Begin? ensures HereMoved(ts[b..], strs, delta) {
      if b == 0 {
        assert ts[0..] == ts;
      } else {
        assert ts[1..][b - 1] == ts[b] && ts[1..][b - 1..] == ts[b..];
      }
    }
  }

  lemma {:induction false} NodeToks(n: Node, rest: seq<Tok>, strs: seq<byte>, delta: nat)
    requires NodeMoved(Abs(n, strs), delta) && ToksMoved(rest, strs, delta)
    ensures ToksMoved(Flat(n) + rest, strs, delta)
    decreases n, 1
  {
    hide ToksMoved, ValueHere, AbsProps, AbsKids, FlatItems, CellFrom;
    var ts, tail := Flat(n) + rest, [EndNode] + rest;
    ValueHereIs(n, rest, strs, PHANDLE);
    ValueHereIs(n, rest, strs, LINUX_PHANDLE);
    assert tail[1..] == rest;
    ConsMoved(tail, strs, delta);
    assert ts[1..] == FlatItems(n.items) + tail;
    ItemsToks(n.items, tail, strs, delta);
    ConsMoved(ts, strs, delta);
  }

  lemma {:induction false} ItemsToks(items: seq<Item>, rest: seq<Tok>, strs: seq<byte>, delta: nat)
    requires KidsMoved(AbsKids(items, strs), delta) && ToksMoved(rest, strs, delta)
    ensures ToksMoved(FlatItems(items) + rest, strs, delta)
    decreases items, 0
  {
    hide ToksMoved, NodeMoved;
    if items == [] {
      assert FlatItems(items) + rest == rest;
    } else {
      FirstMoved(items, strs, delta);
      ItemsToks(items[1..], rest, strs, delta);
      ItemToks(items[0], FlatItems(items[1..]) + rest, strs, delta);
      Assoc(FlatItem(items[0]), FlatItems(items[1..]), rest);
    }
  }

  lemma {:induction false} FirstMoved(items: seq<Item>, strs: seq<byte>, delta: nat)
    requires items != [] && KidsMoved(AbsKids(items, strs), delta)
    ensures KidsMoved(AbsKids(items[1..], strs), delta)
    ensures items[0].SubItem? ==> NodeMoved(Abs(items[0].node, strs), delta)
  {
    hide Abs, NodeMoved;
    if items[0].SubItem? {
      var kids := AbsKids(items, strs);
      assert kids[0] == Abs(items[0].node, strs) && kids[1..] == AbsKids(items[1..], strs);
    } else {
      assert AbsKids(items, strs) == AbsKids(items[1..], strs);
    }
  }

  lemma {:induction false} ItemToks(it: Item, rest: seq<Tok>, strs: seq<byte>, delta: nat)
    requires (it.SubItem? ==> NodeMoved(Abs(it.node, strs), delta)) && ToksMoved(rest, strs, delta)
    ensures ToksMoved(FlatItem(it) + rest, strs, delta)
    decreases it, 2
  {
    hide ToksMoved, NodeMoved, HereMoved, Abs;
    if it.SubItem? {
      NodeToks(it.node, rest, strs, delta);
    } else {
      var ts := FlatItem(it) + rest;
      assert ts[1..] == rest;
      ConsMoved(ts, strs, delta);
    }
  }

  // ---- the walk

  /** b is a but for values of properties that are no phandles. */
  predicate Keeps(a: seq<Tok>, b: seq<Tok>, strs: seq<byte>) {
    SameSkel(a, b) && forall i :: 0 <= i < |a| && IsHandle(a[i], strs) ==> b[i] == a[i]
  }

  lemma {:induction false} KeepsSelf(ts: seq<Tok>, strs: seq<byte>)
    ensures Keeps(ts, ts, strs)
  {
  }

  lemma {:induction false} KeepsTrans(a: seq<Tok>, b: seq<Tok>, c: seq<Tok>, strs: seq<byte>)
    requires Keeps(a, b, strs) && Keeps(b, c, strs)
    ensures Keeps(a, c, strs)
  {
    hide IsHandle, SkelTok;
    SkelTrans(a, b, c);
  }

  lemma {:induction false} ValueKept(a: seq<Tok>, b: seq<Tok>, strs: seq<byte>, x: nat, name: seq<byte>)
    requires Keeps(a, b, strs) && x < |a| && (name == PHANDLE || name == LINUX_PHANDLE)
    ensures |b| == |a| && ValueHere(b[x..], strs, name) == ValueHere(a[x..], strs, name)
  {
    hide PropOf, NameAt;
    SkelFrom(a, b, x + 1);
    SkelProp(a[x + 1..], b[x + 1..], strs, name);
    assert a[x..][1..] == a[x + 1..] && b[x..][1..] == b[x + 1..];
    var p := PropOf(a[x + 1..], strs, name);
    if p.At? {
      var i := x + 1 + p.i;
      assert a[x + 1..][p.i] == a[i] && b[x + 1..][p.i] == b[i] && a[x..][1 + p.i] == a[i] && b[x..][1 + p.i] == b[i];
      assert IsHandle(a[i], strs);
    }
  }

  lemma {:induction false} MovedStill(a: seq<Tok>, b: seq<Tok>, strs: seq<byte>, delta: nat)
    requires Keeps(a, b, strs) && ToksMoved(a, strs, delta)
    ensures ToksMoved(b, strs, delta)
  {
    hide Keeps, ValueHere, CellFrom;
    forall x | 0 <= x < |b| && b[x].Begin? ensures HereMoved(b[x..], strs, delta) {
      SameHeader(a, b, strs, x);
      ValueKept(a, b, strs, x, PHANDLE);
      ValueKept(a, b, strs, x, LINUX_PHANDLE);
      assert HereMoved(a[x..], strs, delta);
    }
  }

  lemma {:induction false} SameHeader(a: seq<Tok>, b: seq<Tok>, strs: seq<byte>, x: nat)
    requires Keeps(a, b, strs) && x < |b|
    ensures |a| == |b| && (a[x].Begin? <==> b[x].Begin?) && (a[x].Begin? ==> a[x] == b[x])
  {
    assert SkelTok(a[x], b[x]);
  }

  lemma {:induction false} ShiftKeeps(ts: seq<Tok>, j: nat, at: nat, delta: nat, strs: seq<byte>)
    requires j < |ts| && ts[j].Prop? && at + 4 <= |ts[j].val| && (delta == 0 || !IsHandle(ts[j], strs))
    ensures Keeps(ts, Shifted(ts, j, at, delta), strs)
  {
    hide NameAt;
    if delta == 0 {
      hide IsHandle;
      ShiftNone(ts, j, at);
      KeepsSelf(ts, strs);
    }
  }

  lemma {:induction false} ShiftNone(ts: seq<Tok>, j: nat, at: nat)
    requires j < |ts| && ts[j].Prop? && at + 4 <= |ts[j].val|
    ensures Shifted(ts, j, at, 0) == ts
  {
    hide Be, BeDec;
    var v := ts[j].val;
    var cell := v[at..at + 4];
    SpanValues();
    BeDecEnc(cell);
    Small(BeDec(cell));
    assert Over(v, at, cell) == v;
  }

  lemma {:induction false} Small(x: nat)
    requires x < U32
    ensures x % U32 == x
  {
  }

  /** Cells of a property that is no phandle; or no shift at all. */
  lemma {:induction false} CellsKeep(ts: seq<Tok>, p: nat, j: nat, i: nat, delta: nat, strs: seq<byte>)
    requires p < |ts| && j < |ts| && ts[p].Prop? && ts[j].Prop? && |ts[p].val| % 4 == 0
    requires delta == 0 || !IsHandle(ts[j], strs)
    ensures Keeps(ts, FixCells(ts, p, j, i, delta).toks, strs)
    decreases |ts[p].val| - 4 * i
  {
    hide Shifted, BeDec, Keeps, IsHandle, FixCells;
    KeepsSelf(ts, strs);
    if 4 * i >= |ts[p].val| {
      FixCellsEnd(ts, p, j, i, delta);
    } else {
      FixCellsStep(ts, p, j, i, delta);
      var r := FixCell(ts, p, j, i, delta);
      if r.err == 0 {
        ShiftKeeps(ts, j, BeDec(ts[p].val[4 * i..4 * i + 4]), delta, strs);
        SameKind(ts, r.toks, j, strs);
        CellsKeep(r.toks, p, j, i + 1, delta, strs);
        KeepsTrans(ts, r.toks, FixCells(r.toks, p, j, i + 1, delta).toks, strs);
      }
    }
  }

  lemma {:induction false} SameKind(a: seq<Tok>, b: seq<Tok>, j: nat, strs: seq<byte>)
    requires SameSkel(a, b) && j < |a|
    ensures |b| == |a| && (IsHandle(a[j], strs) <==> IsHandle(b[j], strs))
  {
    assert SkelTok(a[j], b[j]);
  }

  /** A single offset that is not zero does not fit a single cell: the write is refused, or is the fault. */
  lemma {:induction false} CellRefused(ts: seq<Tok>, p: nat, j: nat, delta: nat)
    requires p < |ts| && j < |ts| && ts[p].Prop? && ts[j].Prop? && |ts[p].val| == 4 && |ts[j].val| == 4
    requires BeDec(ts[p].val) > 0
    ensures var r := FixCells(ts, p, j, 0, delta); r.toks == ts && r.err != 0
  {
    hide FixCells, Shifted, BeDec;
    FixCellsStep(ts, p, j, 0, delta);
    assert ts[p].val[0..4] == ts[p].val;
  }

  // ---- property by property

  /** Between the header q and k there are only properties that are no phandles, and NOPs. */
  predicate NoneYet(ts: seq<Tok>, strs: seq<byte>, q: nat, k: nat) {
    k <= |ts| && forall i :: q < i < k ==> (ts[i].Prop? || ts[i].Nop?) && !IsHandle(ts[i], strs)
  }

  lemma {:induction false} NopsUpTo(ts: seq<Tok>)
    requires NextPropOf(ts).At?
    ensures forall i :: 0 <= i < NextPropOf(ts).i ==> ts[i].Nop?
  {
    if !ts[0].Prop? { NopsUpTo(ts[1..]); }
  }

  lemma {:induction false} FirstNamed(ts: seq<Tok>, strs: seq<byte>, name: seq<byte>, x: nat)
    requires x < |ts| && ts[x].Prop? && NameAt(strs, ts[x].nameoff) == name
    requires forall i :: 0 <= i < x ==> ts[i].Nop? || (ts[i].Prop? && NameAt(strs, ts[i].nameoff) != name)
    ensures PropOf(ts, strs, name) == At(x)
  {
    hide NameAt;
    if x > 0 { FirstNamed(ts[1..], strs, name, x - 1); }
  }

  /** The next fixup property, if it is a phandle, is the phandle of the fixup node. */
  lemma {:induction false} OwnHandle(ts: seq<Tok>, strs: seq<byte>, q: nat, p: nat, delta: nat)
    requires q < p < |ts| && ts[q].Begin? && NoneYet(ts, strs, q, p) && IsHandle(ts[p], strs)
    requires ToksMoved(ts, strs, delta)
    ensures |ts[p].val| == 4 && BeDec(ts[p].val) >= delta
  {
    hide NameAt, PropOf, BeDec, ToksMoved;
    var name := NameAt(strs, ts[p].nameoff);
    var body := ts[q + 1..];
    forall i | 0 <= i < p - q - 1 ensures body[i].Nop? || (body[i].Prop? && NameAt(strs, body[i].nameoff) != name) {
      assert body[i] == ts[q + 1 + i] && !IsHandle(ts[q + 1 + i], strs);
    }
    FirstNamed(body, strs, name, p - q - 1);
    assert ts[q..][1..] == ts[q + 1..];
    MovedAt(ts, strs, q, delta);
  }

  lemma {:induction false} MovedAt(ts: seq<Tok>, strs: seq<byte>, b: nat, delta: nat)
    requires ToksMoved(ts, strs, delta) && b < |ts| && ts[b].Begin?
    ensures HereMoved(ts[b..], strs, delta)
  {
  }

  /** The property of node t that a phandle's name finds holds one cell. */
  lemma {:induction false} TargetHandle(ts: seq<Tok>, strs: seq<byte>, t: nat, name: seq<byte>, delta: nat)
    requires t < |ts| && ts[t].Begin? && (name == PHANDLE || name == LINUX_PHANDLE) && ToksMoved(ts, strs, delta)
    ensures var x := PropOf(ts[t + 1..], strs, name);
      x.At? ==> t + 1 + x.i < |ts| && ts[t + 1 + x.i].Prop? && |ts[t + 1 + x.i].val| == 4
  {
    hide PropOf, BeDec, ToksMoved, NameAt;
    MovedAt(ts, strs, t, delta);
    assert ts[t..][1..] == ts[t + 1..];
  }

  /** One fixup property p of node q: phandles stay, and if it is one itself, it is refused. */
  lemma {:induction false} PropKeeps(ts: seq<Tok>, strs: seq<byte>, t: nat, q: nat, p: nat, delta: nat)
    requires t < |ts| && ts[t].Begin? && q < p < |ts| && ts[q].Begin? && ts[p].Prop? && ToksMoved(ts, strs, delta)
    requires delta > 0 ==> NoneYet(ts, strs, q, p)
    ensures Keeps(ts, FixProp(ts, strs, t, p, delta).toks, strs)
    ensures delta > 0 && IsHandle(ts[p], strs) ==> FixProp(ts, strs, t, p, delta).err != 0
  {
    hide PropOf, BeDec, ToksMoved, NameAt, Keeps, NoneYet, FixCells;
    KeepsSelf(ts, strs);
    var name := NameAt(strs, ts[p].nameoff);
    var x := PropOf(ts[t + 1..], strs, name);
    if |ts[p].val| % 4 == 0 && x.At? {
      var j := t + 1 + x.i;
      assert ts[t + 1..][x.i] == ts[j];
      if delta > 0 && IsHandle(ts[p], strs) {
        OwnHandle(ts, strs, q, p, delta);
        TargetHandle(ts, strs, t, name, delta);
        CellRefused(ts, p, j, delta);
      } else {
        CellsKeep(ts, p, j, 0, delta, strs);
      }
    }
  }

  lemma {:induction false} NoneNext(ts: seq<Tok>, b: seq<Tok>, strs: seq<byte>, q: nat, k: nat, m: nat)
    requires NoneYet(ts, strs, q, k) && q < k && NextPropOf(ts[k..]) == At(m)
    ensures NoneYet(ts, strs, q, k + m)
    ensures SameSkel(ts, b) && !IsHandle(ts[k + m], strs) ==> NoneYet(b, strs, q, k + m + 1)
  {
    hide IsHandle, NextPropOf;
    NopsUpTo(ts[k..]);
    forall i | k <= i < k + m ensures ts[i].Nop? { assert ts[i] == ts[k..][i - k]; }
    assert ts[k..][m] == ts[k + m];
    NoHandle(ts, strs);
    if SameSkel(ts, b) && !IsHandle(ts[k + m], strs) {
      forall i | q < i < k + m + 1 ensures (b[i].Prop? || b[i].Nop?) && !IsHandle(b[i], strs) {
        SameKind(ts, b, i, strs);
        assert SkelTok(ts[i], b[i]);
      }
    }
  }

  lemma {:induction false} NoHandle(ts: seq<Tok>, strs: seq<byte>)
    ensures forall i :: 0 <= i < |ts| && ts[i].Nop? ==> !IsHandle(ts[i], strs)
  {
  }

  lemma {:induction false} PropsKeep(ts: seq<Tok>, strs: seq<byte>, t: nat, q: nat, k: nat, delta: nat)
    requires t < |ts| && ts[t].Begin? && q < k <= |ts| && ts[q].Begin? && ToksMoved(ts, strs, delta)
    requires delta > 0 ==> NoneYet(ts, strs, q, k)
    ensures Keeps(ts, FixProps(ts, strs, t, k, delta).toks, strs)
    decreases |ts| - k
  {
    hide ToksMoved, Keeps, NoneYet, FixProps, FixProp, NextPropOf, IsHandle, SameSkel;
    KeepsSelf(ts, strs);
    FixPropsStep(ts, strs, t, k, delta);
    match NextPropOf(ts[k..]) {
      case Err(_) =>
      case At(m) =>
        var p := k + m;
        assert ts[k..][m] == ts[p];
        var r := FixProp(ts, strs, t, p, delta);
        if delta > 0 { NoneNext(ts, r.toks, strs, q, k, m); }
        PropKeeps(ts, strs, t, q, p, delta);
        if r.err == 0 {
          Headers(ts, r.toks, strs, t, q);
          MovedStill(ts, r.toks, strs, delta);
          PropsKeep(r.toks, strs, t, q, p + 1, delta);
          KeepsTrans(ts, r.toks, FixProps(r.toks, strs, t, p + 1, delta).toks, strs);
        }
    }
  }

  lemma {:induction false} Headers(a: seq<Tok>, b: seq<Tok>, strs: seq<byte>, t: nat, q: nat)
    requires Keeps(a, b, strs) && t < |a| && a[t].Begin? && q < |a| && a[q].Begin?
    ensures |b| == |a| && b[t].Begin? && b[q].Begin? && SameSkel(a, b)
  {
    assert SkelTok(a[t], b[t]) && SkelTok(a[q], b[q]);
  }

  // ---- node by node

  /** The walk over the fixup node q, for node t, leaves every phandle as it was. */
  lemma {:induction false} NodeKeeps(ts: seq<Tok>, strs: seq<byte>, t: nat, q: nat, delta: nat)
    requires t < |ts| && ts[t].Begin? && q < |ts| && ts[q].Begin? && ToksMoved(ts, strs, delta)
    ensures Keeps(ts, FixNode(ts, strs, t, q, delta).toks, strs)
    decreases |ts| - q, 0
  {
    hide ToksMoved, Keeps, FixProps, FixKids, FirstSibling;
    PropsKeep(ts, strs, t, q, q + 1, delta);
    var a := FixProps(ts, strs, t, q + 1, delta);
    if a.err == 0 {
      Headers(ts, a.toks, strs, t, q);
      MovedStill(ts, a.toks, strs, delta);
      KidsKeep(a.toks, strs, t, FirstSibling(a.toks, q), q, delta);
      KeepsTrans(ts, a.toks, FixNode(ts, strs, t, q, delta).toks, strs);
    }
  }

  lemma {:induction false} KidsKeep(ts: seq<Tok>, strs: seq<byte>, t: nat, child: Option<nat>, q: nat, delta: nat)
    requires t < |ts| && ts[t].Begin? && q < |ts| && (child.Some? ==> q < child.value < |ts| && ts[child.value].Begin?)
    requires ToksMoved(ts, strs, delta)
    ensures Keeps(ts, FixKids(ts, strs, t, child, q, delta).toks, strs)
    decreases |ts| - (if child.Some? then child.value else q + 1), 1
  {
    hide ToksMoved, Keeps, FixNode, FixKids, NextSib, SubOf;
    KeepsSelf(ts, strs);
    if child.None? {
      FixKidsEnd(ts, strs, t, q, delta);
    } else {
      var c := child.value;
      FixKidsStep(ts, strs, t, c, q, delta);
      SubOfFacts(ts[t + 1..], 0, ts[c].name);
      match SubOf(ts[t + 1..], 0, ts[c].name) {
        case Err(_) =>
        case At(x) =>
          assert ts[t + 1..][x] == ts[t + 1 + x];
          NodeKeeps(ts, strs, t + 1 + x, c, delta);
          var a := FixNode(ts, strs, t + 1 + x, c, delta);
          if a.err == 0 {
            Headers(ts, a.toks, strs, t, c);
            MovedStill(ts, a.toks, strs, delta);
            KidsKeep(a.toks, strs, t, NextSib(a.toks, c), c, delta);
            KeepsTrans(ts, a.toks, FixKids(a.toks, strs, t, NextSib(a.toks, c), c, delta).toks, strs);
          }
      }
    }
  }

  // ---- the tree afterwards

  lemma {:induction false} KeepsParts(a: seq<Tok>, b: seq<Tok>, us: seq<Tok>, strs: seq<byte>)
    requires Keeps(a + b, us, strs)
    ensures |us| == |a| + |b| && Keeps(a, us[..|a|], strs) && Keeps(b, us[|a|..], strs)
  {
    hide IsHandle, SkelTok;
    forall i | 0 <= i < |a| ensures SkelTok(a[i], us[..|a|][i]) && (IsHandle(a[i], strs) ==> us[..|a|][i] == a[i]) {
      assert (a + b)[i] == a[i];
    }
    forall i | 0 <= i < |b| ensures SkelTok(b[i], us[|a|..][i]) && (IsHandle(b[i], strs) ==> us[|a|..][i] == b[i]) {
      assert (a + b)[|a| + i] == b[i];
    }
  }

  /** Tokens with a node's shape and phandles are a node with its name and phandles. */
  lemma {:induction false} NodeAfter(n: Node, us: seq<Tok>, strs: seq<byte>) returns (n': Node)
    requires Keeps(Flat(n), us, strs)
    ensures us == Flat(n') && n'.name == n.name && Handles(Abs(n', strs)) == Handles(Abs(n, strs))
    decreases n, 1
  {
    hide Keeps, FlatItems, AbsProps, AbsKids, Get, BeDec;
    var h, body := [Begin(n.name, n.pad)], FlatItems(n.items);
    assert Flat(n) == h + body + [EndNode];
    KeepsParts(h + body, [EndNode], us, strs);
    KeepsParts(h, body, us[..|h + body|], strs);
    var items := ItemsAfter(n.items, us[..|h + body|][1..], strs);
    n' := n.(items := items);
    KeepsOne(Begin(n.name, n.pad), us[..|h + body|][..1], strs);
    KeepsOne(EndNode, us[|h + body|..], strs);
    Joined(us, |h + body|);
  }

  lemma {:induction false} Joined(us: seq<Tok>, k: nat)
    requires 1 <= k <= |us|
    ensures us == us[..k][..1] + us[..k][1..] + us[k..]
  {
  }

  lemma {:induction false} KeepsOne(t: Tok, us: seq<Tok>, strs: seq<byte>)
    requires Keeps([t], us, strs)
    ensures |us| == 1 && SkelTok(t, us[0]) && (!t.Prop? ==> us == [t]) && (IsHandle(t, strs) ==> us[0] == t)
  {
    assert [t][0] == t;
  }

  lemma {:induction false} ItemsAfter(items: seq<Item>, us: seq<Tok>, strs: seq<byte>) returns (items': seq<Item>)
    requires Keeps(FlatItems(items), us, strs)
    ensures us == FlatItems(items') && Get(AbsProps(items', strs), PHANDLE) == Get(AbsProps(items, strs), PHANDLE)
    ensures Get(AbsProps(items', strs), LINUX_PHANDLE) == Get(AbsProps(items, strs), LINUX_PHANDLE)
    ensures KidHandles(AbsKids(items', strs)) == KidHandles(AbsKids(items, strs))
    decreases items, 0
  {
    hide Keeps;
    if items == [] {
      items' := [];
      KeepsNone(us, strs);
    } else {
      var k := |FlatItem(items[0])|;
      KeepsParts(FlatItem(items[0]), FlatItems(items[1..]), us, strs);
      var it := ItemAfter(items[0], us[..k], strs);
      var rest := ItemsAfter(items[1..], us[k..], strs);
      items' := [it] + rest;
      assert items'[1..] == rest && us == us[..k] + us[k..];
      SameFirst(items, items', strs);
    }
  }

  lemma {:induction false} KeepsNone(us: seq<Tok>, strs: seq<byte>)
    requires Keeps([], us, strs)
    ensures us == []
  {
  }

  /** Items alike to a reader of phandles. */
  predicate SameItem(it: Item, it': Item, strs: seq<byte>) {
    match it
    case NopItem => it'.NopItem?
    case PropItem(off, val, _) =>
      it'.PropItem? && it'.nameoff == off &&
      (NameAt(strs, off) == PHANDLE || NameAt(strs, off) == LINUX_PHANDLE ==> it'.val == val)
    case SubItem(n) => it'.SubItem? && Handles(Abs(it'.node, strs)) == Handles(Abs(n, strs))
  }

  lemma {:induction false} ItemAfter(it: Item, us: seq<Tok>, strs: seq<byte>) returns (it': Item)
    requires Keeps(FlatItem(it), us, strs)
    ensures us == FlatItem(it') && SameItem(it, it', strs)
    decreases it, 2
  {
    hide Keeps, Handles, Abs, NameAt;
    match it {
      case NopItem =>
        KeepsOne(Nop, us, strs);
        it' := it;
      case PropItem(off, val, pad) =>
        KeepsOne(Prop(off, val, pad), us, strs);
        it' := PropItem(off, us[0].val, pad);
      case SubItem(n) =>
        var m := NodeAfter(n, us, strs);
        it' := SubItem(m);
    }
  }

  lemma {:induction false} SameFirst(items: seq<Item>, items': seq<Item>, strs: seq<byte>)
    requires items != [] && items' != [] && SameItem(items[0], items'[0], strs)
    requires Get(AbsProps(items'[1..], strs), PHANDLE) == Get(AbsProps(items[1..], strs), PHANDLE)
    requires Get(AbsProps(items'[1..], strs), LINUX_PHANDLE) == Get(AbsProps(items[1..], strs), LINUX_PHANDLE)
    requires KidHandles(AbsKids(items'[1..], strs)) == KidHandles(AbsKids(items[1..], strs))
    ensures Get(AbsProps(items', strs), PHANDLE) == Get(AbsProps(items, strs), PHANDLE)
    ensures Get(AbsProps(items', strs), LINUX_PHANDLE) == Get(AbsProps(items, strs), LINUX_PHANDLE)
    ensures KidHandles(AbsKids(items', strs)) == KidHandles(AbsKids(items, strs))
  {
    hide Handles, Abs, NameAt, KidHandles, AbsKids;
    FirstHandles(items, strs);
    FirstHandles(items', strs);
    SameProp(items, items', strs, PHANDLE);
    SameProp(items, items', strs, LINUX_PHANDLE);
  }

  lemma {:induction false} SameProp(items: seq<Item>, items': seq<Item>, strs: seq<byte>, name: seq<byte>)
    requires items != [] && items' != [] && SameItem(items[0], items'[0], strs)
    requires (name == PHANDLE || name == LINUX_PHANDLE)
    requires Get(AbsProps(items'[1..], strs), name) == Get(AbsProps(items[1..], strs), name)
    ensures Get(AbsProps(items', strs), name) == Get(AbsProps(items, strs), name)
  {
    hide Handles, Abs, NameAt;
    ConsGet(items, strs, name);
    ConsGet(items', strs, name);
  }

  lemma {:induction false} ConsGet(items: seq<Item>, strs: seq<byte>, name: seq<byte>)
    requires items != []
    ensures Get(AbsProps(items, strs), name) ==
      match items[0]
      case NopItem => Get(AbsProps(items[1..], strs), name)
      case PropItem(off, val, _) => if NameAt(strs, off) == name then Some(val) else Get(AbsProps(items[1..], strs), name)
      case SubItem(_) => None
  {
    hide NameAt;
    match items[0] {
      case NopItem =>
      case PropItem(off, val, _) =>
        var props := AbsProps(items, strs);
        assert props[0] == AProp(NameAt(strs, off), val) && props[1..] == AbsProps(items[1..], strs);
      case SubItem(_) =>
    }
  }
}

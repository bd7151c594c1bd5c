/** Making room for an overlay: its phandles and its own references to them move above the base tree's. */
module FdtRelocate {
  import opened Bytes
  import opened FdtTokens
  import opened FdtTree
  import opened FdtBlob
  import opened FdtRefine
  import opened FdtOps
  import opened FdtWriter
  import opened FdtPhandle
  import opened FdtMaxPhandle
  import opened FdtFixup
  import opened FdtKept
  import opened FdtRefs
  import opened FdtFollow
  import opened FdtMoves
  import opened FdtListing
  import opened FdtOutcome

  method UpdateReferences(f: Fdt, delta: nat) returns (err: int)
    requires f.Valid() && f.Blocks() && f.toks != [] && f.toks[0].Begin?
    modifies f`toks, f.buf
    ensures f.Valid() && f.Blocks() && f.Strings() == old(f.Strings()) && f.Front() == old(f.Front())
    ensures Fixed(f.toks, err) == FixTree(old(f.toks), f.Strings(), delta)
  {
    hide Off, f.Valid, f.Strings, f.Front, f.Blocks, SubOf, FixNode;
    FirstOff(f.toks);
    var fixups;
    ghost var x;
    fixups, x := f.SubnodeOffset(0, LOCAL_FIXUPS, 0);
    if fixups < 0 { return if fixups == NOTFOUND then 0 else fixups; }
    err := UpdateNode(f, 0, fixups, delta, 0, x);
  }

  lemma {:induction false} WholeTree(f: Fdt, n: Node)
    requires InTree(f, Top, n, [End])
    ensures f.Blocks() && f.Valid() && f.toks == Flat(n) + [End] && f.toks != [] && f.toks[0].Begin? && Place(Top) == 0
  {
    HoldsTree(f.toks, Top, n, [End]);
  }

  /** Every cell that a fixup entry aims at names a node in b exactly if it named that node in a. */
  ghost predicate NamesKept(a: ANode, b: ANode) {
    |Handles(b)| == |Handles(a)| &&
    forall e, c, m :: Aims(a, e, c) && 0 <= m < |Handles(a)| ==>
      (CellAt(b, c) == Handles(b)[m] <==> CellAt(a, c) == Handles(a)[m])
  }

  /**
   * The first two steps of applying an overlay: shift all its phandles by the base tree's greatest one, then its
   * local references by the same amount. n1 is the overlay between the steps and n2 the one after both.
   */
  method Relocate(base: Fdt, over: Fdt, ghost nb: Node, ghost no: Node) returns (err: int, ghost n1: Node,
      ghost n2: Node)
    requires InTree(base, Top, nb, [End]) && InTree(over, Top, no, [End]) && base != over && base.buf != over.buf
    modifies over`toks, over.buf
    ensures InTree(over, Top, n2, [End]) && over.Strings() == old(over.Strings()) && over.Front() == old(over.Front())
    ensures var base, a, b := Handles(Abs(nb, base.Strings())), Abs(no, over.Strings()), Abs(n2, over.Strings());
      var delta := MaxOf(base);
      var moved := MoveNode(a, delta);
      && (moved.Good? <==> AllMovable(a, delta)) && (moved.Bad? ==> err == moved.err)
      && (moved.Good? ==> Handles(b) == Plus(Handles(a), delta) && Apart(base, Handles(a), Handles(b)))
      && (moved.Good? ==>
           moved.value == Abs(n1, over.Strings()) &&
           Fixed(over.toks, err) == FixTree(Flat(n1) + [End], over.Strings(), delta))
      && (Tidy(a) ==> (err == 0 <==> AllMovable(a, delta) && Ready(a, delta)))
      && (Tidy(a) && err == 0 ==> Settled(a, b, delta) && NamesKept(a, b))
  {
    hide base.Valid, over.Valid, Handles, MaxOf, MoveNode, Abs, Flat, FixTree, MaxHere, over.Front, OnlyHandles,
        ToksMoved, Plus, Apart, Tidy, Ready, Settled, NamesKept, AllMovable;
    WholeTree(base, nb);
    WholeTree(over, no);
    ghost var strs := over.Strings();
    var delta := MaxPhandle(base);
    MaxOfTree(base.toks, nb, base.Strings());
    MoveRefused(Abs(no, strs), delta);
    err, n1 := AdjustNode(over, 0, delta, Top, no, [End]);
    n2 := n1;
    WholeTree(over, n1);
    if err != 0 { return; }
    err := UpdateReferences(over, delta);
    n2 := TreeAfter(no, n1, delta, over.toks, strs);
    ShiftedApart(Handles(Abs(nb, base.Strings())), Handles(Abs(no, strs)));
    WholeTree(over, n2);
    if Tidy(Abs(no, strs)) {
      Outcome(no, n1, n2, strs, delta, err);
      if err == 0 { Renamed(Abs(no, strs), Abs(n2, strs), delta); }
    }
  }

  lemma {:induction false} Renamed(a: ANode, b: ANode, delta: nat)
    requires Settled(a, b, delta) && Handles(b) == Plus(Handles(a), delta)
    requires forall m :: 0 <= m < |Handles(b)| ==> SmallHandle(Handles(b)[m])
    ensures NamesKept(a, b)
  {
    hide Settled, Aims, CellAt, Handles, Plus;
    forall e, c, m | Aims(a, e, c) && 0 <= m < |Handles(a)|
      ensures CellAt(b, c) == Handles(b)[m] <==> CellAt(a, c) == Handles(a)[m]
    {
      NamesSettled(a, b, delta, Handles(a), e, c, m);
    }
  }

  // ---- an overlay on which the bound check is fooled

  /** Property a of the root holds one cell; the fixups list offset 2^32 - 4 of it. */
  function Fooling(): Node {
    var fixups := Node(LOCAL_FIXUPS, [0, 0, 0], [PropItem(0, [0xff, 0xff, 0xff, 0xfc], [])]);
    Node([], [0, 0, 0], [PropItem(0, [0, 0, 0, 1], []), SubItem(fixups)])
  }

  lemma {:induction false} FoolingToks()
    ensures Flat(Fooling()) + [End] ==
      [Begin([], [0, 0, 0]), Prop(0, [0, 0, 0, 1], []), Begin(LOCAL_FIXUPS, [0, 0, 0]),
       Prop(0, [0xff, 0xff, 0xff, 0xfc], []), EndNode, EndNode, End]
  {
    var n := Fooling();
    var m := n.items[1].node;
    FlatOne(m.items[0]);
    assert m.items == [m.items[0]];
    assert n.items == [n.items[0]] + [n.items[1]];
    FlatConcat([n.items[0]], [n.items[1]]);
    FlatOne(n.items[0]);
    FlatOne(n.items[1]);
  }

  lemma {:induction false} FoolingScans(ts: seq<Tok>, strs: seq<byte>)
    requires ts == Flat(Fooling()) + [End] && strs == [0x61, 0]
    ensures |ts| == 7 && SubOf(ts[1..], 0, LOCAL_FIXUPS) == At(1) && NextPropOf(ts[3..]) == At(0)
    ensures PropOf(ts[1..], strs, NameAt(strs, 0)) == At(0)
    ensures ts[1] == Prop(0, [0, 0, 0, 1], []) && ts[3] == Prop(0, [0xff, 0xff, 0xff, 0xfc], [])
  {
    FoolingToks();
    var a := ts[1..];
    assert a[1..][0] == Begin(LOCAL_FIXUPS, [0, 0, 0]);
    assert NameMatches(LOCAL_FIXUPS, LOCAL_FIXUPS);
    assert SubOf(a[1..], 0, LOCAL_FIXUPS) == At(0);
  }

  /** A well-formed overlay whose fixups pass the bound check with a cell that is not there. */
  lemma {:induction false} BoundFooled(delta: nat)
    ensures NodeOk(Fooling(), [0x61, 0]) && FixTree(Flat(Fooling()) + [End], [0x61, 0], delta).err == FAULT
  {
    hide SubOf, PropOf, NextPropOf, Flat, FixCells, FixProps, FixKids, NameAt, NodeOk, BeDec, Fooling, FixProp;
    var ts, strs: seq<byte> := Flat(Fooling()) + [End], [0x61, 0];
    FoolingScans(ts, strs);
    FoolingOk();
    FixPropsStep(ts, strs, 0, 3, delta);
    FooledProp(ts, strs, delta);
    FooledCell(ts, delta);
  }

  lemma {:induction false} FooledProp(ts: seq<Tok>, strs: seq<byte>, delta: nat)
    requires |ts| == 7 && ts[1].Prop? && ts[3] == Prop(0, [0xff, 0xff, 0xff, 0xfc], [])
    requires PropOf(ts[1..], strs, NameAt(strs, 0)) == At(0)
    ensures FixProp(ts, strs, 0, 3, delta) == FixCells(ts, 3, 1, 0, delta)
  {
    hide PropOf, NameAt, FixCells;
  }

  lemma {:induction false} FooledCell(ts: seq<Tok>, delta: nat)
    requires |ts| == 7 && ts[1] == Prop(0, [0, 0, 0, 1], []) && ts[3] == Prop(0, [0xff, 0xff, 0xff, 0xfc], [])
    ensures FixCells(ts, 3, 1, 0, delta).err == FAULT
  {
    hide FixCells, BeDec, Shifted;
    FixCellsStep(ts, 3, 1, 0, delta);
    LastOffset();
    assert ts[3].val[0..4] == [0xff, 0xff, 0xff, 0xfc];
  }

  lemma {:induction false} LastOffset()
    ensures BeDec([0xff, 0xff, 0xff, 0xfc]) == U32 - 4
  {
    var b: seq<byte> := [0xff, 0xff, 0xff, 0xfc];
    assert b[..1][..0] == [];
    assert b[..2][..1] == b[..1] && b[..3][..2] == b[..2] && b[..4] == b;
    assert BeDec(b[..1]) == 0xff;
    assert BeDec(b[..2]) == 0xffff;
    assert BeDec(b[..3]) == 0xff_ffff;
  }

  lemma {:induction false} FoolingOk()
    ensures NodeOk(Fooling(), [0x61, 0])
  {
    var n, strs: seq<byte> := Fooling(), [0x61, 0];
    NameAtIs(strs, 0, [0x61]);
    var m := n.items[1].node;
    assert ItemOk(m.items[0], strs);
    assert NodeOk(m, strs);
    assert ItemOk(n.items[0], strs) && ItemOk(n.items[1], strs);
  }
}

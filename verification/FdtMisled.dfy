/**
 * An overlay whose fixups point into themselves: an entry that was not read yet is shifted, and then aims
 * elsewhere.
 */
module FdtMisled {
  import opened Bytes
  import opened FdtTokens
  import opened FdtTree
  import opened FdtRefine
  import opened FdtIter
  import opened FdtOverlay
  import opened FdtFixup
  import opened FdtPlaces
  import opened FdtListing
  import opened FdtOutcome

  /** The only name in the string block: "a". */
  const STRS: seq<byte> := [0x61, 0]
  const X: seq<byte> := [0x78]

  function Leaf(val: seq<byte>): Node { Node(X, [0, 0], [PropItem(0, val, [])]) }

  function FixupNode(items: seq<Item>): Node { Node(LOCAL_FIXUPS, [0, 0, 0], items) }

  /** Node x holds two cells; the fixups list the first, and before that a cell of the fixup itself. */
  function Overlay(entry: seq<byte>, cells: seq<byte>): Node {
    var first := FixupNode([SubItem(Leaf([0, 0, 0, 0]))]);
    Node([], [0, 0, 0], [SubItem(FixupNode([SubItem(first), SubItem(Leaf(entry))])), SubItem(Leaf(cells))])
  }

  function Toks(entry: seq<byte>, cells: seq<byte>): seq<Tok> {
    [Begin([], [0, 0, 0]), Begin(LOCAL_FIXUPS, [0, 0, 0]), Begin(LOCAL_FIXUPS, [0, 0, 0]), Begin(X, [0, 0]),
     Prop(0, [0, 0, 0, 0], []), EndNode, EndNode, Begin(X, [0, 0]), Prop(0, entry, []), EndNode, EndNode,
     Begin(X, [0, 0]), Prop(0, cells, []), EndNode, EndNode, End]
  }

  lemma {:induction false} LeafToks(val: seq<byte>)
    ensures Flat(Leaf(val)) == [Begin(X, [0, 0]), Prop(0, val, []), EndNode]
  {
    FlatOne(PropItem(0, val, []));
  }

  lemma {:induction false} TwoItems(a: Item, b: Item)
    ensures FlatItems([a, b]) == FlatItem(a) + FlatItem(b)
  {
    hide FlatItems, FlatItem;
    assert [a, b] == [a] + [b];
    FlatConcat([a], [b]);
    FlatOne(a);
    FlatOne(b);
  }

  lemma {:induction false} OverlayToks(entry: seq<byte>, cells: seq<byte>)
    ensures Flat(Overlay(entry, cells)) + [End] == Toks(entry, cells)
  {
    hide FlatItems;
    var first := FixupNode([SubItem(Leaf([0, 0, 0, 0]))]);
    var fixups := FixupNode([SubItem(first), SubItem(Leaf(entry))]);
    LeafToks([0, 0, 0, 0]);
    LeafToks(entry);
    LeafToks(cells);
    FlatOne(SubItem(Leaf([0, 0, 0, 0])));
    TwoItems(SubItem(first), SubItem(Leaf(entry)));
    TwoItems(SubItem(fixups), SubItem(Leaf(cells)));
  }

  // ---- the scans

  lemma {:induction false} Names()
    ensures NameMatches(LOCAL_FIXUPS, LOCAL_FIXUPS) && NameMatches(X, X) && !NameMatches(LOCAL_FIXUPS, X)
    ensures NameAt(STRS, 0) == [0x61]
  {
    NameAtIs(STRS, 0, [0x61]);
  }

  /** The tokens from k on: one token, then the rest. */
  lemma {:induction false} From(ts: seq<Tok>, k: nat)
    requires k < |ts|
    ensures ts[k..] != [] && ts[k..][0] == ts[k] && ts[k..][1..] == ts[k + 1..]
  {
  }

  lemma {:induction false} SubHere(ts: seq<Tok>, k: nat, d: nat, name: seq<byte>)
    requires k < |ts|
    ensures SubOf(ts[k..], d, name) ==
      match ts[k]
      case Begin(full, _) =>
        if d == 0 && NameMatches(full, name) then At(0) else Shift(SubOf(ts[k + 1..], d + 1, name), 1)
      case EndNode => if d == 0 then Err(NOTFOUND) else Shift(SubOf(ts[k + 1..], d - 1, name), 1)
      case End => Err(NOTFOUND)
      case _ => Shift(SubOf(ts[k + 1..], d, name), 1)
  {
    From(ts, k);
  }

  lemma {:induction false} SibHere(ts: seq<Tok>, k: nat, d: nat)
    requires k < |ts|
    ensures SibOf(ts[k..], d) ==
      match ts[k]
      case Begin(_, _) => if d == 0 then Some(0) else More(SibOf(ts[k + 1..], d + 1), 1)
      case EndNode => if d == 0 then None else More(SibOf(ts[k + 1..], d - 1), 1)
      case End => None
      case _ => More(SibOf(ts[k + 1..], d), 1)
  {
    From(ts, k);
  }

  lemma {:induction false} PropHere(ts: seq<Tok>, k: nat, name: seq<byte>)
    requires k < |ts|
    ensures ts[k].Prop? ==>
      NextPropOf(ts[k..]) == At(0) && (NameAt(STRS, ts[k].nameoff) == name ==> PropOf(ts[k..], STRS, name) == At(0))
    ensures ts[k].Begin? || ts[k].EndNode? ==> NextPropOf(ts[k..]) == Err(NOTFOUND)
  {
    From(ts, k);
  }

  /** The kinds of the tokens, one by one. */
  predicate Shape(ts: seq<Tok>) {
    && |ts| == 16 && ts[1].Begin? && ts[2].Begin? && ts[3].Begin? && ts[7].Begin? && ts[11].Begin?
    && ts[1].name == ts[2].name == LOCAL_FIXUPS && ts[3].name == ts[7].name == ts[11].name == X
    && ts[4].Prop? && ts[8].Prop? && ts[12].Prop?
    && ts[5].EndNode? && ts[6].EndNode? && ts[9].EndNode? && ts[10].EndNode? && ts[13].EndNode? && ts[14].EndNode?
  }

  lemma {:induction false} ToksShape(entry: seq<byte>, cells: seq<byte>)
    ensures var ts := Toks(entry, cells);
      && Shape(ts) && ts[4].val == [0, 0, 0, 0] && ts[8].val == entry && ts[12].val == cells
      && ts[4].nameoff == ts[8].nameoff == ts[12].nameoff == 0
  {
  }

  /** Over a node x with one property, inside a search at depth d > 0. */
  lemma {:induction false} PassSub(ts: seq<Tok>, k: nat, d: nat)
    requires k + 3 <= |ts| && ts[k].Begin? && ts[k + 1].Prop? && ts[k + 2].EndNode? && d > 0
    ensures SubOf(ts[k..], d, X) == Shift(SubOf(ts[k + 3..], d, X), 3)
    ensures SibOf(ts[k..], d) == More(SibOf(ts[k + 3..], d), 3)
  {
    hide SubOf, SibOf, NameMatches;
    SubHere(ts, k, d, X);
    SubHere(ts, k + 1, d + 1, X);
    SubHere(ts, k + 2, d + 1, X);
    SibHere(ts, k, d);
    SibHere(ts, k + 1, d + 1);
    SibHere(ts, k + 2, d + 1);
  }

  lemma {:induction false} Subs(ts: seq<Tok>)
    requires Shape(ts)
    ensures SubOf(ts[1..], 0, LOCAL_FIXUPS) == At(0) && SubOf(ts[2..], 0, X) == At(5) && SubOf(ts[1..], 0, X) == At(10)
  {
    hide SubOf, SibOf, NameMatches, NameAt;
    Names();
    SubHere(ts, 1, 0, LOCAL_FIXUPS);
    SubHere(ts, 2, 0, X);
    PassSub(ts, 3, 1);
    SubHere(ts, 6, 1, X);
    SubHere(ts, 7, 0, X);
    SubHere(ts, 1, 0, X);
    SubHere(ts, 2, 1, X);
    PassSub(ts, 3, 2);
    SubHere(ts, 6, 2, X);
    PassSub(ts, 7, 1);
    SubHere(ts, 10, 1, X);
    SubHere(ts, 11, 0, X);
  }

  lemma {:induction false} Sibs(ts: seq<Tok>)
    requires Shape(ts)
    ensures FirstSibling(ts, 1) == Some(2) && FirstSibling(ts, 2) == Some(3) && FirstSibling(ts, 3) == None
    ensures FirstSibling(ts, 7) == None && NextSib(ts, 2) == Some(7) && NextSib(ts, 3) == None && NextSib(ts, 7) == None
  {
    hide SibOf, SubOf;
    SibHere(ts, 2, 0);
    SibHere(ts, 3, 0);
    SibHere(ts, 4, 0);
    SibHere(ts, 5, 0);
    SibHere(ts, 8, 0);
    SibHere(ts, 9, 0);
    PassSub(ts, 3, 1);
    SibHere(ts, 6, 1);
    SibHere(ts, 7, 0);
    SibHere(ts, 4, 1);
    SibHere(ts, 5, 1);
    SibHere(ts, 6, 0);
    SibHere(ts, 8, 1);
    SibHere(ts, 9, 1);
    SibHere(ts, 10, 0);
  }

  // ---- the walk

  lemma {:induction false} NoFix(ts: seq<Tok>, t: nat, k: nat, delta: nat)
    requires t < |ts| && k < |ts| && (ts[k].Begin? || ts[k].EndNode?)
    ensures FixProps(ts, STRS, t, k, delta) == Fixed(ts, 0)
  {
    hide FixProps, NextPropOf, FixProp;
    PropHere(ts, k, []);
    FixPropsStep(ts, STRS, t, k, delta);
  }

  /** A node with one fixup property of one entry, for a node whose first property it names. */
  lemma {:induction false} OneFix(ts: seq<Tok>, t: nat, p: nat, at: nat, delta: nat)
    requires t + 1 < |ts| && ts[t + 1].Prop? && ts[t + 1].nameoff == 0 && p + 1 < |ts| && ts[p + 1].EndNode?
    requires ts[p].Prop? && ts[p].nameoff == 0 && |ts[p].val| == 4 && BeDec(ts[p].val) == at
    requires at + 4 <= |ts[t + 1].val| < U32
    ensures FixProps(ts, STRS, t, p, delta) == Fixed(Shifted(ts, t + 1, at, delta), 0)
  {
    hide FixProps, NextPropOf, PropOf, NameAt, BeDec, Shifted, FixCells;
    Names();
    PropHere(ts, p, []);
    PropHere(ts, t + 1, [0x61]);
    FixPropsStep(ts, STRS, t, p, delta);
    FixCellsStep(ts, p, t + 1, 0, delta);
    assert ts[p].val[0..4] == ts[p].val;
    var next := Shifted(ts, t + 1, at, delta);
    assert SkelTok(ts[p + 1], next[p + 1]);
    FixCellsEnd(next, p, t + 1, 1, delta);
    NoFix(next, t, p + 1, delta);
  }

  const ZERO: seq<byte> := [0, 0, 0, 0]
  const FOUR: seq<byte> := [0, 0, 0, 4]
  const ONES: seq<byte> := [0, 0, 0, 1, 0, 0, 0, 1]
  const SHIFTED: seq<byte> := [0, 0, 0, 1, 0, 0, 0, 5]

  lemma {:induction false} Numbers()
    ensures BeDec(ZERO) == 0 && BeDec(FOUR) == 4 && BeDec([0, 0, 0, 1]) == 1
    ensures Be(4, 4) == FOUR && Be(5, 4) == [0, 0, 0, 5]
  {
    var z: seq<byte> := [0, 0, 0];
    assert BeDec([]) == 0;
    assert [0][..0] == [] && [0, 0][..1] == [0] && z[..2] == [0, 0];
    assert BeDec([0]) == 0 && BeDec([0, 0]) == 0 && BeDec(z) == 0;
    assert ZERO[..3] == z && FOUR[..3] == z && [0, 0, 0, 1][..3] == z;
    assert Be(0, 1) == [0] && Be(0, 2) == [0, 0] && Be(0, 3) == z;
  }

  lemma {:induction false} TwoShifts()
    ensures Shifted(Toks(ZERO, ONES), 8, 0, 4) == Toks(FOUR, ONES)
    ensures Shifted(Toks(FOUR, ONES), 12, 4, 4) == Toks(FOUR, SHIFTED)
  {
    hide BeDec, Be;
    Numbers();
    assert ZERO[0..4] == ZERO && ONES[4..8] == [0, 0, 0, 1];
    assert (0 + 4) % U32 == 4 && (1 + 4) % U32 == 5;
    assert Over(ZERO, 0, FOUR) == FOUR && Over(ONES, 4, [0, 0, 0, 5]) == SHIFTED;
  }

  /** A fixup node without children: its one property. */
  lemma {:induction false} FixLeaf(ts: seq<Tok>, t: nat, q: nat, at: nat, delta: nat)
    requires Shape(ts) && t + 1 < |ts| && ts[t + 1].Prop? && ts[t + 1].nameoff == 0 && (q == 3 || q == 7)
    requires ts[q + 1].nameoff == 0 && |ts[q + 1].val| == 4 && BeDec(ts[q + 1].val) == at
    requires at + 4 <= |ts[t + 1].val| < U32
    ensures FixNode(ts, STRS, t, q, delta) == Fixed(Shifted(ts, t + 1, at, delta), 0)
  {
    hide FixProps, FixKids, BeDec, Shifted, FirstSibling, NextSib;
    OneFix(ts, t, q + 1, at, delta);
    var next := Shifted(ts, t + 1, at, delta);
    SameShape(ts, next);
    Sibs(next);
    FixKidsEnd(next, STRS, t, q, delta);
  }

  lemma {:induction false} SameShape(ts: seq<Tok>, next: seq<Tok>)
    requires Shape(ts) && SameSkel(ts, next)
    ensures Shape(next)
  {
    forall i | 0 <= i < 16 ensures SkelTok(ts[i], next[i]) { }
  }

  /** The first child of the fixups: it shifts the entry of the second. */
  lemma {:induction false} FirstChild()
    ensures FixNode(Toks(ZERO, ONES), STRS, 1, 2, 4) == Fixed(Toks(FOUR, ONES), 0)
  {
    hide FixProps, FixKids, FixNode, BeDec, Be, Shifted, FirstSibling, NextSib, Toks, SubOf;
    var ts, mid := Toks(ZERO, ONES), Toks(FOUR, ONES);
    ToksShape(ZERO, ONES);
    ToksShape(FOUR, ONES);
    Numbers();
    TwoShifts();
    FixLeaf(ts, 7, 3, 0, 4);
    Subs(ts);
    Sibs(ts);
    Sibs(mid);
    NoFix(ts, 1, 3, 4);
    FixKidsStep(ts, STRS, 1, 3, 2, 4);
    FixKidsEnd(mid, STRS, 1, 3, 4);
    NodeOf(ts, 1, 2, 4);
  }

  lemma {:induction false} NodeOf(ts: seq<Tok>, t: nat, q: nat, delta: nat)
    requires t < |ts| && q < |ts| && FixProps(ts, STRS, t, q + 1, delta) == Fixed(ts, 0)
    ensures FixNode(ts, STRS, t, q, delta) == FixKids(ts, STRS, t, FirstSibling(ts, q), q, delta)
  {
    hide FixProps, FixKids, FirstSibling;
  }

  lemma {:induction false} Walked()
    ensures FixTree(Toks(ZERO, ONES), STRS, 4) == Fixed(Toks(FOUR, SHIFTED), 0)
  {
    hide FixProps, FixKids, FixNode, BeDec, Be, Shifted, FirstSibling, NextSib, Toks, SubOf;
    var ts, mid, fin := Toks(ZERO, ONES), Toks(FOUR, ONES), Toks(FOUR, SHIFTED);
    ToksShape(ZERO, ONES);
    ToksShape(FOUR, ONES);
    ToksShape(FOUR, SHIFTED);
    Numbers();
    TwoShifts();
    FirstChild();
    FixLeaf(mid, 11, 7, 4, 4);
    Subs(ts);
    Subs(mid);
    Sibs(ts);
    Sibs(mid);
    Sibs(fin);
    NoFix(ts, 0, 2, 4);
    FixKidsStep(ts, STRS, 0, 2, 1, 4);
    FixKidsStep(mid, STRS, 0, 7, 2, 4);
    FixKidsEnd(fin, STRS, 0, 7, 4);
    NodeOf(ts, 0, 1, 4);
  }

  // ---- as a reader sees it

  lemma {:induction false} OverlayOk(entry: seq<byte>, cells: seq<byte>)
    requires |entry| == 4 && |cells| == 8
    ensures NodeOk(Overlay(entry, cells), STRS)
  {
    NameAtIs(STRS, 0, [0x61]);
    LeafOk(ZERO);
    LeafOk(entry);
    LeafOk(cells);
    hide NameOk;
    var first := FixupNode([SubItem(Leaf(ZERO))]);
    assert NodeOk(first, STRS) by { assert ItemOk(SubItem(Leaf(ZERO)), STRS); }
    var fixups := FixupNode([SubItem(first), SubItem(Leaf(entry))]);
    assert ItemOk(SubItem(first), STRS) && ItemOk(SubItem(Leaf(entry)), STRS);
    assert NodeOk(fixups, STRS);
    assert ItemOk(SubItem(fixups), STRS) && ItemOk(SubItem(Leaf(cells)), STRS);
  }

  lemma {:induction false} LeafOk(val: seq<byte>)
    requires |val| % 4 == 0 && |val| < U32
    ensures NodeOk(Leaf(val), STRS)
  {
    NameAtIs(STRS, 0, [0x61]);
    assert ItemOk(Leaf(val).items[0], STRS);
  }

  function Seen(entry: seq<byte>, cells: seq<byte>): ANode {
    var first := ANode(LOCAL_FIXUPS, [], [ANode(X, [AProp([0x61], ZERO)], [])]);
    ANode([], [], [ANode(LOCAL_FIXUPS, [], [first, ANode(X, [AProp([0x61], entry)], [])]),
                   ANode(X, [AProp([0x61], cells)], [])])
  }

  lemma {:induction false} LeafSeen(val: seq<byte>)
    ensures Abs(Leaf(val), STRS) == ANode(X, [AProp([0x61], val)], [])
  {
    Names();
    var items := Leaf(val).items;
    assert items[1..] == [];
    assert AbsProps(items, STRS) == [AProp(NameAt(STRS, 0), val)] + AbsProps([], STRS);
    assert AbsKids(items, STRS) == [] + AbsKids([], STRS);
  }

  lemma {:induction false} OneKid(a: Node)
    ensures AbsKids([SubItem(a)], STRS) == [Abs(a, STRS)] && AbsProps([SubItem(a)], STRS) == []
  {
    hide Abs;
    assert [SubItem(a)][1..] == [];
  }

  lemma {:induction false} TwoKids(a: Node, b: Node)
    ensures AbsKids([SubItem(a), SubItem(b)], STRS) == [Abs(a, STRS), Abs(b, STRS)]
    ensures AbsProps([SubItem(a), SubItem(b)], STRS) == []
  {
    hide Abs;
    assert [SubItem(a), SubItem(b)][1..] == [SubItem(b)];
    OneKid(b);
  }

  lemma {:induction false} OverlaySeen(entry: seq<byte>, cells: seq<byte>)
    ensures Abs(Overlay(entry, cells), STRS) == Seen(entry, cells)
  {
    hide AbsKids, AbsProps, NameAt;
    var first := FixupNode([SubItem(Leaf(ZERO))]);
    var fixups := FixupNode([SubItem(first), SubItem(Leaf(entry))]);
    LeafSeen(ZERO);
    LeafSeen(entry);
    LeafSeen(cells);
    OneKid(Leaf(ZERO));
    TwoKids(first, Leaf(entry));
    TwoKids(fixups, Leaf(cells));
  }

  lemma {:induction false} AimsAtFirst(entry: seq<byte>, cells: seq<byte>)
    requires entry == ZERO && |cells| == 8
    ensures Aims(Seen(entry, cells), Entry([1], 0, 0), Cell([1], 0, 0))
  {
    hide NameMatches, BeDec;
    var a := Seen(entry, cells);
    Names();
    Numbers();
    assert KidIndex(a.kids, LOCAL_FIXUPS) == 0;
    var f := a.kids[0];
    assert KidIndex(a.kids, X) == 1;
    assert [1][1..] == [];
    assert NodeAt(f, [1]) == Some(f.kids[1]) && NodeAt(a, [1]) == Some(a.kids[1]);
    assert Follow(a, f, [1]) == Some([1]) by { assert [1] + [] == [1]; }
    assert entry[0..4] == entry;
  }

  /**
   * A well-formed overlay with an entry that aims at the first cell of x. Its fixups are carried out by 4 without an
   * error, and that cell is the same as before: the other entry aims at this one, and is read first.
   */
  lemma {:induction false} Misled()
    ensures var n, n', c := Overlay(ZERO, ONES), Overlay(FOUR, SHIFTED), Cell([1], 0, 0);
      && NodeOk(n, STRS) && FixTree(Flat(n) + [End], STRS, 4) == Fixed(Flat(n') + [End], 0)
      && Aims(Abs(n, STRS), Entry([1], 0, 0), c)
      && CellAt(Abs(n', STRS), c) == CellAt(Abs(n, STRS), c) == Some(1)
  {
    hide FixTree, Aims, CellAt, BeDec, Flat, NodeOk, Abs, Toks, Overlay, Seen;
    OverlayOk(ZERO, ONES);
    OverlayToks(ZERO, ONES);
    OverlayToks(FOUR, SHIFTED);
    OverlaySeen(ZERO, ONES);
    OverlaySeen(FOUR, SHIFTED);
    Walked();
    AimsAtFirst(ZERO, ONES);
    FirstCell(ZERO, ONES);
    FirstCell(FOUR, SHIFTED);
  }

  lemma {:induction false} FirstCell(entry: seq<byte>, cells: seq<byte>)
    requires |cells| == 8 && cells[0..4] == [0, 0, 0, 1]
    ensures CellAt(Seen(entry, cells), Cell([1], 0, 0)) == Some(1)
  {
    hide BeDec;
    Numbers();
    var a := Seen(entry, cells);
    assert [1][1..] == [];
    assert NodeAt(a, [1]) == Some(a.kids[1]);
  }
}

/**
 * The references inside an overlay. A node under the local fixups lists, for the node of the same path,
 * which cells of its properties hold phandles; each listed cell is shifted in place like the phandles are.
 */
module FdtFixup {
  import opened Bytes
  import opened FdtTokens
  import opened FdtTree
  import opened FdtBlob
  import opened FdtRw
  import opened FdtIter
  import opened FdtOverlay
  import opened FdtPhandle

  // ---- scans do not look at property values

  lemma {:induction false} SkelSib(a: seq<Tok>, b: seq<Tok>, d: nat)
    requires SameSkel(a, b)
    ensures SibOf(a, d) == SibOf(b, d)
    decreases |a|
  {
    if a != [] {
      assert SkelTok(a[0], b[0]);
      SkelFrom(a, b, 1);
      SkelSib(a[1..], b[1..], d);
      SkelSib(a[1..], b[1..], d + 1);
      if d > 0 { SkelSib(a[1..], b[1..], d - 1); }
    }
  }

  lemma {:induction false} SkelSub(a: seq<Tok>, b: seq<Tok>, d: nat, name: seq<byte>)
    requires SameSkel(a, b)
    ensures SubOf(a, d, name) == SubOf(b, d, name)
    decreases |a|
  {
    hide NameMatches;
    if a != [] {
      assert SkelTok(a[0], b[0]);
      SkelFrom(a, b, 1);
      SkelSub(a[1..], b[1..], d, name);
      SkelSub(a[1..], b[1..], d + 1, name);
      if d > 0 { SkelSub(a[1..], b[1..], d - 1, name); }
    }
  }

  lemma {:induction false} SkelProp(a: seq<Tok>, b: seq<Tok>, strs: seq<byte>, name: seq<byte>)
    requires SameSkel(a, b)
    ensures PropOf(a, strs, name) == PropOf(b, strs, name) && NextPropOf(a) == NextPropOf(b)
    decreases |a|
  {
    hide NameAt;
    if a != [] {
      assert SkelTok(a[0], b[0]);
      SkelFrom(a, b, 1);
      SkelProp(a[1..], b[1..], strs, name);
    }
  }

  // ---- what the walk does, cell by cell

  /** The bound check was fooled and the write leaves the property. */
  const FAULT: int := 1

  datatype Fixed = Fixed(toks: seq<Tok>, err: int)

  /** The cell of property j at a byte offset, plus delta modulo 2^32. */
  function Shifted(ts: seq<Tok>, j: nat, at: nat, delta: nat): (r: seq<Tok>)
    requires j < |ts| && ts[j].Prop? && at + 4 <= |ts[j].val|
    ensures SameSkel(ts, r)
  {
    var v := ts[j].val;
    ts[j := ts[j].(val := Over(v, at, Be((BeDec(v[at..at + 4]) + delta) % U32, 4)))]
  }

  /** From the i-th offset that fixup property p lists, into property j. */
  function FixCells(ts: seq<Tok>, p: nat, j: nat, i: nat, delta: nat): (r: Fixed)
    requires p < |ts| && j < |ts| && ts[p].Prop? && ts[j].Prop? && |ts[p].val| % 4 == 0
    ensures SameSkel(ts, r.toks)
    decreases |ts[p].val| - 4 * i
  {
    if 4 * i >= |ts[p].val| then Fixed(ts, 0)
    else
      var at := BeDec(ts[p].val[4 * i..4 * i + 4]);
      if (4 + at) % U32 > |ts[j].val| then Fixed(ts, BADOVERLAY)
      else if at + 4 > |ts[j].val| then Fixed(ts, FAULT)
      else
        var next := Shifted(ts, j, at, delta);
        assert SkelTok(ts[p], next[p]) && SkelTok(ts[j], next[j]);
        var r := FixCells(next, p, j, i + 1, delta);
        SkelTrans(ts, next, r.toks);
        r
  }

  /** The bound check on a 32-bit offset tells the truth exactly when its sum does not wrap to a length in bounds. */
  lemma {:induction false} BoundIs(at: nat, len: nat)
    requires at < U32 && len < MAX
    ensures ((4 + at) % U32 <= len <==> at + 4 <= len) <==> (at + 4 < U32 || at + 4 - U32 > len)
  {
    if at + 4 >= U32 { DivModUnique(4 + at, U32, 1, at + 4 - U32); }
  }

  /** The fixup properties from token k on, for the node at token t. */
  function FixProps(ts: seq<Tok>, strs: seq<byte>, t: nat, k: nat, delta: nat): (r: Fixed)
    requires t < |ts| && k <= |ts|
    ensures SameSkel(ts, r.toks)
    decreases |ts| - k
  {
    match NextPropOf(ts[k..])
    case Err(_) => Fixed(ts, 0)
    case At(m) =>
      var p := k + m;
      if |ts[p].val| % 4 != 0 then Fixed(ts, BADOVERLAY)
      else
        match PropOf(ts[t + 1..], strs, NameAt(strs, ts[p].nameoff))
        case Err(e) => Fixed(ts, if e == NOTFOUND then BADOVERLAY else e)
        case At(x) =>
          var a := FixCells(ts, p, t + 1 + x, 0, delta);
          if a.err != 0 then a
          else
            var r := FixProps(a.toks, strs, t, p + 1, delta);
            SkelTrans(ts, a.toks, r.toks);
            r
  }

  /** The node after q among its siblings, and the first child of q. */
  function NextSib(ts: seq<Tok>, q: nat): (r: Option<nat>)
    requires q < |ts|
    ensures r.Some? ==> q < r.value < |ts| && ts[r.value].Begin?
  {
    SibInside(ts[q + 1..], 1);
    var s := SibOf(ts[q + 1..], 1);
    if s.Some? then Some(q + 1 + s.value) else None
  }

  function FirstSibling(ts: seq<Tok>, q: nat): (r: Option<nat>)
    requires q < |ts|
    ensures r.Some? ==> q < r.value < |ts| && ts[r.value].Begin?
  {
    SibInside(ts[q + 1..], 0);
    var s := SibOf(ts[q + 1..], 0);
    if s.Some? then Some(q + 1 + s.value) else None
  }

  lemma {:induction false} SibInside(ts: seq<Tok>, d: nat)
    ensures var s := SibOf(ts, d); s.Some? ==> s.value < |ts| && ts[s.value].Begin?
  {
    if ts != [] {
      SibInside(ts[1..], d);
      SibInside(ts[1..], d + 1);
      if d > 0 { SibInside(ts[1..], d - 1); }
    }
  }

  /** The fixup node at q, for the node at t: its properties, then its children. */
  function FixNode(ts: seq<Tok>, strs: seq<byte>, t: nat, q: nat, delta: nat): (r: Fixed)
    requires t < |ts| && q < |ts|
    ensures SameSkel(ts, r.toks)
    decreases |ts| - q, 0
  {
    var a := FixProps(ts, strs, t, q + 1, delta);
    if a.err != 0 then a
    else
      var r := FixKids(a.toks, strs, t, FirstSibling(a.toks, q), q, delta);
      SkelTrans(ts, a.toks, r.toks);
      r
  }

  function FixKids(ts: seq<Tok>, strs: seq<byte>, t: nat, child: Option<nat>, q: nat, delta: nat): (r: Fixed)
    requires t < |ts| && q < |ts| && (child.Some? ==> q < child.value < |ts| && ts[child.value].Begin?)
    ensures SameSkel(ts, r.toks)
    decreases |ts| - (if child.Some? then child.value else q + 1), 1
  {
    if child.None? then Fixed(ts, 0)
    else
      var c := child.value;
      SubOfFacts(ts[t + 1..], 0, ts[c].name);
      match SubOf(ts[t + 1..], 0, ts[c].name)
      case Err(e) => Fixed(ts, if e == NOTFOUND then BADOVERLAY else e)
      case At(x) =>
        var a := FixNode(ts, strs, t + 1 + x, c, delta);
        if a.err != 0 then a
        else
          var r := FixKids(a.toks, strs, t, NextSib(a.toks, c), c, delta);
          SkelTrans(ts, a.toks, r.toks);
          r
  }

  // ---- the code

  /** Shifts the cells that fixup property p lists in the property called name of node t. */
  method UpdateCells(f: Fdt, tree: nat, fix: nat, name: seq<byte>, delta: nat, ghost t: nat, ghost p: nat,
      ghost j: nat) returns (err: int)
    requires f.Valid() && t < |f.toks| && f.toks[t].Begin? && tree == Off(f.toks, t)
    requires p < |f.toks| && f.toks[p].Prop? && fix == Off(f.toks, p) && |f.toks[p].val| % 4 == 0
    requires t < j < |f.toks| && f.toks[j].Prop? && PropOf(f.toks[t + 1..], f.Strings(), name) == At(j - t - 1)
    modifies f`toks, f.buf
    ensures f.Valid() && f.Strings() == old(f.Strings()) && f.Front() == old(f.Front())
    ensures Fixed(f.toks, err) == FixCells(old(f.toks), p, j, 0, delta)
  {
    hide Off, f.Valid, f.Strings, f.Front, PropOf, Shifted, BeDec, Be, SameSkel, FixCells;
    f.ValidBlocks();
    ghost var ts, strs := f.toks, f.Strings();
    SkelSelf(ts);
    var len := PropLen(f, fix, p);
    var i := 0;
    while i < len / 4
      invariant f.Valid() && f.Blocks() && f.Strings() == strs && f.Front() == old(f.Front()) && SameSkel(ts, f.toks)
      invariant i <= len / 4 && |f.toks| == |ts| && f.toks[p].Prop? && f.toks[j].Prop? && |f.toks[p].val| == len
      invariant FixCells(ts, p, j, 0, delta) == FixCells(f.toks, p, j, i, delta)
    {
      FixCellsStep(f.toks, p, j, i, delta);
      err := UpdateCell(f, tree, fix, name, i, delta, ts, t, p, j);
      if err != 0 { return; }
      i := i + 1;
    }
    FixCellsEnd(f.toks, p, j, i, delta);
    err := 0;
  }

  lemma {:induction false} FixCellsEnd(ts: seq<Tok>, p: nat, j: nat, i: nat, delta: nat)
    requires p < |ts| && j < |ts| && ts[p].Prop? && ts[j].Prop? && |ts[p].val| % 4 == 0 && 4 * i >= |ts[p].val|
    ensures FixCells(ts, p, j, i, delta) == Fixed(ts, 0)
  {
  }

  /** What becomes of the i-th listed offset. */
  function FixCell(ts: seq<Tok>, p: nat, j: nat, i: nat, delta: nat): Fixed
    requires p < |ts| && j < |ts| && ts[p].Prop? && ts[j].Prop? && 4 * i + 4 <= |ts[p].val|
  {
    var at := BeDec(ts[p].val[4 * i..4 * i + 4]);
    if (4 + at) % U32 > |ts[j].val| then Fixed(ts, BADOVERLAY)
    else if at + 4 > |ts[j].val| then Fixed(ts, FAULT)
    else Fixed(Shifted(ts, j, at, delta), 0)
  }

  lemma {:induction false} FixCellsStep(ts: seq<Tok>, p: nat, j: nat, i: nat, delta: nat)
    requires p < |ts| && j < |ts| && ts[p].Prop? && ts[j].Prop? && |ts[p].val| % 4 == 0 && 4 * i < |ts[p].val|
    ensures var r := FixCell(ts, p, j, i, delta);
      SameSkel(ts, r.toks) && p < |r.toks| && r.toks[p].Prop? && r.toks[j].Prop? && |r.toks[p].val| == |ts[p].val| &&
      FixCells(ts, p, j, i, delta) == if r.err != 0 then r else FixCells(r.toks, p, j, i + 1, delta)
  {
    hide Shifted, BeDec;
    SkelSelf(ts);
    var r := FixCell(ts, p, j, i, delta);
    assert SkelTok(ts[p], r.toks[p]) && SkelTok(ts[j], r.toks[j]);
  }

  /** One listed offset: read the cell, add delta, write it back by name. */
  method UpdateCell(f: Fdt, tree: nat, fix: nat, name: seq<byte>, i: nat, delta: nat, ghost ts: seq<Tok>, ghost t: nat,
      ghost p: nat, ghost j: nat) returns (err: int)
    requires f.Valid() && SameSkel(ts, f.toks) && t < |ts| && ts[t].Begin? && tree == Off(ts, t)
    requires p < |ts| && f.toks[p].Prop? && fix == Off(ts, p) && 4 * i + 4 <= |f.toks[p].val|
    requires t < j < |ts| && f.toks[j].Prop? && PropOf(ts[t + 1..], f.Strings(), name) == At(j - t - 1)
    modifies f`toks, f.buf
    ensures f.Valid() && f.Blocks() && f.Strings() == old(f.Strings()) && f.Front() == old(f.Front())
    ensures |f.toks| == |ts| && SameSkel(ts, f.toks) && Fixed(f.toks, err) == FixCell(old(f.toks), p, j, i, delta)
  {
    hide Off, f.Valid, f.Strings, f.Front, PropOf, BeDec, Be, Over, NextPropOf, SameSkel;
    ghost var now := f.toks;
    f.ValidBlocks();
    SkelAt(ts, now, t, p);
    SkelFrom(ts, now, t + 1);
    SkelProp(ts[t + 1..], now[t + 1..], f.Strings(), name);
    var offsets := PropVal(f, fix, p);
    var at := BeDec(offsets[4 * i..4 * i + 4]);
    var off;
    ghost var j1;
    off, j1 := f.GetProperty(tree, name, t);
    var val := PropVal(f, off, j);
    if (4 + at) % U32 > |val| { return BADOVERLAY; }
    if at + 4 > |val| { return FAULT; }
    var cell := (BeDec(val[at..at + 4]) + delta) % U32;
    SetPartial(f, off, at, Be(cell, 4), j);
    f.ValidBlocks();
    assert f.toks == Shifted(now, j, at, delta);
    SkelTrans(ts, now, f.toks);
    err := 0;
  }

  lemma {:induction false} SkelAt(a: seq<Tok>, b: seq<Tok>, t: nat, p: nat)
    requires SameSkel(a, b) && t < |a| && p < |a|
    ensures |a| == |b| && Off(b, t) == Off(a, t) && Off(b, p) == Off(a, p) && SkelTok(a[t], b[t]) && SkelTok(a[p], b[p])
  {
    SkelOff(a, b, t);
    SkelOff(a, b, p);
  }

  /** What becomes of the next fixup property, and where the one after it is looked for. */
  function FixProp(ts: seq<Tok>, strs: seq<byte>, t: nat, p: nat, delta: nat): Fixed
    requires t < |ts| && p < |ts| && ts[p].Prop?
  {
    if |ts[p].val| % 4 != 0 then Fixed(ts, BADOVERLAY)
    else
      match PropOf(ts[t + 1..], strs, NameAt(strs, ts[p].nameoff))
      case Err(e) => Fixed(ts, if e == NOTFOUND then BADOVERLAY else e)
      case At(x) => FixCells(ts, p, t + 1 + x, 0, delta)
  }

  lemma {:induction false} FixPropsStep(ts: seq<Tok>, strs: seq<byte>, t: nat, k: nat, delta: nat)
    requires t < |ts| && k <= |ts|
    ensures match NextPropOf(ts[k..])
      case Err(_) => FixProps(ts, strs, t, k, delta) == Fixed(ts, 0)
      case At(m) =>
        var p := k + m;
        var r := FixProp(ts, strs, t, p, delta);
        SameSkel(ts, r.toks) &&
        FixProps(ts, strs, t, k, delta) == if r.err != 0 then r else FixProps(r.toks, strs, t, p + 1, delta)
  {
    hide NextPropOf, PropOf, FixCells, SameSkel, NameAt;
    SkelSelf(ts);
  }

  /** One fixup property p of the walk. */
  method UpdateProp(f: Fdt, tree: nat, fix: nat, delta: nat, ghost t: nat, ghost p: nat) returns (err: int)
    requires f.Valid() && f.Blocks() && t < |f.toks| && f.toks[t].Begin? && tree == Off(f.toks, t)
    requires p < |f.toks| && f.toks[p].Prop? && fix == Off(f.toks, p)
    modifies f`toks, f.buf
    ensures f.Valid() && f.Blocks() && f.Strings() == old(f.Strings()) && f.Front() == old(f.Front())
    ensures Fixed(f.toks, err) == FixProp(old(f.toks), f.Strings(), t, p, delta)
  {
    hide Off, f.Valid, f.Strings, f.Front, f.Blocks, PropOf, FixCells, NameAt;
    var name, val := PropByOffset(f, fix, p);
    if |val| % 4 != 0 { return BADOVERLAY; }
    var off;
    ghost var j;
    off, j := f.GetProperty(tree, name, t);
    if off < 0 { return if off == NOTFOUND then BADOVERLAY else off; }
    err := UpdateCells(f, tree, fix, name, delta, t, p, j);
    f.ValidBlocks();
  }

  method UpdateProps(f: Fdt, tree: nat, fixup: nat, delta: nat, ghost t: nat, ghost q: nat) returns (err: int)
    requires f.Valid() && f.Blocks() && t < |f.toks| && f.toks[t].Begin? && tree == Off(f.toks, t)
    requires q < |f.toks| && f.toks[q].Begin? && fixup == Off(f.toks, q)
    modifies f`toks, f.buf
    ensures f.Valid() && f.Blocks() && f.Strings() == old(f.Strings()) && f.Front() == old(f.Front())
    ensures Fixed(f.toks, err) == FixProps(old(f.toks), f.Strings(), t, q + 1, delta)
  {
    hide Off, f.Valid, f.Strings, f.Front, f.Blocks, SameSkel, FixProp, FixProps, NextPropOf;
    ghost var ts, strs, k := f.toks, f.Strings(), q + 1;
    SkelSelf(ts);
    var tag, next := f.TagAt(fixup, q);
    var prop;
    ghost var p;
    prop, p := f.NextProp(next, k);
    while prop >= 0
      invariant f.Valid() && f.Blocks() && f.Strings() == strs && f.Front() == old(f.Front()) && SameSkel(ts, f.toks)
      invariant |f.toks| == |ts| && q < k <= |ts| && PropFound(NextPropOf(f.toks[k..]), f.toks, k, prop, p)
      invariant FixProps(ts, strs, t, q + 1, delta) == FixProps(f.toks, strs, t, k, delta)
      decreases |ts| - k
    {
      FixPropsStep(f.toks, strs, t, k, delta);
      SkelAt(ts, f.toks, t, t);
      ghost var now := f.toks;
      err := UpdateProp(f, tree, prop, delta, t, p);
      if err != 0 { return; }
      SkelTrans(ts, now, f.toks);
      SkelAt(now, f.toks, p, p);
      k := p + 1;
      tag, next := f.TagAt(prop, p);
      prop, p := f.NextProp(next, k);
    }
    FixPropsStep(f.toks, strs, t, k, delta);
    err := 0;
  }

  /** The fixup node at q and everything below it, for the node at t. */
  method UpdateNode(f: Fdt, tree: nat, fixup: nat, delta: nat, ghost t: nat, ghost q: nat) returns (err: int)
    requires f.Valid() && f.Blocks() && t < |f.toks| && f.toks[t].Begin? && tree == Off(f.toks, t)
    requires q < |f.toks| && f.toks[q].Begin? && fixup == Off(f.toks, q)
    modifies f`toks, f.buf
    ensures f.Valid() && f.Blocks() && f.Strings() == old(f.Strings()) && f.Front() == old(f.Front())
    ensures Fixed(f.toks, err) == FixNode(old(f.toks), f.Strings(), t, q, delta)
    decreases |f.toks| - q, 0
  {
    hide Off, f.Valid, f.Strings, f.Front, f.Blocks, SameSkel, FixProps, FixKids, FirstSibling;
    ghost var ts := f.toks;
    err := UpdateProps(f, tree, fixup, delta, t, q);
    if err != 0 { return; }
    SkelAt(ts, f.toks, t, q);
    err := UpdateKids(f, tree, fixup, delta, t, q);
  }

  method UpdateKids(f: Fdt, tree: nat, fixup: nat, delta: nat, ghost t: nat, ghost q: nat) returns (err: int)
    requires f.Valid() && f.Blocks() && t < |f.toks| && f.toks[t].Begin? && tree == Off(f.toks, t)
    requires q < |f.toks| && f.toks[q].Begin? && fixup == Off(f.toks, q)
    modifies f`toks, f.buf
    ensures f.Valid() && f.Blocks() && f.Strings() == old(f.Strings()) && f.Front() == old(f.Front())
    ensures Fixed(f.toks, err) == FixKids(old(f.toks), f.Strings(), t, FirstSibling(old(f.toks), q), q, delta)
    decreases |f.toks| - q - 1, 2
  {
    hide Off, f.Valid, f.Strings, f.Front, f.Blocks, SameSkel, FixKids, FixNode, SubOf, SibOf;
    ghost var ts, strs, was := f.toks, f.Strings(), q;
    SkelSelf(ts);
    var child;
    ghost var c;
    child, c := FirstSubnode(f, fixup, q);
    while child >= 0
      invariant f.Valid() && f.Blocks() && f.Strings() == strs && f.Front() == old(f.Front()) && SameSkel(ts, f.toks)
      invariant |f.toks| == |ts|
      invariant q <= was < |ts| && (child >= 0 ==> was < c < |ts| && f.toks[c].Begin? && child == Off(f.toks, c))
      invariant FixKids(ts, strs, t, FirstSibling(ts, q), q, delta) ==
        FixKids(f.toks, strs, t, if child >= 0 then Some(c) else None, was, delta)
      decreases |ts| - was
    {
      FixKidsStep(f.toks, strs, t, c, was, delta);
      SkelAt(ts, f.toks, t, t);
      var name := f.GetName(child, c);
      var target;
      ghost var x;
      target, x := f.SubnodeOffset(tree, name, t);
      if target < 0 { return if target == NOTFOUND then BADOVERLAY else target; }
      ghost var now := f.toks;
      err := UpdateNode(f, target, child, delta, x, c);
      if err != 0 { return; }
      SkelTrans(ts, now, f.toks);
      SkelAt(now, f.toks, c, c);
      was := c;
      child, c := NextSubnode(f, child, c);
    }
    FixKidsEnd(f.toks, strs, t, was, delta);
    err := 0;
  }

  lemma {:induction false} FixKidsEnd(ts: seq<Tok>, strs: seq<byte>, t: nat, q: nat, delta: nat)
    requires t < |ts| && q < |ts|
    ensures FixKids(ts, strs, t, None, q, delta) == Fixed(ts, 0)
  {
  }

  /** The children behind c, once c is done. */
  function AfterKid(a: Fixed, strs: seq<byte>, t: nat, c: nat, delta: nat): Fixed
    requires t < |a.toks| && c < |a.toks|
  {
    if a.err != 0 then a else FixKids(a.toks, strs, t, NextSib(a.toks, c), c, delta)
  }

  lemma {:induction false} FixKidsStep(ts: seq<Tok>, strs: seq<byte>, t: nat, c: nat, q: nat, delta: nat)
    requires t < |ts| && q < c < |ts| && ts[c].Begin?
    ensures match SubOf(ts[t + 1..], 0, ts[c].name)
      case Err(e) => FixKids(ts, strs, t, Some(c), q, delta) == Fixed(ts, if e == NOTFOUND then BADOVERLAY else e)
      case At(x) =>
        t + 1 + x < |ts| &&
        FixKids(ts, strs, t, Some(c), q, delta) == AfterKid(FixNode(ts, strs, t + 1 + x, c, delta), strs, t, c, delta)
  {
    hide SubOf, FixNode, NextSib, SameSkel;
    SubOfFacts(ts[t + 1..], 0, ts[c].name);
  }
}

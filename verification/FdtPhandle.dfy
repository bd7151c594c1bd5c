/**
 * Moving all phandles of an overlay out of the way of the base tree: every
 * phandle grows by the same amount, in place, or the overlay is refused.
 */
module FdtPhandle {
  import opened Bytes
  import opened FdtTokens
  import opened FdtTree
  import opened FdtSpec
  import opened FdtBlob
  import opened FdtEdit
  import opened FdtRw
  import opened FdtRefine
  import opened FdtOps
  import opened FdtIter
  import opened FdtWriter
  import opened FdtOverlay

  const PHANDLE: seq<byte> := [0x70, 0x68, 0x61, 0x6e, 0x64, 0x6c, 0x65]
  const LINUX_PHANDLE: seq<byte> := [0x6c, 0x69, 0x6e, 0x75, 0x78, 0x2c, 0x70, 0x68, 0x61, 0x6e, 0x64, 0x6c, 0x65]

  // ---- the move, on trees

  datatype Moved<T> = Good(value: T) | Bad(err: int)

  /** One phandle property. A value that would pass the last usable phandle is refused. */
  function MoveProp(props: seq<AProp>, name: seq<byte>, delta: nat): (r: Moved<seq<AProp>>)
    ensures r.Bad? ==> r.err == BADPHANDLE || r.err == NOPHANDLES
  {
    var v := Get(props, name);
    if v.None? then Good(props)
    else if |v.value| != 4 then Bad(BADPHANDLE)
    else if BeDec(v.value) + delta >= U32 - 1 then Bad(NOPHANDLES)
    else Good(Replace(props, name, Be(BeDec(v.value) + delta, 4)))
  }

  function MoveNode(a: ANode, delta: nat): (r: Moved<ANode>)
    ensures r.Bad? ==> r.err == BADPHANDLE || r.err == NOPHANDLES
    decreases a, 1
  {
    var p := MoveProp(a.props, PHANDLE, delta);
    if p.Bad? then Bad(p.err)
    else
      var q := MoveProp(p.value, LINUX_PHANDLE, delta);
      if q.Bad? then Bad(q.err)
      else
        var ks := MoveKids(a.kids, delta);
        if ks.Bad? then Bad(ks.err) else Good(ANode(a.name, q.value, ks.value))
  }

  function MoveKids(kids: seq<ANode>, delta: nat): (r: Moved<seq<ANode>>)
    ensures r.Good? ==> |r.value| == |kids|
    ensures r.Bad? ==> r.err == BADPHANDLE || r.err == NOPHANDLES
    decreases kids, 0
  {
    if kids == [] then Good([])
    else
      var k := MoveNode(kids[0], delta);
      if k.Bad? then Bad(k.err)
      else
        var ks := MoveKids(kids[1..], delta);
        if ks.Bad? then ks else Good([k.value] + ks.value)
  }

  // ---- what the move keeps

  /** The phandle of a node: either property, if it holds one cell. */
  function Handle(props: seq<AProp>): Option<nat> {
    var v := Get(props, PHANDLE);
    if v.Some? && |v.value| == 4 then Some(BeDec(v.value))
    else
      var w := Get(props, LINUX_PHANDLE);
      if w.Some? && |w.value| == 4 then Some(BeDec(w.value)) else None
  }

  /** The phandles of all nodes, in tree order. */
  function Handles(a: ANode): seq<Option<nat>>
    decreases a, 1
  {
    [Handle(a.props)] + KidHandles(a.kids)
  }

  function KidHandles(kids: seq<ANode>): seq<Option<nat>>
    decreases kids, 0
  {
    if kids == [] then [] else Handles(kids[0]) + KidHandles(kids[1..])
  }

  function Plus(hs: seq<Option<nat>>, delta: nat): (r: seq<Option<nat>>)
    ensures |r| == |hs| && forall i :: 0 <= i < |hs| ==> r[i] == if hs[i].Some? then Some(hs[i].value + delta) else None
  {
    if hs == [] then [] else [if hs[0].Some? then Some(hs[0].value + delta) else None] + Plus(hs[1..], delta)
  }

  lemma {:induction false} PlusConcat(a: seq<Option<nat>>, b: seq<Option<nat>>, delta: nat)
    ensures Plus(a + b, delta) == Plus(a, delta) + Plus(b, delta)
  {
    hide Plus;
    var l, r := Plus(a + b, delta), Plus(a, delta) + Plus(b, delta);
    forall i | 0 <= i < |l| ensures l[i] == r[i] { assert (a + b)[i] == if i < |a| then a[i] else b[i - |a|]; }
  }

  predicate Shifts(v: seq<byte>, w: Option<seq<byte>>, delta: nat) {
    |v| == 4 && w.Some? && |w.value| == 4 && BeDec(w.value) == BeDec(v) + delta < U32 - 1
  }

  lemma {:induction false} MovedProp(props: seq<AProp>, name: seq<byte>, delta: nat, other: seq<byte>)
    requires MoveProp(props, name, delta).Good?
    ensures var r := MoveProp(props, name, delta).value;
      && (other != name ==> Get(r, other) == Get(props, other))
      && (Get(props, name).None? ==> Get(r, name).None?)
      && (Get(props, name).Some? ==> Shifts(Get(props, name).value, Get(r, name), delta))
  {
    hide Be, BeDec;
    var v := Get(props, name);
    if v.Some? {
      SpanValues();
      BeRoundTrip(BeDec(v.value) + delta, 4);
      GetReplace(props, name, Be(BeDec(v.value) + delta, 4), other);
      GetReplace(props, name, Be(BeDec(v.value) + delta, 4), name);
    }
  }

  /** After the move every phandle of the tree, node by node, is the old one plus delta, and none is lost or made up. */
  lemma {:induction false} HandlesMove(a: ANode, delta: nat)
    requires MoveNode(a, delta).Good?
    ensures Handles(MoveNode(a, delta).value) == Plus(Handles(a), delta)
    decreases a, 1
  {
    var p := MoveProp(a.props, PHANDLE, delta).value;
    OneMoved(a.props, delta);
    KidHandlesMove(a.kids, delta);
    PlusConcat([Handle(a.props)], KidHandles(a.kids), delta);
  }

  lemma {:induction false} OneMoved(props: seq<AProp>, delta: nat)
    requires MoveProp(props, PHANDLE, delta).Good?
    requires MoveProp(MoveProp(props, PHANDLE, delta).value, LINUX_PHANDLE, delta).Good?
    ensures var r := MoveProp(MoveProp(props, PHANDLE, delta).value, LINUX_PHANDLE, delta).value;
      [Handle(r)] == Plus([Handle(props)], delta)
  {
    hide MoveProp, BeDec;
    assert |PHANDLE| != |LINUX_PHANDLE|;
    var p := MoveProp(props, PHANDLE, delta).value;
    MovedProp(props, PHANDLE, delta, LINUX_PHANDLE);
    MovedProp(p, LINUX_PHANDLE, delta, PHANDLE);
  }

  lemma {:induction false} KidHandlesMove(kids: seq<ANode>, delta: nat)
    requires MoveKids(kids, delta).Good?
    ensures KidHandles(MoveKids(kids, delta).value) == Plus(KidHandles(kids), delta)
    decreases kids, 0
  {
    if kids != [] {
      HandlesMove(kids[0], delta);
      KidHandlesMove(kids[1..], delta);
      PlusConcat(Handles(kids[0]), KidHandles(kids[1..]), delta);
      var r := MoveKids(kids, delta).value;
      assert r[1..] == MoveKids(kids[1..], delta).value;
    }
  }

  // ---- a property value changed in place

  lemma {:induction false} ValueBytes(ts: seq<Tok>, i: nat, idx: nat, bs: seq<byte>)
    requires i < |ts| && ts[i].Prop? && idx + |bs| <= |ts[i].val| && Off(ts, i) + 12 + |ts[i].val| <= Size(ts)
    ensures Over(Enc(ts), Off(ts, i) + 12 + idx, bs) == Enc(ts[i := ts[i].(val := Over(ts[i].val, idx, bs))])
  {
    hide Enc, Be, EncTok, Over;
    var t, t' := ts[i], ts[i].(val := Over(ts[i].val, idx, bs));
    EncAround(ts, i, t');
    PropParts(t);
    PropParts(t');
    var h := Be(PROP, 4) + Be(|t.val|, 4) + Be(t.nameoff, 4);
    OverVal(Enc(ts[..i]), h, t.val, t.pad, Enc(ts[i + 1..]), idx, bs);
  }

  lemma {:induction false} OverVal(p: seq<byte>, h: seq<byte>, v: seq<byte>, pad: seq<byte>, r: seq<byte>, idx: nat,
      bs: seq<byte>)
    requires idx + |bs| <= |v|
    ensures Over(p + (h + (v + pad) + r), |p| + |h| + idx, bs) == p + (h + (Over(v, idx, bs) + pad) + r)
  {
    var s, k := p + (h + (v + pad) + r), |p| + |h| + idx;
    assert s[..k] == p + h + v[..idx];
    assert s[k + |bs|..] == v[idx + |bs|..] + pad + r;
  }

  /** Overwrites part of the value of property j. */
  method SetPartial(f: Fdt, off: nat, idx: nat, bs: seq<byte>, ghost j: nat)
    requires f.Valid() && j < |f.toks| && f.toks[j].Prop? && off == Off(f.toks, j) && idx + |bs| <= |f.toks[j].val|
    modifies f`toks, f.buf
    ensures f.Valid() && f.Strings() == old(f.Strings())
    ensures f.toks == old(f.toks)[j := old(f.toks)[j].(val := Over(old(f.toks)[j].val, idx, bs))]
    ensures f.Front() == old(f.Front())
  {
    hide Enc, Off, Part, Over, NameOk;
    ghost var ts := f.toks;
    PropIn(ts, j);
    ValueBytes(ts, j, idx, bs);
    Poke(f, off + 12 + idx, bs);
    NamesReplace(ts, f.Strings(), j, ts[j].(val := Over(ts[j].val, idx, bs)));
    Retag(f, ts[j := ts[j].(val := Over(ts[j].val, idx, bs))]);
  }

  // ---- which tokens the move touches

  predicate IsHandle(t: Tok, strs: seq<byte>) {
    t.Prop? && (NameAt(strs, t.nameoff) == PHANDLE || NameAt(strs, t.nameoff) == LINUX_PHANDLE)
  }

  /** b is a, with other values of the same length in phandle properties, and in none if delta is zero. */
  predicate OnlyHandles(a: seq<Tok>, b: seq<Tok>, strs: seq<byte>, delta: nat) {
    SameSkel(a, b) && forall i :: 0 <= i < |a| && b[i] != a[i] ==> IsHandle(a[i], strs) && delta > 0
  }

  lemma {:induction false} OnlySelf(ts: seq<Tok>, strs: seq<byte>, delta: nat)
    ensures OnlyHandles(ts, ts, strs, delta)
  {
  }

  lemma {:induction false} OnlyTrans(a: seq<Tok>, b: seq<Tok>, c: seq<Tok>, strs: seq<byte>, delta: nat)
    requires OnlyHandles(a, b, strs, delta) && OnlyHandles(b, c, strs, delta)
    ensures OnlyHandles(a, c, strs, delta)
  {
    SkelTrans(a, b, c);
    forall i | 0 <= i < |a| && c[i] != a[i] ensures IsHandle(a[i], strs) && delta > 0 {
      assert SkelTok(a[i], b[i]);
      if b[i] == a[i] { assert IsHandle(b[i], strs); }
    }
  }

  /** A new phandle value in the property called name. */
  lemma {:induction false} OnlyOne(ts: seq<Tok>, j: nat, strs: seq<byte>, delta: nat, bs: seq<byte>)
    requires j < |ts| && IsHandle(ts[j], strs) && |ts[j].val| == 4 && BeDec(ts[j].val) + delta < U32
    requires bs == Be(BeDec(ts[j].val) + delta, 4)
    ensures OnlyHandles(ts, ts[j := ts[j].(val := bs)], strs, delta)
  {
    hide Be, BeDec, NameAt;
    if delta == 0 {
      BeDecEnc(ts[j].val);
      assert ts[j := ts[j].(val := bs)] == ts;
    }
  }

  // ---- the code

  /** Adds delta to the phandle property called name, if node n has it. */
  method AddOffset(f: Fdt, nodeoffset: nat, name: seq<byte>, delta: nat, ghost c: Ctx, ghost n: Node,
      ghost tail: seq<Tok>) returns (err: int, ghost n': Node)
    requires InTree(f, c, n, tail) && nodeoffset == Place(c) && delta < U32
    modifies f`toks, f.buf
    ensures InTree(f, c, n', tail) && f.Strings() == old(f.Strings()) && n'.name == n.name
    ensures AbsKids(n'.items, f.Strings()) == AbsKids(n.items, f.Strings())
    ensures SameShape(n, n')
    ensures var r := MoveProp(AbsProps(n.items, f.Strings()), name, delta);
      && (r.Bad? ==> err == r.err && n' == n)
      && (r.Good? ==> (err == 0 || (err == NOTFOUND && n' == n)) && AbsProps(n'.items, f.Strings()) == r.value)
    ensures f.Front() == old(f.Front())
    ensures (name == PHANDLE || name == LINUX_PHANDLE ==> OnlyHandles(old(f.toks), f.toks, f.Strings(), delta))
  {
    hide Pre, Post, FlatItems, Off, Part, PropOf, PropIndex, AbsKids, AbsProps, Get, f.Valid, Spells, NodeOk, CtxOk,
        Size, Be, BeDec, Replace, PutItems, SameShape, OnlyHandles;
    n' := n;
    TreeHere(f, c, n, tail);
    SameItself(n);
    ghost var strs, ts := f.Strings(), f.toks;
    PropHeld(ts, c, n, tail, strs, name);
    GetIs(n.items, strs, name);
    OnlySelf(ts, strs, delta);
    var off;
    ghost var j;
    off, j := f.GetProperty(nodeoffset, name, |Pre(c)|);
    if off < 0 { return off, n; }
    var val := PropVal(f, off, j);
    if |val| != 4 { return BADPHANDLE, n; }
    var v := NewHandle(val, delta);
    if v < 0 { return NOPHANDLES, n; }
    n' := PutValue(f, off, val, Be(v, 4), j, c, n, tail, name);
    if name == PHANDLE || name == LINUX_PHANDLE { OnlyOne(ts, j, strs, delta, Be(v, 4)); }
    err := 0;
  }

  lemma {:induction false} SameItself(n: Node)
    ensures SameShape(n, n)
  {
  }

  /** The value plus delta in 32-bit arithmetic, or -1 when that wraps or is the reserved last value. */
  method NewHandle(val: seq<byte>, delta: nat) returns (v: int)
    requires |val| == 4 && delta < U32
    ensures v == if BeDec(val) + delta >= U32 - 1 then -1 else BeDec(val) + delta
  {
    hide BeDec;
    SpanValues();
    var x := BeDec(val);
    if (x + delta) % U32 < x { Wraps(x, delta); return -1; }
    NoWrap(x, delta);
    x := x + delta;
    return if x == U32 - 1 then -1 else x;
  }

  /** Overwrites the value of the property called name with one of the same length. */
  method PutValue(f: Fdt, off: nat, ghost val: seq<byte>, bs: seq<byte>, ghost j: nat, ghost c: Ctx, ghost n: Node,
      ghost tail: seq<Tok>, ghost name: seq<byte>) returns (ghost n': Node)
    requires InTree(f, c, n, tail) && PropIndex(n.items, f.Strings(), name) < |n.items|
    requires j == |Pre(c)| + 1 + PropIndex(n.items, f.Strings(), name)
    requires j < |f.toks| && off == Off(f.toks, j)
    requires [f.toks[j]] == FlatItem(n.items[PropIndex(n.items, f.Strings(), name)])
    requires f.toks[j].Prop? && f.toks[j].val == val && |bs| == |val|
    modifies f`toks, f.buf
    ensures InTree(f, c, n', tail) && f.Strings() == old(f.Strings()) && n'.name == n.name && SameShape(n, n')
    ensures AbsKids(n'.items, f.Strings()) == AbsKids(n.items, f.Strings())
    ensures AbsProps(n'.items, f.Strings()) == Replace(AbsProps(n.items, f.Strings()), name, bs)
    ensures f.Front() == old(f.Front()) && f.toks == old(f.toks)[j := old(f.toks)[j].(val := bs)]
  {
    hide Pre, Post, FlatItems, Off, Part, PropOf, PropIndex, AbsKids, AbsProps, Get, f.Valid, Spells, Size, Replace,
        Over;
    ghost var strs, ts := f.Strings(), f.toks;
    ghost var pad, nameoff := ts[j].pad, ts[j].nameoff;
    SetPartial(f, off, 0, bs, j);
    f.ValidBlocks();
    OverAll(val, bs);
    PutTree(ts, Pre(c), n, Post(c) + tail, strs, name, nameoff, bs, pad);
    n' := n.(items := PutItems(n.items, strs, name, nameoff, bs, pad));
    InPlace(n.items, strs, name, nameoff, bs, pad);
  }

  lemma {:induction false} OverAll(val: seq<byte>, bs: seq<byte>)
    requires |val| == |bs|
    ensures Over(val, 0, bs) == bs
  {
  }

  lemma {:induction false} Wraps(v: nat, delta: nat)
    requires v < U32 && delta < U32 && (v + delta) % U32 < v
    ensures v + delta >= U32
  {
  }

  lemma {:induction false} NoWrap(v: nat, delta: nat)
    requires v < U32 && delta < U32 && (v + delta) % U32 >= v
    ensures v + delta < U32
  {
  }

  /** The same children at the same item positions. */
  ghost predicate SameShape(n: Node, n': Node) {
    |n'.items| == |n.items| &&
    forall i :: 0 <= i < |n.items| ==> if n.items[i].SubItem? then n'.items[i] == n.items[i] else !n'.items[i].SubItem?
  }

  lemma {:induction false} InPlace(items: seq<Item>, strs: seq<byte>, name: seq<byte>, nameoff: nat, val: seq<byte>,
      pad: seq<byte>)
    requires PropIndex(items, strs, name) < |items|
    ensures var items' := PutItems(items, strs, name, nameoff, val, pad);
      && AbsProps(items', strs) == Replace(AbsProps(items, strs), name, val)
      && AbsKids(items', strs) == AbsKids(items, strs)
      && |items'| == |items|
      && forall i :: 0 <= i < |items| ==> if items[i].SubItem? then items'[i] == items[i] else !items'[i].SubItem?
  {
    hide AbsProps, AbsKids;
    AbsReplace(items, strs, name, val, pad);
    KidsSame(items, PutItems(items, strs, name, nameoff, val, pad), strs);
  }

  lemma {:induction false} KidsAfter(n: Node, q: nat, m: Node, strs: seq<byte>)
    requires q < |n.items| && n.items[q].SubItem?
    ensures var n' := n.(items := n.items[..q] + [SubItem(m)] + n.items[q + 1..]);
      && AbsProps(n'.items, strs) == AbsProps(n.items, strs) && |n'.items| == |n.items|
      && n'.items[q + 1..] == n.items[q + 1..] && n'.items[..q] == n.items[..q] && n'.items[q] == SubItem(m)
      && AbsKids(n'.items, strs) == AbsKids(n.items[..q], strs) + [Abs(m, strs)] + AbsKids(n.items[q + 1..], strs)
  {
    hide AbsProps, AbsKids;
    assert n.items == n.items[..q] + [SubItem(n.items[q].node)] + n.items[q + 1..];
    PropsBeforeChild(n.items[..q], n.items[q].node, n.items[q + 1..], strs);
    PropsBeforeChild(n.items[..q], m, n.items[q + 1..], strs);
    KidsAround(n.items[..q], m, n.items[q + 1..], strs);
  }

  // ---- children in turn

  lemma {:induction false} MoveConcat(a: seq<ANode>, b: seq<ANode>, delta: nat)
    requires MoveKids(a, delta).Good?
    ensures var r := MoveKids(b, delta);
      MoveKids(a + b, delta) == if r.Bad? then r else Good(MoveKids(a, delta).value + r.value)
    decreases a
  {
    hide MoveNode;
    if a == [] {
      assert a + b == b;
      var r := MoveKids(b, delta);
      if r.Good? { assert [] + r.value == r.value; }
    } else {
      assert (a + b)[1..] == a[1..] + b;
      MoveConcat(a[1..], b, delta);
      var k, r := MoveNode(a[0], delta), MoveKids(b, delta);
      if r.Good? { Assoc([k.value], MoveKids(a[1..], delta).value, r.value); }
    }
  }

  lemma {:induction false} MoveFirst(x: ANode, rest: seq<ANode>, delta: nat)
    ensures MoveNode(x, delta).Bad? ==> MoveKids([x] + rest, delta) == Bad(MoveNode(x, delta).err)
    ensures MoveNode(x, delta).Good? ==> MoveKids([x], delta) == Good([MoveNode(x, delta).value])
  {
    hide MoveNode;
    assert ([x] + rest)[0] == x && [x][1..] == [];
    var k := MoveNode(x, delta);
    if k.Good? { assert [k.value] + [] == [k.value]; }
  }

  /** Children before item q are done, the rest are as they were. */
  ghost predicate Halfway(n1: Node, n': Node, q: nat, strs: seq<byte>, delta: nat, past: seq<ANode>) {
    && q <= |n1.items| == |n'.items| && n'.items[q..] == n1.items[q..] && n'.name == n1.name
    && (q < |n1.items| ==> n1.items[q].SubItem?)
    && AbsProps(n'.items, strs) == AbsProps(n1.items, strs)
    && AbsKids(n1.items, strs) == past + KidsAt(n1.items, q, strs)
    && MoveKids(past, delta) == Good(AbsKids(n'.items[..q], strs))
  }

  lemma {:induction false} HalfwayStart(n1: Node, strs: seq<byte>, delta: nat)
    ensures Halfway(n1, n1, NextKid(n1.items, 0), strs, delta, [])
  {
    var q := NextKid(n1.items, 0);
    KidsFrom(n1.items, 0, strs);
    assert n1.items[0..] == n1.items;
    assert [] + KidsAt(n1.items, q, strs) == KidsAt(n1.items, q, strs);
    PropsConcat(n1.items[..q], [], strs);
  }

  lemma {:induction false} HalfwayStep(n1: Node, n': Node, q: nat, strs: seq<byte>, delta: nat, past: seq<ANode>,
      m: Node)
    requires Halfway(n1, n', q, strs, delta, past) && q < |n1.items|
    requires var x := Abs(n1.items[q].node, strs); MoveNode(x, delta) == Good(Abs(m, strs))
    ensures Halfway(n1, n'.(items := n'.items[..q] + [SubItem(m)] + n'.items[q + 1..]), NextKid(n1.items, q + 1), strs,
      delta, past + [Abs(n1.items[q].node, strs)])
  {
    hide AbsProps, AbsKids, MoveKids, MoveNode, NextKid, Abs, KidsAt;
    var x, r := Abs(n1.items[q].node, strs), NextKid(n1.items, q + 1);
    HalfwayShape(n1.items, n'.items, q, r, m);
    KidsAfter(n', q, m, strs);
    HalfwayKids(n'.items, q, r, m, strs);
    KidsBehind(n1.items, q, strs);
    Assoc(past, [x], KidsAt(n1.items, r, strs));
    MoveFirst(x, [], delta);
    MoveConcat(past, [x], delta);
  }

  lemma {:induction false} HalfwayShape(items: seq<Item>, items': seq<Item>, q: nat, r: nat, m: Node)
    requires q < r <= |items| == |items'| && items'[q..] == items[q..] && forall i :: q < i < r ==> !items[i].SubItem?
    ensures items'[q] == items[q] && forall i :: q < i < r ==> !items'[i].SubItem?
    ensures (items'[..q] + [SubItem(m)] + items'[q + 1..])[r..] == items[r..]
  {
    assert forall i :: q <= i < |items| ==> items'[i] == items'[q..][i - q] == items[i];
  }

  lemma {:induction false} KidsBehind(items: seq<Item>, q: nat, strs: seq<byte>)
    requires q < |items| && items[q].SubItem?
    ensures KidsAt(items, q, strs) == [Abs(items[q].node, strs)] + KidsAt(items, NextKid(items, q + 1), strs)
  {
    hide AbsKids, NextKid, Abs;
    KidsFrom(items, q + 1, strs);
  }

  /** With child m in place of item q, and no further child before item r. */
  lemma {:induction false} HalfwayKids(items: seq<Item>, q: nat, r: nat, m: Node, strs: seq<byte>)
    requires q < r <= |items| && forall i :: q < i < r ==> !items[i].SubItem?
    ensures var items' := items[..q] + [SubItem(m)] + items[q + 1..];
      items'[r..] == items[r..] && AbsKids(items'[..r], strs) == AbsKids(items[..q], strs) + [Abs(m, strs)]
  {
    hide AbsProps, AbsKids, Abs;
    var items', between := items[..q] + [SubItem(m)] + items[q + 1..], items[q + 1..r];
    assert items'[..r] == items[..q] + [SubItem(m)] + between;
    KidsAround(items[..q], m, between, strs);
    PropsConcat(between, [], strs);
    assert AbsKids(items[..q], strs) + [Abs(m, strs)] + [] == AbsKids(items[..q], strs) + [Abs(m, strs)];
  }

  lemma {:induction false} HalfwayBad(n1: Node, n': Node, q: nat, strs: seq<byte>, delta: nat, past: seq<ANode>)
    requires Halfway(n1, n', q, strs, delta, past) && q < |n1.items|
    requires MoveNode(Abs(n1.items[q].node, strs), delta).Bad?
    ensures MoveKids(AbsKids(n1.items, strs), delta) == Bad(MoveNode(Abs(n1.items[q].node, strs), delta).err)
  {
    hide AbsProps, AbsKids, MoveKids, MoveNode, Abs;
    var x := Abs(n1.items[q].node, strs);
    MoveFirst(x, AbsKids(n1.items[q + 1..], strs), delta);
    MoveConcat(past, KidsAt(n1.items, q, strs), delta);
  }

  lemma {:induction false} HalfwayDone(n1: Node, n': Node, q: nat, strs: seq<byte>, delta: nat, past: seq<ANode>)
    requires Halfway(n1, n', q, strs, delta, past) && q == |n1.items|
    ensures MoveKids(AbsKids(n1.items, strs), delta) == Good(AbsKids(n'.items, strs))
    ensures n'.name == n1.name && AbsProps(n'.items, strs) == AbsProps(n1.items, strs)
  {
    hide AbsProps, AbsKids, MoveKids;
    assert past + [] == past && n'.items[..q] == n'.items;
  }

  /** How many nodes a node holds, itself included. */
  ghost function Weight(n: Node): nat
    decreases n, 1
  {
    1 + ItemsWeight(n.items)
  }

  ghost function ItemsWeight(items: seq<Item>): nat
    decreases items, 0
  {
    if items == [] then 0 else (if items[0].SubItem? then ItemWeight(items[0]) else 0) + ItemsWeight(items[1..])
  }

  ghost function ItemWeight(it: Item): (w: nat)
    requires it.SubItem?
    ensures w == Weight(it.node)
    decreases it, 2
  {
    Weight(it.node)
  }

  lemma {:induction false} WeightSame(items: seq<Item>, items': seq<Item>)
    requires |items'| == |items| && forall i :: 0 <= i < |items| ==>
      if items[i].SubItem? then items'[i] == items[i] else !items'[i].SubItem?
    ensures ItemsWeight(items') == ItemsWeight(items)
  {
    if items != [] { WeightSame(items[1..], items'[1..]); }
  }

  lemma {:induction false} WeightChild(items: seq<Item>, q: nat)
    requires q < |items| && items[q].SubItem?
    ensures Weight(items[q].node) <= ItemsWeight(items)
  {
    if q > 0 { WeightChild(items[1..], q - 1); }
  }

  /** Adds delta to every phandle of node n and below. */
  method AdjustNode(f: Fdt, node: nat, delta: nat, ghost c: Ctx, ghost n: Node, ghost tail: seq<Tok>) returns (err: int,
      ghost n': Node)
    requires InTree(f, c, n, tail) && node == Place(c) && delta < U32
    modifies f`toks, f.buf
    ensures InTree(f, c, n', tail) && f.Strings() == old(f.Strings()) && n'.name == n.name
    ensures var r := MoveNode(Abs(n, f.Strings()), delta);
      if r.Bad? then err == r.err else err == 0 && Abs(n', f.Strings()) == r.value
    ensures f.Front() == old(f.Front()) && OnlyHandles(old(f.toks), f.toks, f.Strings(), delta)
    decreases Weight(n), 1
  {
    hide Pre, Post, FlatItems, f.Valid, f.Front, Spells, Size, AbsKids, AbsProps, MoveProp, MoveKids, ItemsWeight,
        OnlyHandles;
    ghost var ts := f.toks;
    err, n' := AddOffset(f, node, PHANDLE, delta, c, n, tail);
    if err != 0 && err != NOTFOUND { return; }
    ghost var n1, ts1 := n', f.toks;
    WeightSame(n.items, n1.items);
    err, n' := AddOffset(f, node, LINUX_PHANDLE, delta, c, n1, tail);
    ghost var ts2 := f.toks;
    OnlyTrans(ts, ts1, ts2, f.Strings(), delta);
    if err != 0 && err != NOTFOUND { return; }
    WeightSame(n1.items, n'.items);
    err, n' := AdjustKids(f, node, delta, c, n', tail);
    OnlyTrans(ts, ts2, f.toks, f.Strings(), delta);
  }

  method AdjustKids(f: Fdt, node: nat, delta: nat, ghost c: Ctx, ghost n1: Node, ghost tail: seq<Tok>)
      returns (err: int, ghost n': Node)
    requires InTree(f, c, n1, tail) && node == Place(c) && delta < U32
    modifies f`toks, f.buf
    ensures InTree(f, c, n', tail) && f.Strings() == old(f.Strings()) && n'.name == n1.name
    ensures AbsProps(n'.items, f.Strings()) == AbsProps(n1.items, f.Strings())
    ensures var r := MoveKids(AbsKids(n1.items, f.Strings()), delta);
      if r.Bad? then err == r.err else err == 0 && AbsKids(n'.items, f.Strings()) == r.value
    ensures f.Front() == old(f.Front()) && OnlyHandles(old(f.toks), f.toks, f.Strings(), delta)
    decreases Weight(n1), 0
  {
    hide Pre, Post, FlatItems, f.Valid, f.Front, Spells, Size, AbsKids, AbsProps, MoveKids, MoveNode, ItemsWeight,
        NextKid, Halfway, Place, Abs, OnlyHandles;
    ghost var strs, q, past, ts := f.Strings(), NextKid(n1.items, 0), [], f.toks;
    OnlySelf(ts, strs, delta);
    err, n' := 0, n1;
    HalfwayStart(n1, strs, delta);
    var child := FirstChild(f, node, c, n1, tail);
    while child >= 0
      invariant InTree(f, c, n', tail) && f.Strings() == strs && f.Front() == old(f.Front())
      invariant Halfway(n1, n', q, strs, delta, past) && q <= |n1.items| == |n'.items|
      invariant OnlyHandles(ts, f.toks, strs, delta)
      invariant if q == |n1.items| then child == NOTFOUND else KidAt(f, c, n', tail, q, child)
      decreases |n1.items| - q
    {
      HalfwayItem(n1, n', q, strs, delta, past);
      WeightChild(n1.items, q);
      ghost var m, now;
      now := f.toks;
      err, m := AdjustNode(f, child, delta, Child(c, n', q), n'.items[q].node, tail);
      OnlyTrans(ts, now, f.toks, strs, delta);
      ghost var n2 := n'.(items := n'.items[..q] + [SubItem(m)] + n'.items[q + 1..]);
      Ascend(f, c, n', tail, n'.items[..q], m, n'.items[q + 1..]);
      KidsAfter(n', q, m, strs);
      if err != 0 {
        HalfwayBad(n1, n', q, strs, delta, past);
        n' := n2;
        return;
      }
      HalfwayStep(n1, n', q, strs, delta, past, m);
      child := NextChild(f, child, c, n2, tail, q);
      SameKids(n1.items, n2.items, q);
      n', past, q := n2, past + [Abs(n1.items[q].node, strs)], NextKid(n1.items, q + 1);
    }
    HalfwayDone(n1, n', q, strs, delta, past);
  }

  lemma {:induction false} HalfwayItem(n1: Node, n': Node, q: nat, strs: seq<byte>, delta: nat, past: seq<ANode>)
    requires Halfway(n1, n', q, strs, delta, past) && q < |n1.items|
    ensures |n'.items| == |n1.items| && n1.items[q].SubItem? && n'.items[q] == n1.items[q]
    ensures n'.items[q + 1..] == n1.items[q + 1..] && n'.name == n1.name
    ensures AbsProps(n'.items, strs) == AbsProps(n1.items, strs)
  {
    assert n'.items[q] == n'.items[q..][0] && n'.items[q..][1..] == n'.items[q + 1..] &&
      n1.items[q..][1..] == n1.items[q + 1..];
  }

  lemma {:induction false} SameKids(items: seq<Item>, items': seq<Item>, q: nat)
    requires q < |items| == |items'| && items'[q + 1..] == items[q + 1..]
    ensures NextKid(items', q + 1) == NextKid(items, q + 1)
  {
    NextKidIs(items, q + 1);
    NextKidIs(items', q + 1);
  }
}

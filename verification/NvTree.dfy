/**
 * Name/value trees as values: what a list holds, its packed size and the
 * sequence of packed pieces ("chunks") it turns into.
 */
module NvTree {
  import opened Bytes

  const NAME_MAX: nat := 2048
  /** Size of a packed list header and of a packed pair header. */
  const HDR: nat := 19
  /** Size of a packed marker: a pair header and an empty name. */
  const MARK: nat := 20

  const T_NVLIST: byte := 5
  const T_NVLIST_ARRAY: byte := 11
  const T_NEXT: byte := 254
  const T_UP: byte := 255

  datatype Scalar =
    | Null
    | Bool(b: bool)
    | Number(n: nat)
    | Str(s: seq<byte>)
    | Binary(bs: seq<byte>)
    | BoolArray(bools: seq<byte>)
    | NumberArray(ns: seq<nat>)
    | StringArray(ss: seq<seq<byte>>)

  datatype Value = Leaf(s: Scalar) | Nested(list: Tree) | Elems(lists: seq<Tree>)
  datatype Pair = Pair(name: seq<byte>, value: Value)
  /** flags holds the public flags only: bit 0 ignore-case, bit 1 no-unique. */
  datatype Tree = Tree(flags: byte, pairs: seq<Pair>)

  predicate IgnoreCase(flags: nat) { flags % 2 == 1 }
  predicate NoUnique(flags: nat) { flags / 2 % 2 == 1 }

  function FoldByte(b: byte): byte { if 65 <= b <= 90 then b + 32 else b }

  predicate SameName(flags: nat, a: seq<byte>, b: seq<byte>) {
    if IgnoreCase(flags)
    then |a| == |b| && forall i :: 0 <= i < |a| ==> FoldByte(a[i]) == FoldByte(b[i])
    else a == b
  }

  predicate ValidName(name: seq<byte>) { |name| < NAME_MAX && NoNul(name) }

  predicate WfScalar(s: Scalar) {
    match s
    case Null => true
    case Bool(_) => true
    case Number(n) => n < U64
    case Str(bs) => NoNul(bs)
    case Binary(bs) => bs != []
    case BoolArray(bs) => bs != []
    case NumberArray(ns) => ns != [] && forall i :: 0 <= i < |ns| ==> ns[i] < U64
    case StringArray(ss) => ss != [] && forall i :: 0 <= i < |ss| ==> NoNul(ss[i])
  }

  /** The name clashes with none of the given pairs, under the list's own rule. */
  predicate Fresh(flags: nat, name: seq<byte>, ps: seq<Pair>) {
    NoUnique(flags) || forall i :: 0 <= i < |ps| ==> !SameName(flags, ps[i].name, name)
  }

  predicate Unique(flags: nat, ps: seq<Pair>) {
    NoUnique(flags) || forall i, j :: 0 <= i < j < |ps| ==> !SameName(flags, ps[i].name, ps[j].name)
  }

  predicate WfTree(t: Tree) {
    t.flags < 4 && Unique(t.flags, t.pairs) && forall i :: 0 <= i < |t.pairs| ==> WfPair(t.pairs[i])
  }

  predicate WfPair(p: Pair) {
    ValidName(p.name) &&
    match p.value
    case Leaf(s) => WfScalar(s)
    case Nested(t) => WfTree(t)
    case Elems(ts) => ts != [] && forall i :: 0 <= i < |ts| ==> WfTree(ts[i])
  }

  // ---- what the flags decide

  /** One ASCII letter in either case, or the same byte. */
  predicate SameLetter(x: byte, y: byte) {
    x == y || (0x41 <= x <= 0x5a && y == x + 0x20) || (0x41 <= y <= 0x5a && x == y + 0x20)
  }

  predicate SameLetters(a: seq<byte>, b: seq<byte>) {
    |a| == |b| && forall i :: 0 <= i < |a| ==> SameLetter(a[i], b[i])
  }

  /** Without ignore-case names are the same when equal, with it when they differ in the case of letters only. */
  lemma {:induction false} SameNameIs(flags: nat, a: seq<byte>, b: seq<byte>)
    requires flags < 4
    ensures flags == 0 || flags == 2 ==> (SameName(flags, a, b) <==> a == b)
    ensures flags == 1 || flags == 3 ==> (SameName(flags, a, b) <==> SameLetters(a, b))
  {
    if |a| == |b| {
      forall i | 0 <= i < |a| ensures FoldByte(a[i]) == FoldByte(b[i]) <==> SameLetter(a[i], b[i]) { }
    }
  }

  /** With no-unique every name is free; otherwise a name is free when no pair has the same. */
  lemma {:induction false} FreshIs(flags: nat, name: seq<byte>, ps: seq<Pair>)
    requires flags < 4
    ensures flags >= 2 ==> Fresh(flags, name, ps)
    ensures flags == 0 ==> (Fresh(flags, name, ps) <==> forall i :: 0 <= i < |ps| ==> ps[i].name != name)
    ensures flags == 1 ==> (Fresh(flags, name, ps) <==> forall i :: 0 <= i < |ps| ==> !SameLetters(ps[i].name, name))
  {
    hide SameName, SameLetters;
    forall i | 0 <= i < |ps|
      ensures flags == 0 ==> (SameName(flags, ps[i].name, name) <==> ps[i].name == name)
      ensures flags == 1 ==> (SameName(flags, ps[i].name, name) <==> SameLetters(ps[i].name, name))
    {
      SameNameIs(flags, ps[i].name, name);
    }
  }

  // ---- packed sizes

  function StringsSize(ss: seq<seq<byte>>): nat {
    if ss == [] then 0 else |ss[0]| + 1 + StringsSize(ss[1..])
  }

  function ScalarSize(s: Scalar): nat {
    match s
    case Null => 0
    case Bool(_) => 1
    case Number(_) => 8
    case Str(bs) => |bs| + 1
    case Binary(bs) => |bs|
    case BoolArray(bs) => |bs|
    case NumberArray(ns) => 8 * |ns|
    case StringArray(ss) => StringsSize(ss)
  }

  /** The size of a packed list, header included. */
  function TreeSize(t: Tree): nat
    decreases t, 1
  {
    HDR + PairsSize(t.pairs)
  }

  function PairsSize(ps: seq<Pair>): nat
    decreases ps, 0
  {
    if ps == [] then 0 else PairSize(ps[0]) + PairsSize(ps[1..])
  }

  function PairSize(p: Pair): nat
    decreases p, 1
  {
    HDR + |p.name| + 1 +
    match p.value
    case Leaf(s) => ScalarSize(s)
    case Nested(t) => TreeSize(t) + MARK
    case Elems(ts) => ElemsSize(ts)
  }

  function ElemsSize(ts: seq<Tree>): nat
    decreases ts, 0
  {
    if ts == [] then 0 else TreeSize(ts[0]) + MARK + ElemsSize(ts[1..])
  }

  // ---- packed pieces, in the order they are written

  datatype Chunk =
    | ListHdr(flags: byte)
    | PairHdr(typ: byte, name: seq<byte>, datasize: nat, nitems: nat)
    | Data(s: Scalar)

  const UP: Chunk := PairHdr(T_UP, [], 0, 0)
  const NEXT: Chunk := PairHdr(T_NEXT, [], 0, 0)

  function ScalarType(s: Scalar): byte {
    match s
    case Null => 1
    case Bool(_) => 2
    case Number(_) => 3
    case Str(_) => 4
    case Binary(_) => 7
    case BoolArray(_) => 8
    case NumberArray(_) => 9
    case StringArray(_) => 10
  }

  function ScalarItems(s: Scalar): nat {
    match s
    case BoolArray(bs) => |bs|
    case NumberArray(ns) => |ns|
    case StringArray(ss) => |ss|
    case _ => 0
  }

  /** A number in k bytes, in either byte order. */
  function Num(be: bool, n: nat, k: nat): (r: seq<byte>)
    ensures |r| == k
  {
    if be then Be(n, k) else Le(n, k)
  }

  function NumbersData(be: bool, ns: seq<nat>): (r: seq<byte>)
    ensures |r| == 8 * |ns|
  {
    if ns == [] then [] else Num(be, ns[0], 8) + NumbersData(be, ns[1..])
  }

  function StringsData(ss: seq<seq<byte>>): (r: seq<byte>)
    ensures |r| == StringsSize(ss)
  {
    if ss == [] then [] else ss[0] + [0] + StringsData(ss[1..])
  }

  function ScalarData(be: bool, s: Scalar): (r: seq<byte>)
    ensures |r| == ScalarSize(s)
  {
    match s
    case Null => []
    case Bool(b) => [if b then 1 else 0]
    case Number(n) => Num(be, n, 8)
    case Str(bs) => bs + [0]
    case Binary(bs) => bs
    case BoolArray(bs) => bs
    case NumberArray(ns) => NumbersData(be, ns)
    case StringArray(ss) => StringsData(ss)
  }

  function TreeChunks(t: Tree): seq<Chunk>
    decreases t, 1
  {
    [ListHdr(t.flags)] + PairsChunks(t.pairs)
  }

  function PairsChunks(ps: seq<Pair>): seq<Chunk>
    decreases ps, 0
  {
    if ps == [] then [] else PairChunks(ps[0]) + PairsChunks(ps[1..])
  }

  function PairChunks(p: Pair): seq<Chunk>
    decreases p, 1
  {
    match p.value
    case Leaf(s) => [PairHdr(ScalarType(s), p.name, ScalarSize(s), ScalarItems(s)), Data(s)]
    case Nested(t) => [PairHdr(T_NVLIST, p.name, TreeSize(t), 0)] + TreeChunks(t) + [UP]
    case Elems(ts) => [PairHdr(T_NVLIST_ARRAY, p.name, 0, |ts|)] + ElemsChunks(ts)
  }

  function ElemsChunks(ts: seq<Tree>): seq<Chunk>
    decreases ts, 0
  {
    if ts == [] then [] else TreeChunks(ts[0]) + [NEXT] + ElemsChunks(ts[1..])
  }

  // ---- chunks as bytes

  function ChunkSize(c: Chunk): nat {
    match c
    case ListHdr(_) => HDR
    case PairHdr(_, name, _, _) => HDR + |name| + 1
    case Data(s) => ScalarSize(s)
  }

  function ChunksSize(cs: seq<Chunk>): nat {
    if cs == [] then 0 else ChunkSize(cs[0]) + ChunksSize(cs[1..])
  }

  /** A list header records how many bytes of the whole buffer follow it, and the byte order. */
  function RenderChunk(be: bool, c: Chunk, left: nat): (bs: seq<byte>)
    requires ChunkSize(c) <= left
    ensures |bs| == ChunkSize(c)
  {
    match c
    case ListHdr(flags) =>
      [0x6c, 0x00, (if be then flags + 128 else flags) % 256] + Num(be, 0, 8) + Num(be, left - HDR, 8)
    case PairHdr(typ, name, datasize, nitems) =>
      [typ] + Num(be, |name| + 1, 2) + Num(be, datasize, 8) + Num(be, nitems, 8) + name + [0]
    case Data(s) => ScalarData(be, s)
  }

  /** cs written into a buffer of which left bytes remain. */
  function Render(be: bool, cs: seq<Chunk>, left: nat): (bs: seq<byte>)
    requires ChunksSize(cs) <= left
    ensures |bs| == ChunksSize(cs)
  {
    if cs == [] then [] else RenderChunk(be, cs[0], left) + Render(be, cs[1..], left - ChunkSize(cs[0]))
  }

  lemma {:induction false} ChunksSizeConcat(a: seq<Chunk>, b: seq<Chunk>)
    ensures ChunksSize(a + b) == ChunksSize(a) + ChunksSize(b)
  {
    if a == [] {
      assert a + b == b;
    } else {
      ChunksSizeConcat(a[1..], b);
      assert (a + b)[1..] == a[1..] + b;
    }
  }

  lemma {:induction false} ChunksSizePush(c: Chunk, cs: seq<Chunk>)
    ensures ChunksSize([c] + cs) == ChunkSize(c) + ChunksSize(cs)
  {
    assert ([c] + cs)[1..] == cs;
  }

  lemma {:induction false} RenderPush(be: bool, c: Chunk, cs: seq<Chunk>, left: nat)
    requires ChunkSize(c) + ChunksSize(cs) <= left
    ensures ChunksSize([c] + cs) == ChunkSize(c) + ChunksSize(cs)
    ensures Render(be, [c] + cs, left) == RenderChunk(be, c, left) + Render(be, cs, left - ChunkSize(c))
  {
    hide RenderChunk, ChunkSize;
    assert ([c] + cs)[1..] == cs;
  }

  lemma {:induction false} RenderNil(be: bool, b: seq<Chunk>, left: nat)
    requires ChunksSize(b) <= left
    ensures ChunksSize([]) == 0 && Render(be, [], left) + Render(be, b, left) == Render(be, b, left)
  {
  }

  lemma {:induction false} RenderConcat(be: bool, a: seq<Chunk>, b: seq<Chunk>, left: nat)
    requires ChunksSize(a) + ChunksSize(b) <= left
    ensures ChunksSize(a + b) <= left
    ensures Render(be, a + b, left) == Render(be, a, left) + Render(be, b, left - ChunksSize(a))
  {
    hide *;
    ChunksSizeConcat(a, b);
    if a == [] {
      assert a + b == b;
      RenderNil(be, b, left);
    } else {
      var c, a', l, r := a[0], a[1..], left - ChunkSize(a[0]), left - ChunksSize(a);
      assert a == [c] + a' && a + b == [c] + (a' + b);
      ChunksSizePush(c, a');
      ChunksSizeConcat(a', b);
      RenderConcat(be, a', b, l);
      assert r == l - ChunksSize(a');
      RenderPush(be, c, a', left);
      RenderPush(be, c, a' + b, left);
      Assoc(RenderChunk(be, c, left), Render(be, a', l), Render(be, b, r));
    }
  }

  /** A tree's chunks fill exactly its packed size. */
  lemma {:induction false} TreeChunksSize(t: Tree)
    ensures ChunksSize(TreeChunks(t)) == TreeSize(t)
    decreases t, 1
  {
    PairsChunksSize(t.pairs);
    ChunksSizeConcat([ListHdr(t.flags)], PairsChunks(t.pairs));
  }

  lemma {:induction false} PairsChunksSize(ps: seq<Pair>)
    ensures ChunksSize(PairsChunks(ps)) == PairsSize(ps)
    decreases ps, 0
  {
    if ps != [] {
      PairChunksSize(ps[0]);
      PairsChunksSize(ps[1..]);
      ChunksSizeConcat(PairChunks(ps[0]), PairsChunks(ps[1..]));
    }
  }

  lemma {:induction false} PairChunksSize(p: Pair)
    ensures ChunksSize(PairChunks(p)) == PairSize(p)
    decreases p, 1
  {
    match p.value
    case Leaf(s) =>
      ChunksSizeConcat([PairChunks(p)[0]], [Data(s)]);
    case Nested(t) =>
      TreeChunksSize(t);
      var h := PairHdr(T_NVLIST, p.name, TreeSize(t), 0);
      ChunksSizeConcat([h], TreeChunks(t));
      ChunksSizeConcat([h] + TreeChunks(t), [UP]);
    case Elems(ts) =>
      ElemsChunksSize(ts);
      ChunksSizeConcat([PairHdr(T_NVLIST_ARRAY, p.name, 0, |ts|)], ElemsChunks(ts));
  }

  lemma {:induction false} ElemsChunksSize(ts: seq<Tree>)
    ensures ChunksSize(ElemsChunks(ts)) == ElemsSize(ts)
    decreases ts, 0
  {
    if ts != [] {
      TreeChunksSize(ts[0]);
      ElemsChunksSize(ts[1..]);
      ChunksSizeConcat(TreeChunks(ts[0]), [NEXT]);
      ChunksSizeConcat(TreeChunks(ts[0]) + [NEXT], ElemsChunks(ts[1..]));
    }
  }
}

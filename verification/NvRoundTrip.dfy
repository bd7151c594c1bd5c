/** Unpacking what was packed gives back the same tree. */
module NvRoundTrip {
  import opened Bytes
  import opened NvTree
  import opened NvCodec

  // ---- headers and scalar data

  /**
   * Buffers are smaller than this; in foreign byte order the check of the raw size field asks for a little
   * more room.
   */
  function Cap(be: bool): nat { if be then 0x100_0000_0000_0000 else U64 }

  lemma {:induction false} NumReads(be: bool, n: nat, k: nat)
    requires n < Span(k)
    ensures Dec(be, Num(be, n, k)) == n
  {
    hide Le, LeDec, Be, BeDec, Span;
    LeRoundTrip(n, k);
    BeRoundTrip(n, k);
  }

  /** The size field read in the machine's own order does not trip the overflow check. */
  lemma {:induction false} RawSize(be: bool, n: nat)
    requires n < Cap(be) - HDR
    ensures LeDec(Num(be, n, 8)) <= U64 - 1 - HDR
  {
    hide Le, Be, Span;
    SpanValues();
    if be {
      BeDigit(n, 8, 7);
      assert Span(7) == 0x100_0000_0000_0000 by { SevenBytes(); }
      assert n / Span(7) == 0;
      var bs := Be(n, 8);
      SevenBytes();
      assert LeDec(bs) == bs[0] + 256 * LeDec(bs[1..]) && LeDec(bs[1..]) < Span(7);
    } else {
      LeRoundTrip(n, 8);
    }
  }

  lemma {:induction false} SevenBytes()
    ensures Span(7) == 0x100_0000_0000_0000
  {
    SpanValues();
    assert Span(8) == 256 * Span(7);
  }

  /**
   * A list header is accepted exactly with the magic byte, known flags, no descriptors, and the size of what
   * follows.
   */
  lemma {:induction false} ListHdrIs(be: bool, magic: byte, version: byte, flags: byte, fds: nat, size: nat,
      rest: seq<byte>)
    requires fds < U64 && size < U64 && HDR + |rest| < Cap(be) && be == (flags >= 128)
    ensures ParseListHdr([magic, version, flags] + Num(be, fds, 8) + Num(be, size, 8) + rest) ==
      if magic == 0x6c && flags % 128 < 4 && fds == 0 && size == |rest| then Some(ListHead(flags % 128, be)) else None
  {
    hide Le, LeDec, Be, BeDec, Span, Num, Dec;
    var a, b := Num(be, fds, 8), Num(be, size, 8);
    var bs := [magic, version, flags] + a + b + rest;
    SpanValues();
    NumReads(be, fds, 8);
    NumReads(be, size, 8);
    if size == |rest| { RawSize(be, size); }
    assert bs[3..11] == a && bs[11..19] == b;
  }

  lemma {:induction false} ListHdrReads(be: bool, flags: byte, left: nat, rest: seq<byte>)
    requires flags < 4 && left == HDR + |rest| && left < Cap(be)
    ensures ParseListHdr(RenderChunk(be, ListHdr(flags), left) + rest) == Some(ListHead(flags, be))
  {
    hide Num, ParseListHdr;
    ListHdrIs(be, 0x6c, 0x00, if be then flags + 128 else flags, 0, |rest|, rest);
  }

  predicate KnownType(typ: byte) { 1 <= typ <= 12 || typ == T_UP || typ == T_NEXT }

  /** A pair header is accepted exactly with a known type, a name that ends where it says, and data that is there. */
  lemma {:induction false} PairHdrIs(be: bool, typ: byte, namesize: nat, datasize: nat, nitems: nat, body: seq<byte>)
    requires namesize < 0x1_0000 && datasize < U64 && nitems < U64
    ensures ParsePairHdr(be, [typ] + Num(be, namesize, 2) + Num(be, datasize, 8) + Num(be, nitems, 8) + body) ==
      if KnownType(typ) && 1 <= namesize <= 2048 && namesize + datasize <= |body| && Terminated(body, namesize - 1)
      then Some(PairHead(typ, body[..namesize - 1], datasize, nitems)) else None
  {
    hide Le, LeDec, Be, BeDec, Span, Num, Dec, StrLen;
    var a, b, c := Num(be, namesize, 2), Num(be, datasize, 8), Num(be, nitems, 8);
    var bs := [typ] + a + b + c + body;
    SpanValues();
    NumReads(be, namesize, 2);
    NumReads(be, datasize, 8);
    NumReads(be, nitems, 8);
    PairHdrParts(typ, a, b, c, body);
    if 1 <= namesize <= |body| {
      var name := body[..namesize];
      assert bs[HDR..][..namesize] == name && bs[HDR..][..namesize] == bs[HDR..HDR + namesize];
      NameEnds(name);
      assert name[..namesize - 1] == body[..namesize - 1];
    }
  }

  lemma {:induction false} PairHdrParts(typ: byte, a: seq<byte>, b: seq<byte>, c: seq<byte>, body: seq<byte>)
    requires |a| == 2 && |b| == |c| == 8
    ensures var bs := [typ] + a + b + c + body;
      bs[0] == typ && bs[1..3] == a && bs[3..11] == b && bs[11..19] == c && bs[HDR..] == body
  {
  }

  /** The first zero byte is at n. */
  predicate Terminated(bs: seq<byte>, n: nat) { n < |bs| && bs[n] == 0 && NoNul(bs[..n]) }

  lemma {:induction false} NameEnds(name: seq<byte>)
    requires name != []
    ensures StrLen(name) == |name| - 1 <==> name[|name| - 1] == 0 && NoNul(name[..|name| - 1])
  {
    hide StrLen;
    var n := |name| - 1;
    if name[n] == 0 && NoNul(name[..n]) {
      assert forall i :: 0 <= i < n ==> name[i] == name[..n][i];
      StrLenUnique(name, n);
    }
  }

  function PairHeadBytes(be: bool, h: PairHead, left: nat): seq<byte>
    requires h.Size() <= left
  {
    RenderChunk(be, PairHdr(h.typ, h.name, h.datasize, h.nitems), left)
  }

  lemma {:induction false} PairHdrReads(be: bool, h: PairHead, left: nat, rest: seq<byte>)
    requires KnownType(h.typ) && ValidName(h.name) && h.datasize <= |rest| && h.datasize < U64 && h.nitems < U64
    requires h.Size() <= left
    ensures ParsePairHdr(be, PairHeadBytes(be, h, left) + rest) == Some(h)
  {
    hide Num, ParsePairHdr;
    var body := h.name + [0] + rest;
    PairHdrIs(be, h.typ, |h.name| + 1, h.datasize, h.nitems, body);
    assert body[..|h.name|] == h.name;
    var x := [h.typ] + Num(be, |h.name| + 1, 2) + Num(be, h.datasize, 8) + Num(be, h.nitems, 8);
    assert PairHeadBytes(be, h, left) + rest == x + body;
  }

  lemma {:induction false} NumbersReads(be: bool, ns: seq<nat>)
    requires forall i :: 0 <= i < |ns| ==> ns[i] < U64
    ensures Numbers(be, NumbersData(be, ns)) == ns
  {
    if ns != [] {
      SpanValues();
      NumReads(be, ns[0], 8);
      NumbersReads(be, ns[1..]);
      var d := NumbersData(be, ns);
      assert d[..8] == Num(be, ns[0], 8) && d[8..] == NumbersData(be, ns[1..]);
    }
  }

  lemma {:induction false} StringsCons(s: seq<byte>, d: seq<byte>, ss: seq<seq<byte>>)
    requires NoNul(s) && Strings(d, |ss|) == Some(ss)
    ensures Strings(s + [0] + d, |ss| + 1) == Some([s] + ss)
  {
    hide StrLen;
    var bs := s + [0] + d;
    StrLenUnique(bs, |s|);
    assert bs[..|s|] == s && bs[|s| + 1..] == d;
  }

  lemma {:induction false} StringsReads(ss: seq<seq<byte>>)
    requires forall i :: 0 <= i < |ss| ==> NoNul(ss[i])
    ensures Strings(StringsData(ss), |ss|) == Some(ss)
  {
    if ss != [] {
      hide Strings;
      StringsReads(ss[1..]);
      StringsCons(ss[0], StringsData(ss[1..]), ss[1..]);
      assert ss == [ss[0]] + ss[1..];
    }
  }

  function HeadOf(name: seq<byte>, s: Scalar): PairHead {
    PairHead(ScalarType(s), name, ScalarSize(s), ScalarItems(s))
  }

  lemma {:induction false} ScalarReads(be: bool, name: seq<byte>, s: Scalar, rest: seq<byte>)
    requires WfScalar(s)
    ensures ParseScalar(HeadOf(name, s), be, ScalarData(be, s) + rest) == Some(s)
  {
    hide StrLen, Numbers, Strings, Num, Dec;
    var d := ScalarData(be, s);
    assert (d + rest)[..|d|] == d;
    match s
    case Number(n) => SpanValues(); NumReads(be, n, 8);
    case Str(bs) => StrLenUnique(d, |bs|); assert d[..|d| - 1] == bs;
    case NumberArray(ns) => NumbersReads(be, ns);
    case StringArray(ss) =>
      StringsReads(ss);
      assert StringsSize(ss) >= |ss[0]| + 1;
    case _ =>
  }

  lemma {:induction false} NumWrites(be: bool, bs: seq<byte>)
    ensures Num(be, Dec(be, bs), |bs|) == bs
  {
    hide Le, LeDec, Be, BeDec;
    LeDecEnc(bs);
    BeDecEnc(bs);
  }

  lemma {:induction false} NumbersWrites(be: bool, bs: seq<byte>)
    requires |bs| % 8 == 0
    ensures NumbersData(be, Numbers(be, bs)) == bs
  {
    hide Num, Dec;
    if bs != [] {
      NumWrites(be, bs[..8]);
      NumbersWrites(be, bs[8..]);
      var ns := Numbers(be, bs);
      assert ns[1..] == Numbers(be, bs[8..]) && bs == bs[..8] + bs[8..];
    }
  }

  lemma {:induction false} StringsWrites(bs: seq<byte>, n: nat)
    requires Strings(bs, n).Some?
    ensures StringsData(Strings(bs, n).value) == bs
    decreases n
  {
    hide StrLen;
    if n > 0 {
      var k := StrLen(bs);
      StringsWrites(bs[k + 1..], n - 1);
      var ss := Strings(bs, n).value;
      assert ss[1..] == Strings(bs[k + 1..], n - 1).value;
      assert bs == bs[..k] + [0] + bs[k + 1..];
    }
  }

  /** Whatever data is accepted is the data of the scalar it is read as; arrays have the number of items announced. */
  lemma {:induction false} ScalarWrites(be: bool, h: PairHead, bs: seq<byte>)
    requires h.datasize <= |bs| && ParseScalar(h, be, bs).Some?
    ensures var s := ParseScalar(h, be, bs).value;
      && ScalarType(s) == h.typ && ScalarData(be, s) == bs[..h.datasize]
      && (s.BoolArray? || s.NumberArray? || s.StringArray? ==> ScalarItems(s) == h.nitems)
  {
    hide Num, Dec, StrLen;
    var d := bs[..h.datasize];
    match ParseScalar(h, be, bs).value
    case Number(_) => NumWrites(be, d);
    case NumberArray(_) => NumbersWrites(be, d);
    case StringArray(_) => StringsWrites(d, h.nitems);
    case _ =>
  }

  // ---- one turn of the loop on each kind of packed piece

  predicate Room(be: bool, left: nat, rest: seq<byte>, used: nat) {
    left == used + |rest| && left < Cap(be)
  }

  lemma {:induction false} StepScalar(be: bool, name: seq<byte>, s: Scalar, left: nat, rest: seq<byte>, o: Open)
    requires ValidName(name) && WfScalar(s) && Fresh(o.flags, name, o.done)
    requires Room(be, left, rest, PairSize(Pair(name, Leaf(s))))
    ensures ScalarItems(s) <= ScalarSize(s)
    ensures Step(RenderChunk(be, PairHdr(ScalarType(s), name, ScalarSize(s), ScalarItems(s)), left) + (ScalarData(be, s) + rest), be, o)
         == Goto(PairSize(Pair(name, Leaf(s))), be, o.(done := o.done + [Pair(name, Leaf(s))]))
  {
    hide RenderChunk, ParsePairHdr, ParseListHdr, ParseScalar, ScalarData, Fresh;
    ItemsBound(s);
    var h := HeadOf(name, s);
    PairHdrReads(be, h, left, ScalarData(be, s) + rest);
    var x := RenderChunk(be, PairHdr(h.typ, h.name, h.datasize, h.nitems), left);
    assert (x + (ScalarData(be, s) + rest))[h.Size()..] == ScalarData(be, s) + rest;
    ScalarReads(be, name, s, rest);
  }

  lemma {:induction false} ItemsBound(s: Scalar)
    ensures ScalarItems(s) <= ScalarSize(s)
  {
    if s.StringArray? { StringsBound(s.ss); }
  }

  lemma {:induction false} StringsBound(ss: seq<seq<byte>>)
    ensures |ss| <= StringsSize(ss)
  {
    if ss != [] { StringsBound(ss[1..]); }
  }

  lemma {:induction false} StepUp(be: bool, left: nat, rest: seq<byte>, o: Open)
    requires o.link.Child? && Room(be, left, rest, MARK)
    ensures Step(RenderChunk(be, UP, left) + rest, be, o) == Goto(MARK, be, Close(o))
  {
    hide RenderChunk, ParsePairHdr, ParseListHdr, ParseScalar, ScalarData, Fresh;
    PairHdrReads(be, PairHead(T_UP, [], 0, 0), left, rest);
  }

  lemma {:induction false} StepNested(be: bool, name: seq<byte>, datasize: nat, flags: byte, left: nat, rest: seq<byte>,
      o: Open)
    requires ValidName(name) && flags < 4 && Fresh(o.flags, name, o.done)
    requires Room(be, left, rest, HDR + |name| + 1 + HDR) && 0 < datasize <= HDR + |rest|
    ensures Step(RenderChunk(be, PairHdr(T_NVLIST, name, datasize, 0), left) +
                 (RenderChunk(be, ListHdr(flags), HDR + |rest|) + rest), be, o)
         == Goto(HDR + |name| + 1 + HDR, be, Open(flags, [], Child(name, o)))
  {
    hide RenderChunk, ParsePairHdr, ParseListHdr, ParseScalar, ScalarData, Fresh;
    var h := PairHead(T_NVLIST, name, datasize, 0);
    var y := RenderChunk(be, ListHdr(flags), HDR + |rest|) + rest;
    PairHdrReads(be, h, left, y);
    ListHdrReads(be, flags, HDR + |rest|, rest);
    var x := RenderChunk(be, PairHdr(T_NVLIST, name, datasize, 0), left);
    assert (x + y)[h.Size()..] == y;
  }

  lemma {:induction false} StepArray(be: bool, name: seq<byte>, n: nat, flags: byte, left: nat, rest: seq<byte>,
      o: Open)
    requires ValidName(name) && flags < 4 && Fresh(o.flags, name, o.done)
    requires Room(be, left, rest, HDR + |name| + 1 + HDR) && 0 < n && HDR * n <= HDR + |rest|
    ensures Step(RenderChunk(be, PairHdr(T_NVLIST_ARRAY, name, 0, n), left) +
                 (RenderChunk(be, ListHdr(flags), HDR + |rest|) + rest), be, o)
         == Goto(HDR + |name| + 1 + HDR, be, Open(flags, [], Elem(name, [], n - 1, o)))
  {
    hide RenderChunk, ParsePairHdr, ParseListHdr, ParseScalar, ScalarData, Fresh;
    var h := PairHead(T_NVLIST_ARRAY, name, 0, n);
    var y := RenderChunk(be, ListHdr(flags), HDR + |rest|) + rest;
    PairHdrReads(be, h, left, y);
    ListHdrReads(be, flags, HDR + |rest|, rest);
    var x := RenderChunk(be, PairHdr(T_NVLIST_ARRAY, name, 0, n), left);
    assert (x + y)[h.Size()..] == y;
  }

  lemma {:induction false} StepLast(be: bool, left: nat, rest: seq<byte>, o: Open)
    requires o.link.Elem? && o.link.after == 0 && Room(be, left, rest, MARK)
    ensures Step(RenderChunk(be, NEXT, left) + rest, be, o) == Goto(MARK, be, Close(o))
  {
    hide RenderChunk, ParsePairHdr, ParseListHdr, ParseScalar, ScalarData, Fresh;
    PairHdrReads(be, PairHead(T_NEXT, [], 0, 0), left, rest);
  }

  lemma {:induction false} StepNext(be: bool, flags: byte, left: nat, rest: seq<byte>, o: Open)
    requires o.link.Elem? && o.link.after > 0 && flags < 4 && Room(be, left, rest, MARK + HDR)
    ensures Step(RenderChunk(be, NEXT, left) + (RenderChunk(be, ListHdr(flags), HDR + |rest|) + rest), be, o)
         == Goto(MARK + HDR, be, NextElem(o, flags))
  {
    hide RenderChunk, ParsePairHdr, ParseListHdr, ParseScalar, ScalarData, Fresh;
    var h := PairHead(T_NEXT, [], 0, 0);
    var y := RenderChunk(be, ListHdr(flags), HDR + |rest|) + rest;
    PairHdrReads(be, h, left, y);
    ListHdrReads(be, flags, HDR + |rest|, rest);
    assert (RenderChunk(be, NEXT, left) + y)[h.Size()..] == y;
  }

  // ---- whole runs

  /** cs, rendered with left bytes to go, take the loop from o to o' and stop before rest. */
  ghost predicate Takes(be: bool, cs: seq<Chunk>, left: nat, o: Open, o': Open) {
    ChunksSize(cs) <= left < Cap(be) &&
    forall rest: seq<byte> :: |rest| == left - ChunksSize(cs) ==>
      Run(Render(be, cs, left) + rest, be, o) == Run(rest, be, o')
  }

  lemma {:induction false} TakesConcat(be: bool, a: seq<Chunk>, b: seq<Chunk>, left: nat, o: Open, o': Open, o'': Open)
    requires Takes(be, a, left, o, o') && Takes(be, b, left - ChunksSize(a), o', o'')
    ensures Takes(be, a + b, left, o, o'')
  {
    hide Run, Render, ChunksSize;
    RenderConcat(be, a, b, left);
    ChunksSizeConcat(a, b);
    forall rest: seq<byte> | |rest| == left - ChunksSize(a + b)
      ensures Run(Render(be, a + b, left) + rest, be, o) == Run(rest, be, o'')
    {
      TakesConcatOne(be, a, b, left, o, o', o'', rest);
    }
  }

  lemma {:induction false} TakesConcatOne(be: bool, a: seq<Chunk>, b: seq<Chunk>, left: nat, o: Open, o': Open,
      o'': Open,
      rest: seq<byte>)
    requires Takes(be, a, left, o, o') && Takes(be, b, left - ChunksSize(a), o', o'')
    requires ChunksSize(a + b) == ChunksSize(a) + ChunksSize(b)
    requires |rest| == left - ChunksSize(a + b)
    requires Render(be, a + b, left) == Render(be, a, left) + Render(be, b, left - ChunksSize(a))
    ensures Run(Render(be, a + b, left) + rest, be, o) == Run(rest, be, o'')
  {
    hide Run, Render, ChunksSize;
    var x, y := Render(be, a, left), Render(be, b, left - ChunksSize(a));
    assert |y + rest| == left - ChunksSize(a);
    Assoc(x, y, rest);
    assert Run(x + (y + rest), be, o) == Run(y + rest, be, o');
  }

  lemma {:induction false} TakesStep(be: bool, cs: seq<Chunk>, left: nat, o: Open, o': Open)
    requires 0 < ChunksSize(cs) <= left < Cap(be)
    requires forall rest: seq<byte> :: |rest| == left - ChunksSize(cs) ==>
      Step(Render(be, cs, left) + rest, be, o) == Goto(ChunksSize(cs), be, o')
    ensures Takes(be, cs, left, o, o')
  {
    hide Step, Render, ChunksSize;
    forall rest: seq<byte> | |rest| == left - ChunksSize(cs)
      ensures Run(Render(be, cs, left) + rest, be, o) == Run(rest, be, o')
    {
      var x := Render(be, cs, left);
      assert Step(x + rest, be, o) == Goto(ChunksSize(cs), be, o');
      assert (x + rest)[|x|..] == rest;
    }
  }

  // ---- the pieces of a pair, as runs

  function Plus(o: Open, ps: seq<Pair>): Open { o.(done := o.done + ps) }

  lemma {:induction false} TakesScalar(be: bool, name: seq<byte>, s: Scalar, left: nat, o: Open)
    requires ValidName(name) && WfScalar(s) && Fresh(o.flags, name, o.done)
    requires PairSize(Pair(name, Leaf(s))) <= left < Cap(be)
    ensures Takes(be, PairChunks(Pair(name, Leaf(s))), left, o, Plus(o, [Pair(name, Leaf(s))]))
  {
    hide Step, Render, Run;
    var p := Pair(name, Leaf(s));
    var h, d := PairHdr(ScalarType(s), name, ScalarSize(s), ScalarItems(s)), ScalarData(be, s);
    TwoChunks(be, h, Data(s), left);
    assert PairChunks(p) == [h, Data(s)];
    forall rest: seq<byte> | |rest| == left - PairSize(p)
      ensures Step(Render(be, [h, Data(s)], left) + rest, be, o) == Goto(PairSize(p), be, Plus(o, [p]))
    {
      StepScalar(be, name, s, left, rest, o);
      Assoc(RenderChunk(be, h, left), d, rest);
    }
    TakesStep(be, [h, Data(s)], left, o, Plus(o, [p]));
  }

  lemma {:induction false} TwoChunks(be: bool, a: Chunk, b: Chunk, left: nat)
    requires ChunkSize(a) + ChunkSize(b) <= left
    ensures ChunksSize([a, b]) == ChunkSize(a) + ChunkSize(b)
    ensures Render(be, [a, b], left) == RenderChunk(be, a, left) + RenderChunk(be, b, left - ChunkSize(a))
  {
    OneChunk(be, b, left - ChunkSize(a));
    RenderPush(be, a, [b], left);
    assert [a] + [b] == [a, b];
  }

  lemma {:induction false} OneChunk(be: bool, a: Chunk, left: nat)
    requires ChunkSize(a) <= left
    ensures ChunksSize([a]) == ChunkSize(a)
    ensures Render(be, [a], left) == RenderChunk(be, a, left)
  {
    RenderPush(be, a, [], left);
    assert [a] + [] == [a];
  }

  lemma {:induction false} TakesNested(be: bool, name: seq<byte>, size: nat, flags: byte, left: nat, o: Open)
    requires ValidName(name) && flags < 4 && Fresh(o.flags, name, o.done)
    requires 0 < size && HDR + |name| + 1 + HDR <= left < Cap(be) && HDR + |name| + 1 + size <= left
    ensures ChunksSize([PairHdr(T_NVLIST, name, size, 0), ListHdr(flags)]) == HDR + |name| + 1 + HDR
    ensures Takes(be, [PairHdr(T_NVLIST, name, size, 0), ListHdr(flags)], left, o, Open(flags, [], Child(name, o)))
  {
    hide Step, Render, RenderChunk, Run;
    var h, l, o' := PairHdr(T_NVLIST, name, size, 0), ListHdr(flags), Open(flags, [], Child(name, o));
    TwoChunks(be, h, l, left);
    forall rest: seq<byte> | |rest| == left - ChunksSize([h, l])
      ensures Step(Render(be, [h, l], left) + rest, be, o) == Goto(ChunksSize([h, l]), be, o')
    {
      StepNested(be, name, size, flags, left, rest, o);
      Assoc(RenderChunk(be, h, left), RenderChunk(be, l, HDR + |rest|), rest);
    }
    TakesStep(be, [h, l], left, o, o');
  }

  lemma {:induction false} TakesArray(be: bool, name: seq<byte>, n: nat, flags: byte, left: nat, o: Open)
    requires ValidName(name) && flags < 4 && Fresh(o.flags, name, o.done)
    requires 0 < n && HDR + |name| + 1 + HDR * n <= left < Cap(be)
    ensures ChunksSize([PairHdr(T_NVLIST_ARRAY, name, 0, n), ListHdr(flags)]) == HDR + |name| + 1 + HDR
    ensures Takes(be, [PairHdr(T_NVLIST_ARRAY, name, 0, n), ListHdr(flags)], left, o,
      Open(flags, [], Elem(name, [], n - 1, o)))
  {
    hide Step, Render, RenderChunk, Run;
    var h, l, o' := PairHdr(T_NVLIST_ARRAY, name, 0, n), ListHdr(flags), Open(flags, [], Elem(name, [], n - 1, o));
    TwoChunks(be, h, l, left);
    forall rest: seq<byte> | |rest| == left - ChunksSize([h, l])
      ensures Step(Render(be, [h, l], left) + rest, be, o) == Goto(ChunksSize([h, l]), be, o')
    {
      StepArray(be, name, n, flags, left, rest, o);
      Assoc(RenderChunk(be, h, left), RenderChunk(be, l, HDR + |rest|), rest);
    }
    TakesStep(be, [h, l], left, o, o');
  }

  lemma {:induction false} ElemsBound(ts: seq<Tree>)
    ensures HDR * |ts| <= ElemsSize(ts)
  {
    if ts != [] { ElemsBound(ts[1..]); }
  }

  lemma {:induction false} TakesUp(be: bool, left: nat, o: Open)
    requires o.link.Child? && MARK <= left < Cap(be)
    ensures Takes(be, [UP], left, o, Close(o))
  {
    hide Step, Render, RenderChunk, Run;
    OneChunk(be, UP, left);
    forall rest: seq<byte> | |rest| == left - MARK
      ensures Step(Render(be, [UP], left) + rest, be, o) == Goto(MARK, be, Close(o))
    {
      StepUp(be, left, rest, o);
    }
    TakesStep(be, [UP], left, o, Close(o));
  }

  lemma {:induction false} TakesLast(be: bool, left: nat, o: Open)
    requires o.link.Elem? && o.link.after == 0 && MARK <= left < Cap(be)
    ensures Takes(be, [NEXT], left, o, Close(o))
  {
    hide Step, Render, RenderChunk, Run;
    OneChunk(be, NEXT, left);
    forall rest: seq<byte> | |rest| == left - MARK
      ensures Step(Render(be, [NEXT], left) + rest, be, o) == Goto(MARK, be, Close(o))
    {
      StepLast(be, left, rest, o);
    }
    TakesStep(be, [NEXT], left, o, Close(o));
  }

  lemma {:induction false} TakesNext(be: bool, flags: byte, left: nat, o: Open)
    requires o.link.Elem? && o.link.after > 0 && flags < 4 && MARK + HDR <= left < Cap(be)
    ensures ChunksSize([NEXT, ListHdr(flags)]) == MARK + HDR
    ensures Takes(be, [NEXT, ListHdr(flags)], left, o, NextElem(o, flags))
  {
    hide Step, Render, RenderChunk, Run;
    var l := ListHdr(flags);
    TwoChunks(be, NEXT, l, left);
    forall rest: seq<byte> | |rest| == left - ChunksSize([NEXT, l])
      ensures Step(Render(be, [NEXT, l], left) + rest, be, o) == Goto(ChunksSize([NEXT, l]), be, NextElem(o, flags))
    {
      StepNext(be, flags, left, rest, o);
      Assoc(RenderChunk(be, NEXT, left), RenderChunk(be, l, HDR + |rest|), rest);
    }
    TakesStep(be, [NEXT, l], left, o, NextElem(o, flags));
  }

  // ---- the induction over the tree

  lemma {:induction false} TakesPairs(be: bool, ps: seq<Pair>, left: nat, o: Open)
    requires forall i :: 0 <= i < |ps| ==> WfPair(ps[i])
    requires Unique(o.flags, o.done + ps) && PairsSize(ps) <= left < Cap(be)
    ensures Takes(be, PairsChunks(ps), left, o, Plus(o, ps))
    decreases ps, 0
  {
    hide Takes, ChunksSize;
    if ps == [] {
      TakesNothing(be, left, o);
      assert o.done + ps == o.done;
    } else {
      var p, ps' := ps[0], ps[1..];
      assert o.done + ps == (o.done + [p]) + ps';
      assert Fresh(o.flags, p.name, o.done) by { UniqueFresh(o.flags, o.done, p, ps'); }
      TakesPair(be, p, left, o);
      PairChunksSize(p);
      TakesPairs(be, ps', left - PairSize(p), Plus(o, [p]));
      TakesConcat(be, PairChunks(p), PairsChunks(ps'), left, o, Plus(o, [p]), Plus(Plus(o, [p]), ps'));
    }
  }

  lemma {:induction false} UniqueFresh(flags: byte, done: seq<Pair>, p: Pair, ps: seq<Pair>)
    requires Unique(flags, (done + [p]) + ps)
    ensures Fresh(flags, p.name, done)
  {
    var all := (done + [p]) + ps;
    assert all[|done|] == p && forall i :: 0 <= i < |done| ==> all[i] == done[i];
  }

  lemma {:induction false} TakesNothing(be: bool, left: nat, o: Open)
    requires left < Cap(be)
    ensures Takes(be, [], left, o, o)
  {
    forall rest: seq<byte> | |rest| == left
      ensures Run(Render(be, [], left) + rest, be, o) == Run(rest, be, o)
    {
      assert Render(be, [], left) + rest == rest;
    }
  }

  lemma {:induction false} TakesPair(be: bool, p: Pair, left: nat, o: Open)
    requires WfPair(p) && Fresh(o.flags, p.name, o.done) && PairSize(p) <= left < Cap(be)
    ensures Takes(be, PairChunks(p), left, o, Plus(o, [p]))
    decreases p, 1
  {
    hide Takes;
    match p.value
    case Leaf(s) => TakesScalar(be, p.name, s, left, o);
    case Nested(t) => TakesNestedPair(be, p.name, t, left, o);
    case Elems(ts) => TakesArrayPair(be, p.name, ts, left, o);
  }

  lemma {:induction false} TakesNestedPair(be: bool, name: seq<byte>, t: Tree, left: nat, o: Open)
    requires ValidName(name) && WfTree(t) && Fresh(o.flags, name, o.done)
    requires HDR + |name| + 1 + TreeSize(t) + MARK <= left < Cap(be)
    ensures Takes(be, PairChunks(Pair(name, Nested(t))), left, o, Plus(o, [Pair(name, Nested(t))]))
    decreases t, 1
  {
    hide Takes, WfTree, ChunksSize, PairsChunks, PairsSize;
    var a, o1 := [PairHdr(T_NVLIST, name, TreeSize(t), 0), ListHdr(t.flags)], Open(t.flags, [], Child(name, o));
    FlagsSmall(t);
    TakesNested(be, name, TreeSize(t), t.flags, left, o);
    TakesBody(be, a, t, left, o, o1);
    var o2 := Plus(o1, t.pairs);
    TakesUp(be, left - ChunksSize(a) - PairsSize(t.pairs), o2);
    TakesConcat(be, a + PairsChunks(t.pairs), [UP], left, o, o2, Close(o2));
    NestedChunks(name, t);
    assert o2.done == t.pairs;
  }

  lemma {:induction false} FlagsSmall(t: Tree)
    requires WfTree(t)
    ensures t.flags < 4 && TreeSize(t) == HDR + PairsSize(t.pairs)
  {
  }

  lemma {:induction false} NestedChunks(name: seq<byte>, t: Tree)
    ensures PairChunks(Pair(name, Nested(t)))
         == [PairHdr(T_NVLIST, name, TreeSize(t), 0), ListHdr(t.flags)] + PairsChunks(t.pairs) + [UP]
  {
  }

  lemma {:induction false} ArrayChunks(name: seq<byte>, ts: seq<Tree>)
    requires ts != []
    ensures PairChunks(Pair(name, Elems(ts)))
         == [PairHdr(T_NVLIST_ARRAY, name, 0, |ts|), ListHdr(ts[0].flags)] + PairsChunks(ts[0].pairs) + ([NEXT] + ElemsChunks(ts[1..]))
    ensures ElemsSize(ts) == TreeSize(ts[0]) + MARK + ElemsSize(ts[1..])
  {
    var h, l, x, y := PairHdr(T_NVLIST_ARRAY, name, 0, |ts|), ListHdr(ts[0].flags), PairsChunks(ts[0].pairs),
      ElemsChunks(ts[1..]);
    assert ElemsChunks(ts) == ([l] + x) + [NEXT] + y;
    assert [h] + (([l] + x) + [NEXT] + y) == [h, l] + x + ([NEXT] + y);
  }

  lemma {:induction false} TakesArrayPair(be: bool, name: seq<byte>, ts: seq<Tree>, left: nat, o: Open)
    requires ValidName(name) && Fresh(o.flags, name, o.done)
    requires ts != [] && forall i :: 0 <= i < |ts| ==> WfTree(ts[i])
    requires HDR + |name| + 1 + ElemsSize(ts) <= left < Cap(be)
    ensures Takes(be, PairChunks(Pair(name, Elems(ts))), left, o, Plus(o, [Pair(name, Elems(ts))]))
    decreases ts, |ts| + 1
  {
    hide Takes, WfTree, ChunksSize, PairsChunks, PairsSize, ElemsSize, ElemsChunks;
    ElemsBound(ts);
    ArrayChunks(name, ts);
    FlagsSmall(ts[0]);
    var a, o1 := [PairHdr(T_NVLIST_ARRAY, name, 0, |ts|), ListHdr(ts[0].flags)], Open(ts[0].flags, [],
      Elem(name, [], |ts| - 1, o));
    TakesArray(be, name, |ts|, ts[0].flags, left, o);
    TakesBody(be, a, ts[0], left, o, o1);
    var o2, tail := Plus(o1, ts[0].pairs), [NEXT] + ElemsChunks(ts[1..]);
    assert o2 == AtElem(name, ts, 0, o) by {
      assert o2.done == ts[0].pairs && ts[..0] == [];
    }
    TakesElems(be, name, ts, 0, left - ChunksSize(a) - PairsSize(ts[0].pairs), o);
    TakesConcat(be, a + PairsChunks(ts[0].pairs), tail, left, o, o2, Plus(o, [Pair(name, Elems(ts))]));
  }

  /** After the chunks a have opened list t, its pairs follow. */
  lemma {:induction false} TakesBody(be: bool, a: seq<Chunk>, t: Tree, left: nat, o: Open, o1: Open)
    requires WfTree(t) && Takes(be, a, left, o, o1) && o1.flags == t.flags && o1.done == []
    requires ChunksSize(a) + PairsSize(t.pairs) <= left < Cap(be)
    ensures ChunksSize(a + PairsChunks(t.pairs)) == ChunksSize(a) + PairsSize(t.pairs)
    ensures Takes(be, a + PairsChunks(t.pairs), left, o, Plus(o1, t.pairs))
    decreases t, 0
  {
    hide Takes, ChunksSize, PairsChunks, PairsSize;
    assert o1.done + t.pairs == t.pairs;
    TakesPairs(be, t.pairs, left - ChunksSize(a), o1);
    PairsChunksSize(t.pairs);
    ChunksSizeConcat(a, PairsChunks(t.pairs));
    TakesConcat(be, a, PairsChunks(t.pairs), left, o, o1, Plus(o1, t.pairs));
  }

  /** The state when element k of an array is complete. */
  function AtElem(name: seq<byte>, ts: seq<Tree>, k: nat, o: Open): Open
    requires k < |ts|
  {
    Open(ts[k].flags, ts[k].pairs, Elem(name, ts[..k], |ts| - 1 - k, o))
  }

  lemma {:induction false} TakesElems(be: bool, name: seq<byte>, ts: seq<Tree>, k: nat, left: nat, o: Open)
    requires k < |ts| && forall i :: 0 <= i < |ts| ==> WfTree(ts[i])
    requires MARK + ElemsSize(ts[k + 1..]) <= left < Cap(be)
    ensures Takes(be, [NEXT] + ElemsChunks(ts[k + 1..]), left, AtElem(name, ts, k, o), Plus(o, [Pair(name, Elems(ts))]))
    decreases ts, |ts| - k
  {
    hide Takes, ChunksSize, PairsSize, PairsChunks, WfTree;
    var ok := AtElem(name, ts, k, o);
    if k + 1 == |ts| {
      TakesLast(be, left, ok);
      assert ts[..k] + [ts[k]] + Empties(0) == ts;
      assert [NEXT] + ElemsChunks(ts[k + 1..]) == [NEXT];
    } else {
      var t, a := ts[k + 1], [NEXT, ListHdr(ts[k + 1].flags)];
      FlagsSmall(t);
      assert ts[k + 1..][1..] == ts[k + 2..];
      TakesNext(be, t.flags, left, ok);
      TakesBody(be, a, t, left, ok, NextElem(ok, t.flags));
      var o2, tail := AtElem(name, ts, k + 1, o), [NEXT] + ElemsChunks(ts[k + 2..]);
      assert Plus(NextElem(ok, t.flags), t.pairs) == o2 by {
        assert ts[..k] + [ts[k]] == ts[..k + 1];
      }
      TakesElems(be, name, ts, k + 1, left - ChunksSize(a) - PairsSize(t.pairs), o);
      TakesConcat(be, a + PairsChunks(t.pairs), tail, left, ok, o2, Plus(o, [Pair(name, Elems(ts))]));
      assert [NEXT] + ElemsChunks(ts[k + 1..]) == a + PairsChunks(t.pairs) + tail;
    }
  }

  function Packed(be: bool, t: Tree): (bs: seq<byte>)
    ensures |bs| == TreeSize(t)
  {
    TreeChunksSize(t);
    Render(be, TreeChunks(t), TreeSize(t))
  }

  lemma {:induction false} PackedHead(be: bool, t: Tree)
    requires t.flags < 4 && TreeSize(t) < Cap(be)
    ensures ChunksSize(PairsChunks(t.pairs)) == TreeSize(t) - HDR
    ensures ParseListHdr(Packed(be, t)) == Some(ListHead(t.flags, be))
    ensures Packed(be, t)[HDR..] == Render(be, PairsChunks(t.pairs), TreeSize(t) - HDR)
  {
    hide Render, RenderChunk, ParseListHdr;
    PairsChunksSize(t.pairs);
    var l, body := ListHdr(t.flags), Render(be, PairsChunks(t.pairs), TreeSize(t) - HDR);
    RenderPush(be, l, PairsChunks(t.pairs), TreeSize(t));
    ListHdrReads(be, t.flags, TreeSize(t), body);
  }

  /** Unpacking the packed bytes of any well-formed tree gives back that tree. */
  lemma {:induction false} RoundTrip(be: bool, t: Tree)
    requires WfTree(t) && TreeSize(t) < Cap(be)
    ensures Unpacked(Packed(be, t), t.flags) == Some(t)
  {
    hide Render, Step, ParseListHdr, PairsChunks, ChunksSize, Packed, PairsSize;
    PackedHead(be, t);
    FlagsSmall(t);
    var o, left := Open(t.flags, [], Root), TreeSize(t) - HDR;
    var body := Render(be, PairsChunks(t.pairs), left);
    assert o.done + t.pairs == t.pairs;
    TakesPairs(be, t.pairs, left, o);
    assert body + [] == body;
    assert Run(body, be, o) == Run([], be, Plus(o, t.pairs));
  }
}

/** One MD5 block: the unrolled transformation and the sixty-four operations it stands for. */
module Md5Block {
  import opened Bytes

  /** The four chaining words. */
  datatype State = State(a: bv32, b: bv32, c: bv32, d: bv32)

  function F(x: bv32, y: bv32, z: bv32): bv32 { (x & y) | (!x & z) }
  function G(x: bv32, y: bv32, z: bv32): bv32 { (x & z) | (y & !z) }
  function H(x: bv32, y: bv32, z: bv32): bv32 { (x ^ y) ^ z }
  function I(x: bv32, y: bv32, z: bv32): bv32 { y ^ (x | !z) }

  function RotateLeft(x: bv32, n: nat): bv32
    requires n <= 32
  {
    (x << n) | (x >> (32 - n))
  }

  /** The arithmetic every operation ends with: sums modulo 2^32 around a rotation. */
  function Turn(a: bv32, mix: bv32, x: bv32, ac: bv32, n: nat, b: bv32): bv32
    requires n <= 32
  {
    RotateLeft(a + (mix + x + ac), n) + b
  }

  /** The sixteen words of a block, least significant byte first. */
  function Words(block: seq<byte>): (x: seq<bv32>)
    requires |block| == 64
    ensures |x| == 16
  {
    seq(16, i requires 0 <= i < 16 => Word(block[4 * i..4 * i + 4]))
  }

  function Word(bs: seq<byte>): bv32
    requires |bs| == 4
  {
    SpanValues();
    LeDec(bs) as bv32
  }

  function Plus(s: State, t: State): State {
    State(s.a + t.a, s.b + t.b, s.c + t.c, s.d + t.d)
  }

  // ---- the algorithm, as section 3.4 of RFC 1321 describes it

  /** The table of section 3.4: 2^32 times the sine of i + 1 radians, without its sign and cut to a whole number. */
  function Sine(i: nat): bv32 {
    if i < 4 then Pick(i % 4, 0xd76aa478, 0xe8c7b756, 0x242070db, 0xc1bdceee)
    else if i < 8 then Pick(i % 4, 0xf57c0faf, 0x4787c62a, 0xa8304613, 0xfd469501)
    else if i < 12 then Pick(i % 4, 0x698098d8, 0x8b44f7af, 0xffff5bb1, 0x895cd7be)
    else if i < 16 then Pick(i % 4, 0x6b901122, 0xfd987193, 0xa679438e, 0x49b40821)
    else if i < 20 then Pick(i % 4, 0xf61e2562, 0xc040b340, 0x265e5a51, 0xe9b6c7aa)
    else if i < 24 then Pick(i % 4, 0xd62f105d, 0x2441453, 0xd8a1e681, 0xe7d3fbc8)
    else if i < 28 then Pick(i % 4, 0x21e1cde6, 0xc33707d6, 0xf4d50d87, 0x455a14ed)
    else if i < 32 then Pick(i % 4, 0xa9e3e905, 0xfcefa3f8, 0x676f02d9, 0x8d2a4c8a)
    else if i < 36 then Pick(i % 4, 0xfffa3942, 0x8771f681, 0x6d9d6122, 0xfde5380c)
    else if i < 40 then Pick(i % 4, 0xa4beea44, 0x4bdecfa9, 0xf6bb4b60, 0xbebfbc70)
    else if i < 44 then Pick(i % 4, 0x289b7ec6, 0xeaa127fa, 0xd4ef3085, 0x4881d05)
    else if i < 48 then Pick(i % 4, 0xd9d4d039, 0xe6db99e5, 0x1fa27cf8, 0xc4ac5665)
    else if i < 52 then Pick(i % 4, 0xf4292244, 0x432aff97, 0xab9423a7, 0xfc93a039)
    else if i < 56 then Pick(i % 4, 0x655b59c3, 0x8f0ccc92, 0xffeff47d, 0x85845dd1)
    else if i < 60 then Pick(i % 4, 0x6fa87e4f, 0xfe2ce6e0, 0xa3014314, 0x4e0811a1)
    else Pick(i % 4, 0xf7537e82, 0xbd3af235, 0x2ad7d2bb, 0xeb86d391)
  }

  function Pick<T>(i: nat, a: T, b: T, c: T, d: T): T {
    if i == 0 then a else if i == 1 then b else if i == 2 then c else d
  }

  /** Which word of the block operation i uses. */
  function WordOf(i: nat): (k: nat)
    ensures k < 16
  {
    if i < 16 then i else if i < 32 then (5 * i + 1) % 16 else if i < 48 then (3 * i + 5) % 16 else (7 * i) % 16
  }

  function ShiftOf(i: nat): (n: nat)
    requires i < 64
    ensures n <= 32
  {
    if i < 16 then Pick(i % 4, 7, 12, 17, 22)
    else if i < 32 then Pick(i % 4, 5, 9, 14, 20)
    else if i < 48 then Pick(i % 4, 4, 11, 16, 23)
    else Pick(i % 4, 6, 10, 15, 21)
  }

  function MixOf(i: nat, b: bv32, c: bv32, d: bv32): bv32 {
    if i < 16 then F(b, c, d) else if i < 32 then G(b, c, d) else if i < 48 then H(b, c, d) else I(b, c, d)
  }

  /** Operation i replaces the first word and turns the four words round by one place. */
  function Operation(s: State, x: seq<bv32>, i: nat): State
    requires |x| == 16 && i < 64
  {
    State(s.d, Turn(s.a, MixOf(i, s.b, s.c, s.d), x[WordOf(i)], Sine(i), ShiftOf(i), s.b), s.b, s.c)
  }

  function Operations(s: State, x: seq<bv32>, n: nat): State
    requires |x| == 16 && n <= 64
  {
    if n == 0 then s else Operation(Operations(s, x, n - 1), x, n - 1)
  }

  /** The chaining words after a block. */
  function Compress(s: State, block: seq<byte>): State
    requires |block| == 64
  {
    Plus(s, Operations(s, Words(block), 64))
  }

  // ---- the unrolled form

  function Ff(a: bv32, b: bv32, c: bv32, d: bv32, x: bv32, s: nat, ac: bv32): bv32
    requires s <= 32
  {
    Turn(a, F(b, c, d), x, ac, s, b)
  }

  function Gg(a: bv32, b: bv32, c: bv32, d: bv32, x: bv32, s: nat, ac: bv32): bv32
    requires s <= 32
  {
    Turn(a, G(b, c, d), x, ac, s, b)
  }

  function Hh(a: bv32, b: bv32, c: bv32, d: bv32, x: bv32, s: nat, ac: bv32): bv32
    requires s <= 32
  {
    Turn(a, H(b, c, d), x, ac, s, b)
  }

  function Ii(a: bv32, b: bv32, c: bv32, d: bv32, x: bv32, s: nat, ac: bv32): bv32
    requires s <= 32
  {
    Turn(a, I(b, c, d), x, ac, s, b)
  }

  /** The words the four operations from n use, and their sines. */
  function WordRow(x: seq<bv32>, n: nat): (bv32, bv32, bv32, bv32)
    requires |x| == 16
  {
    (x[WordOf(n)], x[WordOf(n + 1)], x[WordOf(n + 2)], x[WordOf(n + 3)])
  }

  function SineRow(n: nat): (bv32, bv32, bv32, bv32) {
    (Sine(n), Sine(n + 1), Sine(n + 2), Sine(n + 3))
  }

  lemma {:induction false} Words1(x: seq<bv32>)
    requires |x| == 16
    ensures WordRow(x, 0) == (x[0], x[1], x[2], x[3])
    ensures WordRow(x, 4) == (x[4], x[5], x[6], x[7])
    ensures WordRow(x, 8) == (x[8], x[9], x[10], x[11])
    ensures WordRow(x, 12) == (x[12], x[13], x[14], x[15])
  {
  }

  lemma {:induction false} Sines1()
    ensures SineRow(0) == (0xd76aa478, 0xe8c7b756, 0x242070db, 0xc1bdceee)
    ensures SineRow(4) == (0xf57c0faf, 0x4787c62a, 0xa8304613, 0xfd469501)
    ensures SineRow(8) == (0x698098d8, 0x8b44f7af, 0xffff5bb1, 0x895cd7be)
    ensures SineRow(12) == (0x6b901122, 0xfd987193, 0xa679438e, 0x49b40821)
  {
  }

  lemma {:induction false} Words2(x: seq<bv32>)
    requires |x| == 16
    ensures WordRow(x, 16) == (x[1], x[6], x[11], x[0])
    ensures WordRow(x, 20) == (x[5], x[10], x[15], x[4])
    ensures WordRow(x, 24) == (x[9], x[14], x[3], x[8])
    ensures WordRow(x, 28) == (x[13], x[2], x[7], x[12])
  {
  }

  lemma {:induction false} Sines2()
    ensures SineRow(16) == (0xf61e2562, 0xc040b340, 0x265e5a51, 0xe9b6c7aa)
    ensures SineRow(20) == (0xd62f105d, 0x2441453, 0xd8a1e681, 0xe7d3fbc8)
    ensures SineRow(24) == (0x21e1cde6, 0xc33707d6, 0xf4d50d87, 0x455a14ed)
    ensures SineRow(28) == (0xa9e3e905, 0xfcefa3f8, 0x676f02d9, 0x8d2a4c8a)
  {
  }

  lemma {:induction false} Words3(x: seq<bv32>)
    requires |x| == 16
    ensures WordRow(x, 32) == (x[5], x[8], x[11], x[14])
    ensures WordRow(x, 36) == (x[1], x[4], x[7], x[10])
    ensures WordRow(x, 40) == (x[13], x[0], x[3], x[6])
    ensures WordRow(x, 44) == (x[9], x[12], x[15], x[2])
  {
  }

  lemma {:induction false} Sines3()
    ensures SineRow(32) == (0xfffa3942, 0x8771f681, 0x6d9d6122, 0xfde5380c)
    ensures SineRow(36) == (0xa4beea44, 0x4bdecfa9, 0xf6bb4b60, 0xbebfbc70)
    ensures SineRow(40) == (0x289b7ec6, 0xeaa127fa, 0xd4ef3085, 0x4881d05)
    ensures SineRow(44) == (0xd9d4d039, 0xe6db99e5, 0x1fa27cf8, 0xc4ac5665)
  {
  }

  lemma {:induction false} Words4(x: seq<bv32>)
    requires |x| == 16
    ensures WordRow(x, 48) == (x[0], x[7], x[14], x[5])
    ensures WordRow(x, 52) == (x[12], x[3], x[10], x[1])
    ensures WordRow(x, 56) == (x[8], x[15], x[6], x[13])
    ensures WordRow(x, 60) == (x[4], x[11], x[2], x[9])
  {
  }

  lemma {:induction false} Sines4()
    ensures SineRow(48) == (0xf4292244, 0x432aff97, 0xab9423a7, 0xfc93a039)
    ensures SineRow(52) == (0x655b59c3, 0x8f0ccc92, 0xffeff47d, 0x85845dd1)
    ensures SineRow(56) == (0x6fa87e4f, 0xfe2ce6e0, 0xa3014314, 0x4e0811a1)
    ensures SineRow(60) == (0xf7537e82, 0xbd3af235, 0x2ad7d2bb, 0xeb86d391)
  {
  }

  lemma {:induction false} Unroll(s: State, x: seq<bv32>, n: nat)
    requires |x| == 16 && n + 4 <= 64
    ensures Operations(s, x, n + 4) ==
      Operation(Operation(Operation(Operation(Operations(s, x, n), x, n), x, n + 1), x, n + 2), x, n + 3)
  {
    assert Operations(s, x, n + 3) == Operation(Operations(s, x, n + 2), x, n + 2);
    assert Operations(s, x, n + 1) == Operation(Operations(s, x, n), x, n);
  }

  lemma {:induction false} FourFf(s: State, x: seq<bv32>, n: nat, ws: (bv32, bv32, bv32, bv32),
      acs: (bv32, bv32, bv32, bv32))
    requires |x| == 16 && 0 <= n <= 12 && n % 4 == 0
    requires WordRow(x, n) == ws && SineRow(n) == acs
    ensures var t := Operations(s, x, n);
      var a := Ff(t.a, t.b, t.c, t.d, ws.0, 7, acs.0);
      var d := Ff(t.d, a, t.b, t.c, ws.1, 12, acs.1);
      var c := Ff(t.c, d, a, t.b, ws.2, 17, acs.2);
      Operations(s, x, n + 4) == State(a, Ff(t.b, c, d, a, ws.3, 22, acs.3), c, d)
  {
    hide F, G, H, I, Turn, RotateLeft, Operations, Sine, WordOf;
    Unroll(s, x, n);
  }

  lemma {:induction false} FourGg(s: State, x: seq<bv32>, n: nat, ws: (bv32, bv32, bv32, bv32),
      acs: (bv32, bv32, bv32, bv32))
    requires |x| == 16 && 16 <= n <= 28 && n % 4 == 0
    requires WordRow(x, n) == ws && SineRow(n) == acs
    ensures var t := Operations(s, x, n);
      var a := Gg(t.a, t.b, t.c, t.d, ws.0, 5, acs.0);
      var d := Gg(t.d, a, t.b, t.c, ws.1, 9, acs.1);
      var c := Gg(t.c, d, a, t.b, ws.2, 14, acs.2);
      Operations(s, x, n + 4) == State(a, Gg(t.b, c, d, a, ws.3, 20, acs.3), c, d)
  {
    hide F, G, H, I, Turn, RotateLeft, Operations, Sine, WordOf;
    Unroll(s, x, n);
  }

  lemma {:induction false} FourHh(s: State, x: seq<bv32>, n: nat, ws: (bv32, bv32, bv32, bv32),
      acs: (bv32, bv32, bv32, bv32))
    requires |x| == 16 && 32 <= n <= 44 && n % 4 == 0
    requires WordRow(x, n) == ws && SineRow(n) == acs
    ensures var t := Operations(s, x, n);
      var a := Hh(t.a, t.b, t.c, t.d, ws.0, 4, acs.0);
      var d := Hh(t.d, a, t.b, t.c, ws.1, 11, acs.1);
      var c := Hh(t.c, d, a, t.b, ws.2, 16, acs.2);
      Operations(s, x, n + 4) == State(a, Hh(t.b, c, d, a, ws.3, 23, acs.3), c, d)
  {
    hide F, G, H, I, Turn, RotateLeft, Operations, Sine, WordOf;
    Unroll(s, x, n);
  }

  lemma {:induction false} FourIi(s: State, x: seq<bv32>, n: nat, ws: (bv32, bv32, bv32, bv32),
      acs: (bv32, bv32, bv32, bv32))
    requires |x| == 16 && 48 <= n <= 60 && n % 4 == 0
    requires WordRow(x, n) == ws && SineRow(n) == acs
    ensures var t := Operations(s, x, n);
      var a := Ii(t.a, t.b, t.c, t.d, ws.0, 6, acs.0);
      var d := Ii(t.d, a, t.b, t.c, ws.1, 10, acs.1);
      var c := Ii(t.c, d, a, t.b, ws.2, 15, acs.2);
      Operations(s, x, n + 4) == State(a, Ii(t.b, c, d, a, ws.3, 21, acs.3), c, d)
  {
    hide F, G, H, I, Turn, RotateLeft, Operations, Sine, WordOf;
    Unroll(s, x, n);
  }

  method Round1(s: State, x: seq<bv32>, ghost s0: State) returns (t: State)
    requires |x| == 16 && s == Operations(s0, x, 0)
    ensures t == Operations(s0, x, 16)
  {
    hide F, G, H, I, Turn, RotateLeft, Operations, WordRow, SineRow, Ff, Gg, Hh, Ii;
    Words1(x);
    Sines1();
    var a, b, c, d := s.a, s.b, s.c, s.d;
    a := Ff(a, b, c, d, x[0], 7, 0xd76aa478);
    d := Ff(d, a, b, c, x[1], 12, 0xe8c7b756);
    c := Ff(c, d, a, b, x[2], 17, 0x242070db);
    b := Ff(b, c, d, a, x[3], 22, 0xc1bdceee);
    FourFf(s0, x, 0, (x[0], x[1], x[2], x[3]), (0xd76aa478, 0xe8c7b756, 0x242070db, 0xc1bdceee));
    a := Ff(a, b, c, d, x[4], 7, 0xf57c0faf);
    d := Ff(d, a, b, c, x[5], 12, 0x4787c62a);
    c := Ff(c, d, a, b, x[6], 17, 0xa8304613);
    b := Ff(b, c, d, a, x[7], 22, 0xfd469501);
    FourFf(s0, x, 4, (x[4], x[5], x[6], x[7]), (0xf57c0faf, 0x4787c62a, 0xa8304613, 0xfd469501));
    a := Ff(a, b, c, d, x[8], 7, 0x698098d8);
    d := Ff(d, a, b, c, x[9], 12, 0x8b44f7af);
    c := Ff(c, d, a, b, x[10], 17, 0xffff5bb1);
    b := Ff(b, c, d, a, x[11], 22, 0x895cd7be);
    FourFf(s0, x, 8, (x[8], x[9], x[10], x[11]), (0x698098d8, 0x8b44f7af, 0xffff5bb1, 0x895cd7be));
    a := Ff(a, b, c, d, x[12], 7, 0x6b901122);
    d := Ff(d, a, b, c, x[13], 12, 0xfd987193);
    c := Ff(c, d, a, b, x[14], 17, 0xa679438e);
    b := Ff(b, c, d, a, x[15], 22, 0x49b40821);
    FourFf(s0, x, 12, (x[12], x[13], x[14], x[15]), (0x6b901122, 0xfd987193, 0xa679438e, 0x49b40821));
    t := State(a, b, c, d);
  }

  method Round2(s: State, x: seq<bv32>, ghost s0: State) returns (t: State)
    requires |x| == 16 && s == Operations(s0, x, 16)
    ensures t == Operations(s0, x, 32)
  {
    hide F, G, H, I, Turn, RotateLeft, Operations, WordRow, SineRow, Ff, Gg, Hh, Ii;
    Words2(x);
    Sines2();
    var a, b, c, d := s.a, s.b, s.c, s.d;
    a := Gg(a, b, c, d, x[1], 5, 0xf61e2562);
    d := Gg(d, a, b, c, x[6], 9, 0xc040b340);
    c := Gg(c, d, a, b, x[11], 14, 0x265e5a51);
    b := Gg(b, c, d, a, x[0], 20, 0xe9b6c7aa);
    FourGg(s0, x, 16, (x[1], x[6], x[11], x[0]), (0xf61e2562, 0xc040b340, 0x265e5a51, 0xe9b6c7aa));
    a := Gg(a, b, c, d, x[5], 5, 0xd62f105d);
    d := Gg(d, a, b, c, x[10], 9, 0x2441453);
    c := Gg(c, d, a, b, x[15], 14, 0xd8a1e681);
    b := Gg(b, c, d, a, x[4], 20, 0xe7d3fbc8);
    FourGg(s0, x, 20, (x[5], x[10], x[15], x[4]), (0xd62f105d, 0x2441453, 0xd8a1e681, 0xe7d3fbc8));
    a := Gg(a, b, c, d, x[9], 5, 0x21e1cde6);
    d := Gg(d, a, b, c, x[14], 9, 0xc33707d6);
    c := Gg(c, d, a, b, x[3], 14, 0xf4d50d87);
    b := Gg(b, c, d, a, x[8], 20, 0x455a14ed);
    FourGg(s0, x, 24, (x[9], x[14], x[3], x[8]), (0x21e1cde6, 0xc33707d6, 0xf4d50d87, 0x455a14ed));
    a := Gg(a, b, c, d, x[13], 5, 0xa9e3e905);
    d := Gg(d, a, b, c, x[2], 9, 0xfcefa3f8);
    c := Gg(c, d, a, b, x[7], 14, 0x676f02d9);
    b := Gg(b, c, d, a, x[12], 20, 0x8d2a4c8a);
    FourGg(s0, x, 28, (x[13], x[2], x[7], x[12]), (0xa9e3e905, 0xfcefa3f8, 0x676f02d9, 0x8d2a4c8a));
    t := State(a, b, c, d);
  }

  method Round3(s: State, x: seq<bv32>, ghost s0: State) returns (t: State)
    requires |x| == 16 && s == Operations(s0, x, 32)
    ensures t == Operations(s0, x, 48)
  {
    hide F, G, H, I, Turn, RotateLeft, Operations, WordRow, SineRow, Ff, Gg, Hh, Ii;
    Words3(x);
    Sines3();
    var a, b, c, d := s.a, s.b, s.c, s.d;
    a := Hh(a, b, c, d, x[5], 4, 0xfffa3942);
    d := Hh(d, a, b, c, x[8], 11, 0x8771f681);
    c := Hh(c, d, a, b, x[11], 16, 0x6d9d6122);
    b := Hh(b, c, d, a, x[14], 23, 0xfde5380c);
    FourHh(s0, x, 32, (x[5], x[8], x[11], x[14]), (0xfffa3942, 0x8771f681, 0x6d9d6122, 0xfde5380c));
    a := Hh(a, b, c, d, x[1], 4, 0xa4beea44);
    d := Hh(d, a, b, c, x[4], 11, 0x4bdecfa9);
    c := Hh(c, d, a, b, x[7], 16, 0xf6bb4b60);
    b := Hh(b, c, d, a, x[10], 23, 0xbebfbc70);
    FourHh(s0, x, 36, (x[1], x[4], x[7], x[10]), (0xa4beea44, 0x4bdecfa9, 0xf6bb4b60, 0xbebfbc70));
    a := Hh(a, b, c, d, x[13], 4, 0x289b7ec6);
    d := Hh(d, a, b, c, x[0], 11, 0xeaa127fa);
    c := Hh(c, d, a, b, x[3], 16, 0xd4ef3085);
    b := Hh(b, c, d, a, x[6], 23, 0x4881d05);
    FourHh(s0, x, 40, (x[13], x[0], x[3], x[6]), (0x289b7ec6, 0xeaa127fa, 0xd4ef3085, 0x4881d05));
    a := Hh(a, b, c, d, x[9], 4, 0xd9d4d039);
    d := Hh(d, a, b, c, x[12], 11, 0xe6db99e5);
    c := Hh(c, d, a, b, x[15], 16, 0x1fa27cf8);
    b := Hh(b, c, d, a, x[2], 23, 0xc4ac5665);
    FourHh(s0, x, 44, (x[9], x[12], x[15], x[2]), (0xd9d4d039, 0xe6db99e5, 0x1fa27cf8, 0xc4ac5665));
    t := State(a, b, c, d);
  }

  method Round4(s: State, x: seq<bv32>, ghost s0: State) returns (t: State)
    requires |x| == 16 && s == Operations(s0, x, 48)
    ensures t == Operations(s0, x, 64)
  {
    hide F, G, H, I, Turn, RotateLeft, Operations, WordRow, SineRow, Ff, Gg, Hh, Ii;
    Words4(x);
    Sines4();
    var a, b, c, d := s.a, s.b, s.c, s.d;
    a := Ii(a, b, c, d, x[0], 6, 0xf4292244);
    d := Ii(d, a, b, c, x[7], 10, 0x432aff97);
    c := Ii(c, d, a, b, x[14], 15, 0xab9423a7);
    b := Ii(b, c, d, a, x[5], 21, 0xfc93a039);
    FourIi(s0, x, 48, (x[0], x[7], x[14], x[5]), (0xf4292244, 0x432aff97, 0xab9423a7, 0xfc93a039));
    a := Ii(a, b, c, d, x[12], 6, 0x655b59c3);
    d := Ii(d, a, b, c, x[3], 10, 0x8f0ccc92);
    c := Ii(c, d, a, b, x[10], 15, 0xffeff47d);
    b := Ii(b, c, d, a, x[1], 21, 0x85845dd1);
    FourIi(s0, x, 52, (x[12], x[3], x[10], x[1]), (0x655b59c3, 0x8f0ccc92, 0xffeff47d, 0x85845dd1));
    a := Ii(a, b, c, d, x[8], 6, 0x6fa87e4f);
    d := Ii(d, a, b, c, x[15], 10, 0xfe2ce6e0);
    c := Ii(c, d, a, b, x[6], 15, 0xa3014314);
    b := Ii(b, c, d, a, x[13], 21, 0x4e0811a1);
    FourIi(s0, x, 56, (x[8], x[15], x[6], x[13]), (0x6fa87e4f, 0xfe2ce6e0, 0xa3014314, 0x4e0811a1));
    a := Ii(a, b, c, d, x[4], 6, 0xf7537e82);
    d := Ii(d, a, b, c, x[11], 10, 0xbd3af235);
    c := Ii(c, d, a, b, x[2], 15, 0x2ad7d2bb);
    b := Ii(b, c, d, a, x[9], 21, 0xeb86d391);
    FourIi(s0, x, 60, (x[4], x[11], x[2], x[9]), (0xf7537e82, 0xbd3af235, 0x2ad7d2bb, 0xeb86d391));
    t := State(a, b, c, d);
  }

  /** The unrolled block transformation is the sixty-four operations in order. */
  method Transform(s: State, block: seq<byte>) returns (t: State)
    requires |block| == 64
    ensures t == Compress(s, block)
  {
    var x := Words(block);
    var u := Round1(s, x, s);
    u := Round2(u, x, s);
    u := Round3(u, x, s);
    u := Round4(u, x, s);
    t := Plus(s, u);
  }
}

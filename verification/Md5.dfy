/** The streaming MD5 context: what it has absorbed, padding and the digest. */
module Md5 {
  import opened Bytes
  import opened Md5Block

  const INITIAL: State := State(0x67452301, 0xefcdab89, 0x98badcfe, 0x10325476)

  /** The chaining words after all whole blocks of m. */
  function Fold(s: State, m: seq<byte>): State
    decreases |m|
  {
    if |m| < 64 then s else Fold(Compress(s, m[..64]), m[64..])
  }

  /** What section 3.1 and 3.2 of RFC 1321 append to a message of n bytes. */
  function Padding(n: nat): seq<byte> {
    [0x80] + Zeros((55 - n) % 64) + Le(8 * n % U64, 8)
  }

  function Zeros(k: nat): (z: seq<byte>)
    ensures |z| == k
  {
    seq(k, i => 0)
  }

  /** The MD5 digest of a message. */
  function Digest(m: seq<byte>): (d: seq<byte>)
    ensures |d| == 16
  {
    Encode(Fold(INITIAL, m + Padding(|m|)))
  }

  function Encode(s: State): (d: seq<byte>)
    ensures |d| == 16
  {
    Le(s.a as nat, 4) + Le(s.b as nat, 4) + Le(s.c as nat, 4) + Le(s.d as nat, 4)
  }

  function Concat(chunks: seq<seq<byte>>): seq<byte> {
    if chunks == [] then [] else Concat(chunks[..|chunks| - 1]) + chunks[|chunks| - 1]
  }

  /** How many of n bytes wait for their block to fill up. */
  function Waits(n: nat): (w: nat)
    ensures w < 64 && w <= n
  {
    n % 64
  }

  /** The bit count the context keeps for n bytes. */
  function Bits(n: nat): nat { 8 * n % U64 }

  // ---- folding in pieces

  lemma {:induction false} FoldSplit(s: State, a: seq<byte>, b: seq<byte>)
    requires Waits(|a|) == 0
    ensures Fold(s, a + b) == Fold(Fold(s, a), b)
    decreases |a|
  {
    hide Compress, Operations;
    if a == [] {
      assert a + b == b;
    } else {
      assert (a + b)[..64] == a[..64];
      assert (a + b)[64..] == a[64..] + b;
      FoldSplit(Compress(s, a[..64]), a[64..], b);
    }
  }

  /** A block more, after any number of whole blocks. */
  lemma {:induction false} FoldBlock(s: State, a: seq<byte>, block: seq<byte>)
    requires Waits(|a|) == 0 && |block| == 64
    ensures Fold(s, a + block) == Compress(Fold(s, a), block)
  {
    hide Compress, Operations;
    FoldSplit(s, a, block);
    assert block[..64] == block;
  }

  lemma {:induction false} FoldTail(s: State, a: seq<byte>, t: seq<byte>)
    requires Waits(|a|) == 0 && |t| < 64
    ensures Fold(s, a + t) == Fold(s, a)
  {
    hide Compress, Operations;
    FoldSplit(s, a, t);
  }

  lemma {:induction false} Cut(m: seq<byte>, more: seq<byte>)
    ensures var k := |m| - Waits(|m|);
      Waits(k) == 0 && m[..k] + m[k..] == m && m[..k] + (m[k..] + more) == m + more
  {
  }

  lemma {:induction false} NoWrap(n: nat)
    ensures n < U32 ==> n % U32 == n
  {
  }

  lemma {:induction false} NextBoundary(n: nat)
    ensures Waits(n) == 0 ==> Waits(n + 64) == 0
  {
  }

  lemma {:induction false} Fills(n: nat)
    ensures Waits(n + (64 - Waits(n))) == 0
  {
  }

  lemma {:induction false} ModShift(n: nat, t: nat)
    ensures Waits(n) + t < 64 ==> Waits(n + t) == Waits(n) + t
  {
  }

  /** The chunk's first bytes complete the waiting block. */
  lemma {:induction false} FoldFirst(m: seq<byte>, input: seq<byte>)
    requires Waits(|m|) + |input| >= 64
    ensures var w := Waits(|m|);
      Fold(INITIAL, m + input[..64 - w]) == Compress(Fold(INITIAL, m), m[|m| - w..] + input[..64 - w])
  {
    hide *;
    var w := Waits(|m|);
    var whole, rest, more := m[..|m| - w], m[|m| - w..], input[..64 - w];
    Cut(m, more);
    FoldTail(INITIAL, whole, rest);
    FoldBlock(INITIAL, whole, rest + more);
  }

  lemma {:induction false} FoldNext(m: seq<byte>, input: seq<byte>, i: nat)
    requires Waits(|m| + i) == 0 && i + 64 <= |input|
    ensures Fold(INITIAL, m + input[..i + 64]) == Compress(Fold(INITIAL, m + input[..i]), input[i..i + 64])
  {
    hide *;
    assert m + input[..i + 64] == (m + input[..i]) + input[i..i + 64];
    FoldBlock(INITIAL, m + input[..i], input[i..i + 64]);
  }

  /** What is left of the chunk after its last whole block waits in the buffer. */
  lemma {:induction false} FoldRest(m: seq<byte>, input: seq<byte>, i: nat)
    requires i <= |input| < i + 64 && Waits(|m| + i) == 0
    ensures Fold(INITIAL, m + input) == Fold(INITIAL, m + input[..i])
    ensures var w := Waits(|m + input|);
      w == |input| - i && (m + input)[|m + input| - w..] == input[i..]
  {
    hide *;
    assert m + input == (m + input[..i]) + input[i..];
    FoldTail(INITIAL, m + input[..i], input[i..]);
    ModShift(|m| + i, |input| - i);
  }

  lemma {:induction false} FoldShort(m: seq<byte>, input: seq<byte>)
    requires Waits(|m|) + |input| < 64
    ensures Fold(INITIAL, m + input) == Fold(INITIAL, m)
  {
    hide *;
    var w := Waits(|m|);
    Cut(m, input);
    FoldTail(INITIAL, m[..|m| - w], m[|m| - w..]);
    FoldTail(INITIAL, m[..|m| - w], m[|m| - w..] + input);
  }

  lemma {:induction false} TailShort(m: seq<byte>, input: seq<byte>)
    requires Waits(|m|) + |input| < 64
    ensures Waits(|m + input|) == Waits(|m|) + |input|
    ensures (m + input)[|m| - Waits(|m|)..] == m[|m| - Waits(|m|)..] + input
  {
    hide *;
    ModShift(|m|, |input|);
    assert |m + input| == |m| + |input|;
  }

  /** The 32-bit guard of the block loop, at a block boundary of the stream. */
  lemma {:induction false} GuardExact(len: nat, i: nat, n: nat)
    requires i <= n < U32 && Waits(len + i) == 0
    ensures i + 64 <= n ==> (i + 63) % U32 < n
    ensures (i + 63) % U32 < n && i + 64 > n ==> Waits(len) + n >= U32
    ensures (i + 63) % U32 >= n ==> i + 64 > n && Waits(len) + n < U32
  {
    assert U32 == 64 * 0x400_0000;
  }

  // ---- the 64-bit count in two words

  /** The low word of the count after n more bytes, and the high word with the carry in. */
  function LowAfter(c0: nat, n: nat): nat { (c0 + 8 * n % U32) % U32 }

  function HighAfter(c0: nat, c1: nat, n: nat): nat {
    ((c1 + (if LowAfter(c0, n) < 8 * n % U32 then 1 else 0)) % U32 + n / 0x2000_0000) % U32
  }

  lemma {:induction false} CarryIs(c0: nat, n: nat)
    requires c0 < U32
    ensures c0 + 8 * n % U32 == LowAfter(c0, n) + U32 * (if LowAfter(c0, n) < 8 * n % U32 then 1 else 0)
  {
  }

  lemma {:induction false} HighIs(c1: nat, n: nat)
    requires n < U32
    ensures 8 * n == 8 * n % U32 + U32 * (n / 0x2000_0000)
    ensures (c1 % U32 + n / 0x2000_0000) % U32 == (c1 + n / 0x2000_0000) % U32
  {
  }

  /** The two-word counter goes up by the bits of n bytes, modulo 2^64. */
  lemma {:induction false} CountStep(c0: nat, c1: nat, len: nat, n: nat)
    requires c0 < U32 && c1 < U32 && n < U32
    requires c0 + U32 * c1 == Bits(len)
    ensures LowAfter(c0, n) + U32 * HighAfter(c0, c1, n) == Bits(len + n)
  {
    var d0 := LowAfter(c0, n);
    var carry := if d0 < 8 * n % U32 then 1 else 0;
    CarryIs(c0, n);
    HighIs(c1 + carry, n);
    Reduce(8 * len, d0, c1 + carry + n / 0x2000_0000, 8 * (len + n));
  }

  lemma {:induction false} Reduce(a: nat, lo: nat, hi: nat, b: nat)
    requires lo < U32 && b - (a - a % U64) == lo + U32 * hi
    ensures lo + U32 * (hi % U32) == b % U64
  {
    assert b == (a / U64 + hi / U32) * U64 + (lo + U32 * (hi % U32));
    DivModUnique(b, U64, a / U64 + hi / U32, lo + U32 * (hi % U32));
  }

  /** The low word alone tells how many bytes wait in the buffer. */
  lemma {:induction false} Waiting(c0: nat, c1: nat, len: nat)
    requires c0 < U32 && c0 + U32 * c1 == Bits(len)
    ensures c0 / 8 % 64 == Waits(len)
  {
    var q := 8 * len / U64;
    assert 8 * len == c0 + U32 * c1 + U64 * q;
    var m := 0x80_0000 * c1 + 0x80_0000_0000_0000 * q;
    DivModUnique(c0, 8, len - 64 * m, 0);
    var k := c0 / 8;
    DivModUnique(len, 64, k / 64 + m, k % 64);
  }

  lemma {:induction false} LeCat(a: nat, i: nat, b: nat, j: nat)
    requires a < Span(i)
    ensures Le(a + Span(i) * b, i + j) == Le(a, i) + Le(b, j)
  {
    if i > 0 {
      var n := a + Span(i) * b;
      var w := Span(i - 1) * b;
      assert n == 256 * (a / 256 + w) + a % 256;
      DivModUnique(n, 256, a / 256 + w, a % 256);
      LeCat(a / 256, i - 1, b, j);
    }
  }

  // ---- padding

  const PAD: seq<byte> := [0x80] + Zeros(63)

  /** Padding ends at a block boundary, and no shorter run of zeros would. */
  lemma {:induction false} PaddedWhole(n: nat)
    ensures 9 <= |Padding(n)| <= 72 && Waits(n + |Padding(n)|) == 0
  {
    var q := (55 - n) / 64;
    assert n + |Padding(n)| == 64 * (1 - q);
    DivModUnique(n + |Padding(n)|, 64, 1 - q, 0);
  }

  lemma {:induction false} PadLength(n: nat, padLen: nat)
    requires padLen == if Waits(n) < 56 then 56 - Waits(n) else 120 - Waits(n)
    ensures padLen <= 64 && PAD[..padLen] + Le(Bits(n), 8) == Padding(n)
  {
    assert padLen == 1 + (55 - n) % 64;
    assert PAD[..padLen] == [0x80] + Zeros((55 - n) % 64);
  }

  /** The two count words, written out, are the 64-bit count written out. */
  lemma {:induction false} BitsField(c0: nat, c1: nat, n: nat)
    requires c0 < U32 && c0 + U32 * c1 == Bits(n)
    ensures Le(c0, 4) + Le(c1, 4) == Le(Bits(n), 8)
  {
    SpanValues();
    LeCat(c0, 4, c1, 4);
  }

  // ---- the context

  class Context {
    var state: State
    var count0: nat
    var count1: nat
    const buffer: array<byte>

    ghost predicate Valid()
      reads this
    {
      buffer.Length == 64 && count0 < U32 && count1 < U32
    }

    /** The context stands for message m: whole blocks folded, the rest waiting. */
    ghost predicate Absorbed(m: seq<byte>)
      reads this, buffer
    {
      Valid() && state == Fold(INITIAL, m) && count0 + U32 * count1 == Bits(|m|) &&
      buffer[..Waits(|m|)] == m[|m| - Waits(|m|)..]
    }

    constructor ()
      ensures Absorbed([]) && fresh(buffer)
    {
      state, count0, count1 := INITIAL, 0, 0;
      buffer := new byte[64];
    }

    /** Adds n bytes to the bit count, carrying by hand from the low word to the high. */
    method Count(n: nat, ghost len: nat)
      requires Valid() && n < U32 && count0 + U32 * count1 == Bits(len)
      modifies this
      ensures Valid() && count0 + U32 * count1 == Bits(len + n)
      ensures state == old(state)
    {
      hide Fold, Bits;
      CountStep(count0, count1, len, n);
      count0 := (count0 + 8 * n % U32) % U32;
      if count0 < 8 * n % U32 { count1 := (count1 + 1) % U32; }
      count1 := (count1 + n / 0x2000_0000) % U32;
    }

    /**
     * Absorbs a chunk.  The loop counter is 32 bits wide and its guard adds 63 to it: the
     * sum wraps, and the loop runs past the chunk, exactly when the bytes already waiting
     * and the chunk together reach 2^32.
     */
    method Update(input: seq<byte>, ghost m: seq<byte>) returns (inside: bool)
      requires Absorbed(m) && |input| < U32
      modifies this, buffer
      ensures inside <==> Waits(|m|) + |input| < U32
      ensures inside ==> Absorbed(m + input)
    {
      hide Fold, Compress, Operations, Waits, Bits;
      Waiting(count0, count1, |m|);
      var n := |input|;
      var index := count0 / 8 % 64;
      Count(n, |m|);
      if n < 64 - index {
        Fill(index, input, m[|m| - index..]);
        FoldShort(m, input);
        TailShort(m, input);
        return true;
      }
      var partLen := 64 - index;
      Fill(index, input[..partLen], m[|m| - index..]);
      assert buffer[..] == buffer[..64];
      state := Transform(state, buffer[..]);
      FoldFirst(m, input);
      Fills(|m|);
      var i;
      inside, i := Blocks(input, partLen, m);
      if inside {
        Fill(0, input[i..], []);
        FoldRest(m, input, i);
      }
    }

    /** The loop over the whole blocks of a chunk, from an offset where the stream is at a block boundary. */
    method Blocks(input: seq<byte>, from: nat, ghost m: seq<byte>) returns (inside: bool, i: nat)
      requires from <= |input| < U32 && Waits(|m| + from) == 0 && state == Fold(INITIAL, m + input[..from])
      modifies `state
      ensures inside <==> Waits(|m|) + |input| < U32
      ensures inside ==> i <= |input| < i + 64 && Waits(|m| + i) == 0 && state == Fold(INITIAL, m + input[..i])
    {
      hide Fold, Compress, Operations, Waits, Bits;
      var n := |input|;
      i := from;
      while (i + 63) % U32 < n
        invariant from <= i <= n && Waits(|m| + i) == 0
        invariant state == Fold(INITIAL, m + input[..i])
        decreases n - i
      {
        GuardExact(|m|, i, n);
        if i + 64 > n { return false, i; }
        state := Transform(state, input[i..i + 64]);
        FoldNext(m, input, i);
        NextBoundary(|m| + i);
        NoWrap(i + 64);
        i := (i + 64) % U32;
      }
      GuardExact(|m|, i, n);
      inside := true;
    }

    /** Copies bytes into the buffer behind those that wait there. */
    method Fill(at: nat, bs: seq<byte>, ghost waiting: seq<byte>)
      requires buffer.Length == 64 && at + |bs| <= 64 && waiting == buffer[..at]
      modifies buffer
      ensures buffer[..at + |bs|] == waiting + bs
    {
      forall k | 0 <= k < |bs| { buffer[at + k] := bs[k]; }
    }

    /** Appends the padding and the bit count that stood before it. */
    method Pad(ghost m: seq<byte>)
      requires Absorbed(m)
      modifies this, buffer
      ensures Absorbed(m + Padding(|m|))
    {
      hide Fold, Compress, Operations, Waits, Bits, Padding;
      Waiting(count0, count1, |m|);
      var bits := Le(count0, 4) + Le(count1, 4);
      BitsField(count0, count1, |m|);
      var index := count0 / 8 % 64;
      var padLen := if index < 56 then 56 - index else 120 - index;
      PadLength(|m|, padLen);
      var _ := Update(PAD[..padLen], m);
      var _ := Update(bits, m + PAD[..padLen]);
      Assoc(m, PAD[..padLen], bits);
    }

    /** Finishes the digest and clears the context. */
    method Final(ghost m: seq<byte>) returns (digest: seq<byte>)
      requires Absorbed(m)
      modifies this, buffer
      ensures digest == Digest(m)
      ensures state == State(0, 0, 0, 0) && count0 == count1 == 0
      ensures forall k :: 0 <= k < buffer.Length ==> buffer[k] == 0
    {
      hide Fold, Compress, Operations, Waits, Bits, Padding, Encode;
      Pad(m);
      digest := Encode(state);
      state, count0, count1 := State(0, 0, 0, 0), 0, 0;
      forall k | 0 <= k < buffer.Length { buffer[k] := 0; }
    }
  }

  /** No chunk reaches 2^32 together with the bytes that wait before it. */
  ghost predicate Chunkable(chunks: seq<seq<byte>>) {
    forall k :: 0 <= k < |chunks| ==> Waits(|Concat(chunks[..k])|) + |chunks[k]| < U32
  }

  /** A byte, then all the bytes one call can take: the second call runs past its chunk. */
  lemma {:induction false} NotChunkable(a: seq<byte>, b: seq<byte>)
    requires |a| == 1 && |b| == U32 - 1
    ensures !Chunkable([a, b])
  {
    var chunks := [a, b];
    assert chunks[..1] == [a] && [a][..0] == [];
    assert Concat([a]) == [] + a;
    assert Waits(|Concat(chunks[..1])|) + |chunks[1]| == U32;
  }

  /**
   * Streaming: however a message is cut into chunks, the digest is the digest of the whole
   * message, exactly as long as no chunk makes the loop counter wrap.
   */
  method DigestOf(chunks: seq<seq<byte>>) returns (inside: bool, digest: seq<byte>)
    requires forall k :: 0 <= k < |chunks| ==> |chunks[k]| < U32
    ensures inside <==> Chunkable(chunks)
    ensures inside ==> digest == Digest(Concat(chunks))
  {
    hide Digest, Fold, Waits, Bits, Context.Absorbed;
    var c := new Context();
    ghost var m := [];
    digest := [];
    for k := 0 to |chunks|
      invariant c.Absorbed(m) && fresh(c) && fresh(c.buffer)
      invariant m == Concat(chunks[..k])
      invariant forall j :: 0 <= j < k ==> Waits(|Concat(chunks[..j])|) + |chunks[j]| < U32
    {
      inside := c.Update(chunks[k], m);
      if !inside { return; }
      assert chunks[..k + 1][..k] == chunks[..k];
      m := m + chunks[k];
    }
    assert chunks[..|chunks|] == chunks;
    inside := true;
    digest := c.Final(m);
  }
}

/** Bytes, fixed-width integers in both byte orders, and C strings. */
module Bytes {

  type byte = x: int | 0 <= x < 0x100

  datatype Option<+T> = None | Some(value: T)

  const U32: nat := 0x1_0000_0000
  const U64: nat := 0x1_0000_0000_0000_0000

  /** 256 to the power k: the number of values a k-byte field holds. */
  function Span(k: nat): (r: nat)
    ensures r >= 1
  {
    if k == 0 then 1 else 256 * Span(k - 1)
  }

  lemma {:induction false} SpanValues()
    ensures Span(1) == 0x100 && Span(2) == 0x1_0000 && Span(4) == U32 && Span(8) == U64
  {
    assert Span(1) == 256 * Span(0);
    assert Span(3) == 256 * Span(2);
    assert Span(5) == 256 * Span(4);
    assert Span(7) == 256 * Span(6);
  }

  /** n written in k bytes, least significant first; higher bits are dropped. */
  function Le(n: nat, k: nat): (bs: seq<byte>)
    ensures |bs| == k
  {
    if k == 0 then [] else [n % 256] + Le(n / 256, k - 1)
  }

  function LeDec(bs: seq<byte>): (n: nat)
    ensures n < Span(|bs|)
  {
    if bs == [] then 0 else bs[0] + 256 * LeDec(bs[1..])
  }

  /** n written in k bytes, most significant first; higher bits are dropped. */
  function Be(n: nat, k: nat): (bs: seq<byte>)
    ensures |bs| == k
  {
    if k == 0 then [] else Be(n / 256, k - 1) + [n % 256]
  }

  function BeDec(bs: seq<byte>): (n: nat)
    ensures n < Span(|bs|)
  {
    if bs == [] then 0 else 256 * BeDec(bs[..|bs| - 1]) + bs[|bs| - 1]
  }

  /** A field reads back as what was written, cut to its width. */
  lemma {:induction false} LeRoundTrip(n: nat, k: nat)
    ensures LeDec(Le(n, k)) == n % Span(k)
    ensures n < Span(k) ==> LeDec(Le(n, k)) == n
  {
    if k > 0 {
      LeRoundTrip(n / 256, k - 1);
      assert Le(n, k)[1..] == Le(n / 256, k - 1);
      ModSplit(n, Span(k - 1));
    }
  }

  lemma {:induction false} BeRoundTrip(n: nat, k: nat)
    ensures BeDec(Be(n, k)) == n % Span(k)
    ensures n < Span(k) ==> BeDec(Be(n, k)) == n
  {
    if k > 0 {
      BeRoundTrip(n / 256, k - 1);
      assert Be(n, k)[..k - 1] == Be(n / 256, k - 1);
      ModSplit(n, Span(k - 1));
    }
  }

  lemma {:induction false} ModSplit(n: nat, m: nat)
    requires m >= 1
    ensures n % (256 * m) == n % 256 + 256 * ((n / 256) % m)
    ensures n < 256 * m ==> n / 256 < m && n % (256 * m) == n
  {
    var q, r := n / 256, n % 256;
    var a, b := q / m, q % m;
    assert n == 256 * (a * m + b) + r;
    assert n == a * (256 * m) + (256 * b + r);
    assert 0 <= 256 * b + r < 256 * m;
    DivModUnique(n, 256 * m, a, 256 * b + r);
    if n < 256 * m {
      assert q < m;
      DivModUnique(n, 256 * m, 0, n);
    }
  }

  lemma {:induction false} DivModUnique(n: int, d: int, q: int, r: int)
    requires d > 0 && 0 <= r < d && n == q * d + r
    ensures n / d == q && n % d == r
  {
    QuotientLe(n / d, n % d, q, r, d);
    QuotientLe(q, r, n / d, n % d, d);
  }

  lemma {:induction false} QuotientLe(q: int, r: int, q': int, r': int, d: int)
    requires 0 <= r < d && 0 <= r' < d && q * d + r == q' * d + r'
    ensures q <= q'
  {
    MulStep(q, q', d);
  }

  lemma {:induction false} MulStep(a: int, b: int, d: int)
    requires d > 0
    ensures a > b ==> a * d >= b * d + d
  {
    var k := a - b - 1;
    assert a * d == b * d + d + k * d by {
      assert a == b + 1 + k;
      Distribute(b, k, d);
    }
    if k >= 0 { assert k * d >= 0; }
  }

  lemma {:induction false} Distribute(b: int, k: int, d: int)
    ensures (b + 1 + k) * d == b * d + d + k * d
  {
  }

  /** Reading then writing a field gives back the same bytes. */
  lemma {:induction false} LeDecEnc(bs: seq<byte>)
    ensures Le(LeDec(bs), |bs|) == bs
  {
    if bs != [] {
      LeDecEnc(bs[1..]);
      var n := LeDec(bs);
      DivModUnique(n, 256, LeDec(bs[1..]), bs[0]);
      assert bs == [bs[0]] + bs[1..];
    }
  }

  lemma {:induction false} BeDecEnc(bs: seq<byte>)
    ensures Be(BeDec(bs), |bs|) == bs
  {
    if bs != [] {
      var k := |bs| - 1;
      BeDecEnc(bs[..k]);
      DivModUnique(BeDec(bs), 256, BeDec(bs[..k]), bs[k]);
      assert bs == bs[..k] + [bs[k]];
    }
  }

  lemma {:induction false} DivTwice(n: nat, m: nat)
    requires m >= 1
    ensures n / 256 / m == n / (256 * m)
  {
    var q, r := n / 256, n % 256;
    var a, b := q / m, q % m;
    assert n == 256 * (a * m + b) + r;
    assert n == a * (256 * m) + (256 * b + r);
    assert 0 <= 256 * b + r < 256 * m;
    DivModUnique(n, 256 * m, a, 256 * b + r);
  }

  /** Byte i from the low end is digit i of the number to base 256. */
  lemma {:induction false} LeDigit(n: nat, k: nat, i: nat)
    requires i < k
    ensures Le(n, k)[i] == n / Span(i) % 256
  {
    if i > 0 {
      LeDigit(n / 256, k - 1, i - 1);
      DivTwice(n, Span(i - 1));
    }
  }

  lemma {:induction false} BeDigit(n: nat, k: nat, i: nat)
    requires i < k
    ensures Be(n, k)[k - 1 - i] == n / Span(i) % 256
  {
    if i > 0 {
      BeDigit(n / 256, k - 1, i - 1);
      DivTwice(n, Span(i - 1));
    }
  }

  lemma {:induction false} Assoc<T>(a: seq<T>, b: seq<T>, c: seq<T>)
    ensures (a + b) + c == a + (b + c)
  {
  }

  lemma {:induction false} SubSlice<T>(s: seq<T>, a: nat, b: nat, c: nat, d: nat)
    requires a <= b <= |s| && c <= d <= b - a
    ensures s[a..b][c..d] == s[a + c..a + d]
  {
    forall i | 0 <= i < d - c ensures s[a..b][c..d][i] == s[a + c..a + d][i] {
      assert s[a..b][c + i] == s[a + c + i];
    }
  }

  /** s with bs written over it from off. */
  function Over(s: seq<byte>, off: nat, bs: seq<byte>): (r: seq<byte>)
    requires off + |bs| <= |s|
    ensures |r| == |s|
  {
    s[..off] + bs + s[off + |bs|..]
  }

  lemma {:induction false} OverSlices(s: seq<byte>, off: nat, bs: seq<byte>, x: nat, y: nat)
    requires off + |bs| <= |s| && x <= y <= |s|
    ensures y <= off || off + |bs| <= x ==> Over(s, off, bs)[x..y] == s[x..y]
    ensures Over(s, off, bs)[off..off + |bs|] == bs
  {
  }

  /** No NUL byte: the bytes can be a C string's contents. */
  predicate NoNul(s: seq<byte>) {
    forall i :: 0 <= i < |s| ==> s[i] != 0
  }

  /** Length of the C string at the start of bs; |bs| when no NUL follows. */
  function StrLen(bs: seq<byte>): (n: nat)
    ensures n <= |bs| && (n < |bs| ==> bs[n] == 0)
    ensures forall i :: 0 <= i < n ==> bs[i] != 0
  {
    if bs == [] || bs[0] == 0 then 0 else 1 + StrLen(bs[1..])
  }

  lemma {:induction false} StrLenUnique(bs: seq<byte>, n: nat)
    requires n < |bs| && bs[n] == 0 && forall i :: 0 <= i < n ==> bs[i] != 0
    ensures StrLen(bs) == n
  {
  }
}

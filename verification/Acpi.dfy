/** ACPI tables, what linking them means, and the loader script that asks firmware to do the same. */
module Acpi {
  import opened Bytes

  /** Guest address of the table area. */
  const BASE: nat := 0xf2400
  /** A checksum length that stands for the whole table. */
  const FULL: nat := U32 - 1

  datatype Checksum = Checksum(off: nat, start: nat, len: nat)
  datatype LengthField = LengthField(off: nat, size: nat)
  datatype Pointer = Pointer(src: seq<byte>, off: nat, size: nat)
  datatype Table = Table(
    name: seq<byte>, alignment: nat, data: seq<byte>, off: nat,
    checksums: seq<Checksum>, lengths: seq<LengthField>, pointers: seq<Pointer>)

  function Total(bs: seq<byte>): nat {
    if bs == [] then 0 else bs[0] + Total(bs[1..])
  }

  function Negated(n: nat): (b: byte) { (256 - n % 256) % 256 }

  predicate PowerOfTwo(a: nat) {
    a == 1 || (a > 0 && a % 2 == 0 && PowerOfTwo(a / 2))
  }

  /** How many bytes a checksum of an n-byte table covers. */
  function RangeOf(c: Checksum, n: nat): nat { if c.len == FULL then n else c.len }

  // ---- what finishing a table does to its bytes

  function WithLength(data: seq<byte>, l: LengthField): (r: seq<byte>)
    requires l.off + l.size <= |data|
    ensures |r| == |data|
  {
    Over(data, l.off, Le(|data|, l.size))
  }

  function WithPointer(data: seq<byte>, p: Pointer, addr: nat): (r: seq<byte>)
    requires p.off + p.size <= |data|
    ensures |r| == |data|
  {
    Over(data, p.off, Le(LeDec(data[p.off..p.off + p.size]) + addr, p.size))
  }

  /** The checksum byte is found from the start of the summed range. */
  function WithChecksum(data: seq<byte>, c: Checksum): (r: seq<byte>)
    requires c.start + c.off < |data| && c.start + RangeOf(c, |data|) <= |data|
    ensures |r| == |data|
  {
    Over(data, c.start + c.off, [Negated(Total(data[c.start..c.start + RangeOf(c, |data|)]))])
  }

  predicate LengthsFit(ls: seq<LengthField>, n: nat) {
    forall l :: l in ls ==> (l.size == 4 || l.size == 8) && l.off + l.size <= n
  }

  predicate PointersFit(ps: seq<Pointer>, n: nat) {
    forall p :: p in ps ==> (p.size == 4 || p.size == 8) && p.off + p.size <= n
  }

  predicate ChecksumsFit(cs: seq<Checksum>, n: nat) {
    forall c :: c in cs ==> c.start == 0 && c.off < n && RangeOf(c, n) <= n
  }

  function WithLengths(data: seq<byte>, ls: seq<LengthField>): (r: seq<byte>)
    requires LengthsFit(ls, |data|)
    ensures |r| == |data|
  {
    if ls == [] then data else WithLength(WithLengths(data, ls[..|ls| - 1]), ls[|ls| - 1])
  }

  function WithPointers(data: seq<byte>, ps: seq<Pointer>, addrs: seq<nat>): (r: seq<byte>)
    requires PointersFit(ps, |data|) && |addrs| == |ps|
    ensures |r| == |data|
  {
    if ps == [] then data
    else
      var k := |ps| - 1;
      WithPointer(WithPointers(data, ps[..k], addrs[..k]), ps[k], addrs[k])
  }

  function WithChecksums(data: seq<byte>, cs: seq<Checksum>): (r: seq<byte>)
    requires ChecksumsFit(cs, |data|)
    ensures |r| == |data|
  {
    if cs == [] then data else WithChecksum(WithChecksums(data, cs[..|cs| - 1]), cs[|cs| - 1])
  }

  /** What basl asserts of a table, and checksum ranges from the table's start as every caller has them. */
  predicate Fits(t: Table) {
    |t.data| < U32 && PowerOfTwo(t.alignment) && t.alignment <= BASE &&
    LengthsFit(t.lengths, |t.data|) && PointersFit(t.pointers, |t.data|) && ChecksumsFit(t.checksums, |t.data|)
  }

  function Linked(t: Table, addrs: seq<nat>): (r: seq<byte>)
    requires Fits(t) && |addrs| == |t.pointers|
    ensures |r| == |t.data|
  {
    WithChecksums(WithPointers(WithLengths(t.data, t.lengths), t.pointers, addrs), t.checksums)
  }

  // ---- sums

  lemma {:induction false} TotalCat(a: seq<byte>, b: seq<byte>)
    ensures Total(a + b) == Total(a) + Total(b)
  {
    if a == [] {
      assert a + b == b;
    } else {
      TotalCat(a[1..], b);
      assert (a + b)[1..] == a[1..] + b;
    }
  }

  lemma {:induction false} TotalNone(bs: seq<byte>)
    requires bs == []
    ensures Total(bs) == 0
  {
  }

  lemma {:induction false} TotalNext(bs: seq<byte>, b: byte)
    ensures Total(bs + [b]) % 256 == (Total(bs) % 256 + b) % 256
  {
    TotalCat(bs, [b]);
    assert [b][1..] == [];
    assert Total([b]) == b;
  }

  /** Replacing a byte of a range moves the range's sum by the difference. */
  lemma {:induction false} TotalOver(data: seq<byte>, off: nat, b: byte, n: nat)
    requires off < n <= |data|
    ensures Total(Over(data, off, [b])[..n]) == Total(data[..n]) - data[off] + b
  {
    var x, y := data[..off], data[off + 1..n];
    assert Over(data, off, [b])[..n] == x + ([b] + y);
    assert data[..n] == x + ([data[off]] + y);
    TotalCat(x, [b] + y);
    TotalCat(x, [data[off]] + y);
  }

  lemma {:induction false} Cancel(t: nat, b: byte, u: nat)
    requires u == t - b + Negated(t)
    ensures u % 256 == 0 <==> b == 0
  {
    var q := t / 256 + (if t % 256 == 0 then 0 else 1);
    assert u == 256 * q - b;
  }

  /** After patching, a range from the start sums to zero exactly when its checksum byte was zero before. */
  lemma {:induction false} ChecksumIs(data: seq<byte>, c: Checksum)
    requires c.start == 0 && c.off < RangeOf(c, |data|) <= |data|
    ensures Total(WithChecksum(data, c)[..RangeOf(c, |data|)]) % 256 == 0 <==> data[c.off] == 0
  {
    hide Total, Over, Negated;
    var n := RangeOf(c, |data|);
    assert data[0..n] == data[..n];
    TotalOver(data, c.off, Negated(Total(data[..n])), n);
    Cancel(Total(data[..n]), data[c.off], Total(WithChecksum(data, c)[..n]));
  }

  /** With a byte that was not zero the range is left wrong. */
  lemma {:induction false} ChecksumLeft()
    ensures var data: seq<byte> := [1, 5];
      Total(WithChecksum(data, Checksum(0, 0, FULL))[..2]) % 256 != 0
  {
    hide Total, WithChecksum;
    ChecksumIs([1, 5], Checksum(0, 0, FULL));
  }

  // ---- fields that do not meet

  predicate Apart(a: nat, m: nat, b: nat, n: nat) { a + m <= b || b + n <= a }

  predicate LengthsApart(ls: seq<LengthField>, x: nat, n: nat) {
    forall l :: l in ls ==> Apart(l.off, l.size, x, n)
  }
  predicate PointersApart(ps: seq<Pointer>, x: nat, n: nat) {
    forall p :: p in ps ==> Apart(p.off, p.size, x, n)
  }
  predicate ChecksumsApart(cs: seq<Checksum>, x: nat, n: nat) {
    forall c :: c in cs ==> Apart(c.off, 1, x, n)
  }

  lemma {:induction false} LengthsKeep(data: seq<byte>, ls: seq<LengthField>, x: nat, n: nat)
    requires LengthsFit(ls, |data|) && x + n <= |data| && LengthsApart(ls, x, n)
    ensures WithLengths(data, ls)[x..x + n] == data[x..x + n]
    decreases |ls|
  {
    hide Over, Le;
    if ls != [] {
      var k := |ls| - 1;
      LengthsKeep(data, ls[..k], x, n);
      OverSlices(WithLengths(data, ls[..k]), ls[k].off, Le(|data|, ls[k].size), x, x + n);
    }
  }

  lemma {:induction false} PointersKeep(data: seq<byte>, ps: seq<Pointer>, addrs: seq<nat>, x: nat, n: nat)
    requires PointersFit(ps, |data|) && |addrs| == |ps| && x + n <= |data| && PointersApart(ps, x, n)
    ensures WithPointers(data, ps, addrs)[x..x + n] == data[x..x + n]
    decreases |ps|
  {
    hide WithPointer;
    if ps != [] {
      var k := |ps| - 1;
      PointersKeep(data, ps[..k], addrs[..k], x, n);
      OnePointer(WithPointers(data, ps[..k], addrs[..k]), ps[k], addrs[k], x, n);
    }
  }

  lemma {:induction false} OneChecksum(d: seq<byte>, c: Checksum, x: nat, n: nat)
    requires ChecksumsFit([c], |d|) && x + n <= |d| && Apart(c.off, 1, x, n)
    ensures WithChecksum(d, c)[x..x + n] == d[x..x + n]
  {
    hide Over, Total, Negated;
    OverSlices(d, c.off, [Negated(Total(d[0..RangeOf(c, |d|)]))], x, x + n);
  }

  lemma {:induction false} ChecksumsKeep(data: seq<byte>, cs: seq<Checksum>, x: nat, n: nat)
    requires ChecksumsFit(cs, |data|) && x + n <= |data| && ChecksumsApart(cs, x, n)
    ensures WithChecksums(data, cs)[x..x + n] == data[x..x + n]
    decreases |cs|
  {
    hide WithChecksum;
    if cs != [] {
      var k := |cs| - 1;
      ChecksumsKeep(data, cs[..k], x, n);
      OneChecksum(WithChecksums(data, cs[..k]), cs[k], x, n);
    }
  }

  /** A table whose patched fields do not meet, with its pointer fields and checksum bytes still zero. */
  predicate Sound(t: Table) {
    Fits(t) && FieldsApart(t) && ChecksumsLast(t.checksums, |t.data|) &&
    (forall p :: p in t.pointers ==> LeDec(t.data[p.off..p.off + p.size]) == 0) &&
    (forall c :: c in t.checksums ==> t.data[c.off] == 0)
  }

  predicate FieldsApart(t: Table) {
    (forall i, j :: 0 <= i < j < |t.lengths| ==> Apart(t.lengths[i].off, t.lengths[i].size, t.lengths[j].off, t.lengths[j].size)) &&
    Pairwise(t.pointers) &&
    (forall p :: p in t.pointers ==> LengthsApart(t.lengths, p.off, p.size)) &&
    (forall c :: c in t.checksums ==> LengthsApart(t.lengths, c.off, 1) && PointersApart(t.pointers, c.off, 1))
  }

  /** Each checksum byte lies in its own range and outside the ranges summed before it. */
  predicate ChecksumsLast(cs: seq<Checksum>, n: nat) {
    (forall c :: c in cs ==> c.off < RangeOf(c, n)) &&
    (forall i, j :: 0 <= i < j < |cs| ==> RangeOf(cs[i], n) <= cs[j].off)
  }

  lemma {:induction false} LengthsSet(data: seq<byte>, ls: seq<LengthField>, i: nat)
    requires LengthsFit(ls, |data|) && i < |ls|
    requires forall i, j :: 0 <= i < j < |ls| ==> Apart(ls[i].off, ls[i].size, ls[j].off, ls[j].size)
    ensures WithLengths(data, ls)[ls[i].off..ls[i].off + ls[i].size] == Le(|data|, ls[i].size)
    decreases |ls|
  {
    hide Over, Le;
    var k := |ls| - 1;
    if i < k { LengthsSet(data, ls[..k], i); }
    OverSlices(WithLengths(data, ls[..k]), ls[k].off, Le(|data|, ls[k].size), ls[i].off, ls[i].off + ls[i].size);
  }

  lemma {:induction false} OnePointer(d: seq<byte>, p: Pointer, addr: nat, x: nat, n: nat)
    requires p.off + p.size <= |d| && x + n <= |d|
    ensures var y := p.off + p.size;
      WithPointer(d, p, addr)[p.off..y] == Le(LeDec(d[p.off..y]) + addr, p.size)
    ensures Apart(p.off, p.size, x, n) ==> WithPointer(d, p, addr)[x..x + n] == d[x..x + n]
  {
    hide Over, Le, LeDec;
    OverSlices(d, p.off, Le(LeDec(d[p.off..p.off + p.size]) + addr, p.size), x, x + n);
  }

  lemma {:induction false} LastPointer(data: seq<byte>, ps: seq<Pointer>, addrs: seq<nat>)
    requires PointersFit(ps, |data|) && |addrs| == |ps| > 0
    ensures var k := |ps| - 1;
      WithPointers(data, ps, addrs) == WithPointer(WithPointers(data, ps[..k], addrs[..k]), ps[k], addrs[k])
  {
    hide WithPointer;
  }

  predicate Pairwise(ps: seq<Pointer>) {
    forall i, j :: 0 <= i < j < |ps| ==> Apart(ps[i].off, ps[i].size, ps[j].off, ps[j].size)
  }

  lemma {:induction false} PairwiseLast(ps: seq<Pointer>)
    requires Pairwise(ps) && ps != []
    ensures var k := |ps| - 1;
      Pairwise(ps[..k]) && PointersApart(ps[..k], ps[k].off, ps[k].size)
  {
    var k := |ps| - 1;
    forall p | p in ps[..k] ensures Apart(p.off, p.size, ps[k].off, ps[k].size) {
      var j :| 0 <= j < k && ps[j] == p;
    }
  }

  lemma {:induction false} PointersSet(data: seq<byte>, ps: seq<Pointer>, addrs: seq<nat>, i: nat)
    requires PointersFit(ps, |data|) && |addrs| == |ps| && i < |ps| && Pairwise(ps)
    ensures var x, y := ps[i].off, ps[i].off + ps[i].size;
      WithPointers(data, ps, addrs)[x..y] == Le(LeDec(data[x..y]) + addrs[i], ps[i].size)
    decreases |ps|
  {
    hide Le, LeDec, WithPointer, WithPointers, Pairwise, PointersApart;
    var k := |ps| - 1;
    PairwiseLast(ps);
    LastPointer(data, ps, addrs);
    OnePointer(WithPointers(data, ps[..k], addrs[..k]), ps[k], addrs[k], ps[i].off, ps[i].size);
    if i < k {
      PointersSet(data, ps[..k], addrs[..k], i);
      Met(ps[..k], ps[k].off, ps[k].size, i);
    } else {
      PointersKeep(data, ps[..k], addrs[..k], ps[k].off, ps[k].size);
    }
  }

  lemma {:induction false} Met(ps: seq<Pointer>, x: nat, n: nat, i: nat)
    requires PointersApart(ps, x, n) && i < |ps|
    ensures Apart(x, n, ps[i].off, ps[i].size)
  {
  }

  lemma {:induction false} LastChecksum(data: seq<byte>, cs: seq<Checksum>)
    requires ChecksumsFit(cs, |data|) && cs != []
    ensures WithChecksums(data, cs) == WithChecksum(WithChecksums(data, cs[..|cs| - 1]), cs[|cs| - 1])
  {
    hide WithChecksum;
  }

  lemma {:induction false} ChecksumsSum(data: seq<byte>, cs: seq<Checksum>, i: nat)
    requires ChecksumsFit(cs, |data|) && i < |cs| && ChecksumsLast(cs, |data|)
    requires forall c :: c in cs ==> data[c.off] == 0
    ensures Total(WithChecksums(data, cs)[..RangeOf(cs[i], |data|)]) % 256 == 0
    decreases |cs|
  {
    hide Over, Total, Negated, WithChecksums, WithChecksum;
    var k := |cs| - 1;
    LastChecksum(data, cs);
    if i < k {
      ChecksumsSum(data, cs[..k], i);
      OneChecksum(WithChecksums(data, cs[..k]), cs[k], 0, RangeOf(cs[i], |data|));
    } else {
      ZeroStill(data, cs);
      ChecksumIs(WithChecksums(data, cs[..k]), cs[k]);
    }
  }

  lemma {:induction false} SameByte(a: seq<byte>, b: seq<byte>, x: nat)
    requires x < |a| == |b| && a[x..x + 1] == b[x..x + 1]
    ensures a[x] == b[x]
  {
    assert a[x..x + 1][0] == b[x..x + 1][0];
  }

  lemma {:induction false} ChecksumsMeetNot(cs: seq<Checksum>, n: nat)
    requires ChecksumsLast(cs, n) && cs != []
    ensures ChecksumsApart(cs[..|cs| - 1], cs[|cs| - 1].off, 1)
  {
    var k := |cs| - 1;
    forall c | c in cs[..k] ensures Apart(c.off, 1, cs[k].off, 1) {
      var j :| 0 <= j < k && cs[j] == c;
    }
  }

  lemma {:induction false} ZeroStill(data: seq<byte>, cs: seq<Checksum>)
    requires ChecksumsFit(cs, |data|) && cs != [] && ChecksumsLast(cs, |data|)
    ensures WithChecksums(data, cs[..|cs| - 1])[cs[|cs| - 1].off] == data[cs[|cs| - 1].off]
  {
    hide WithChecksums, ChecksumsLast, ChecksumsApart;
    var k := |cs| - 1;
    ChecksumsMeetNot(cs, |data|);
    ChecksumsKeep(data, cs[..k], cs[k].off, 1);
    SameByte(WithChecksums(data, cs[..k]), data, cs[k].off);
  }

  // ---- a linked table

  /** Every length field holds the table's length. */
  lemma {:induction false} LinkedLength(t: Table, addrs: seq<nat>, i: nat)
    requires Sound(t) && |addrs| == |t.pointers| && i < |t.lengths|
    ensures Linked(t, addrs)[t.lengths[i].off..t.lengths[i].off + t.lengths[i].size] == Le(|t.data|, t.lengths[i].size)
  {
    hide WithLengths, WithPointers, WithChecksums, Le, LeDec;
    var l := t.lengths[i];
    forall p | p in t.pointers ensures Apart(p.off, p.size, l.off, l.size) {
      assert LengthsApart(t.lengths, p.off, p.size);
    }
    forall c | c in t.checksums ensures Apart(c.off, 1, l.off, l.size) {
      assert LengthsApart(t.lengths, c.off, 1);
    }
    LengthsSet(t.data, t.lengths, i);
    PointersKeep(WithLengths(t.data, t.lengths), t.pointers, addrs, l.off, l.size);
    ChecksumsKeep(WithPointers(WithLengths(t.data, t.lengths), t.pointers, addrs), t.checksums, l.off, l.size);
  }

  /** Every pointer field holds the address of its table, cut to the field. */
  lemma {:induction false} LinkedPointer(t: Table, addrs: seq<nat>, i: nat)
    requires Sound(t) && |addrs| == |t.pointers| && i < |t.pointers|
    ensures Linked(t, addrs)[t.pointers[i].off..t.pointers[i].off + t.pointers[i].size] ==
      Le(addrs[i], t.pointers[i].size)
  {
    hide WithLengths, WithPointers, WithChecksums, Le, LeDec;
    var p := t.pointers[i];
    forall c | c in t.checksums ensures Apart(c.off, 1, p.off, p.size) {
      assert PointersApart(t.pointers, c.off, 1);
    }
    LengthsKeep(t.data, t.lengths, p.off, p.size);
    PointersSet(WithLengths(t.data, t.lengths), t.pointers, addrs, i);
    ChecksumsKeep(WithPointers(WithLengths(t.data, t.lengths), t.pointers, addrs), t.checksums, p.off, p.size);
  }

  /** The bytes that wait to be summed, the checksum byte itself still zero. */
  lemma {:induction false} BeforeSums(t: Table, addrs: seq<nat>, c: Checksum)
    requires Sound(t) && |addrs| == |t.pointers| && c in t.checksums
    ensures WithPointers(WithLengths(t.data, t.lengths), t.pointers, addrs)[c.off] == 0
  {
    hide WithLengths, WithPointers, WithChecksums, Le, LeDec;
    var d := WithLengths(t.data, t.lengths);
    LengthsKeep(t.data, t.lengths, c.off, 1);
    PointersKeep(d, t.pointers, addrs, c.off, 1);
    SameByte(WithPointers(d, t.pointers, addrs), t.data, c.off);
  }

  /** Every checksum range sums to zero, after all patching of the table. */
  lemma {:induction false} LinkedSum(t: Table, addrs: seq<nat>, i: nat)
    requires Sound(t) && |addrs| == |t.pointers| && i < |t.checksums|
    ensures Total(Linked(t, addrs)[..RangeOf(t.checksums[i], |t.data|)]) % 256 == 0
  {
    hide WithLengths, WithPointers, WithChecksums, Le, LeDec, Total;
    var d := WithPointers(WithLengths(t.data, t.lengths), t.pointers, addrs);
    forall c | c in t.checksums ensures d[c.off] == 0 {
      BeforeSums(t, addrs, c);
    }
    ChecksumsSum(d, t.checksums, i);
  }

  /** Bytes that no field covers stay. */
  lemma {:induction false} LinkedKeeps(t: Table, addrs: seq<nat>, x: nat, n: nat)
    requires Fits(t) && |addrs| == |t.pointers| && x + n <= |t.data|
    requires LengthsApart(t.lengths, x, n) && PointersApart(t.pointers, x, n) && ChecksumsApart(t.checksums, x, n)
    ensures Linked(t, addrs)[x..x + n] == t.data[x..x + n]
  {
    hide WithLengths, WithPointers, WithChecksums;
    var d := WithLengths(t.data, t.lengths);
    LengthsKeep(t.data, t.lengths, x, n);
    PointersKeep(d, t.pointers, addrs, x, n);
    ChecksumsKeep(WithPointers(d, t.pointers, addrs), t.checksums, x, n);
  }
}

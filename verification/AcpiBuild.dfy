/** Building tables: appending bytes and fields keeps a table sound, so that finishing it can link it. */
module AcpiBuild {
  import opened Bytes
  import opened Acpi

  function Grown(t: Table, bs: seq<byte>): Table { t.(data := t.data + bs) }

  function AddedLength(t: Table, l: LengthField): Table { t.(lengths := t.lengths + [l]) }
  function AddedPointer(t: Table, p: Pointer): Table { t.(pointers := t.pointers + [p]) }
  function AddedChecksum(t: Table, c: Checksum): Table { t.(checksums := t.checksums + [c]) }

  /** Fields of a table stay where they are, and stay zero, when it grows. */
  lemma {:induction false} SoundGrown(t: Table, bs: seq<byte>)
    requires Sound(t) && |t.data| + |bs| < U32
    ensures Sound(Grown(t, bs))
  {
    hide LeDec, PowerOfTwo;
    var n, u := |t.data|, Grown(t, bs);
    forall p | p in t.pointers ensures u.data[p.off..p.off + p.size] == t.data[p.off..p.off + p.size] {
    }
    forall i, j | 0 <= i < j < |t.checksums| ensures RangeOf(t.checksums[i], |u.data|) <= t.checksums[j].off {
      assert RangeOf(t.checksums[i], n) <= t.checksums[j].off;
      assert t.checksums[j] in t.checksums;
    }
  }

  lemma {:induction false} SoundAddedPointer(t: Table, p: Pointer)
    requires Sound(t) && (p.size == 4 || p.size == 8) && p.off + p.size <= |t.data|
    requires LeDec(t.data[p.off..p.off + p.size]) == 0
    requires LengthsApart(t.lengths, p.off, p.size) && PointersApart(t.pointers, p.off, p.size)
    requires ChecksumsApart(t.checksums, p.off, p.size)
    ensures Sound(AddedPointer(t, p))
  {
    hide LeDec, PowerOfTwo;
    var ps := t.pointers + [p];
    forall i, j | 0 <= i < j < |ps| ensures Apart(ps[i].off, ps[i].size, ps[j].off, ps[j].size) {
      assert i < |t.pointers| && ps[i] in t.pointers;
    }
    forall c | c in t.checksums ensures PointersApart(ps, c.off, 1) {
      assert PointersApart(t.pointers, c.off, 1);
    }
  }

  lemma {:induction false} SoundAddedLength(t: Table, l: LengthField)
    requires Sound(t) && (l.size == 4 || l.size == 8) && l.off + l.size <= |t.data|
    requires LengthsApart(t.lengths, l.off, l.size) && PointersApart(t.pointers, l.off, l.size)
    requires ChecksumsApart(t.checksums, l.off, l.size)
    ensures Sound(AddedLength(t, l))
  {
    hide LeDec, PowerOfTwo;
    var ls := t.lengths + [l];
    forall i, j | 0 <= i < j < |ls| ensures Apart(ls[i].off, ls[i].size, ls[j].off, ls[j].size) {
      assert i < |t.lengths| && ls[i] in t.lengths;
    }
    forall p | p in t.pointers ensures LengthsApart(ls, p.off, p.size) {
      assert LengthsApart(t.lengths, p.off, p.size);
    }
    forall c | c in t.checksums ensures LengthsApart(ls, c.off, 1) {
      assert LengthsApart(t.lengths, c.off, 1);
    }
  }

  /** No range asked for before covers the byte at off. */
  predicate Uncovered(cs: seq<Checksum>, n: nat, off: nat) {
    forall c :: c in cs ==> RangeOf(c, n) <= off
  }

  lemma {:induction false} LastAdded(cs: seq<Checksum>, c: Checksum, n: nat)
    requires ChecksumsLast(cs, n) && c.off < RangeOf(c, n)
    ensures ChecksumsLast(cs + [c], n) <==> Uncovered(cs, n, c.off)
  {
    var more, k := cs + [c], |cs|;
    if Uncovered(cs, n, c.off) {
      forall i, j | 0 <= i < j < |more| ensures RangeOf(more[i], n) <= more[j].off {
        assert more[i] in cs;
      }
    }
    if ChecksumsLast(more, n) {
      forall d | d in cs ensures RangeOf(d, n) <= c.off {
        var i :| 0 <= i < k && cs[i] == d;
        assert more[i] == d && more[k] == c;
      }
    }
  }

  /** A further checksum keeps the table sound exactly when the ranges before it do not cover its byte. */
  lemma {:induction false} SoundAddedChecksum(t: Table, c: Checksum)
    requires Sound(t) && c.start == 0 && c.off < RangeOf(c, |t.data|) <= |t.data| && t.data[c.off] == 0
    requires LengthsApart(t.lengths, c.off, 1) && PointersApart(t.pointers, c.off, 1)
    ensures Sound(AddedChecksum(t, c)) <==> Uncovered(t.checksums, |t.data|, c.off)
  {
    hide LeDec, PowerOfTwo, ChecksumsLast, Uncovered, Pairwise;
    LastAdded(t.checksums, c, |t.data|);
  }

  // ---- appended fields

  lemma {:induction false} ZeroField(data: seq<byte>, size: nat)
    ensures var d := data + Le(0, size);
      |d| == |data| + size && d[|data|..|data| + size] == Le(0, size) && LeDec(d[|data|..|data| + size]) == 0
  {
    LeRoundTrip(0, size);
    assert (data + Le(0, size))[|data|..|data| + size] == Le(0, size);
  }

  /** The fields of a sound table end with it, so a field behind it meets none of them. */
  lemma {:induction false} Behind(t: Table, size: nat)
    requires Sound(t)
    ensures LengthsApart(t.lengths, |t.data|, size) && PointersApart(t.pointers, |t.data|, size)
    ensures ChecksumsApart(t.checksums, |t.data|, size)
  {
    hide LeDec, PowerOfTwo, FieldsApart, ChecksumsLast;
  }

  function AppendedPointer(t: Table, src: seq<byte>, size: nat): Table {
    AddedPointer(Grown(t, Le(0, size)), Pointer(src, |t.data|, size))
  }

  function AppendedLength(t: Table, size: nat): Table {
    AddedLength(Grown(t, Le(0, size)), LengthField(|t.data|, size))
  }

  function AppendedChecksum(t: Table, start: nat, len: nat): Table {
    AddedChecksum(Grown(t, Le(0, 1)), Checksum(|t.data|, start, len))
  }

  lemma {:induction false} SoundAppendedPointer(t: Table, src: seq<byte>, size: nat)
    requires Sound(t) && (size == 4 || size == 8) && |t.data| + size < U32
    ensures Sound(AppendedPointer(t, src, size))
  {
    hide Sound, Le, LeDec;
    Behind(t, size);
    ZeroField(t.data, size);
    SoundGrown(t, Le(0, size));
    SoundAddedPointer(Grown(t, Le(0, size)), Pointer(src, |t.data|, size));
  }

  lemma {:induction false} SoundAppendedLength(t: Table, size: nat)
    requires Sound(t) && (size == 4 || size == 8) && |t.data| + size < U32
    ensures Sound(AppendedLength(t, size))
  {
    hide Sound, Le, LeDec;
    Behind(t, size);
    ZeroField(t.data, size);
    SoundGrown(t, Le(0, size));
    SoundAddedLength(Grown(t, Le(0, size)), LengthField(|t.data|, size));
  }

  /** An appended checksum is summed after a whole-table checksum that covers it, which then no longer holds. */
  lemma {:induction false} SoundAppendedChecksum(t: Table, len: nat)
    requires Sound(t) && |t.data| + 1 < FULL && (len == FULL || len == |t.data| + 1)
    ensures Sound(AppendedChecksum(t, 0, len)) <==> forall c :: c in t.checksums ==> c.len != FULL
  {
    var u, c := Grown(t, Le(0, 1)), Checksum(|t.data|, 0, len);
    Behind(t, 1);
    ZeroField(t.data, 1);
    SoundGrown(t, Le(0, 1));
    assert u.data[|t.data|] == 0 by { assert Le(0, 1)[0] == 0; }
    SoundAddedChecksum(u, c);
    assert Uncovered(t.checksums, |u.data|, |t.data|) <==> forall c :: c in t.checksums ==> c.len != FULL;
  }

  /**
   * Two checksums, the second byte inside the first range: after both are patched the first range
   * still sums to zero exactly when the second range summed to zero before its own patch.
   */
  lemma {:induction false} CoveredChecksum(data: seq<byte>, c: Checksum, d: Checksum)
    requires ChecksumsFit([c, d], |data|) && c.off != d.off && data[c.off] == data[d.off] == 0
    requires c.off < RangeOf(c, |data|) && d.off < RangeOf(c, |data|)
    ensures var once := WithChecksum(data, c);
      Total(WithChecksum(once, d)[..RangeOf(c, |data|)]) % 256 == 0 <==> Total(once[..RangeOf(d, |data|)]) % 256 == 0
  {
    assert c in [c, d] && d in [c, d];
    hide Total;
    var once, m, n := WithChecksum(data, c), RangeOf(c, |data|), RangeOf(d, |data|);
    ChecksumIs(data, c);
    assert once[d.off] == 0;
    assert once[0..n] == once[..n];
    TotalOver(once, d.off, Negated(Total(once[..n])), m);
  }

  /** Such a pair where the first range is left wrong. */
  lemma {:induction false} CoveredExample()
    ensures var data: seq<byte> := [0, 0, 5];
      var once := WithChecksum(data, Checksum(0, 0, FULL));
      Total(WithChecksum(once, Checksum(1, 0, 2))[..3]) % 256 != 0
  {
    var data: seq<byte> := [0, 0, 5];
    var c, d := Checksum(0, 0, FULL), Checksum(1, 0, 2);
    assert Total(data[0..3]) == 5 by {
      assert data[0..3] == data && data[1..] == [0, 5] && [0, 5][1..] == [5] && [5][1..] == [];
      assert Total([5]) == 5;
    }
    var once := WithChecksum(data, c);
    assert once == [251, 0, 5];
    assert once[..2] == [251, 0] && [251, 0][1..] == [0] && [0][1..] == [];
    assert Total([0]) == 0;
    CoveredChecksum(data, c, d);
  }

  // ---- the tables every machine has

  /** The common header: length and checksum are left zero for finishing to fill in. */
  function HeaderBytes(sig: seq<byte>, revision: byte, oemRevision: nat): (h: seq<byte>)
    requires |sig| == 4
    ensures |h| == 36 && h[..4] == sig && h[9] == 0
  {
    sig + [0, 0, 0, 0, revision, 0] + [0x42, 0x48, 0x59, 0x56, 0x45, 0x20] + ([0x42, 0x56] + sig + [0x20, 0]) +
    Le(oemRevision, 4) + [0x42, 0x41, 0x53, 0x4c] + Le(0x2022_0504, 4)
  }

  function Headed(t: Table, sig: seq<byte>, revision: byte, oemRevision: nat): Table
    requires |sig| == 4
  {
    AddedChecksum(AddedLength(Grown(t, HeaderBytes(sig, revision, oemRevision)), LengthField(4, 4)), Checksum(9, 0, FULL))
  }

  /** A table as it is created. */
  predicate Blank(t: Table) {
    PowerOfTwo(t.alignment) && t.alignment <= BASE && t.data == [] && t.lengths == [] && t.pointers == [] &&
    t.checksums == []
  }

  lemma {:induction false} SoundHeaded(t: Table, sig: seq<byte>, revision: byte, oemRevision: nat)
    requires Blank(t) && |sig| == 4
    ensures Sound(Headed(t, sig, revision, oemRevision))
  {
    hide PowerOfTwo, LeDec, HeaderBytes;
    var u := Grown(t, HeaderBytes(sig, revision, oemRevision));
    SoundAddedLength(u, LengthField(4, 4));
    SoundAddedChecksum(AddedLength(u, LengthField(4, 4)), Checksum(9, 0, FULL));
  }

  const RSDT: seq<byte> := [0x52, 0x53, 0x44, 0x54]
  const XSDT: seq<byte> := [0x58, 0x53, 0x44, 0x54]

  /** "RSD PTR ", checksum, "BHYVE ", revision 2, then the fields finishing fills in. */
  const RSDP_BYTES: seq<byte> :=
    [0x52, 0x53, 0x44, 0x20, 0x50, 0x54, 0x52, 0x20, 0, 0x42, 0x48, 0x59, 0x56, 0x45, 0x20, 2] +
    ([0, 0, 0, 0] + [0, 0, 0, 0] + [0, 0, 0, 0, 0, 0, 0, 0] + [0, 0, 0, 0])

  /** The root pointer table: two checksum ranges, one length, the addresses of RSDT and XSDT. */
  function Rsdp(t: Table): Table { RsdpFielded(Grown(t, RSDP_BYTES)) }

  function RsdpFielded(t: Table): Table {
    var a := AddedPointer(AddedChecksum(t, Checksum(8, 0, 20)), Pointer(RSDT, 16, 4));
    var b := AddedPointer(AddedLength(a, LengthField(20, 4)), Pointer(XSDT, 24, 8));
    AddedChecksum(b, Checksum(32, 0, FULL))
  }

  lemma {:induction false} RsdpFields()
    ensures |RSDP_BYTES| == 36 && RSDP_BYTES[8] == 0 && RSDP_BYTES[32] == 0
    ensures LeDec(RSDP_BYTES[16..20]) == 0 && LeDec(RSDP_BYTES[24..32]) == 0
  {
    LeRoundTrip(0, 4);
    LeRoundTrip(0, 8);
    ZeroBytes(4);
    ZeroBytes(8);
    assert RSDP_BYTES[16..20] == Le(0, 4);
    assert RSDP_BYTES[24..32] == Le(0, 8);
  }

  lemma {:induction false} ZeroBytes(k: nat)
    ensures forall i :: 0 <= i < k ==> Le(0, k)[i] == 0
  {
    if k > 0 { ZeroBytes(k - 1); }
  }

  lemma {:induction false} SoundRsdpFielded(t: Table)
    requires Sound(t) && |t.data| == 36 && t.lengths == [] && t.pointers == [] && t.checksums == []
    requires t.data[8] == 0 && t.data[32] == 0 && LeDec(t.data[16..20]) == 0 && LeDec(t.data[24..32]) == 0
    ensures Sound(RsdpFielded(t))
  {
    hide Sound, LeDec;
    var a := AddedChecksum(t, Checksum(8, 0, 20));
    SoundAddedChecksum(t, Checksum(8, 0, 20));
    var b := AddedPointer(a, Pointer(RSDT, 16, 4));
    SoundAddedPointer(a, Pointer(RSDT, 16, 4));
    var c := AddedLength(b, LengthField(20, 4));
    SoundAddedLength(b, LengthField(20, 4));
    SoundAddedPointer(c, Pointer(XSDT, 24, 8));
    SoundAddedChecksum(AddedPointer(c, Pointer(XSDT, 24, 8)), Checksum(32, 0, FULL));
  }

  lemma {:induction false} SoundRsdp(t: Table)
    requires Blank(t)
    ensures Sound(Rsdp(t))
  {
    RsdpFields();
    assert t.data + RSDP_BYTES == RSDP_BYTES;
    hide LeDec, RsdpFielded;
    SoundRsdpFielded(Grown(t, RSDP_BYTES));
  }
}

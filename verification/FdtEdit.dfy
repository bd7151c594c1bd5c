/** Editing a blob in place: blocks are shifted to make or close gaps, and tokens written into them. */
module FdtEdit {
  import opened Bytes
  import opened FdtTokens
  import opened FdtBlob

  // ---- memory

  method Move(buf: array<byte>, dst: nat, src: nat, n: nat)
    requires dst + n <= buf.Length && src + n <= buf.Length
    modifies buf
    ensures buf[dst..dst + n] == old(buf[src..src + n])
    ensures forall i :: 0 <= i < buf.Length && !(dst <= i < dst + n) ==> buf[i] == old(buf[i])
  {
    ghost var was := buf[src..src + n];
    forall i | 0 <= i < n { buf[dst + i] := buf[src + i]; }
    assert forall i :: 0 <= i < n ==> buf[dst..dst + n][i] == was[i];
  }

  method Write(buf: array<byte>, pos: nat, bs: seq<byte>)
    requires pos + |bs| <= buf.Length
    modifies buf
    ensures buf[..] == Over(old(buf[..]), pos, bs)
  {
    forall i | 0 <= i < |bs| { buf[pos + i] := bs[i]; }
  }

  // ---- moving the blocks

  /** The blocks lie in the order header, reservations, structure, strings. */
  predicate Ordered(f: Fdt)
    reads f
  {
    && f.offRsv >= 40 && f.offStruct >= f.offRsv + 16
    && f.offStrings >= f.offStruct + f.sizeStruct && f.totalsize >= f.offStrings + f.sizeStrings
  }

  function DataSize(f: Fdt): nat
    reads f
  {
    f.offStrings + f.sizeStrings
  }

  /** w' is w with the oldlen bytes at p replaced by newlen others, up to the end e of the data. */
  ghost predicate Spliced(w: seq<byte>, w': seq<byte>, p: nat, oldlen: nat, newlen: nat, e: nat) {
    && |w'| == |w| && p + oldlen <= e <= |w| && e - oldlen + newlen <= |w|
    && w'[..p] == w[..p] && w'[p + newlen..e - oldlen + newlen] == w[p + oldlen..e]
  }

  /** Data before the gap stays, data behind it shifts. */
  lemma {:induction false} SplicedBefore(w: seq<byte>, w': seq<byte>, p: nat, oldlen: nat, newlen: nat, e: nat, x: nat,
      y: nat)
    requires Spliced(w, w', p, oldlen, newlen, e) && x <= y <= p
    ensures w'[x..y] == w[x..y] && Part(w', x, y - x) == Part(w, x, y - x)
  {
    SubSlice(w', 0, p, x, y);
    SubSlice(w, 0, p, x, y);
    assert w'[0..p] == w'[..p] && w[0..p] == w[..p];
  }

  lemma {:induction false} SplicedBehind(w: seq<byte>, w': seq<byte>, p: nat, oldlen: nat, newlen: nat, e: nat, x: nat,
      y: nat)
    requires Spliced(w, w', p, oldlen, newlen, e) && p + oldlen <= x <= y <= e
    ensures w'[x - oldlen + newlen..y - oldlen + newlen] == w[x..y]
    ensures Part(w', x - oldlen + newlen, y - x) == Part(w, x, y - x)
  {
    var k := p + oldlen;
    SubSlice(w, k, e, x - k, y - k);
    SubSlice(w', p + newlen, e - oldlen + newlen, x - k, y - k);
  }

  /** Replaces oldlen bytes at p by a gap of newlen, moving everything behind it. */
  method Splice(f: Fdt, p: nat, oldlen: nat, newlen: nat) returns (err: int)
    requires f.Blocks() && p + oldlen <= DataSize(f)
    modifies f.buf
    ensures err == if DataSize(f) - oldlen + newlen > f.totalsize then NOSPACE else 0
    ensures err != 0 ==> f.buf[..] == old(f.buf[..])
    ensures err == 0 ==> Spliced(old(f.buf[..]), f.buf[..], p, oldlen, newlen, DataSize(f))
  {
    var end := DataSize(f);
    if end - oldlen + newlen > f.totalsize {
      return NOSPACE;
    }
    ghost var w, n := f.buf[..], end - p - oldlen;
    Move(f.buf, p + newlen, p + oldlen, end - p - oldlen);
    assert f.buf[..][p + newlen..p + newlen + n] == f.buf[p + newlen..p + newlen + n];
    assert w[p + oldlen..p + oldlen + n] == old(f.buf[p + oldlen..p + oldlen + n]);
    MoveSplices(w, f.buf[..], p, oldlen, newlen, end);
    return 0;
  }

  lemma {:induction false} MoveSplices(w: seq<byte>, w': seq<byte>, p: nat, oldlen: nat, newlen: nat, e: nat)
    requires |w'| == |w| && p + oldlen <= e <= |w| && e - oldlen + newlen <= |w|
    requires w'[p + newlen..e - oldlen + newlen] == w[p + oldlen..e]
    requires forall i :: 0 <= i < |w| && !(p + newlen <= i < e - oldlen + newlen) ==> w'[i] == w[i]
    ensures Spliced(w, w', p, oldlen, newlen, e)
  {
    assert w'[..p] == w[..p];
  }

  lemma {:induction false} Blocked(f: Fdt)
    requires f.Blocks()
    ensures f.Struct() == Part(f.buf[..], f.offStruct, f.sizeStruct)
    ensures f.Strings() == Part(f.buf[..], f.offStrings, f.sizeStrings)
    ensures f.offStruct + f.sizeStruct <= f.buf.Length && f.offStrings + f.sizeStrings <= f.buf.Length
    ensures f.offStruct + f.sizeStruct <= f.offStrings || f.offStrings + f.sizeStrings <= f.offStruct
    ensures f.Front() == Part(f.buf[..], 0, f.offStruct)
  {
    assert f.buf[..f.offStruct] == f.buf[..][0..f.offStruct];
  }

  lemma {:induction false} SplicedStruct(w: seq<byte>, w': seq<byte>, a: nat, size: nat, off: nat, oldlen: nat,
      newlen: nat, e: nat)
    requires Spliced(w, w', a + off, oldlen, newlen, e) && off + oldlen <= size && a + size <= e
    ensures var s, s' := Part(w, a, size), Part(w', a, size - oldlen + newlen);
      s'[..off] == s[..off] && s'[off + newlen..] == s[off + oldlen..]
  {
    var s, s' := w[a..a + size], w'[a..a + size - oldlen + newlen];
    SplicedBefore(w, w', a + off, oldlen, newlen, e, a, a + off);
    SplicedBehind(w, w', a + off, oldlen, newlen, e, a + off + oldlen, a + size);
    assert s'[..off] == w'[a..a + off] && s[..off] == w[a..a + off];
    assert s[off + oldlen..] == w[a + off + oldlen..a + size];
    assert s'[off + newlen..] == w'[a + off + newlen..a + size - oldlen + newlen];
  }

  /** The three parts of the blob after a splice inside the structure block. */
  lemma {:induction false} SplicedParts(w: seq<byte>, w': seq<byte>, a: nat, size: nat, off: nat, oldlen: nat,
      newlen: nat, o: nat,
      sz: nat)
    requires Spliced(w, w', a + off, oldlen, newlen, o + sz) && off + oldlen <= size && a + size <= o
    ensures Part(w', 0, a) == Part(w, 0, a) && Part(w', o - oldlen + newlen, sz) == Part(w, o, sz)
    ensures var s, s' := Part(w, a, size), Part(w', a, size - oldlen + newlen);
      s'[..off] == s[..off] && s'[off + newlen..] == s[off + oldlen..]
  {
    hide Part, Spliced;
    SplicedStruct(w, w', a, size, off, oldlen, newlen, o + sz);
    SplicedBefore(w, w', a + off, oldlen, newlen, o + sz, 0, a);
    SplicedBehind(w, w', a + off, oldlen, newlen, o + sz, o, o + sz);
  }

  /** Makes room inside the structure block; the string block moves along unchanged. */
  method SpliceStruct(f: Fdt, off: nat, oldlen: nat, newlen: nat) returns (err: int)
    requires f.Blocks() && Ordered(f) && off + oldlen <= f.sizeStruct
    modifies f`sizeStruct, f`offStrings, f.buf
    ensures f.Blocks() && Ordered(f)
    ensures err == if old(DataSize(f)) - oldlen + newlen > f.totalsize then NOSPACE else 0
    ensures err != 0 ==> f.Struct() == old(f.Struct()) && f.Strings() == old(f.Strings())
    ensures err == 0 ==> f.sizeStruct == old(f.sizeStruct) - oldlen + newlen && f.Strings() == old(f.Strings())
    ensures DataSize(f) == old(DataSize(f)) + if err == 0 then newlen - oldlen else 0
    ensures err == 0 ==>
      f.Struct()[..off] == old(f.Struct())[..off] && f.Struct()[off + newlen..] == old(f.Struct())[off + oldlen..]
    ensures f.Front() == old(f.Front())
  {
    hide Part, Spliced, f.Front, f.Struct, f.Strings, f.Blocks, Ordered;
    Facts(f);
    ghost var w, size, o, sz, e := f.buf[..], f.sizeStruct, f.offStrings, f.sizeStrings, DataSize(f);
    err := Splice(f, f.offStruct + off, oldlen, newlen);
    ghost var w' := f.buf[..];
    if err == 0 {
      SplicedParts(w, w', f.offStruct, size, off, oldlen, newlen, o, sz);
      f.sizeStruct := f.sizeStruct - oldlen + newlen;
      f.offStrings := f.offStrings - oldlen + newlen;
    }
    assert f.buf[..] == w';
    Ordering(f);
    Blocked(f);
  }

  lemma {:induction false} Facts(f: Fdt)
    requires f.Blocks() && Ordered(f)
    ensures f.totalsize <= f.buf.Length && f.totalsize < MAX && f.offStruct + f.sizeStruct <= f.offStrings
    ensures f.offRsv >= 40 && f.offStruct >= f.offRsv + 16 && f.totalsize >= f.offStrings + f.sizeStrings == DataSize(f)
    ensures f.Struct() == Part(f.buf[..], f.offStruct, f.sizeStruct)
    ensures f.Strings() == Part(f.buf[..], f.offStrings, f.sizeStrings)
    ensures f.Front() == Part(f.buf[..], 0, f.offStruct)
  {
    Blocked(f);
  }

  lemma {:induction false} Ordering(f: Fdt)
    requires f.totalsize <= f.buf.Length && f.totalsize < MAX && f.offStruct + f.sizeStruct <= f.offStrings
    requires f.offRsv >= 40 && f.offStruct >= f.offRsv + 16 && f.totalsize >= f.offStrings + f.sizeStrings
    ensures f.Blocks() && Ordered(f)
  {
  }

  /** Adds name to the string block if it is not there yet. */
  method SpliceString(f: Fdt, newlen: nat) returns (err: int)
    requires f.Blocks() && Ordered(f)
    modifies f`sizeStrings, f.buf
    ensures f.Blocks() && Ordered(f)
    ensures err == if old(DataSize(f)) + newlen > f.totalsize then NOSPACE else 0
    ensures err != 0 ==> f.Struct() == old(f.Struct()) && f.Strings() == old(f.Strings())
    ensures err == 0 ==> f.sizeStrings == old(f.sizeStrings) + newlen
    ensures err == 0 ==> f.Struct() == old(f.Struct()) && f.Strings()[..old(f.sizeStrings)] == old(f.Strings())
    ensures f.Front() == old(f.Front())
  {
    hide Part, Spliced, f.Front, f.Struct, f.Strings, f.Blocks, Ordered;
    Facts(f);
    ghost var w, o, sz, e := f.buf[..], f.offStrings, f.sizeStrings, DataSize(f);
    err := Splice(f, DataSize(f), 0, newlen);
    ghost var w' := f.buf[..];
    if err == 0 {
      SplicedBefore(w, w', e, 0, newlen, e, f.offStruct, f.offStruct + f.sizeStruct);
      SplicedBefore(w, w', e, 0, newlen, e, o, o + sz);
      SplicedBefore(w, w', e, 0, newlen, e, 0, f.offStruct);
      PartGrows(w, w', o, sz, newlen);
      f.sizeStrings := f.sizeStrings + newlen;
    }
    assert f.buf[..] == w';
    Ordering(f);
    Blocked(f);
  }

  lemma {:induction false} PartGrows(w: seq<byte>, w': seq<byte>, a: nat, n: nat, more: nat)
    requires a + n + more <= |w'| && a + n <= |w| && w'[a..a + n] == w[a..a + n]
    ensures Part(w', a, n + more)[..n] == Part(w, a, n)
  {
    SubSlice(w', a, a + n + more, 0, n);
  }

  // ---- writing inside a block

  /** Writes bs into the structure block. */
  method Poke(f: Fdt, off: nat, bs: seq<byte>)
    requires f.Blocks() && off + |bs| <= f.sizeStruct
    modifies f.buf
    ensures f.Struct() == Over(old(f.Struct()), off, bs) && f.Strings() == old(f.Strings())
    ensures f.Front() == old(f.Front())
  {
    hide *;
    Blocked(f);
    ghost var w, a, n, o, m := f.buf[..], f.offStruct, f.sizeStruct, f.offStrings, f.sizeStrings;
    Write(f.buf, f.offStruct + off, bs);
    WrittenPart(w, a, n, a + off, bs);
    WrittenApart(w, o, m, a + off, bs);
    WrittenApart(w, 0, a, a + off, bs);
    Blocked(f);
  }

  lemma {:induction false} WrittenPart(w: seq<byte>, a: nat, n: nat, pos: nat, bs: seq<byte>)
    requires a <= pos && pos + |bs| <= a + n <= |w|
    ensures Part(Over(w, pos, bs), a, n) == Over(Part(w, a, n), pos - a, bs)
  {
  }

  lemma {:induction false} WrittenApart(w: seq<byte>, a: nat, n: nat, pos: nat, bs: seq<byte>)
    requires pos + |bs| <= |w| && a + n <= |w| && (a + n <= pos || pos + |bs| <= a)
    ensures Part(Over(w, pos, bs), a, n) == Part(w, a, n)
  {
    OverSlices(w, pos, bs, a, a + n);
  }

  /** Writes bs into the string block. */
  method PokeString(f: Fdt, off: nat, bs: seq<byte>)
    requires f.Blocks() && off + |bs| <= f.sizeStrings && f.offStruct <= f.offStrings
    modifies f.buf
    ensures f.Strings() == Over(old(f.Strings()), off, bs) && f.Struct() == old(f.Struct())
    ensures f.Front() == old(f.Front())
  {
    hide *;
    Blocked(f);
    ghost var w, a, n, o, m := f.buf[..], f.offStruct, f.sizeStruct, f.offStrings, f.sizeStrings;
    Write(f.buf, f.offStrings + off, bs);
    WrittenPart(w, o, m, o + off, bs);
    WrittenApart(w, a, n, o + off, bs);
    WrittenApart(w, 0, a, o + off, bs);
    Blocked(f);
  }

  // ---- tokens in bytes

  /** Header and value of a property in place make the token, whatever the padding holds. */
  lemma {:induction false} PropBytes(s: seq<byte>, off: nat, nameoff: nat, val: seq<byte>) returns (pad: seq<byte>)
    requires off + 12 + Align4(|val|) <= |s|
    requires s[off..off + 4] == Be(PROP, 4) && s[off + 4..off + 8] == Be(|val|, 4)
    requires s[off + 8..off + 12] == Be(nameoff, 4)
    requires s[off + 12..off + 12 + |val|] == val
    ensures |pad| == Pad4(|val|) && s[off..off + 12 + Align4(|val|)] == EncTok(Prop(nameoff, val, pad))
  {
    hide Be, Pad4;
    var e := off + 12 + Align4(|val|);
    pad := s[off + 12 + |val|..e];
    assert |pad| == Pad4(|val|);
    FiveParts(s, off, off + 4, off + 8, off + 12, off + 12 + |val|, e);
  }

  lemma {:induction false} FiveParts(s: seq<byte>, a: nat, b: nat, c: nat, d: nat, e: nat, f: nat)
    requires a <= b <= c <= d <= e <= f <= |s|
    ensures s[a..f] == s[a..b] + (s[b..c] + s[c..d] + s[d..e] + s[e..f])
  {
  }

  lemma {:induction false} EncThree(s: seq<byte>, x: nat, y: nat, a: seq<Tok>, b: seq<Tok>, c: seq<Tok>)
    requires x <= y <= |s| && s[..x] == Enc(a) && s[x..y] == Enc(b) && s[y..] == Enc(c)
    ensures s == Enc(a + b + c)
  {
    hide Enc;
    EncConcat(a + b, c);
    EncConcat(a, b);
    assert s == s[..x] + s[x..y] + s[y..];
  }

  lemma {:induction false} EncOne(t: Tok)
    ensures Enc([t]) == EncTok(t) && Size([t]) == TokSize(t)
  {
    assert [t][1..] == [];
    assert Enc([t]) == EncTok(t) + [];
  }

  /** Tokens before and after i, as bytes of the block. */
  lemma {:induction false} EncSplit(ts: seq<Tok>, i: nat, j: nat)
    requires i <= j <= |ts|
    ensures Off(ts, i) <= Off(ts, j) <= Size(ts)
    ensures Enc(ts)[..Off(ts, i)] == Enc(ts[..i]) && Enc(ts)[Off(ts, j)..] == Enc(ts[j..])
    ensures Enc(ts)[Off(ts, i)..Off(ts, j)] == Enc(ts[i..j])
  {
    hide Enc, Size;
    OffSplit(ts, i);
    OffSplit(ts, j);
    OffSplit(ts[..j], i);
    assert ts[..j][..i] == ts[..i] && ts[..j][i..] == ts[i..j];
    var s, x, y := Enc(ts), Off(ts, i), Off(ts, j);
    assert s[..y] == Enc(ts[..j]);
    assert s[x..y] == s[..y][x..];
  }
}

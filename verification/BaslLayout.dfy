/** Where tables go in guest memory, and what each pass of finishing them leaves there. */
module BaslLayout {
  import opened Bytes
  import opened Acpi
  import opened AcpiScript

  // ---- layout

  /** The next multiple of a, in 32-bit arithmetic. */
  function RoundUp(off: nat, a: nat): nat
    requires PowerOfTwo(a)
  {
    ClearLow((off + a - 1) % U32, a)
  }

  /** x with the bits below a cleared, bit by bit: the greatest multiple of a up to x. */
  function ClearLow(x: nat, a: nat): (r: nat)
    requires PowerOfTwo(a)
    ensures r <= x < r + a && r % a == 0
    decreases a
  {
    if a == 1 then x
    else
      var h := ClearLow(x / 2, a / 2);
      Doubled(h, a);
      2 * h
  }

  lemma {:induction false} Doubled(h: nat, a: nat)
    requires a > 0 && a % 2 == 0 && h % (a / 2) == 0
    ensures 2 * h % a == 0
  {
    var q := h / (a / 2);
    assert h == q * (a / 2);
    assert 2 * h == q * a;
    DivModUnique(2 * h, a, q, 0);
  }

  lemma {:induction false} RoundUpIs(off: nat, a: nat)
    requires PowerOfTwo(a) && off + a <= U32
    ensures off <= RoundUp(off, a) < off + a && RoundUp(off, a) % a == 0
  {
    hide ClearLow;
    assert (off + a - 1) % U32 == off + a - 1;
  }

  predicate Aligned(ts: seq<Table>) { forall i :: 0 <= i < |ts| ==> PowerOfTwo(ts[i].alignment) && ts[i].alignment <= BASE }

  /** Where table i goes, and where the area ends after n tables. */
  function OffsetOf(ts: seq<Table>, i: nat): nat
    requires i < |ts| && Aligned(ts)
    decreases i, 1
  {
    RoundUp(EndOf(ts, i), ts[i].alignment)
  }

  function EndOf(ts: seq<Table>, n: nat): nat
    requires n <= |ts| && Aligned(ts)
    decreases n, 0
  {
    if n == 0 then 0 else (OffsetOf(ts, n - 1) + |ts[n - 1].data|) % U32
  }

  /** Table i gets a place: its length does not wrap and, for loading in place, its memory is there. */
  predicate Placeable(ts: seq<Table>, i: nat, inMemory: bool, limit: nat)
    requires i < |ts| && Aligned(ts)
  {
    OffsetOf(ts, i) < EndOf(ts, i + 1) &&
    (inMemory ==> (BASE + OffsetOf(ts, i)) % U32 + |ts[i].data| <= limit)
  }

  predicate AllPlaced(ts: seq<Table>, limit: nat, n: nat)
    requires Aligned(ts) && n <= |ts|
  {
    forall i :: 0 <= i < n ==> Placeable(ts, i, true, limit)
  }

  lemma {:induction false} EndInside(ts: seq<Table>, limit: nat, n: nat)
    requires Aligned(ts) && n <= |ts| && BASE <= limit <= U32 - BASE && AllPlaced(ts, limit, n)
    requires forall i :: 0 <= i < |ts| ==> |ts[i].data| < U32
    ensures BASE + EndOf(ts, n) <= limit
    ensures n < |ts| ==> EndOf(ts, n) <= OffsetOf(ts, n) < U32 - BASE && OffsetOf(ts, n) % ts[n].alignment == 0
    ensures n > 0 ==> EndOf(ts, n) == OffsetOf(ts, n - 1) + |ts[n - 1].data|
  {
    hide RoundUp;
    if n > 0 {
      EndInside(ts, limit, n - 1);
      var o := OffsetOf(ts, n - 1);
      assert Placeable(ts, n - 1, true, limit);
      assert (BASE + o) % U32 == BASE + o;
    }
    if n < |ts| { RoundUpIs(EndOf(ts, n), ts[n].alignment); }
  }

  /** Tables loaded in place are aligned, in order, inside memory, and do not overlap. */
  lemma {:induction false} Disjoint(ts: seq<Table>, limit: nat, i: nat, j: nat)
    requires Aligned(ts) && i < j < |ts| && BASE <= limit <= U32 - BASE && AllPlaced(ts, limit, j)
    requires forall i :: 0 <= i < |ts| ==> |ts[i].data| < U32
    ensures OffsetOf(ts, i) + |ts[i].data| <= OffsetOf(ts, j)
    decreases j
  {
    EndInside(ts, limit, j);
    if i < j - 1 { Disjoint(ts, limit, i, j - 1); }
  }

  // ---- the linker

  /** Table i once its length fields are filled in and its place is known. */
  function FinalOf(ts: seq<Table>, i: nat): Table
    requires i < |ts| && Aligned(ts) && LengthsFit(ts[i].lengths, |ts[i].data|)
  {
    ts[i].(data := WithLengths(ts[i].data, ts[i].lengths), off := OffsetOf(ts, i))
  }

  predicate AllLengthsFit(ts: seq<Table>) {
    forall i :: 0 <= i < |ts| ==> LengthsFit(ts[i].lengths, |ts[i].data|)
  }

  function Final(ts: seq<Table>): (r: seq<Table>)
    requires Aligned(ts) && AllLengthsFit(ts)
    ensures |r| == |ts|
  {
    seq(|ts|, i requires 0 <= i < |ts| => FinalOf(ts, i))
  }

  /** A table's bytes in guest memory. */
  function Region(w: seq<byte>, t: Table): seq<byte>
    requires BASE + t.off + |t.data| <= |w|
  {
    w[BASE + t.off..BASE + t.off + |t.data|]
  }

  /** Writing inside a block that was written as a whole. */
  lemma {:induction false} OverInside(w: seq<byte>, at: nat, x: seq<byte>, off: nat, bs: seq<byte>)
    requires at + |x| <= |w| && off + |bs| <= |x|
    ensures Over(Over(w, at, x), at + off, bs) == Over(w, at, Over(x, off, bs))
  {
  }

  lemma {:induction false} InsideOver(w: seq<byte>, at: nat, x: seq<byte>, a: nat, b: nat)
    requires at + |x| <= |w| && a <= b <= |x|
    ensures Over(w, at, x)[at + a..at + b] == x[a..b]
  {
    OverSlices(w, at, x, at, at + |x|);
    SubSlice(Over(w, at, x), at, at + |x|, a, b);
  }

  lemma {:induction false} OverSame(w: seq<byte>, at: nat, n: nat)
    requires at + n <= |w|
    ensures Over(w, at, w[at..at + n]) == w
  {
  }

  lemma {:induction false} OverTwice(w: seq<byte>, at: nat, x: seq<byte>, y: seq<byte>)
    requires at + |x| <= |w| && |y| == |x|
    ensures Over(Over(w, at, x), at, y) == Over(w, at, y)
  {
  }

  /** Memory w' is w with d in the table's place, when tables are loaded in place. */
  ghost predicate Leaves(w: seq<byte>, w': seq<byte>, t: Table, inMemory: bool, d: seq<byte>) {
    w' == if inMemory && BASE + t.off + |d| <= |w| then Over(w, BASE + t.off, d) else w
  }

  /** A table's bytes as patching finds them. */
  function Found(w: seq<byte>, t: Table, inMemory: bool): (d: seq<byte>)
    ensures |d| == |t.data|
  {
    if inMemory && BASE + t.off + |t.data| <= |w| then Region(w, t) else t.data
  }

  lemma {:induction false} LeavesAsFound(w: seq<byte>, t: Table, inMemory: bool)
    ensures Leaves(w, w, t, inMemory, Found(w, t, inMemory))
  {
    if inMemory && BASE + t.off + |t.data| <= |w| { OverSame(w, BASE + t.off, |t.data|); }
  }

  lemma {:induction false} ResolvedNext(ts: seq<Table>, ps: seq<Pointer>, p: Pointer)
    requires AllFit(ts) && Resolved(ts, ps) && |p.src| == 4 && Find(ts, p.src) < |ts|
    ensures Resolved(ts, ps + [p])
    ensures Addresses(ts, ps + [p]) == Addresses(ts, ps) + [BASE + ts[Find(ts, p.src)].off]
  {
    hide AllFit, Find;
    forall k | 0 <= k <= |ps| ensures |(ps + [p])[k].src| == 4 && Find(ts, (ps + [p])[k].src) < |ts| {
      assert (ps + [p])[k] == if k < |ps| then ps[k] else p;
    }
    var a, b := Addresses(ts, ps + [p]), Addresses(ts, ps) + [BASE + ts[Find(ts, p.src)].off];
    forall k | 0 <= k <= |ps| ensures a[k] == b[k] {
      assert (ps + [p])[k] == if k < |ps| then ps[k] else p;
    }
  }

  lemma {:induction false} CommandsNext(ts: seq<Table>, name: seq<byte>, ps: seq<Pointer>, p: Pointer)
    requires AllFit(ts) && Resolved(ts, ps) && Resolved(ts, ps + [p])
    ensures |p.src| == 4 && Find(ts, p.src) < |ts|
    ensures PointerCommands(ts, name, ps + [p]) ==
      PointerCommands(ts, name, ps) + [AddPointer(name, ts[Find(ts, p.src)].name, p.off, p.size)]
  {
    hide AllFit, Find;
    assert (ps + [p])[|ps|] == p;
    forall k | 0 <= k < |ps| ensures (ps + [p])[k] == ps[k] {
    }
  }

  lemma {:induction false} NoPointersYet(ts: seq<Table>, name: seq<byte>, d: seq<byte>, ps: seq<Pointer>)
    requires AllFit(ts) && ps == []
    ensures Resolved(ts, ps) && PointersFit(ps, |d|) && WithPointers(d, ps, Addresses(ts, ps)) == d
    ensures PointerCommands(ts, name, ps) == []
  {
  }

  lemma {:induction false} PrefixFits(ps: seq<Pointer>, k: nat, n: nat)
    requires PointersFit(ps, n) && 0 < k <= |ps|
    ensures PointersFit(ps[..k], n) && ps[k - 1].off + ps[k - 1].size <= n
  {
  }

  lemma {:induction false} PointersNext(d: seq<byte>, ps: seq<Pointer>, p: Pointer, addrs: seq<nat>, addr: nat)
    requires PointersFit(ps + [p], |d|) && |addrs| == |ps|
    ensures PointersFit(ps, |d|)
    ensures WithPointers(d, ps + [p], addrs + [addr]) == WithPointer(WithPointers(d, ps, addrs), p, addr)
  {
    hide WithPointers, WithPointer;
    forall q | q in ps ensures q in ps + [p] {
    }
    assert (ps + [p])[..|ps|] == ps && (addrs + [addr])[..|ps|] == addrs;
    LastPointer(d, ps + [p], addrs + [addr]);
  }

  predicate Wellformed(ts: seq<Table>)
    ensures Wellformed(ts) ==> Aligned(ts) && AllLengthsFit(ts)
  {
    forall i :: 0 <= i < |ts| ==> Fits(ts[i]) && (ts[i].data == [] || |ts[i].data| >= 4) && Named(ts[i].pointers)
  }

  predicate Named(ps: seq<Pointer>) { forall k :: 0 <= k < |ps| ==> |ps[k].src| == 4 }

  /** Every table is offered as a file under its name. */
  predicate Offered(ts: seq<Table>, files: map<seq<byte>, seq<byte>>) {
    Distinct(ts) ==> forall i :: 0 <= i < |ts| ==> ts[i].name in files && files[ts[i].name] == ts[i].data
  }

  /** The tables stand in memory. */
  predicate AllLoaded(w: seq<byte>, ts: seq<Table>) {
    forall i :: 0 <= i < |ts| ==> BASE + ts[i].off + |ts[i].data| <= |w| && Region(w, ts[i]) == ts[i].data
  }

  /** Memory outside the table area is as it was. */
  predicate Outside(w: seq<byte>, w': seq<byte>, end: nat) {
    |w'| == |w| && BASE + end <= |w| && w'[..BASE] == w[..BASE] && w'[BASE + end..] == w[BASE + end..]
  }

  lemma {:induction false} FinalNext(ts: seq<Table>, k: nat)
    requires Wellformed(ts) && k < |ts|
    ensures Final(ts)[..k + 1] == Final(ts)[..k] + [FinalOf(ts, k)]
  {
    hide FinalOf, Wellformed;
  }

  lemma {:induction false} AllocsNext(done: seq<Table>, f: Table)
    ensures Allocs(done + [f]) == [Alloc(f.name, f.alignment)] + Allocs(done)
  {
    assert (done + [f])[..|done|] == done;
  }

  lemma {:induction false} OfferedNext(done: seq<Table>, f: Table, files: map<seq<byte>, seq<byte>>)
    requires Offered(done, files)
    ensures Offered(done + [f], files[f.name := f.data])
  {
    var more := done + [f];
    if Distinct(more) {
      forall i, j | 0 <= i < j < |done| ensures done[i].name != done[j].name {
        assert more[i].name != more[j].name;
      }
      forall i | 0 <= i < |done| ensures done[i].name != f.name {
        assert more[i].name != more[|done|].name;
      }
    }
  }

  /** Table k goes in behind the tables before it and leaves them alone. */
  lemma {:induction false} LoadedStay(ts: seq<Table>, k: nat, w: seq<byte>, bs: seq<byte>)
    requires Wellformed(ts) && k < |ts| && BASE <= |w| <= U32 - BASE && AllPlaced(ts, |w|, k)
    requires AllLoaded(w, Final(ts)[..k]) && BASE + OffsetOf(ts, k) + |bs| <= |w|
    ensures AllLoaded(Over(w, BASE + OffsetOf(ts, k), bs), Final(ts)[..k])
  {
    hide RoundUp, OffsetOf, EndOf, Over, WithLengths, Placeable;
    var at := BASE + OffsetOf(ts, k);
    var done := Final(ts)[..k];
    forall i | 0 <= i < k ensures Region(Over(w, at, bs), done[i]) == done[i].data {
      assert done[i] == FinalOf(ts, i);
      Disjoint(ts, |w|, i, k);
      OverSlices(w, at, bs, BASE + done[i].off, BASE + done[i].off + |done[i].data|);
    }
  }

  lemma {:induction false} OutsideNext(w: seq<byte>, w1: seq<byte>, end: nat, off: nat, bs: seq<byte>)
    requires Outside(w, w1, end) && end <= off && BASE + off + |bs| <= |w|
    ensures Outside(w, Over(w1, BASE + off, bs), off + |bs|)
  {
    OverSlices(w1, BASE + off, bs, 0, BASE);
    OverSlices(w1, BASE + off, bs, BASE + off + |bs|, |w|);
    assert w1[BASE + end..][off + |bs| - end..] == w1[BASE + off + |bs|..];
    assert w[BASE + end..][off + |bs| - end..] == w[BASE + off + |bs|..];
  }

  lemma {:induction false} LoadedNext(ts: seq<Table>, k: nat, w: seq<byte>, w1: seq<byte>)
    requires Wellformed(ts) && k < |ts| && BASE <= |w| <= U32 - BASE && AllPlaced(ts, |w|, k + 1)
    requires Outside(w, w1, EndOf(ts, k)) && AllLoaded(w1, Final(ts)[..k])
    ensures (BASE + OffsetOf(ts, k)) % U32 + |ts[k].data| <= |w1|
    ensures var w2 := Over(w1, (BASE + OffsetOf(ts, k)) % U32, FinalOf(ts, k).data);
      AllLoaded(w2, Final(ts)[..k] + [FinalOf(ts, k)]) && Outside(w, w2, EndOf(ts, k + 1))
  {
    hide RoundUp, OffsetOf, EndOf, Over, WithLengths;
    var f := FinalOf(ts, k);
    EndInside(ts, |w|, k);
    EndInside(ts, |w|, k + 1);
    assert Placeable(ts, k, true, |w|);
    assert (BASE + f.off) % U32 == BASE + f.off;
    LoadedStay(ts, k, w1, f.data);
    OverSlices(w1, BASE + f.off, f.data, 0, 0);
    OutsideNext(w, w1, EndOf(ts, k), f.off, f.data);
  }

  lemma {:induction false} PatchedInPlace(ts: seq<Table>, w: seq<byte>, w1: seq<byte>, w2: seq<byte>, t: Table,
      inMemory: bool,
      d: seq<byte>)
    requires AllFit(ts) && Fits(t) && Resolved(ts, t.pointers)
    requires inMemory ==> BASE + t.off + |t.data| <= |w| && Region(w, t) == t.data
    requires d == WithPointers(Found(w, t, inMemory), t.pointers, Addresses(ts, t.pointers))
    requires Leaves(w, w1, t, inMemory, d)
    requires Leaves(w1, w2, t, inMemory, WithChecksums(Found(w1, t, inMemory), t.checksums))
    ensures Leaves(w, w2, t, inMemory, Patched(ts, t))
  {
    hide AllFit, Find, Resolved, WithPointers, WithChecksums, Over, Addresses;
    if inMemory {
      var at := BASE + t.off;
      InsideOver(w, at, d, 0, |d|);
      assert Found(w1, t, inMemory) == d;
      OverTwice(w, at, d, WithChecksums(d, t.checksums));
    }
  }

  // ---- the first pass

  /** The first k tables of ts are filled in, placed, offered and asked for. */
  ghost predicate FirstPass(ts: seq<Table>, k: nat, tables: seq<Table>, script: seq<Command>, files: map<seq<byte>,
      seq<byte>>)
    requires k <= |ts| && Wellformed(ts)
  {
    var done := Final(ts)[..k];
    tables == done + ts[k..] && script == Allocs(done) && Offered(done, files)
  }

  /** They stand in memory, which was w before. */
  ghost predicate FirstMemory(ts: seq<Table>, k: nat, inMemory: bool, w: seq<byte>, w1: seq<byte>)
    requires k <= |ts| && Wellformed(ts)
  {
    (forall i :: 0 <= i < k ==> Placeable(ts, i, inMemory, |w|)) && |w1| == |w| &&
    if inMemory then AllLoaded(w1, Final(ts)[..k]) && Outside(w, w1, EndOf(ts, k)) else w1 == w
  }

  lemma {:induction false} FirstPassNext(ts: seq<Table>, k: nat, tables: seq<Table>, script: seq<Command>,
      files: map<seq<byte>,
      seq<byte>>)
    requires k < |ts| && Wellformed(ts) && FirstPass(ts, k, tables, script, files)
    ensures |tables| == |ts| && tables[k] == ts[k]
    ensures var f := FinalOf(ts, k);
      FirstPass(ts, k + 1, tables[k := f], [Alloc(f.name, f.alignment)] + script, files[f.name := f.data])
  {
    hide Wellformed, Offered, Allocs, Final, FinalOf;
    var done, f := Final(ts)[..k], FinalOf(ts, k);
    FinalNext(ts, k);
    AllocsNext(done, f);
    OfferedNext(done, f, files);
    assert tables[k := f] == (done + [f]) + ts[k + 1..];
    assert f.name == ts[k].name && f.alignment == ts[k].alignment by {
      SameName(ts, k);
    }
  }

  lemma {:induction false} SameName(ts: seq<Table>, k: nat)
    requires k < |ts| && Wellformed(ts)
    ensures FinalOf(ts, k).name == ts[k].name && FinalOf(ts, k).alignment == ts[k].alignment
    ensures FinalOf(ts, k).data == Filled(ts[k]).data
  {
  }

  /** Memory after table k is copied to its place. */
  ghost function Copied(ts: seq<Table>, k: nat, inMemory: bool, w: seq<byte>): seq<byte>
    requires k < |ts| && Wellformed(ts)
  {
    var gpa := (BASE + OffsetOf(ts, k)) % U32;
    if inMemory && gpa + |ts[k].data| <= |w| then Over(w, gpa, FinalOf(ts, k).data) else w
  }

  lemma {:induction false} FirstMemoryNext(ts: seq<Table>, k: nat, inMemory: bool, w: seq<byte>, w1: seq<byte>)
    requires k < |ts| && Wellformed(ts) && BASE <= |w| <= U32 - BASE
    requires FirstMemory(ts, k, inMemory, w, w1) && Placeable(ts, k, inMemory, |w|)
    ensures FirstMemory(ts, k + 1, inMemory, w, Copied(ts, k, inMemory, w1))
  {
    hide Wellformed, Placeable, AllLoaded, Outside, Final, FinalOf, OffsetOf, EndOf, Over;
    FinalNext(ts, k);
    if inMemory {
      assert AllPlaced(ts, |w|, k + 1);
      LoadedNext(ts, k, w, w1);
    }
  }

  lemma {:induction false} FirstMemoryPlaced(ts: seq<Table>, inMemory: bool, w: seq<byte>, w1: seq<byte>)
    requires Wellformed(ts) && FirstMemory(ts, |ts|, inMemory, w, w1)
    ensures |w1| == |w| && forall i :: 0 <= i < |ts| ==> Placeable(ts, i, inMemory, |w|)
  {
    hide Placeable, AllLoaded, Outside, Final, EndOf;
  }

  /** What installing a table makes of it, of the end of the area, and of memory. */
  function PlacedAt(t: Table, off: nat): Table
    requires PowerOfTwo(t.alignment)
  {
    t.(off := RoundUp(off, t.alignment))
  }

  function EndAfter(t: Table, off: nat): nat
    requires PowerOfTwo(t.alignment)
  {
    (RoundUp(off, t.alignment) + |t.data|) % U32
  }

  predicate HasRoom(t: Table, off: nat, inMemory: bool, limit: nat)
    requires PowerOfTwo(t.alignment)
  {
    var o := RoundUp(off, t.alignment);
    o < EndAfter(t, off) && (inMemory ==> (BASE + o) % U32 + |t.data| <= limit)
  }

  function CopiedTo(w: seq<byte>, t: Table, off: nat, inMemory: bool): seq<byte>
    requires PowerOfTwo(t.alignment)
  {
    var gpa := (BASE + RoundUp(off, t.alignment)) % U32;
    if inMemory && gpa + |t.data| <= |w| then Over(w, gpa, t.data) else w
  }

  /** A table with its length fields filled in. */
  function Filled(t: Table): (r: Table)
    requires LengthsFit(t.lengths, |t.data|)
    ensures |r.data| == |t.data| && r.alignment == t.alignment && r.name == t.name
  {
    t.(data := WithLengths(t.data, t.lengths))
  }

  /** Placing table k, spelled out as the code computes it. */
  lemma {:induction false} PlaceableIs(ts: seq<Table>, k: nat, inMemory: bool, w: seq<byte>)
    requires k < |ts| && Wellformed(ts)
    ensures PowerOfTwo(ts[k].alignment) && |ts[k].data| < U32 && LengthsFit(ts[k].lengths, |ts[k].data|)
    ensures FinalOf(ts, k) == PlacedAt(Filled(ts[k]), EndOf(ts, k))
    ensures EndOf(ts, k + 1) == EndAfter(Filled(ts[k]), EndOf(ts, k))
    ensures Placeable(ts, k, inMemory, |w|) <==> HasRoom(Filled(ts[k]), EndOf(ts, k), inMemory, |w|)
    ensures Copied(ts, k, inMemory, w) == CopiedTo(w, Filled(ts[k]), EndOf(ts, k), inMemory)
  {
    hide RoundUp, WithLengths, Over;
  }

  // ---- the second pass

  /** Tables in order, one behind the other. */
  predicate Spread(ts: seq<Table>, end: nat) {
    (forall i, j :: 0 <= i < j < |ts| ==> ts[i].off + |ts[i].data| <= ts[j].off) &&
    (forall i :: 0 <= i < |ts| ==> ts[i].off + |ts[i].data| <= end)
  }

  lemma {:induction false} FinalAt(ts: seq<Table>, i: nat)
    requires Wellformed(ts) && i < |ts|
    ensures Final(ts)[i].off == OffsetOf(ts, i) && |Final(ts)[i].data| == |ts[i].data| < U32
    ensures Final(ts)[i].alignment == ts[i].alignment
  {
  }

  /** Tables i and j of those placed lie one behind the other. */
  lemma {:induction false} FinalApart(ts: seq<Table>, limit: nat, i: nat, j: nat)
    requires Wellformed(ts) && BASE <= limit <= U32 - BASE && AllPlaced(ts, limit, |ts|) && i < j <= |ts|
    ensures Final(ts)[i].off + |Final(ts)[i].data| <= if j < |ts| then Final(ts)[j].off else EndOf(ts, |ts|)
  {
    hide RoundUp, OffsetOf, EndOf, WithLengths, Placeable, Final, FinalOf;
    FinalAt(ts, i);
    EndInside(ts, limit, |ts|);
    if j < |ts| {
      FinalAt(ts, j);
      Disjoint(ts, limit, i, j);
    } else if i < j - 1 {
      Disjoint(ts, limit, i, j - 1);
    }
  }

  lemma {:induction false} FinalAligned(ts: seq<Table>, limit: nat, i: nat)
    requires Wellformed(ts) && BASE <= limit <= U32 - BASE && AllPlaced(ts, limit, |ts|) && i < |ts|
    ensures Final(ts)[i].alignment > 0 && Final(ts)[i].off % Final(ts)[i].alignment == 0
  {
    hide OffsetOf, EndOf, Placeable, Final;
    FinalAt(ts, i);
    EndInside(ts, limit, i);
  }

  /** Each table starts at a multiple of its alignment. */
  predicate OnMultiples(ts: seq<Table>) {
    forall i :: 0 <= i < |ts| ==> ts[i].alignment > 0 && ts[i].off % ts[i].alignment == 0
  }

  lemma {:induction false} FinalMultiples(ts: seq<Table>, limit: nat)
    requires Wellformed(ts) && BASE <= limit <= U32 - BASE && AllPlaced(ts, limit, |ts|)
    ensures OnMultiples(Final(ts))
  {
    hide Wellformed, AllPlaced, Final, EndOf;
    forall i | 0 <= i < |ts| ensures Final(ts)[i].alignment > 0 && Final(ts)[i].off % Final(ts)[i].alignment == 0 {
      FinalAligned(ts, limit, i);
    }
  }

  /** Tables loaded in memory: in order, aligned, inside memory and apart. */
  lemma {:induction false} FinalSpread(ts: seq<Table>, limit: nat)
    requires Wellformed(ts) && BASE <= limit <= U32 - BASE && AllPlaced(ts, limit, |ts|)
    ensures Spread(Final(ts), EndOf(ts, |ts|)) && BASE + EndOf(ts, |ts|) <= limit
    ensures OnMultiples(Final(ts))
  {
    hide OnMultiples;
    FinalMultiples(ts, limit);
    forall i, j | 0 <= i < j < |ts| ensures Final(ts)[i].off + |Final(ts)[i].data| <= Final(ts)[j].off {
      hide Wellformed, AllPlaced, Final, EndOf;
      FinalApart(ts, limit, i, j);
    }
    forall i | 0 <= i < |ts| ensures Final(ts)[i].off + |Final(ts)[i].data| <= EndOf(ts, |ts|) {
      hide Wellformed, AllPlaced, Final, EndOf;
      FinalApart(ts, limit, i, |ts|);
    }
    EndInside(ts, limit, |ts|);
  }

  /** No room is lost: the first table lies at the base, each other at the next multiple behind the one before. */
  lemma {:induction false} FinalTight(ts: seq<Table>, limit: nat, i: nat)
    requires Wellformed(ts) && BASE <= limit <= U32 - BASE && AllPlaced(ts, limit, |ts|) && i < |ts|
    ensures var gap := Final(ts)[i].off - (if i == 0 then 0 else Final(ts)[i - 1].off + |Final(ts)[i - 1].data|);
      0 <= gap < ts[i].alignment && (i == 0 ==> gap == 0)
  {
    hide RoundUp, AllPlaced, EndOf;
    PlacedPrefix(ts, limit, i);
    EndInside(ts, limit, i);
    NextMultiple(ts, i);
    FinalAt(ts, i);
    if i > 0 { FinalAt(ts, i - 1); }
  }

  lemma {:induction false} PlacedPrefix(ts: seq<Table>, limit: nat, i: nat)
    requires Wellformed(ts) && AllPlaced(ts, limit, |ts|) && i <= |ts|
    ensures Aligned(ts) && AllPlaced(ts, limit, i) && forall k :: 0 <= k < |ts| ==> |ts[k].data| < U32
  {
  }

  lemma {:induction false} NextMultiple(ts: seq<Table>, i: nat)
    requires Aligned(ts) && i < |ts| && EndOf(ts, i) + ts[i].alignment <= U32
    ensures OffsetOf(ts, i) < EndOf(ts, i) + ts[i].alignment && (i == 0 ==> OffsetOf(ts, i) == 0)
  {
    hide RoundUp;
    RoundUpIs(EndOf(ts, i), ts[i].alignment);
    if i == 0 { NoMultiple(OffsetOf(ts, 0), ts[0].alignment); }
  }

  lemma {:induction false} NoMultiple(x: nat, a: nat)
    requires x < a && x % a == 0
    ensures x == 0
  {
  }

  /** The first n tables are patched in memory, the others stand there as installed. */
  ghost predicate SecondMemory(ts: seq<Table>, n: nat, inMemory: bool, w: seq<byte>, w1: seq<byte>, end: nat)
    requires n <= |ts| && AllFit(ts) && Resolves(ts, n)
  {
    |w1| == |w| &&
    if inMemory then
      Outside(w, w1, end) &&
      (forall i :: 0 <= i < |ts| ==> BASE + ts[i].off + |ts[i].data| <= |w|) &&
      (forall i :: 0 <= i < n ==> Region(w1, ts[i]) == Patched(ts, ts[i])) &&
      (forall i :: n <= i < |ts| ==> Region(w1, ts[i]) == ts[i].data)
    else w1 == w
  }

  /** Rewriting one table in place: that table, another table, and what is outside the area. */
  lemma {:induction false} RegionSet(w: seq<byte>, w1: seq<byte>, t: Table, d: seq<byte>)
    requires BASE + t.off + |t.data| <= |w| && |d| == |t.data| && Leaves(w, w1, t, true, d)
    ensures |w1| == |w| && Region(w1, t) == d
  {
    hide Over;
    InsideOver(w, BASE + t.off, d, 0, |d|);
  }

  lemma {:induction false} RegionKept(w: seq<byte>, w1: seq<byte>, t: Table, d: seq<byte>, u: Table)
    requires BASE + t.off + |t.data| <= |w| && |d| == |t.data| && Leaves(w, w1, t, true, d)
    requires BASE + u.off + |u.data| <= |w| && Apart(t.off, |t.data|, u.off, |u.data|)
    ensures |w1| == |w| && Region(w1, u) == Region(w, u)
  {
    hide Over;
    OverSlices(w, BASE + t.off, d, BASE + u.off, BASE + u.off + |u.data|);
  }

  lemma {:induction false} OutsideKept(w: seq<byte>, w1: seq<byte>, w2: seq<byte>, t: Table, d: seq<byte>, end: nat)
    requires BASE + t.off + |t.data| <= |w| && |d| == |t.data| && Leaves(w1, w2, t, true, d)
    requires Outside(w, w1, end) && t.off + |t.data| <= end
    ensures Outside(w, w2, end)
  {
    hide Over;
    OverSlices(w1, BASE + t.off, d, 0, BASE);
    OverSlices(w1, BASE + t.off, d, BASE + end, |w1|);
    assert w2[..BASE] == w2[0..BASE] == w1[0..BASE] == w1[..BASE];
    assert w2[BASE + end..] == w2[BASE + end..|w1|] == w1[BASE + end..];
  }

  lemma {:induction false} SecondMemoryNext(ts: seq<Table>, n: nat, inMemory: bool, w: seq<byte>, w1: seq<byte>,
      w2: seq<byte>, end: nat)
    requires n < |ts| && AllFit(ts) && Resolves(ts, n + 1) && (inMemory ==> Spread(ts, end))
    requires SecondMemory(ts, n, inMemory, w, w1, end)
    requires Leaves(w1, w2, ts[n], inMemory, Patched(ts, ts[n]))
    ensures SecondMemory(ts, n + 1, inMemory, w, w2, end)
  {
    assert Fits(ts[n]);
    hide AllFit, Resolved, Patched, Over, Region, Outside, Fits;
    if inMemory {
      var t, d := ts[n], Patched(ts, ts[n]);
      OutsideKept(w, w1, w2, t, d, end);
      RegionSet(w1, w2, t, d);
      forall i | 0 <= i < |ts| && i != n ensures Region(w2, ts[i]) == Region(w1, ts[i]) {
        RegionKept(w1, w2, t, d, ts[i]);
      }
    }
  }

  lemma {:induction false} FinalFits(ts: seq<Table>, inMemory: bool, limit: nat)
    requires Wellformed(ts) && forall i :: 0 <= i < |ts| ==> Placeable(ts, i, inMemory, limit)
    ensures AllFit(Final(ts)) && forall i :: 0 <= i < |ts| ==> Named(Final(ts)[i].pointers)
  {
    hide RoundUp, WithLengths;
    forall i | 0 <= i < |ts| ensures Fits(Final(ts)[i]) && |Final(ts)[i].data| >= 4 {
      assert Placeable(ts, i, inMemory, limit);
      PlacedNonempty(ts, i);
    }
  }

  lemma {:induction false} PlacedNonempty(ts: seq<Table>, i: nat)
    requires Wellformed(ts) && i < |ts| && OffsetOf(ts, i) < EndOf(ts, i + 1)
    ensures ts[i].data != []
  {
    assert EndOf(ts, i + 1) == (OffsetOf(ts, i) + |ts[i].data|) % U32;
    assert (OffsetOf(ts, i) + 0) % U32 <= OffsetOf(ts, i);
  }

  lemma {:induction false} SecondStart(ts: seq<Table>, inMemory: bool, w: seq<byte>, w1: seq<byte>)
    requires Wellformed(ts) && FirstMemory(ts, |ts|, inMemory, w, w1) && AllFit(Final(ts))
    ensures SecondMemory(Final(ts), 0, inMemory, w, w1, EndOf(ts, |ts|))
  {
    hide Final, EndOf, Wellformed, Placeable, AllFit;
    assert Final(ts)[..|ts|] == Final(ts);
  }

  /** What patching table n needs of memory. */
  lemma {:induction false} SecondReady(ts: seq<Table>, n: nat, inMemory: bool, w: seq<byte>, w1: seq<byte>, end: nat)
    requires n < |ts| && AllFit(ts) && Resolves(ts, n) && SecondMemory(ts, n, inMemory, w, w1, end)
    ensures inMemory ==> BASE + ts[n].off + |ts[n].data| <= |w1| && Region(w1, ts[n]) == ts[n].data
  {
    hide AllFit, Resolves, Outside;
  }

  lemma {:induction false} FirstPassEnd(ts: seq<Table>, tables: seq<Table>, script: seq<Command>, files: map<seq<byte>,
      seq<byte>>)
    requires Wellformed(ts) && FirstPass(ts, |ts|, tables, script, files)
    ensures tables == Final(ts) && script == Allocs(tables) && Offered(tables, files)
  {
    assert Final(ts)[..|ts|] == Final(ts);
    assert Final(ts) + ts[|ts|..] == Final(ts);
  }

  /** Every table stands in memory as linking leaves it, and nothing outside the area has changed. */
  ghost predicate Finished(ts: seq<Table>, w: seq<byte>, w1: seq<byte>, end: nat)
    requires AllFit(ts) && Resolves(ts, |ts|)
  {
    Outside(w, w1, end) && Spread(ts, end) &&
    forall i :: 0 <= i < |ts| ==> BASE + ts[i].off + |ts[i].data| <= |w1| && Region(w1, ts[i]) == Patched(ts, ts[i])
  }

  lemma {:induction false} PatchesNone(ts: seq<Table>)
    requires AllFit(ts)
    ensures Resolves(ts, 0) && Patches(ts, 0) == []
  {
  }

  lemma {:induction false} PatchesNext(ts: seq<Table>, k: nat)
    requires AllFit(ts) && k < |ts| && Resolves(ts, k)
    ensures Resolved(ts, ts[k].pointers) ==> Resolves(ts, k + 1)
    ensures !Resolved(ts, ts[k].pointers) ==> !Resolves(ts, |ts|)
    ensures Resolves(ts, k + 1) ==>
      Patches(ts, k + 1) == Patches(ts, k) + (PointerCommands(ts, ts[k].name, ts[k].pointers) + ChecksumCommands(ts[k]))
  {
    hide AllFit, Resolved;
  }

  lemma {:induction false} SecondEnd(ts: seq<Table>, inMemory: bool, w: seq<byte>, w1: seq<byte>, end: nat)
    requires AllFit(ts) && Resolves(ts, |ts|) && SecondMemory(ts, |ts|, inMemory, w, w1, end)
    requires (inMemory ==> Spread(ts, end))
    ensures inMemory ==> Finished(ts, w, w1, end)
    ensures !inMemory ==> w1 == w
  {
    hide AllFit, Resolves, Outside, Spread;
  }

  /** Success of finishing, as the tables alone decide it. */
  ghost predicate Linkable(ts: seq<Table>, inMemory: bool, limit: nat)
    requires Wellformed(ts)
  {
    ts != [] && (forall i :: 0 <= i < |ts| ==> Placeable(ts, i, inMemory, limit)) &&
    AllFit(Final(ts)) && Resolves(Final(ts), |ts|)
  }

  lemma {:induction false} LinkableIs(ts: seq<Table>, inMemory: bool, limit: nat)
    requires Wellformed(ts) && BASE <= limit <= U32 - BASE
    requires ts != [] && forall i :: 0 <= i < |ts| ==> Placeable(ts, i, inMemory, limit)
    ensures AllFit(Final(ts)) && forall i :: 0 <= i < |ts| ==> Named(Final(ts)[i].pointers)
    ensures Linkable(ts, inMemory, limit) <==> Resolves(Final(ts), |ts|)
    ensures inMemory ==> Spread(Final(ts), EndOf(ts, |ts|))
  {
    hide Placeable, Final, EndOf, Wellformed, Spread, Resolves, AllFit;
    FinalFits(ts, inMemory, limit);
    if inMemory { FinalSpread(ts, limit); }
  }

  lemma {:induction false} NotLinkable(ts: seq<Table>, inMemory: bool, limit: nat)
    requires Wellformed(ts)
    ensures ts == [] ==> !Linkable(ts, inMemory, limit)
    ensures !(forall i :: 0 <= i < |ts| ==> Placeable(ts, i, inMemory, limit)) ==> !Linkable(ts, inMemory, limit)
  {
  }

  lemma {:induction false} ScriptIs(ts: seq<Table>)
    requires AllFit(ts) && Resolves(ts, |ts|)
    ensures Script(ts) == Allocs(ts) + Patches(ts, |ts|)
  {
  }
}

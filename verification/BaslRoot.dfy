/** The two root tables in step, and what finished tables say in guest memory. */
module BaslRoot {
  import opened Bytes
  import opened Acpi
  import opened AcpiScript
  import opened AcpiBuild
  import opened BaslLayout

  // ---- the root tables

  /** Entry k of the RSDT, and of the XSDT, asks for the address of the table registered as number k. */
  predicate RsdtLists(ts: seq<Table>, regs: seq<nat>)
    requires |ts| >= 2 && Registered(ts, regs)
  {
    |ts[0].data| == 36 + 4 * |regs| && |ts[0].pointers| == |regs| &&
    forall k :: 0 <= k < |regs| ==> ts[0].pointers[k] == Pointer(ts[regs[k]].data[..4], 36 + 4 * k, 4)
  }

  predicate XsdtLists(ts: seq<Table>, regs: seq<nat>)
    requires |ts| >= 2 && Registered(ts, regs)
  {
    |ts[1].data| == 36 + 8 * |regs| && |ts[1].pointers| == |regs| &&
    forall k :: 0 <= k < |regs| ==> ts[1].pointers[k] == Pointer(ts[regs[k]].data[..4], 36 + 8 * k, 8)
  }

  predicate Registered(ts: seq<Table>, regs: seq<nat>) {
    forall k :: 0 <= k < |regs| ==> regs[k] < |ts| && |ts[regs[k]].data| >= 4
  }

  /** A root table: headed, and with no other field than pointers besides. */
  predicate RootTable(t: Table, sig: seq<byte>) {
    |t.data| >= 36 && t.data[..4] == sig && t.lengths == [LengthField(4, 4)] && t.alignment == 16 &&
    t.checksums == [Checksum(9, 0, FULL)]
  }

  predicate Rooted(ts: seq<Table>, regs: seq<nat>) {
    |ts| >= 2 && RootTable(ts[0], RSDT) && RootTable(ts[1], XSDT) &&
    Registered(ts, regs) && RsdtLists(ts, regs) && XsdtLists(ts, regs)
  }

  lemma {:induction false} RootedStart(a: Table, b: Table)
    requires Blank(a) && Blank(b) && a.alignment == b.alignment == 16
    ensures var ts := [Headed(a, RSDT, 1, 1), Headed(b, XSDT, 1, 1)];
      Rooted(ts, []) && AllSound(ts)
  {
    hide HeaderBytes, Sound;
    SoundHeaded(a, RSDT, 1, 1);
    SoundHeaded(b, XSDT, 1, 1);
    assert [] + HeaderBytes(RSDT, 1, 1) == HeaderBytes(RSDT, 1, 1);
    assert [] + HeaderBytes(XSDT, 1, 1) == HeaderBytes(XSDT, 1, 1);
  }

  /** Later tables keep what they had, signatures in particular. */
  predicate Keeps(ts: seq<Table>, us: seq<Table>) {
    |ts| <= |us| &&
    forall i :: 0 <= i < |ts| && |ts[i].data| >= 4 ==> |us[i].data| >= 4 && us[i].data[..4] == ts[i].data[..4]
  }

  lemma {:induction false} RootedKept(ts: seq<Table>, us: seq<Table>, regs: seq<nat>)
    requires Rooted(ts, regs) && Keeps(ts, us) && us[0] == ts[0] && us[1] == ts[1]
    ensures Rooted(us, regs)
  {
    forall k | 0 <= k < |regs| ensures us[regs[k]].data[..4] == ts[regs[k]].data[..4] {
    }
  }

  /** Registering table i: one more entry in both tables, for the same signature. */
  lemma {:induction false} RootedNext(ts: seq<Table>, regs: seq<nat>, i: nat)
    requires Rooted(ts, regs) && i < |ts| && |ts[i].data| >= 4
    ensures var sig := ts[i].data[..4];
      Rooted(ts[0 := AppendedPointer(ts[0], sig, 4)][1 := AppendedPointer(ts[1], sig, 8)], regs + [i])
  {
    hide Le;
    var sig := ts[i].data[..4];
    var us := ts[0 := AppendedPointer(ts[0], sig, 4)][1 := AppendedPointer(ts[1], sig, 8)];
    var more := regs + [i];
    forall k | 0 <= k < |more|
      ensures more[k] < |us| && |us[more[k]].data| >= 4 && us[more[k]].data[..4] == ts[more[k]].data[..4]
    {
      assert more[k] == if k < |regs| then regs[k] else i;
    }
    forall k | 0 <= k < |more|
      ensures us[0].pointers[k] == Pointer(us[more[k]].data[..4], 36 + 4 * k, 4)
      ensures us[1].pointers[k] == Pointer(us[more[k]].data[..4], 36 + 8 * k, 8)
    {
      assert more[k] == if k < |regs| then regs[k] else i;
    }
  }

  // ---- linked tables in memory

  predicate AllSound(ts: seq<Table>) {
    forall i :: 0 <= i < |ts| ==> Sound(ts[i])
  }

  /** Patching the filled-in table in place is linking the table as it was built. */
  lemma {:induction false} PatchedIsLinked(ts: seq<Table>, i: nat)
    requires Wellformed(ts) && i < |ts| && AllFit(Final(ts)) && Resolved(Final(ts), ts[i].pointers)
    ensures Fits(ts[i]) && Patched(Final(ts), Final(ts)[i]) == Linked(ts[i], Addresses(Final(ts), ts[i].pointers))
  {
    hide WithLengths, WithPointers, WithChecksums, Addresses, AllFit, Resolved;
  }

  lemma {:induction false} SoundReady(ts: seq<Table>, i: nat)
    requires Wellformed(ts) && i < |ts| && Sound(ts[i])
    ensures Ready(Final(ts)[i])
  {
    hide LeDec, PowerOfTwo, WithLengths;
    var t, d := ts[i], Final(ts)[i].data;
    forall c | c in t.checksums ensures d[c.off] == 0 {
      LengthsKeep(t.data, t.lengths, c.off, 1);
      SameByte(d, t.data, c.off);
    }
  }

  /**
   * The loader's copy of every table equals the table in guest memory, when it runs the emitted script on
   * the offered files and puts each of them where the table is.
   */
  lemma {:induction false} LoaderAgrees(ts: seq<Table>, w: World, m: seq<byte>, m1: seq<byte>, end: nat)
    requires Wellformed(ts) && AllSound(ts) && Distinct(Final(ts))
    requires AllFit(Final(ts)) && Resolves(Final(ts), |ts|) && Finished(Final(ts), m, m1, end)
    requires Offers(w, Final(ts))
    ensures var r := ExecAll(w, Script(Final(ts)), map[]);
      r.Some? && forall i :: 0 <= i < |ts| ==>
        Final(ts)[i].name in r.value && r.value[Final(ts)[i].name] == Region(m1, Final(ts)[i])
  {
    hide Wellformed, AllFit, Distinct, Resolves, Offers, Outside, Spread, Region, Final, Sound, Ready, ExecAll, Script,
        Patched;
    forall i | 0 <= i < |ts| ensures Ready(Final(ts)[i]) {
      SoundReady(ts, i);
    }
    ScriptLinks(w, Final(ts));
  }

  /** Finishing is over: tables, memory, and where the area ends. */
  ghost predicate Done(ts: seq<Table>, m: seq<byte>, m1: seq<byte>, end: nat) {
    Wellformed(ts) && AllSound(ts) && AllFit(Final(ts)) && Resolves(Final(ts), |ts|) && Finished(Final(ts), m, m1, end)
  }

  lemma {:induction false} MakeDone(ts: seq<Table>, inMemory: bool, m: seq<byte>, m1: seq<byte>, end: nat)
    requires Wellformed(ts) && AllFit(Final(ts)) && Resolves(Final(ts), |ts|)
    requires inMemory ==> Finished(Final(ts), m, m1, end)
    ensures inMemory && AllSound(ts) ==> Done(ts, m, m1, end)
  {
    hide Wellformed, AllSound, AllFit, Resolves, Finished, Final;
  }

  /** Table i in memory. */
  ghost function InMemory(ts: seq<Table>, i: nat, m1: seq<byte>): seq<byte>
    requires Wellformed(ts) && i < |ts| && BASE + Final(ts)[i].off + |Final(ts)[i].data| <= |m1|
  {
    Region(m1, Final(ts)[i])
  }

  lemma {:induction false} InMemoryIs(ts: seq<Table>, i: nat, m: seq<byte>, m1: seq<byte>, end: nat)
    requires Done(ts, m, m1, end) && i < |ts|
    ensures Sound(ts[i]) && Resolved(Final(ts), ts[i].pointers) && BASE + Final(ts)[i].off + |ts[i].data| <= |m1|
    ensures |Final(ts)[i].data| == |ts[i].data|
    ensures InMemory(ts, i, m1) == Linked(ts[i], Addresses(Final(ts), ts[i].pointers))
  {
    hide AllFit, Resolved, Outside, Spread, WithLengths, Linked, Patched;
    FinalAt(ts, i);
    assert Final(ts)[i].pointers == ts[i].pointers;
    PatchedIsLinked(ts, i);
  }

  /** Every checksum range of every table in memory sums to zero. */
  lemma {:induction false} SumsInMemory(ts: seq<Table>, i: nat, k: nat, m: seq<byte>, m1: seq<byte>, end: nat)
    requires Done(ts, m, m1, end) && i < |ts| && k < |ts[i].checksums|
    ensures BASE + Final(ts)[i].off + |Final(ts)[i].data| <= |m1|
    ensures RangeOf(ts[i].checksums[k], |ts[i].data|) <= |InMemory(ts, i, m1)|
    ensures Total(InMemory(ts, i, m1)[..RangeOf(ts[i].checksums[k], |ts[i].data|)]) % 256 == 0
  {
    InMemoryIs(ts, i, m, m1, end);
    assert ts[i].checksums[k] in ts[i].checksums;
    hide Done, Linked, Sound, Total;
    LinkedSum(ts[i], Addresses(Final(ts), ts[i].pointers), k);
  }

  /** Bytes that no field covers stand in memory as they were built. */
  lemma {:induction false} BytesInMemory(ts: seq<Table>, i: nat, x: nat, n: nat, m: seq<byte>, m1: seq<byte>, end: nat)
    requires Done(ts, m, m1, end) && i < |ts| && x + n <= |ts[i].data|
    requires LengthsApart(ts[i].lengths, x, n) && PointersApart(ts[i].pointers, x, n)
    requires ChecksumsApart(ts[i].checksums, x, n)
    ensures BASE + Final(ts)[i].off + |Final(ts)[i].data| <= |m1|
    ensures x + n <= |InMemory(ts, i, m1)| && InMemory(ts, i, m1)[x..x + n] == ts[i].data[x..x + n]
  {
    hide Done, Linked, Final, InMemory, Sound, Wellformed, AllSound;
    DoneIs(ts, m, m1, end);
    InMemoryIs(ts, i, m, m1, end);
    SoundFits(ts[i]);
    LinkedKeeps(ts[i], Addresses(Final(ts), ts[i].pointers), x, n);
  }

  /** A table with the common header stands in memory with its length, and all its bytes sum to zero. */
  lemma {:induction false} HeaderInMemory(ts: seq<Table>, i: nat, m: seq<byte>, m1: seq<byte>, end: nat)
    requires Done(ts, m, m1, end) && i < |ts| && |ts[i].data| >= 36
    requires ts[i].lengths == [LengthField(4, 4)] && ts[i].checksums == [Checksum(9, 0, FULL)]
    ensures BASE + Final(ts)[i].off + |Final(ts)[i].data| <= |m1|
    ensures var d := InMemory(ts, i, m1);
      |d| == |ts[i].data| && Total(d) % 256 == 0 && d[4..8] == Le(|d|, 4)
  {
    hide Done, Linked, Total, InMemory, Le, Final, Sound, Wellformed, AllSound;
    DoneIs(ts, m, m1, end);
    SumsInMemory(ts, i, 0, m, m1, end);
    LengthsInMemory(ts, i, 0, m, m1, end);
    InMemoryIs(ts, i, m, m1, end);
    var d := InMemory(ts, i, m1);
    assert d[..|d|] == d;
  }

  /** Every length field in memory holds its table's length. */
  lemma {:induction false} LengthsInMemory(ts: seq<Table>, i: nat, k: nat, m: seq<byte>, m1: seq<byte>, end: nat)
    requires Done(ts, m, m1, end) && i < |ts| && k < |ts[i].lengths|
    ensures BASE + Final(ts)[i].off + |Final(ts)[i].data| <= |m1|
    ensures var l := ts[i].lengths[k];
      l.off + l.size <= |InMemory(ts, i, m1)| &&
      InMemory(ts, i, m1)[l.off..l.off + l.size] == Le(|ts[i].data|, l.size)
  {
    InMemoryIs(ts, i, m, m1, end);
    assert ts[i].lengths[k] in ts[i].lengths;
    hide Done, Linked, Le;
    LinkedLength(ts[i], Addresses(Final(ts), ts[i].pointers), k);
  }

  /** Every pointer field in memory holds the address of the first table with the signature it asks for. */
  lemma {:induction false} PointersInMemory(ts: seq<Table>, i: nat, k: nat, m: seq<byte>, m1: seq<byte>, end: nat)
    requires Done(ts, m, m1, end) && i < |ts| && k < |ts[i].pointers|
    ensures BASE + Final(ts)[i].off + |Final(ts)[i].data| <= |m1|
    ensures var p := ts[i].pointers[k];
      |p.src| == 4 && Find(Final(ts), p.src) < |ts| && p.off + p.size <= |InMemory(ts, i, m1)| &&
      InMemory(ts, i, m1)[p.off..p.off + p.size] == Le(BASE + Final(ts)[Find(Final(ts), p.src)].off, p.size)
  {
    hide Done, Linked, Le, Find, Final, InMemory, Sound;
    DoneIs(ts, m, m1, end);
    InMemoryIs(ts, i, m, m1, end);
    var addrs := Addresses(Final(ts), ts[i].pointers);
    LinkedPointer(ts[i], addrs, k);
    assert addrs[k] == BASE + Final(ts)[Find(Final(ts), ts[i].pointers[k].src)].off;
    PointerFits(ts[i], k);
  }

  lemma {:induction false} SoundFits(t: Table)
    requires Sound(t)
    ensures Fits(t)
  {
  }

  lemma {:induction false} PointerFits(t: Table, k: nat)
    requires Sound(t) && k < |t.pointers|
    ensures t.pointers[k].off + t.pointers[k].size <= |t.data|
  {
    assert t.pointers[k] in t.pointers;
  }

  lemma {:induction false} SmallField(a: nat)
    requires a < U32
    ensures LeDec(Le(a, 4)) == a == LeDec(Le(a, 8))
  {
    SpanValues();
    LeRoundTrip(a, 4);
    LeRoundTrip(a, 8);
  }

  lemma {:induction false} FoundInMemory(ts: seq<Table>, j: nat, m: seq<byte>, m1: seq<byte>, end: nat)
    requires Done(ts, m, m1, end) && j < |ts| && |m1| <= U32
    ensures BASE + Final(ts)[j].off < U32
  {
    assert |Final(ts)[j].data| >= 4;
    hide *;
    InMemoryIs(ts, j, m, m1, end);
  }

  /** Pointer k of table i holds addr, read from memory as a number. */
  ghost predicate Holds(ts: seq<Table>, i: nat, off: nat, size: nat, m1: seq<byte>, addr: nat) {
    Wellformed(ts) && i < |ts| && BASE + Final(ts)[i].off + |Final(ts)[i].data| <= |m1| &&
    off + size <= |InMemory(ts, i, m1)| && LeDec(InMemory(ts, i, m1)[off..off + size]) == addr
  }

  /** The address of the first finished table with the signature. */
  ghost predicate FirstAt(ts: seq<Table>, sig: seq<byte>, addr: nat) {
    Wellformed(ts) && AllFit(Final(ts)) && |sig| == 4 && Find(Final(ts), sig) < |ts| &&
    addr == BASE + Final(ts)[Find(Final(ts), sig)].off
  }

  lemma {:induction false} DoneIs(ts: seq<Table>, m: seq<byte>, m1: seq<byte>, end: nat)
    requires Done(ts, m, m1, end)
    ensures Wellformed(ts) && AllSound(ts) && AllFit(Final(ts)) && Spread(Final(ts), end)
  {
    hide Wellformed, AllSound, AllFit, Resolves, Outside, Region, Spread;
  }

  lemma {:induction false} MakeHolds(ts: seq<Table>, i: nat, p: Pointer, m1: seq<byte>, addr: nat)
    requires Wellformed(ts) && i < |ts| && BASE + Final(ts)[i].off + |Final(ts)[i].data| <= |m1|
    requires p.off + p.size <= |InMemory(ts, i, m1)| && (p.size == 4 || p.size == 8) && addr < U32
    requires InMemory(ts, i, m1)[p.off..p.off + p.size] == Le(addr, p.size)
    ensures Holds(ts, i, p.off, p.size, m1, addr)
  {
    hide Wellformed, Final, InMemory, Le, LeDec;
    SmallField(addr);
  }

  lemma {:induction false} MakeFirstAt(ts: seq<Table>, sig: seq<byte>)
    requires Wellformed(ts) && AllFit(Final(ts)) && |sig| == 4 && Find(Final(ts), sig) < |ts|
    ensures FirstAt(ts, sig, BASE + Final(ts)[Find(Final(ts), sig)].off)
  {
    hide Wellformed, AllFit, Final, Find;
  }

  lemma {:induction false} EntryHolds(ts: seq<Table>, i: nat, k: nat, m: seq<byte>, m1: seq<byte>, end: nat)
      returns (addr: nat)
    requires Done(ts, m, m1, end) && |m1| <= U32 && i < |ts| && k < |ts[i].pointers|
    requires ts[i].pointers[k].size == 4 || ts[i].pointers[k].size == 8
    ensures Holds(ts, i, ts[i].pointers[k].off, ts[i].pointers[k].size, m1, addr)
    ensures FirstAt(ts, ts[i].pointers[k].src, addr)
  {
    hide *;
    DoneIs(ts, m, m1, end);
    InMemoryIs(ts, i, m, m1, end);
    PointersInMemory(ts, i, k, m, m1, end);
    var p := ts[i].pointers[k];
    var j := Find(Final(ts), p.src);
    FoundInMemory(ts, j, m, m1, end);
    addr := BASE + Final(ts)[j].off;
    MakeHolds(ts, i, p, m1, addr);
    MakeFirstAt(ts, p.src);
  }

  /**
   * Entry k of the RSDT and entry k of the XSDT hold the same address: that of the first table
   * with the signature of the table registered as number k.
   */
  lemma {:induction false} RootEntries(ts: seq<Table>, regs: seq<nat>, k: nat, m: seq<byte>, m1: seq<byte>, end: nat)
      returns (addr: nat)
    requires Done(ts, m, m1, end) && |m1| <= U32 && Rooted(ts, regs) && k < |regs|
    ensures Holds(ts, 0, 36 + 4 * k, 4, m1, addr) && Holds(ts, 1, 36 + 8 * k, 8, m1, addr)
    ensures FirstAt(ts, ts[regs[k]].data[..4], addr)
  {
    RootPointers(ts, regs, k);
    hide Done, Rooted, Holds, FirstAt;
    addr := EntryHolds(ts, 0, k, m, m1, end);
    var other := EntryHolds(ts, 1, k, m, m1, end);
    FirstAtOne(ts, ts[regs[k]].data[..4], addr, other);
  }

  lemma {:induction false} FirstAtOne(ts: seq<Table>, sig: seq<byte>, a: nat, b: nat)
    requires FirstAt(ts, sig, a) && FirstAt(ts, sig, b)
    ensures a == b
  {
  }

  /** That table is the registered one exactly when no table made before it has its signature. */
  lemma {:induction false} RootNames(ts: seq<Table>, j: nat, m: seq<byte>, m1: seq<byte>, end: nat, addr: nat)
    requires Done(ts, m, m1, end) && j < |ts| && |ts[j].data| >= 4
    requires LengthsApart(ts[j].lengths, 0, 4) && FirstAt(ts, ts[j].data[..4], addr)
    ensures addr == BASE + Final(ts)[j].off <==>
      forall i :: 0 <= i < j ==> !SameSignature(Final(ts)[i].data, Final(ts)[j].data)
  {
    hide Done, Wellformed, AllFit, Spread, Find, Final, SameSignature, LengthsApart, AllSound;
    DoneIs(ts, m, m1, end);
    SignatureKept(ts, j);
    FirstIs(Final(ts), j, ts[j].data[..4], end);
  }

  /** Looking up a table's own signature finds that table exactly when none before it has it. */
  lemma {:induction false} FirstIs(ts: seq<Table>, j: nat, sig: seq<byte>, end: nat)
    requires AllFit(ts) && j < |ts| && |sig| == 4 && ts[j].data[..4] == sig && Spread(ts, end)
    ensures Find(ts, sig) <= j
    ensures ts[Find(ts, sig)].off == ts[j].off <==> forall i :: 0 <= i < j ==> !SameSignature(ts[i].data, ts[j].data)
  {
    hide Find;
    var f := Find(ts, sig);
    forall i | 0 <= i < |ts| ensures SameSignature(ts[i].data, sig) <==> SameSignature(ts[i].data, ts[j].data) {
      assert sig[..4] == sig;
    }
    if f < j { assert ts[f].off + |ts[f].data| <= ts[j].off; }
  }

  lemma {:induction false} SignatureKept(ts: seq<Table>, j: nat)
    requires Wellformed(ts) && j < |ts| && |ts[j].data| >= 4 && LengthsApart(ts[j].lengths, 0, 4)
    ensures Final(ts)[j].data[..4] == ts[j].data[..4]
  {
    hide WithLengths;
    LengthsKeep(ts[j].data, ts[j].lengths, 0, 4);
    var d := WithLengths(ts[j].data, ts[j].lengths);
    assert d[..4] == d[0..4] && ts[j].data[..4] == ts[j].data[0..4];
  }

  lemma {:induction false} RootPointers(ts: seq<Table>, regs: seq<nat>, k: nat)
    requires Rooted(ts, regs) && k < |regs|
    ensures |ts[0].data| == 36 + 4 * |regs| && |ts[1].data| == 36 + 8 * |regs|
    ensures k < |ts[0].pointers| && ts[0].pointers[k] == Pointer(ts[regs[k]].data[..4], 36 + 4 * k, 4)
    ensures k < |ts[1].pointers| && ts[1].pointers[k] == Pointer(ts[regs[k]].data[..4], 36 + 8 * k, 8)
  {
  }

  /** The machine's root pointer table in memory: both ranges sum to zero, and it leads to the RSDT and the XSDT. */
  lemma {:induction false} RsdpInMemory(ts: seq<Table>, i: nat, t: Table, m: seq<byte>, m1: seq<byte>, end: nat)
      returns (rsdt: nat,
      xsdt: nat)
    requires Done(ts, m, m1, end) && |m1| <= U32 && i < |ts| && Blank(t) && ts[i] == Rsdp(t)
    ensures BASE + Final(ts)[i].off + 36 <= |m1| && |Final(ts)[i].data| == 36
    ensures Total(InMemory(ts, i, m1)[..20]) % 256 == 0 && Total(InMemory(ts, i, m1)[..36]) % 256 == 0
    ensures InMemory(ts, i, m1)[20..24] == Le(36, 4)
    ensures Holds(ts, i, 16, 4, m1, rsdt) && FirstAt(ts, RSDT, rsdt) && Holds(ts, i, 24, 8, m1, xsdt)
    ensures FirstAt(ts, XSDT, xsdt)
  {
    RsdpShape(t);
    hide *;
    InMemoryIs(ts, i, m, m1, end);
    SumsInMemory(ts, i, 0, m, m1, end);
    SumsInMemory(ts, i, 1, m, m1, end);
    LengthsInMemory(ts, i, 0, m, m1, end);
    rsdt := EntryHolds(ts, i, 0, m, m1, end);
    xsdt := EntryHolds(ts, i, 1, m, m1, end);
  }

  lemma {:induction false} RsdpShape(t: Table)
    requires Blank(t)
    ensures |Rsdp(t).data| == 36 && Rsdp(t).lengths == [LengthField(20, 4)]
    ensures Rsdp(t).checksums == [Checksum(8, 0, 20), Checksum(32, 0, FULL)]
    ensures RangeOf(Checksum(8, 0, 20), 36) == 20 && RangeOf(Checksum(32, 0, FULL), 36) == 36
    ensures Rsdp(t).pointers == [Pointer(RSDT, 16, 4), Pointer(XSDT, 24, 8)]
    ensures Rsdp(t).data[0..8] == [0x52, 0x53, 0x44, 0x20, 0x50, 0x54, 0x52, 0x20]
    ensures Rsdp(t).data[9..16] == [0x42, 0x48, 0x59, 0x56, 0x45, 0x20, 2]
  {
    assert t.data + RSDP_BYTES == RSDP_BYTES;
  }
}

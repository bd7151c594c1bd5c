/** The table linker: building tables, laying them out, and patching them in guest memory. */
module Basl {
  import opened Bytes
  import opened Acpi
  import opened AcpiScript
  import opened AcpiBuild
  import opened BaslLayout
  import opened BaslRoot

  /** A table as basl_table_create makes it; its file is named after it, cut to what a file name can hold. */
  function NewTable(name: seq<byte>, alignment: nat): Table {
    Table(FileName(name), alignment, [], 0, [], [], [])
  }

  /** "etc/acpi/" and the name. */
  function FileName(name: seq<byte>): seq<byte> {
    var full := [0x65, 0x74, 0x63, 0x2f, 0x61, 0x63, 0x70, 0x69, 0x2f] + name;
    if |full| < 56 then full else full[..55]
  }

  const RSDP_NAME: seq<byte> := [0x52, 0x53, 0x44, 0x50]

  class Linker {
    var tables: seq<Table>
    var script: seq<Command>
    var files: map<seq<byte>, seq<byte>>
    const ram: array<byte>

    // ---- building tables

    /** basl_init: the two root tables, with headers and nothing listed yet. */
    constructor (memory: array<byte>)
      ensures ram == memory && script == [] && |tables| == 2
      ensures Rooted(tables, []) && AllSound(tables)
    {
      ram, script, files := memory, [], map[];
      tables := [Headed(NewTable(RSDT, 16), RSDT, 1, 1), Headed(NewTable(XSDT, 16), XSDT, 1, 1)];
      new;
      hide HeaderBytes, Sound, Rooted, FileName;
      assert PowerOfTwo(16);
      RootedStart(NewTable(RSDT, 16), NewTable(XSDT, 16));
    }

    method Create(name: seq<byte>, alignment: nat) returns (i: nat)
      modifies `tables
      ensures i == old(|tables|) && tables == old(tables) + [NewTable(name, alignment)]
    {
      i := |tables|;
      tables := tables + [NewTable(name, alignment)];
    }

    /** Appends bytes; fails, leaving the table, when there are none or the 32-bit length would wrap. */
    method AppendBytes(i: nat, bs: seq<byte>) returns (ok: bool)
      requires i < |tables| && |tables[i].data| < U32 && |bs| < U32
      modifies `tables
      ensures ok <==> bs != [] && |old(tables[i]).data| + |bs| < U32
      ensures tables == if ok then old(tables)[i := Grown(old(tables[i]), bs)] else old(tables)
    {
      var n := |tables[i].data|;
      if (n + |bs|) % U32 <= n { return false; }
      tables := tables[i := Grown(tables[i], bs)];
      ok := true;
    }

    method AppendInt(i: nat, val: nat, size: nat) returns (ok: bool)
      requires i < |tables| && |tables[i].data| < U32 && size <= 8
      modifies `tables
      ensures ok <==> size > 0 && |old(tables[i]).data| + size < U32
      ensures tables == if ok then old(tables)[i := Grown(old(tables[i]), Le(val, size))] else old(tables)
    {
      ok := AppendBytes(i, Le(val, size));
    }

    method AddChecksum(i: nat, off: nat, start: nat, len: nat)
      requires i < |tables|
      modifies `tables
      ensures tables == old(tables)[i := AddedChecksum(old(tables[i]), Checksum(off, start, len))]
    {
      tables := tables[i := AddedChecksum(tables[i], Checksum(off, start, len))];
    }

    method AddLength(i: nat, off: nat, size: nat)
      requires i < |tables| && (size == 4 || size == 8)
      modifies `tables
      ensures tables == old(tables)[i := AddedLength(old(tables[i]), LengthField(off, size))]
    {
      tables := tables[i := AddedLength(tables[i], LengthField(off, size))];
    }

    method AddPointer(i: nat, src: seq<byte>, off: nat, size: nat)
      requires i < |tables| && |src| == 4 && (size == 4 || size == 8)
      modifies `tables
      ensures tables == old(tables)[i := AddedPointer(old(tables[i]), Pointer(src, off, size))]
    {
      tables := tables[i := AddedPointer(tables[i], Pointer(src, off, size))];
    }

    /** Appends a checksum byte; the table stays sound exactly when no whole-table checksum was asked for before. */
    method AppendChecksum(i: nat, len: nat) returns (ok: bool)
      requires i < |tables| && Sound(tables[i]) && |tables[i].data| + 1 < FULL
      requires (len == FULL || len == |tables[i].data| + 1)
      modifies `tables
      ensures ok && tables == old(tables)[i := AppendedChecksum(old(tables[i]), 0, len)]
      ensures Sound(tables[i]) <==> forall c :: c in old(tables[i]).checksums ==> c.len != FULL
    {
      hide Sound, Le;
      SoundAppendedChecksum(tables[i], len);
      AddChecksum(i, |tables[i].data|, 0, len);
      ok := AppendInt(i, 0, 1);
    }

    method AppendLength(i: nat) returns (ok: bool)
      requires i < |tables| && Sound(tables[i])
      modifies `tables
      ensures ok <==> |old(tables[i]).data| + 4 < U32
      ensures ok ==> tables == old(tables)[i := AppendedLength(old(tables[i]), 4)] && Sound(tables[i])
    {
      assert |tables[i].data| < U32;
      hide Sound, Le;
      if |tables[i].data| + 4 < U32 { SoundAppendedLength(tables[i], 4); }
      AddLength(i, |tables[i].data|, 4);
      ok := AppendInt(i, 0, 4);
    }

    method AppendPointer(i: nat, src: seq<byte>, size: nat) returns (ok: bool)
      requires i < |tables| && Sound(tables[i]) && |src| == 4 && (size == 4 || size == 8)
      modifies `tables
      ensures ok <==> |old(tables[i]).data| + size < U32
      ensures ok ==> tables == old(tables)[i := AppendedPointer(old(tables[i]), src, size)] && Sound(tables[i])
    {
      assert |tables[i].data| < U32;
      hide Sound, Le;
      if |tables[i].data| + size < U32 { SoundAppendedPointer(tables[i], src, size); }
      AddPointer(i, src, |tables[i].data|, size);
      ok := AppendInt(i, 0, size);
    }

    /** Starts a table with the common header. */
    method AppendHeader(i: nat, sig: seq<byte>, revision: byte, oemRevision: nat)
      requires i < |tables| && Blank(tables[i]) && |sig| == 4 && NoNul(sig) && oemRevision < U32
      modifies `tables
      ensures tables == old(tables)[i := Headed(old(tables[i]), sig, revision, oemRevision)] && Sound(tables[i])
    {
      hide Sound;
      SoundHeaded(tables[i], sig, revision, oemRevision);
      var _ := AppendBytes(i, HeaderBytes(sig, revision, oemRevision));
      AddLength(i, 4, 4);
      AddChecksum(i, 9, 0, FULL);
    }

    /** The root pointer table of the machine. */
    method BuildRsdp() returns (i: nat)
      modifies `tables
      ensures i == old(|tables|) && tables == old(tables) + [Rsdp(NewTable(RSDP_NAME, 16))] && Sound(tables[i])
    {
      hide Sound;
      SoundRsdp(NewTable(RSDP_NAME, 16));
      i := Create(RSDP_NAME, 16);
      var _ := AppendBytes(i, RSDP_BYTES);
      AddChecksum(i, 8, 0, 20);
      AddPointer(i, RSDT, 16, 4);
      AddLength(i, 20, 4);
      AddPointer(i, XSDT, 24, 8);
      AddChecksum(i, 32, 0, FULL);
    }

    /** Lists a table in both root tables, which stay in step. */
    method RegisterToRsdt(i: nat, ghost regs: seq<nat>) returns (ok: bool)
      requires Rooted(tables, regs) && AllSound(tables) && i < |tables| && |tables[i].data| >= 4
      modifies `tables
      ensures ok <==> |old(tables[0]).data| + 4 < U32 && |old(tables[1]).data| + 8 < U32
      ensures ok ==> Rooted(tables, regs + [i]) && AllSound(tables) && |tables| == old(|tables|)
      ensures ok ==> forall j :: 2 <= j < |tables| ==> tables[j] == old(tables)[j]
    {
      assert Sound(tables[0]) && Sound(tables[1]);
      var sig := tables[i].data[..4];
      RootedNext(tables, regs, i);
      hide Rooted, Sound;
      ok := AppendPointer(0, sig, 4);
      if !ok { return; }
      ok := AppendPointer(1, sig, 8);
    }

    // ---- finishing them

    /** Writes the table's length into each of its length fields. */
    method SetLength(i: nat)
      requires i < |tables| && LengthsFit(tables[i].lengths, |tables[i].data|)
      modifies `tables
      ensures tables == old(tables)[i := Filled(old(tables[i]))]
    {
      ghost var t := tables[i];
      var ls := tables[i].lengths;
      for k := 0 to |ls|
        invariant |tables| == old(|tables|)
        invariant tables == old(tables)[i := t.(data := WithLengths(t.data, ls[..k]))]
      {
        assert ls[..k + 1][..k] == ls[..k];
        var data := tables[i].data;
        tables := tables[i := tables[i].(data := Over(data, ls[k].off, Le(|data|, ls[k].size)))];
      }
      assert ls[..|ls|] == ls;
    }

    method Store(at: nat, bs: seq<byte>)
      requires at + |bs| <= ram.Length
      modifies ram
      ensures ram[..] == Over(old(ram[..]), at, bs)
    {
      forall k | 0 <= k < |bs| { ram[at + k] := bs[k]; }
    }

    /** Places a table, offers it as a file, asks the loader to load it, and copies it into memory. */
    method Install(i: nat, off: nat, inMemory: bool) returns (ok: bool, next: nat)
      requires i < |tables| && PowerOfTwo(tables[i].alignment) && |tables[i].data| < U32
      modifies this, ram
      ensures next == EndAfter(old(tables[i]), off) && tables == old(tables)[i := PlacedAt(old(tables[i]), off)]
      ensures ok <==> HasRoom(old(tables[i]), off, inMemory, ram.Length)
      ensures ok ==> script == [Alloc(old(tables[i]).name, old(tables[i]).alignment)] + old(script)
      ensures ok ==> files == old(files)[old(tables[i]).name := old(tables[i]).data]
      ensures ok ==> ram[..] == CopiedTo(old(ram[..]), old(tables[i]), off, inMemory)
    {
      hide RoundUp, Over;
      var t := tables[i];
      var o := RoundUp(off, t.alignment);
      tables := tables[i := t.(off := o)];
      next := (o + |t.data|) % U32;
      if next <= o { return false, next; }
      files := files[t.name := t.data];
      script := [Alloc(t.name, t.alignment)] + script;
      if !inMemory { return true, next; }
      var gpa := (BASE + o) % U32;
      if gpa + |t.data| > ram.Length { return false, next; }
      Store(gpa, t.data);
      ok := true;
    }

    method FindTable(sig: seq<byte>) returns (j: nat)
      requires AllFit(tables) && |sig| == 4
      ensures j == Find(tables, sig)
    {
      hide Fits, SameSignature;
      j := 0;
      while j < |tables| && !SameSignature(tables[j].data, sig)
        invariant j <= |tables| && forall k :: 0 <= k < j ==> !SameSignature(tables[k].data, sig)
      {
        j := j + 1;
      }
    }

    /** Adds an address to a pointer field of table t, whose bytes in memory w are x by now. */
    method PatchPointer(t: Table, p: Pointer, addr: nat, inMemory: bool, ghost w: seq<byte>, ghost x: seq<byte>)
      requires Leaves(w, ram[..], t, inMemory, x) && p.off + p.size <= |x|
      requires inMemory ==> BASE + t.off + |x| <= |w|
      modifies ram
      ensures Leaves(w, ram[..], t, inMemory, WithPointer(x, p, addr))
    {
      hide Over, Le, LeDec;
      if inMemory {
        var at := BASE + t.off;
        InsideOver(w, at, x, p.off, p.off + p.size);
        assert ram[at + p.off..at + p.off + p.size] == ram[..][at + p.off..at + p.off + p.size];
        var val := LeDec(ram[at + p.off..at + p.off + p.size]) + addr;
        Store(at + p.off, Le(val, p.size));
        OverInside(w, at, x, p.off, Le(val, p.size));
      }
    }

    /** The first k pointers of table t are patched, in memory w that held d, and asked for in the script. */
    ghost predicate PointersDone(t: Table, k: nat, inMemory: bool, w: seq<byte>, d: seq<byte>, before: seq<Command>)
      requires k <= |t.pointers| && AllFit(tables) && PointersFit(t.pointers, |d|)
      reads this, ram
    {
      var ps := t.pointers[..k];
      Resolved(tables, ps) && script == before + PointerCommands(tables, t.name, ps) &&
      Leaves(w, ram[..], t, inMemory, WithPointers(d, ps, Addresses(tables, ps)))
    }

    method NextPointer(t: Table, k: nat, inMemory: bool, ghost w: seq<byte>, ghost d: seq<byte>,
        ghost before: seq<Command>)
      returns (ok: bool)
      requires k < |t.pointers| && AllFit(tables) && PointersFit(t.pointers, |d|) && |t.pointers[k].src| == 4
      requires PointersDone(t, k, inMemory, w, d, before) && (inMemory ==> BASE + t.off + |d| <= |w|)
      modifies `script, ram
      ensures ok <==> Find(tables, t.pointers[k].src) < |tables|
      ensures ok ==> PointersDone(t, k + 1, inMemory, w, d, before)
    {
      hide Find, AllFit, WithPointer, WithPointers, PointersFit, Leaves, PointerCommands, Addresses, Resolved;
      var p := t.pointers[k];
      var j := FindTable(p.src);
      if j == |tables| { return false; }
      ghost var ps := t.pointers[..k];
      assert t.pointers[..k + 1] == ps + [p];
      PrefixFits(t.pointers, k + 1, |d|);
      ResolvedNext(tables, ps, p);
      CommandsNext(tables, t.name, ps, p);
      PointersNext(d, ps, p, Addresses(tables, ps), BASE + tables[j].off);
      script := script + [Command.AddPointer(t.name, tables[j].name, p.off, p.size)];
      PatchPointer(t, p, BASE + tables[j].off, inMemory, w, WithPointers(d, ps, Addresses(tables, ps)));
      ok := true;
    }

    /** Adds the address of its table to each pointer field, and asks the loader to do the same. */
    method PatchPointers(i: nat, inMemory: bool) returns (ok: bool)
      requires i < |tables| && AllFit(tables) && (inMemory ==> BASE + tables[i].off + |tables[i].data| <= ram.Length)
      requires Named(tables[i].pointers)
      modifies `script, ram
      ensures ok <==> Resolved(tables, tables[i].pointers)
      ensures ok ==> script == old(script) + PointerCommands(tables, tables[i].name, tables[i].pointers)
      ensures ok ==> Leaves(old(ram[..]), ram[..], tables[i], inMemory,
        WithPointers(Found(old(ram[..]), tables[i], inMemory), tables[i].pointers, Addresses(tables, tables[i].pointers)))
    {
      var t := tables[i];
      assert PointersFit(t.pointers, |t.data|);
      hide Find, AllFit, WithPointer, WithPointers, PointersFit, Leaves, Found, PointerCommands, Addresses;
      ghost var w, d, before := ram[..], Found(ram[..], t, inMemory), script;
      LeavesAsFound(w, t, inMemory);
      NoPointersYet(tables, t.name, d, t.pointers[..0]);
      for k := 0 to |t.pointers|
        invariant PointersDone(t, k, inMemory, w, d, before)
      {
        ok := NextPointer(t, k, inMemory, w, d, before);
        if !ok { return; }
      }
      assert t.pointers[..|t.pointers|] == t.pointers;
      ok := true;
    }

    /** Sums a range of table t, whose bytes in memory w are x by now, and writes the byte that cancels it. */
    method PatchChecksum(t: Table, c: Checksum, len: nat, inMemory: bool, ghost w: seq<byte>, ghost x: seq<byte>)
      requires Leaves(w, ram[..], t, inMemory, x) && (inMemory ==> BASE + t.off + |x| <= |w|)
      requires c.start + c.off < |x| && len == RangeOf(c, |x|) && c.start + len <= |x|
      modifies ram
      ensures Leaves(w, ram[..], t, inMemory, WithChecksum(x, c))
    {
      hide Over, Total;
      if inMemory {
        var at := BASE + t.off;
        InsideOver(w, at, x, c.start, c.start + len);
        assert ram[at + c.start..at + c.start + len] == ram[..][at + c.start..at + c.start + len];
        var sum := SumOf(at + c.start, len);
        var b: byte := if sum == 0 then 0 else 256 - sum;
        Store(at + c.start + c.off, [b]);
        OverInside(w, at, x, c.start + c.off, [b]);
      }
    }

    method SumOf(at: nat, len: nat) returns (sum: byte)
      requires at + len <= ram.Length
      ensures sum == Total(ram[at..at + len]) % 256
    {
      hide Total;
      sum := 0;
      TotalNone(ram[at..at]);
      for k := 0 to len
        invariant sum == Total(ram[at..at + k]) % 256
      {
        TotalNext(ram[at..at + k], ram[at + k]);
        assert ram[at..at + k + 1] == ram[at..at + k] + [ram[at + k]];
        sum := (sum + ram[at + k]) % 256;
      }
    }

    /** Cancels every range to be summed, in order, and asks the loader to do the same. */
    method PatchChecksums(i: nat, inMemory: bool)
      requires i < |tables| && Fits(tables[i]) && (inMemory ==> BASE + tables[i].off + |tables[i].data| <= ram.Length)
      modifies `script, ram
      ensures script == old(script) + ChecksumCommands(tables[i])
      ensures Leaves(old(ram[..]), ram[..], tables[i], inMemory,
        WithChecksums(Found(old(ram[..]), tables[i], inMemory), tables[i].checksums))
    {
      hide WithChecksum, Leaves, Found;
      var t := tables[i];
      ghost var w, d := ram[..], Found(ram[..], t, inMemory);
      LeavesAsFound(w, t, inMemory);
      assert WithChecksums(d, t.checksums[..0]) == d;
      for k := 0 to |t.checksums|
        invariant script == old(script) + ChecksumCommands(t)[..k]
        invariant Leaves(w, ram[..], t, inMemory, WithChecksums(d, t.checksums[..k]))
      {
        var c := t.checksums[k];
        var len := if c.len == FULL then |t.data| else c.len;
        ghost var x := WithChecksums(d, t.checksums[..k]);
        assert t.checksums[..k + 1][..k] == t.checksums[..k];
        script := script + [Command.AddChecksum(t.name, c.off, c.start, len)];
        PatchChecksum(t, c, len, inMemory, w, x);
        LastChecksum(d, t.checksums[..k + 1]);
      }
      assert t.checksums[..|t.checksums|] == t.checksums;
    }

    /** Patches one table: its pointers, then, as the last step, its checksums. */
    method PatchTable(i: nat, inMemory: bool) returns (ok: bool)
      requires i < |tables| && AllFit(tables)
      requires inMemory ==>
        BASE + tables[i].off + |tables[i].data| <= ram.Length && Region(ram[..], tables[i]) == tables[i].data
      requires Named(tables[i].pointers)
      modifies `script, ram
      ensures ok <==> Resolved(tables, tables[i].pointers)
      ensures ok ==> Leaves(old(ram[..]), ram[..], tables[i], inMemory, Patched(tables, tables[i]))
      ensures ok ==>
        script ==
          old(script) + (PointerCommands(tables, tables[i].name, tables[i].pointers) + ChecksumCommands(tables[i]))
    {
      assert Fits(tables[i]);
      hide *;
      ghost var w, t := ram[..], tables[i];
      ok := PatchPointers(i, inMemory);
      if !ok { return; }
      ghost var w1, ps := ram[..], t.pointers;
      ghost var d := WithPointers(Found(w, t, inMemory), ps, Addresses(tables, ps));
      PatchChecksums(i, inMemory);
      PatchedInPlace(tables, w, w1, ram[..], t, inMemory, d);
      Assoc(old(script), PointerCommands(tables, t.name, ps), ChecksumCommands(t));
    }

    /** Fills in, places and installs table k, the next of the first pass. */
    method InstallNext(ghost ts: seq<Table>, k: nat, off: nat, inMemory: bool, ghost w: seq<byte>) returns (ok: bool,
        next: nat)
      requires k < |ts| && Wellformed(ts) && off == EndOf(ts, k) && BASE <= ram.Length <= U32 - BASE
      requires FirstPass(ts, k, tables, script, files) && FirstMemory(ts, k, inMemory, w, ram[..])
      modifies this, ram
      ensures ok <==> Placeable(ts, k, inMemory, ram.Length)
      ensures ok ==> FirstPass(ts, k + 1, tables, script, files) && FirstMemory(ts, k + 1, inMemory, w, ram[..])
      ensures ok ==> next == EndOf(ts, k + 1)
    {
      assert |w| == ram.Length;
      hide *;
      PlaceableIs(ts, k, inMemory, ram[..]);
      FirstPassNext(ts, k, tables, script, files);
      ghost var w1, before := ram[..], tables;
      SetLength(k);
      ok, next := Install(k, off, inMemory);
      if ok {
        assert tables == before[k := FinalOf(ts, k)];
        SameName(ts, k);
        FirstMemoryNext(ts, k, inMemory, w, w1);
      }
    }

    /** The first pass: tables with their lengths filled in, placed one behind the other. */
    method InstallAll(inMemory: bool) returns (ok: bool)
      requires Wellformed(tables) && script == [] && BASE <= ram.Length <= U32 - BASE
      modifies this, ram
      ensures ok <==> forall i :: 0 <= i < old(|tables|) ==> Placeable(old(tables), i, inMemory, ram.Length)
      ensures ok ==> FirstPass(old(tables), old(|tables|), tables, script, files)
      ensures ok ==> FirstMemory(old(tables), old(|tables|), inMemory, old(ram[..]), ram[..])
    {
      ghost var ts, w := tables, ram[..];
      var off, n := 0, |tables|;
      assert Final(ts)[..0] == [] && ts[0..] == ts;
      assert FirstPass(ts, 0, tables, script, files) && FirstMemory(ts, 0, inMemory, w, w) && EndOf(ts, 0) == 0;
      hide *;
      for k := 0 to n
        invariant FirstPass(ts, k, tables, script, files) && FirstMemory(ts, k, inMemory, w, ram[..])
        invariant off == EndOf(ts, k)
      {
        ok, off := InstallNext(ts, k, off, inMemory, w);
        if !ok { return; }
      }
      FirstMemoryPlaced(ts, inMemory, w, ram[..]);
      ok := true;
    }

    /** The second pass: every table's pointers and checksums, once all tables have their places. */
    method PatchAll(inMemory: bool, ghost w: seq<byte>, ghost end: nat) returns (ok: bool)
      requires AllFit(tables) && (inMemory ==> Spread(tables, end))
      requires SecondMemory(tables, 0, inMemory, w, ram[..], end)
      requires forall i :: 0 <= i < |tables| ==> Named(tables[i].pointers)
      modifies `script, ram
      ensures ok <==> Resolves(tables, |tables|)
      ensures ok ==> script == old(script) + Patches(tables, |tables|)
      ensures ok ==> SecondMemory(tables, |tables|, inMemory, w, ram[..], end)
    {
      hide *;
      PatchesNone(tables);
      ghost var before := script;
      var n := |tables|;
      for k := 0 to n
        invariant Resolves(tables, k) && script == before + Patches(tables, k)
        invariant SecondMemory(tables, k, inMemory, w, ram[..], end)
      {
        SecondReady(tables, k, inMemory, w, ram[..], end);
        PatchesNext(tables, k);
        ghost var w1 := ram[..];
        ok := PatchTable(k, inMemory);
        if !ok { return; }
        Assoc(before, Patches(tables, k),
          PointerCommands(tables, tables[k].name, tables[k].pointers) + ChecksumCommands(tables[k]));
        SecondMemoryNext(tables, k, inMemory, w, w1, ram[..], end);
      }
      ok := true;
    }

    /** basl_finish: succeeds exactly when every table gets a place and every pointer finds its table. */
    method Finish(inMemory: bool) returns (ok: bool)
      requires Wellformed(tables) && script == [] && BASE <= ram.Length <= U32 - BASE
      modifies this, ram
      ensures ok <==> Linkable(old(tables), inMemory, ram.Length)
      ensures ok ==> tables == Final(old(tables)) && script == Script(tables) && Offered(tables, files)
      ensures ok && inMemory ==> Finished(tables, old(ram[..]), ram[..], EndOf(old(tables), |tables|))
      ensures ok && inMemory && AllSound(old(tables)) ==>
        Done(old(tables), old(ram[..]), ram[..], EndOf(old(tables), |tables|))
      ensures ok && !inMemory ==> ram[..] == old(ram[..])
    {
      hide *;
      ghost var ts, w := tables, ram[..];
      if tables == [] {
        NotLinkable(ts, inMemory, ram.Length);
        return false;
      }
      ok := InstallAll(inMemory);
      NotLinkable(ts, inMemory, ram.Length);
      if !ok { return; }
      ghost var end := EndOf(ts, |ts|);
      FirstPassEnd(ts, tables, script, files);
      LinkableIs(ts, inMemory, ram.Length);
      SecondStart(ts, inMemory, w, ram[..]);
      ok := PatchAll(inMemory, w, end);
      if ok {
        ScriptIs(tables);
        SecondEnd(tables, inMemory, w, ram[..], end);
        MakeDone(ts, inMemory, w, ram[..], end);
      }
    }
  }
}

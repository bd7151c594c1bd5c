/** The firmware loader's script: what its commands mean, and that it links tables as linking in place does. */
module AcpiScript {
  import opened Bytes
  import opened Acpi

  datatype Command =
    | Alloc(name: seq<byte>, alignment: nat)
    | AddPointer(dest: seq<byte>, src: seq<byte>, off: nat, size: nat)
    | AddChecksum(name: seq<byte>, off: nat, start: nat, len: nat)

  /** What the loader works from: the offered files, and where it puts each of them. */
  datatype World = World(files: map<seq<byte>, seq<byte>>, place: map<seq<byte>, nat>)

  type Loaded = map<seq<byte>, seq<byte>>

  /** The byte that makes a range of d sum to zero when it stands at off. */
  function ZeroSum(d: seq<byte>, off: nat, start: nat, len: nat): byte
    requires off < |d| && start + len <= |d|
  {
    Negated(Total(Over(d, off, [0])[start..start + len]))
  }

  /** One command on the copies loaded so far; None when it names a file that is not there or leaves its bounds. */
  function Exec(w: World, c: Command, m: Loaded): Option<Loaded> {
    match c
    case Alloc(name, _) => if name in w.files then Some(m[name := w.files[name]]) else None
    case AddPointer(dest, src, off, size) =>
      if dest in m && src in m && src in w.place && off + size <= |m[dest]| then
        Some(m[dest := WithPointer(m[dest], Pointer([], off, size), w.place[src])])
      else None
    case AddChecksum(name, off, start, len) =>
      if name in m && off < |m[name]| && start + len <= |m[name]| then
        Some(m[name := Over(m[name], off, [ZeroSum(m[name], off, start, len)])])
      else None
  }

  function ExecAll(w: World, cs: seq<Command>, m: Loaded): Option<Loaded>
    decreases |cs|
  {
    if cs == [] then Some(m)
    else
      var before := ExecAll(w, cs[..|cs| - 1], m);
      if before.None? then None else Exec(w, cs[|cs| - 1], before.value)
  }

  lemma {:induction false} ExecCat(w: World, a: seq<Command>, b: seq<Command>, m: Loaded)
    requires ExecAll(w, a, m).Some?
    ensures ExecAll(w, a + b, m) == ExecAll(w, b, ExecAll(w, a, m).value)
    decreases |b|
  {
    hide Exec;
    if b == [] {
      assert a + b == a;
    } else {
      var k := |b| - 1;
      ExecCat(w, a, b[..k], m);
      assert (a + b)[..|a| + k] == a + b[..k];
    }
  }

  // ---- the script basl emits

  /** strncmp finds no difference in the first four bytes. */
  predicate SameSignature(a: seq<byte>, b: seq<byte>)
    requires |a| >= 4 && |b| >= 4
  {
    a[..StrLen(a[..4])] == b[..StrLen(b[..4])]
  }

  /** Equal in all four bytes, or equal up to a zero byte in both. */
  lemma {:induction false} SameSignatureIs(a: seq<byte>, b: seq<byte>)
    requires |a| >= 4 && |b| >= 4
    ensures SameSignature(a, b) <==>
      a[..4] == b[..4] || exists k :: 0 <= k < 4 && a[..k] == b[..k] && a[k] == b[k] == 0
  {
    var x, y := StrLen(a[..4]), StrLen(b[..4]);
    if SameSignature(a, b) {
      assert |a[..x]| == |b[..y]|;
      if x < 4 { assert a[..4][x] == a[x] && b[..4][x] == b[x]; }
    }
    if a[..4] != b[..4] && exists k :: 0 <= k < 4 && a[..k] == b[..k] && a[k] == b[k] == 0 {
      var k :| 0 <= k < 4 && a[..k] == b[..k] && a[k] == b[k] == 0;
      assert a[..4][k] == 0 && b[..4][k] == 0;
      forall i | 0 <= i < k ensures a[..4][i] == b[..4][i] { assert a[..k][i] == b[..k][i]; }
      assert x == y && x <= k;
      assert a[..x] == a[..k][..x] && b[..x] == b[..k][..x];
    }
  }

  predicate AllFit(ts: seq<Table>) { forall i :: 0 <= i < |ts| ==> Fits(ts[i]) && |ts[i].data| >= 4 }

  /** The first table with the signature; |ts| when there is none. */
  function Find(ts: seq<Table>, sig: seq<byte>): (i: nat)
    requires AllFit(ts) && |sig| >= 4
    ensures i <= |ts|
    ensures i < |ts| ==> SameSignature(ts[i].data, sig)
    ensures forall j :: 0 <= j < i ==> !SameSignature(ts[j].data, sig)
  {
    if ts == [] || SameSignature(ts[0].data, sig) then 0 else 1 + Find(ts[1..], sig)
  }

  predicate Resolved(ts: seq<Table>, ps: seq<Pointer>)
    requires AllFit(ts)
  {
    forall k :: 0 <= k < |ps| ==> |ps[k].src| == 4 && Find(ts, ps[k].src) < |ts|
  }

  function Addresses(ts: seq<Table>, ps: seq<Pointer>): (addrs: seq<nat>)
    requires AllFit(ts) && Resolved(ts, ps)
    ensures |addrs| == |ps|
  {
    seq(|ps|, k requires 0 <= k < |ps| => BASE + ts[Find(ts, ps[k].src)].off)
  }

  /** A table after its pointers and then its checksums are patched. */
  function Patched(ts: seq<Table>, t: Table): (r: seq<byte>)
    requires AllFit(ts) && Resolved(ts, t.pointers) && Fits(t)
    ensures |r| == |t.data|
  {
    WithChecksums(WithPointers(t.data, t.pointers, Addresses(ts, t.pointers)), t.checksums)
  }

  /** Allocations are put in front, so they stand in reverse order. */
  function Allocs(ts: seq<Table>): (cs: seq<Command>)
    ensures |cs| == |ts|
  {
    if ts == [] then []
    else [Alloc(ts[|ts| - 1].name, ts[|ts| - 1].alignment)] + Allocs(ts[..|ts| - 1])
  }

  function PointerCommands(ts: seq<Table>, name: seq<byte>, ps: seq<Pointer>): (cs: seq<Command>)
    requires AllFit(ts) && Resolved(ts, ps)
    ensures |cs| == |ps|
  {
    seq(|ps|, k requires 0 <= k < |ps| => AddPointer(name, ts[Find(ts, ps[k].src)].name, ps[k].off, ps[k].size))
  }

  function ChecksumCommands(t: Table): (cs: seq<Command>)
    ensures |cs| == |t.checksums|
  {
    seq(|t.checksums|, k requires 0 <= k < |t.checksums| =>
      AddChecksum(t.name, t.checksums[k].off, t.checksums[k].start, RangeOf(t.checksums[k], |t.data|)))
  }

  /** The pointers of the first n tables all find their tables. */
  predicate Resolves(ts: seq<Table>, n: nat)
    requires AllFit(ts) && n <= |ts|
  {
    forall i :: 0 <= i < n ==> Resolved(ts, ts[i].pointers)
  }

  function Patches(ts: seq<Table>, n: nat): seq<Command>
    requires AllFit(ts) && n <= |ts| && Resolves(ts, n)
  {
    if n == 0 then []
    else Patches(ts, n - 1) + (PointerCommands(ts, ts[n - 1].name, ts[n - 1].pointers) + ChecksumCommands(ts[n - 1]))
  }

  function Script(ts: seq<Table>): seq<Command>
    requires AllFit(ts) && Resolves(ts, |ts|)
  {
    Allocs(ts) + Patches(ts, |ts|)
  }

  /** The script asks for every table by name with its alignment, the last first, before it patches any. */
  lemma {:induction false} AllocsAre(ts: seq<Table>, i: nat)
    requires i < |ts|
    ensures Allocs(ts)[|ts| - 1 - i] == Alloc(ts[i].name, ts[i].alignment)
    decreases |ts|
  {
    if i < |ts| - 1 { AllocsAre(ts[..|ts| - 1], i); }
  }

  // ---- running it

  /** The files are the tables, each put where basl put the table, under names of their own. */
  predicate Offers(w: World, ts: seq<Table>) {
    (forall i :: 0 <= i < |ts| ==> ts[i].name in w.files && w.files[ts[i].name] == ts[i].data) &&
    (forall i :: 0 <= i < |ts| ==> ts[i].name in w.place && w.place[ts[i].name] == BASE + ts[i].off)
  }

  predicate Distinct(ts: seq<Table>) {
    forall i, j :: 0 <= i < j < |ts| ==> ts[i].name != ts[j].name
  }

  predicate HasFiles(ts: seq<Table>, m: Loaded) {
    forall i :: 0 <= i < |ts| ==> ts[i].name in m
  }

  lemma {:induction false} ExecAlloc(w: World, t: Table, m: Loaded)
    requires t.name in w.files && w.files[t.name] == t.data
    ensures ExecAll(w, [Alloc(t.name, t.alignment)], m) == Some(m[t.name := t.data])
  {
    assert [Alloc(t.name, t.alignment)][..0] == [];
  }

  /** r holds every table's file, and besides them what m held. */
  ghost predicate Loads(ts: seq<Table>, m: Loaded, r: Loaded) {
    (forall i :: 0 <= i < |ts| ==> ts[i].name in r && r[ts[i].name] == ts[i].data) &&
    (forall x :: x in m && (forall i :: 0 <= i < |ts| ==> ts[i].name != x) ==> x in r && r[x] == m[x])
  }

  lemma {:induction false} LoadsLast(ts: seq<Table>, m: Loaded, r: Loaded)
    requires ts != [] && Distinct(ts)
    requires Loads(ts[..|ts| - 1], m[ts[|ts| - 1].name := ts[|ts| - 1].data], r)
    ensures Loads(ts, m, r)
  {
    var k := |ts| - 1;
    forall x | x in m && (forall i :: 0 <= i < |ts| ==> ts[i].name != x) ensures x in r && r[x] == m[x] {
      assert ts[k].name != x;
      assert x in m[ts[k].name := ts[k].data];
    }
  }

  lemma {:induction false} RunAllocs(w: World, ts: seq<Table>, m: Loaded)
    requires Offers(w, ts) && Distinct(ts)
    ensures ExecAll(w, Allocs(ts), m).Some? && Loads(ts, m, ExecAll(w, Allocs(ts), m).value)
    decreases |ts|
  {
    hide ExecAll, Exec;
    if ts == [] {
      NothingYet(w, m, Allocs(ts));
    } else {
      hide Loads;
      var k := |ts| - 1;
      var t := ts[k];
      ExecAlloc(w, t, m);
      ExecCat(w, [Alloc(t.name, t.alignment)], Allocs(ts[..k]), m);
      RunAllocs(w, ts[..k], m[t.name := t.data]);
      LoadsLast(ts, m, ExecAll(w, Allocs(ts), m).value);
    }
  }

  lemma {:induction false} ExecLast(w: World, cs: seq<Command>, m: Loaded)
    requires cs != [] && ExecAll(w, cs[..|cs| - 1], m).Some?
    ensures ExecAll(w, cs, m) == Exec(w, cs[|cs| - 1], ExecAll(w, cs[..|cs| - 1], m).value)
  {
    hide Exec;
  }

  lemma {:induction false} Again(m: Loaded, x: seq<byte>, d: seq<byte>, e: seq<byte>)
    ensures m[x := d][x := e] == m[x := e]
  {
  }

  lemma {:induction false} ExecPointer(w: World, ts: seq<Table>, name: seq<byte>, p: Pointer, m: Loaded, d: seq<byte>)
    requires AllFit(ts) && |p.src| == 4 && Find(ts, p.src) < |ts| && Offers(w, ts) && HasFiles(ts, m)
    requires p.off + p.size <= |d|
    ensures var s := ts[Find(ts, p.src)];
      Exec(w, AddPointer(name, s.name, p.off, p.size), m[name := d]) == Some(m[name := WithPointer(d, p, BASE + s.off)])
  {
    hide Find, AllFit, Over, Le, LeDec;
    var s := ts[Find(ts, p.src)];
    Again(m, name, d, WithPointer(d, p, BASE + s.off));
  }

  lemma {:induction false} RunPointers(w: World, ts: seq<Table>, name: seq<byte>, ps: seq<Pointer>, m: Loaded)
    requires AllFit(ts) && Resolved(ts, ps) && Offers(w, ts) && HasFiles(ts, m)
    requires name in m && PointersFit(ps, |m[name]|)
    ensures ExecAll(w, PointerCommands(ts, name, ps), m) ==
      Some(m[name := WithPointers(m[name], ps, Addresses(ts, ps))])
    decreases |ps|
  {
    hide AllFit, Find, Exec, Offers, HasFiles, WithPointers, WithPointer, ExecAll;
    var cs, addrs := PointerCommands(ts, name, ps), Addresses(ts, ps);
    if ps == [] {
      NoPointers(w, m, name, ps, addrs, cs);
    } else {
      var k := |ps| - 1;
      assert cs[..k] == PointerCommands(ts, name, ps[..k]);
      assert addrs[..k] == Addresses(ts, ps[..k]);
      RunPointers(w, ts, name, ps[..k], m);
      ExecLast(w, cs, m);
      LastPointer(m[name], ps, addrs);
      ExecPointer(w, ts, name, ps[k], m, WithPointers(m[name], ps[..k], addrs[..k]));
    }
  }

  lemma {:induction false} NoPointers(w: World, m: Loaded, name: seq<byte>, ps: seq<Pointer>, addrs: seq<nat>,
      cs: seq<Command>)
    requires name in m && ps == [] && addrs == [] && cs == []
    ensures ExecAll(w, cs, m) == Some(m[name := WithPointers(m[name], ps, addrs)])
  {
    assert m[name := m[name]] == m;
  }

  /** A checksum command does what basl does when the byte is still zero. */
  lemma {:induction false} ExecChecksum(w: World, name: seq<byte>, c: Checksum, m: Loaded, d: seq<byte>)
    requires ChecksumsFit([c], |d|) && d[c.off] == 0
    ensures Exec(w, AddChecksum(name, c.off, c.start, RangeOf(c, |d|)), m[name := d]) ==
      Some(m[name := WithChecksum(d, c)])
  {
    hide Total, Negated;
    assert c in [c];
    assert Over(d, c.off, [0]) == d;
    Again(m, name, d, WithChecksum(d, c));
  }

  lemma {:induction false} RunChecksums(w: World, t: Table, m: Loaded)
    requires t.name in m && |m[t.name]| == |t.data|
    requires ChecksumsFit(t.checksums, |t.data|) && ChecksumsLast(t.checksums, |t.data|)
    requires forall c :: c in t.checksums ==> m[t.name][c.off] == 0
    ensures ExecAll(w, ChecksumCommands(t), m) == Some(m[t.name := WithChecksums(m[t.name], t.checksums)])
    decreases |t.checksums|
  {
    hide Exec, ExecAll, WithChecksums, WithChecksum;
    var cs := t.checksums;
    if cs == [] {
      NoChecksums(w, m, t, ChecksumCommands(t));
    } else {
      var k := |cs| - 1;
      var u := t.(checksums := cs[..k]);
      assert ChecksumCommands(t)[..k] == ChecksumCommands(u);
      RunChecksums(w, u, m);
      ExecLast(w, ChecksumCommands(t), m);
      ZeroStill(m[t.name], cs);
      LastChecksum(m[t.name], cs);
      ExecChecksum(w, t.name, cs[k], m, WithChecksums(m[t.name], cs[..k]));
    }
  }

  lemma {:induction false} NoChecksums(w: World, m: Loaded, t: Table, cs: seq<Command>)
    requires t.name in m && t.checksums == [] && cs == []
    ensures ExecAll(w, cs, m) == Some(m[t.name := WithChecksums(m[t.name], t.checksums)])
  {
    assert m[t.name := m[t.name]] == m;
  }

  /** A table, lengths filled in, whose checksum bytes are zero and stay so until they are summed. */
  predicate Ready(t: Table) {
    Fits(t) && ChecksumsLast(t.checksums, |t.data|) &&
    (forall c :: c in t.checksums ==> t.data[c.off] == 0 && PointersApart(t.pointers, c.off, 1))
  }

  lemma {:induction false} RunTable(w: World, ts: seq<Table>, t: Table, m: Loaded)
    requires AllFit(ts) && Resolved(ts, t.pointers) && Offers(w, ts) && HasFiles(ts, m) && Ready(t)
    requires t.name in m && m[t.name] == t.data
    ensures ExecAll(w, PointerCommands(ts, t.name, t.pointers) + ChecksumCommands(t), m) ==
      Some(m[t.name := Patched(ts, t)])
  {
    hide ExecAll, Exec, AllFit, Offers, HasFiles, WithPointers, WithChecksums, ChecksumsLast;
    var addrs := Addresses(ts, t.pointers);
    var d := WithPointers(t.data, t.pointers, addrs);
    RunPointers(w, ts, t.name, t.pointers, m);
    forall c | c in t.checksums ensures d[c.off] == 0 {
      PointersKeep(t.data, t.pointers, addrs, c.off, 1);
      SameByte(d, t.data, c.off);
    }
    RunChecksums(w, t, m[t.name := d]);
    ExecCat(w, PointerCommands(ts, t.name, t.pointers), ChecksumCommands(t), m);
    Again(m, t.name, d, Patched(ts, t));
  }

  ghost predicate Stage(ts: seq<Table>, n: nat, m: Loaded)
    requires AllFit(ts) && Resolves(ts, |ts|)
  {
    HasFiles(ts, m) && forall i :: 0 <= i < |ts| ==> m[ts[i].name] == if i < n then Patched(ts, ts[i]) else ts[i].data
  }

  lemma {:induction false} NothingYet(w: World, m: Loaded, cs: seq<Command>)
    requires cs == []
    ensures ExecAll(w, cs, m) == Some(m)
  {
  }

  lemma {:induction false} StageNext(ts: seq<Table>, n: nat, m: Loaded)
    requires AllFit(ts) && Resolves(ts, |ts|) && Distinct(ts) && n < |ts| && Stage(ts, n, m)
    ensures Stage(ts, n + 1, m[ts[n].name := Patched(ts, ts[n])])
  {
    hide AllFit, Resolves, Patched;
  }

  lemma {:induction false} RunPatches(w: World, ts: seq<Table>, n: nat, m: Loaded)
    requires AllFit(ts) && Resolves(ts, |ts|) && Offers(w, ts) && Distinct(ts) && n <= |ts| && Stage(ts, 0, m)
    requires forall i :: 0 <= i < |ts| ==> Ready(ts[i])
    ensures var r := ExecAll(w, Patches(ts, n), m);
      r.Some? && Stage(ts, n, r.value)
  {
    hide ExecAll, Exec, AllFit, Offers, Patched, PointerCommands, ChecksumCommands;
    if n == 0 {
      NothingYet(w, m, Patches(ts, n));
    } else {
      RunPatches(w, ts, n - 1, m);
      var t, b := ts[n - 1], ExecAll(w, Patches(ts, n - 1), m).value;
      assert HasFiles(ts, b) && b[t.name] == t.data;
      RunTable(w, ts, t, b);
      StageNext(ts, n - 1, b);
      ExecCat(w, Patches(ts, n - 1), PointerCommands(ts, t.name, t.pointers) + ChecksumCommands(t), m);
    }
  }

  /** Running the script on the offered files gives every table as linking in place gives it. */
  lemma {:induction false} ScriptLinks(w: World, ts: seq<Table>)
    requires AllFit(ts) && Resolves(ts, |ts|) && Offers(w, ts) && Distinct(ts)
    requires forall i :: 0 <= i < |ts| ==> Ready(ts[i])
    ensures var r := ExecAll(w, Script(ts), map[]);
      r.Some? && forall i :: 0 <= i < |ts| ==> ts[i].name in r.value && r.value[ts[i].name] == Patched(ts, ts[i])
  {
    RunAllocs(w, ts, map[]);
    var m := ExecAll(w, Allocs(ts), map[]).value;
    RunPatches(w, ts, |ts|, m);
    ExecCat(w, Allocs(ts), Patches(ts, |ts|), map[]);
  }

  /**
   * The pass in memory writes the checksum byte start bytes further on than the script's command does.
   * With the byte still zero, the two agree exactly when start is zero, or when there is nothing to cancel
   * and the other byte is zero too.
   */
  lemma {:induction false} ChecksumPlaces(d: seq<byte>, c: Checksum)
    requires c.start + c.off < |d| && c.start + RangeOf(c, |d|) <= |d| && d[c.off] == 0
    ensures var len := RangeOf(c, |d|);
      Over(d, c.off, [ZeroSum(d, c.off, c.start, len)]) == WithChecksum(d, c) <==>
      c.start == 0 || (Total(d[c.start..c.start + len]) % 256 == 0 && d[c.start + c.off] == 0)
  {
    hide Total, Over;
    var len := RangeOf(c, |d|);
    OverNothing(d, c.off);
    var z := Negated(Total(d[c.start..c.start + len]));
    assert z == 0 <==> Total(d[c.start..c.start + len]) % 256 == 0;
    if c.start != 0 { TwoPlaces(d, c.off, c.start + c.off, z); }
  }

  /** A range from byte 1: memory gets the checksum in byte 1, the script puts it in byte 0. */
  lemma {:induction false} ChecksumElsewhere()
    ensures var d, c: Checksum := [0, 7, 0], Checksum(0, 1, 1);
      Over(d, c.off, [ZeroSum(d, c.off, c.start, 1)]) != WithChecksum(d, c)
  {
    var d, c := [0, 7, 0], Checksum(0, 1, 1);
    assert d[1..2] == [7] && [7][1..] == [];
    assert Total([7]) == 7;
    ChecksumPlaces(d, c);
  }

  lemma {:induction false} OverNothing(d: seq<byte>, x: nat)
    requires x < |d| && d[x] == 0
    ensures Over(d, x, [0]) == d
  {
  }

  lemma {:induction false} TwoPlaces(d: seq<byte>, x: nat, y: nat, z: byte)
    requires x < y < |d| && d[x] == 0
    ensures Over(d, x, [z]) == Over(d, y, [z]) <==> z == 0 && d[y] == 0
  {
    var a, b := Over(d, x, [z]), Over(d, y, [z]);
    assert a[x] == z && b[x] == 0 && a[y] == d[y] && b[y] == z;
    if z == 0 && d[y] == 0 { assert a == d == b; }
  }
}

/** A whole machine's tables: the root tables, the root pointer, any tables besides, and finishing them. */
module BaslMachine {
  import opened Bytes
  import opened Acpi
  import opened AcpiScript
  import opened AcpiBuild
  import opened BaslLayout
  import opened BaslRoot
  import opened Basl

  /** A table with the common header, appended to piece by piece and listed; or one loaded as it is. */
  datatype Recipe =
    | Listed(sig: seq<byte>, revision: byte, oemRevision: nat, body: seq<seq<byte>>)
    | Loose(name: seq<byte>, alignment: nat, bytes: seq<byte>)

  predicate RecipeOk(r: Recipe) {
    match r
    case Listed(sig, _, oemRevision, body) =>
      |sig| == 4 && NoNul(sig) && oemRevision < U32 && forall k :: 0 <= k < |body| ==> |body[k]| < U32
    case Loose(_, alignment, bytes) => PowerOfTwo(alignment) && alignment <= BASE && 4 <= |bytes| < U32
  }

  predicate RecipesOk(rs: seq<Recipe>) { forall j :: 0 <= j < |rs| ==> RecipeOk(rs[j]) }

  function Joined(body: seq<seq<byte>>): seq<byte> {
    if body == [] then [] else Joined(body[..|body| - 1]) + body[|body| - 1]
  }

  function TableOf(r: Recipe): Table
    requires RecipeOk(r)
  {
    match r
    case Listed(sig, revision, oemRevision, body) => Grown(Headed(NewTable(sig, 16), sig, revision, oemRevision), Joined(body))
    case Loose(name, alignment, bytes) => Grown(NewTable(name, alignment), bytes)
  }

  /** Every piece can be appended: none is empty, and the length does not wrap. */
  predicate Buildable(r: Recipe) {
    r.Listed? ==> (forall k :: 0 <= k < |r.body| ==> r.body[k] != []) && 36 + |Joined(r.body)| < U32
  }

  /** The numbers of the listed tables; the first recipe makes table number n. */
  function Listing(rs: seq<Recipe>): seq<nat> {
    if rs == [] then []
    else
      var k := |rs| - 1;
      Listing(rs[..k]) + if rs[k].Listed? then [3 + k] else []
  }

  /** All tables can be built and listed. */
  predicate Fit(rs: seq<Recipe>) {
    (forall j :: 0 <= j < |rs| ==> Buildable(rs[j])) && 36 + 8 * |Listing(rs)| < U32
  }

  /** The tables before finishing: the two root tables, the root pointer, then one for each recipe. */
  ghost predicate Built(ts: seq<Table>, rs: seq<Recipe>) {
    RecipesOk(rs) && |ts| == 3 + |rs| && AllSound(ts) && Rooted(ts, Listing(rs)) &&
    ts[2] == Rsdp(NewTable(RSDP_NAME, 16)) &&
    forall j :: 0 <= j < |rs| ==> ts[3 + j] == TableOf(rs[j])
  }

  // ---- building

  /** A table more at the end leaves the root tables in step. */
  lemma {:induction false} RootedAdded(ts: seq<Table>, regs: seq<nat>, t: Table)
    requires Rooted(ts, regs) && AllSound(ts) && Sound(t)
    ensures Rooted(ts + [t], regs) && AllSound(ts + [t])
  {
    hide Sound;
    RootedKept(ts, ts + [t], regs);
  }

  lemma {:induction false} ShorterBody(body: seq<seq<byte>>, k: nat)
    requires k <= |body|
    ensures |Joined(body[..k])| <= |Joined(body)|
    decreases |body|
  {
    if k == |body| {
      assert body[..k] == body;
    } else {
      ShorterBody(body[..|body| - 1], k);
      assert body[..|body| - 1][..k] == body[..k];
    }
  }

  lemma {:induction false} JoinedNext(body: seq<seq<byte>>, k: nat)
    requires k < |body|
    ensures Joined(body[..k + 1]) == Joined(body[..k]) + body[k]
  {
    assert body[..k + 1][..k] == body[..k];
  }

  lemma {:induction false} GrownMore(t: Table, body: seq<seq<byte>>, k: nat)
    requires k < |body|
    ensures Grown(Grown(t, Joined(body[..k])), body[k]) == Grown(t, Joined(body[..k + 1]))
  {
    assert body[..k + 1][..k] == body[..k];
    Assoc(t.data, Joined(body[..k]), body[k]);
  }

  /** Appends the pieces one by one. */
  method AppendAll(l: Linker, i: nat, body: seq<seq<byte>>) returns (ok: bool)
    requires i < |l.tables| && |l.tables[i].data| < U32 && forall k :: 0 <= k < |body| ==> |body[k]| < U32
    modifies l`tables
    ensures ok <==> (forall k :: 0 <= k < |body| ==> body[k] != []) && |old(l.tables[i]).data| + |Joined(body)| < U32
    ensures ok ==> l.tables == old(l.tables)[i := Grown(old(l.tables[i]), Joined(body))]
  {
    ghost var t := l.tables[i];
    assert Grown(t, Joined(body[..0])) == t;
    for k := 0 to |body|
      invariant |l.tables| == old(|l.tables|) && l.tables == old(l.tables)[i := Grown(t, Joined(body[..k]))]
      invariant |t.data| + |Joined(body[..k])| < U32 && forall j :: 0 <= j < k ==> body[j] != []
    {
      GrownMore(t, body, k);
      ShorterBody(body, k + 1);
      JoinedNext(body, k);
      ok := l.AppendBytes(i, body[k]);
      if !ok { return; }
    }
    assert body[..|body|] == body;
    ok := true;
  }

  lemma {:induction false} SoundListed(r: Recipe)
    requires RecipeOk(r) && r.Listed? && Buildable(r)
    ensures Sound(TableOf(r)) && |TableOf(r).data| == 36 + |Joined(r.body)| && TableOf(r).data[..4] == r.sig
    ensures TableOf(r).lengths == [LengthField(4, 4)] && TableOf(r).pointers == []
    ensures TableOf(r).checksums == [Checksum(9, 0, FULL)]
    ensures TableOf(r).data == HeaderBytes(r.sig, r.revision, r.oemRevision) + Joined(r.body)
  {
    hide Sound, HeaderBytes, FileName;
    assert PowerOfTwo(16);
    var t := Headed(NewTable(r.sig, 16), r.sig, r.revision, r.oemRevision);
    SoundHeaded(NewTable(r.sig, 16), r.sig, r.revision, r.oemRevision);
    assert [] + HeaderBytes(r.sig, r.revision, r.oemRevision) == HeaderBytes(r.sig, r.revision, r.oemRevision);
    SoundGrown(t, Joined(r.body));
  }

  lemma {:induction false} SoundLoose(r: Recipe)
    requires RecipeOk(r) && r.Loose?
    ensures Sound(TableOf(r)) && TableOf(r).data == r.bytes && TableOf(r).lengths == [] && TableOf(r).pointers == []
    ensures TableOf(r).checksums == []
  {
    hide FileName, PowerOfTwo;
    assert [] + r.bytes == r.bytes;
  }

  /** Builds a listed table: create, header, pieces, register. */
  method BuildListed(l: Linker, r: Recipe, ghost regs: seq<nat>) returns (ok: bool)
    requires RecipeOk(r) && r.Listed? && Rooted(l.tables, regs) && AllSound(l.tables) && |l.tables| >= 3
    modifies l`tables
    ensures ok <==> Buildable(r) && 36 + 8 * (|regs| + 1) < U32
    ensures ok ==> |l.tables| == old(|l.tables|) + 1 && Rooted(l.tables, regs + [old(|l.tables|)]) && AllSound(l.tables)
    ensures ok ==> l.tables[old(|l.tables|)] == TableOf(r) && forall j :: 2 <= j < old(|l.tables|) ==>
      l.tables[j] == old(l.tables)[j]
  {
    RootSizes(l.tables, regs);
    hide Sound, Rooted, HeaderBytes, Headed, FileName, Joined, Grown;
    ghost var ts := l.tables;
    assert PowerOfTwo(16);
    var i := l.Create(r.sig, 16);
    l.AppendHeader(i, r.sig, r.revision, r.oemRevision);
    HeadedSize(NewTable(r.sig, 16), r.sig, r.revision, r.oemRevision);
    ok := AppendAll(l, i, r.body);
    if !ok { return; }
    SoundListed(r);
    assert l.tables == ts + [TableOf(r)];
    RootedAdded(ts, regs, TableOf(r));
    ok := l.RegisterToRsdt(i, regs);
  }

  lemma {:induction false} RootSizes(ts: seq<Table>, regs: seq<nat>)
    requires Rooted(ts, regs)
    ensures |ts| >= 2 && |ts[0].data| == 36 + 4 * |regs| && |ts[1].data| == 36 + 8 * |regs|
    ensures forall i, p :: 0 <= i < 2 && p in ts[i].pointers ==> p.off >= 36
  {
  }

  lemma {:induction false} HeadedSize(t: Table, sig: seq<byte>, revision: byte, oemRevision: nat)
    requires |sig| == 4 && t.data == []
    ensures |Headed(t, sig, revision, oemRevision).data| == 36
  {
    hide HeaderBytes;
  }

  method BuildLoose(l: Linker, r: Recipe, ghost regs: seq<nat>)
    requires RecipeOk(r) && r.Loose? && Rooted(l.tables, regs) && AllSound(l.tables)
    modifies l`tables
    ensures l.tables == old(l.tables) + [TableOf(r)] && Rooted(l.tables, regs) && AllSound(l.tables)
  {
    hide Sound, Rooted, FileName;
    ghost var ts := l.tables;
    var i := l.Create(r.name, r.alignment);
    var ok := l.AppendBytes(i, r.bytes);
    assert l.tables == ts + [TableOf(r)];
    SoundLoose(r);
    RootedAdded(ts, regs, TableOf(r));
  }

  lemma {:induction false} FitPrefix(rs: seq<Recipe>, k: nat)
    requires k <= |rs|
    ensures |Listing(rs[..k])| <= |Listing(rs)|
    decreases |rs|
  {
    if k == |rs| {
      assert rs[..k] == rs;
    } else {
      FitPrefix(rs[..|rs| - 1], k);
      assert rs[..|rs| - 1][..k] == rs[..k];
    }
  }

  lemma {:induction false} ListingNext(rs: seq<Recipe>, k: nat)
    requires k < |rs|
    ensures Listing(rs[..k + 1]) == Listing(rs[..k]) + if rs[k].Listed? then [3 + k] else []
  {
    assert rs[..k + 1][..k] == rs[..k];
  }

  /** One recipe more. */
  lemma {:induction false} BuiltNext(ts: seq<Table>, us: seq<Table>, rs: seq<Recipe>, k: nat)
    requires RecipesOk(rs) && k < |rs| && Built(ts, rs[..k])
    requires |us| == |ts| + 1 && AllSound(us) && Rooted(us, Listing(rs[..k + 1])) && us[3 + k] == TableOf(rs[k])
    requires forall j :: 2 <= j < |ts| ==> us[j] == ts[j]
    ensures Built(us, rs[..k + 1])
  {
    hide AllSound, Rooted, TableOf, Listing, RecipeOk;
    assert forall j :: 0 <= j <= k ==> rs[..k + 1][j] == rs[j];
    assert forall j :: 0 <= j < k ==> rs[..k][j] == rs[j];
  }

  /** All tables of the machine, in the order they are made. */
  method BuildAll(ram: array<byte>, rs: seq<Recipe>) returns (l: Linker, ok: bool)
    requires RecipesOk(rs)
    ensures fresh(l) && l.ram == ram && l.script == []
    ensures ok <==> Fit(rs)
    ensures ok ==> Built(l.tables, rs)
  {
    hide Sound, Rooted, RecipeOk, Buildable, TableOf, Listing, Rsdp;
    l := new Linker(ram);
    ghost var ts := l.tables;
    var i := l.BuildRsdp();
    RootedAdded(ts, [], l.tables[2]);
    NoListing(rs[..0]);
    for k := 0 to |rs|
      invariant fresh(l) && l.ram == ram && l.script == [] && Built(l.tables, rs[..k])
      invariant (forall j :: 0 <= j < k ==> Buildable(rs[j])) && 36 + 8 * |Listing(rs[..k])| < U32
    {
      ghost var before, regs := l.tables, Listing(rs[..k]);
      assert RecipeOk(rs[k]);
      ListingNext(rs, k);
      FitPrefix(rs, k + 1);
      if rs[k].Listed? {
        ok := BuildListed(l, rs[k], regs);
        if !ok { return; }
      } else {
        LooseBuildable(rs[k]);
        assert Listing(rs[..k + 1]) == regs;
        BuildLoose(l, rs[k], regs);
      }
      BuiltNext(before, l.tables, rs, k);
    }
    assert rs[..|rs|] == rs;
    ok := true;
  }

  lemma {:induction false} NoListing(rs: seq<Recipe>)
    requires rs == []
    ensures Listing(rs) == []
  {
  }

  lemma {:induction false} LooseBuildable(r: Recipe)
    requires r.Loose?
    ensures Buildable(r)
  {
  }

  // ---- every pointer finds its table

  /** Filling in lengths leaves the signature. */
  lemma {:induction false} SignatureSafe(ts: seq<Table>, rs: seq<Recipe>, j: nat)
    requires Fit(rs) && Built(ts, rs) && j < |ts|
    ensures |ts[j].data| >= 4 && LengthsApart(ts[j].lengths, 0, 4) && Named(ts[j].pointers)
  {
    hide AllSound, TableOf, Listing, Rsdp, Buildable, RecipeOk;
    if j < 2 {
      RootNamed(ts, Listing(rs), j);
    } else if j == 2 {
      assert PowerOfTwo(16);
      RsdpShape(NewTable(RSDP_NAME, 16));
    } else {
      var r := rs[j - 3];
      assert ts[3 + (j - 3)] == TableOf(r) && RecipeOk(r) && Buildable(r);
      RecipeShape(r);
    }
  }

  lemma {:induction false} RecipeShape(r: Recipe)
    requires RecipeOk(r) && Buildable(r)
    ensures |TableOf(r).data| >= 4 && LengthsApart(TableOf(r).lengths, 0, 4) && TableOf(r).pointers == []
  {
    hide TableOf, Buildable, Joined, Sound;
    if r.Listed? { SoundListed(r); } else { SoundLoose(r); }
  }

  lemma {:induction false} RootNamed(ts: seq<Table>, regs: seq<nat>, j: nat)
    requires Rooted(ts, regs) && j < 2
    ensures |ts[j].data| >= 4 && LengthsApart(ts[j].lengths, 0, 4) && Named(ts[j].pointers)
  {
  }

  lemma {:induction false} BuiltWellformed(ts: seq<Table>, rs: seq<Recipe>)
    requires Fit(rs) && Built(ts, rs)
    ensures Wellformed(ts)
  {
    hide Rooted, TableOf, Listing, Rsdp, Fit, Fits, Named;
    forall i | 0 <= i < |ts| ensures Fits(ts[i]) && |ts[i].data| >= 4 && Named(ts[i].pointers) {
      SignatureSafe(ts, rs, i);
      assert Sound(ts[i]);
    }
  }

  /** A signature that some table has is found. */
  lemma {:induction false} FoundBy(ts: seq<Table>, sig: seq<byte>, j: nat)
    requires AllFit(ts) && j < |ts| && |sig| == 4 && ts[j].data[..4] == sig
    ensures Find(ts, sig) <= j
  {
    hide Find;
    assert sig[..4] == sig;
    assert SameSignature(ts[j].data, sig);
  }

  lemma {:induction false} BuiltResolves(ts: seq<Table>, rs: seq<Recipe>)
    requires Fit(rs) && Built(ts, rs) && Wellformed(ts) && AllFit(Final(ts))
    ensures Resolves(Final(ts), |ts|)
  {
    hide Wellformed, AllFit, Resolved, Built, Fit, Final;
    forall i | 0 <= i < |ts| ensures Resolved(Final(ts), Final(ts)[i].pointers) {
      FinalPointers(ts, i);
      TableResolves(ts, rs, i);
    }
  }

  lemma {:induction false} FinalPointers(ts: seq<Table>, i: nat)
    requires Wellformed(ts) && i < |ts|
    ensures Final(ts)[i].pointers == ts[i].pointers
  {
  }

  lemma {:induction false} TableResolves(ts: seq<Table>, rs: seq<Recipe>, i: nat)
    requires Fit(rs) && Built(ts, rs) && Wellformed(ts) && AllFit(Final(ts)) && i < |ts|
    ensures Resolved(Final(ts), ts[i].pointers)
  {
    hide Wellformed, AllFit, Find, Final, TableOf, Listing, Rsdp, Fit, RecipeOk, AllSound, Buildable;
    SignatureSafe(ts, rs, i);
    if i < 2 {
      RootResolves(ts, rs, i);
    } else if i == 2 {
      assert PowerOfTwo(16);
      RsdpShape(NewTable(RSDP_NAME, 16));
      Findable(ts, rs, 0);
      Findable(ts, rs, 1);
    } else {
      var r := rs[i - 3];
      assert ts[3 + (i - 3)] == TableOf(r) && RecipeOk(r) && Buildable(r) by { OneBuildable(rs, i - 3); }
      RecipeShape(r);
    }
  }

  lemma {:induction false} OneBuildable(rs: seq<Recipe>, j: nat)
    requires RecipesOk(rs) && Fit(rs) && j < |rs|
    ensures RecipeOk(rs[j]) && Buildable(rs[j])
  {
  }

  lemma {:induction false} Findable(ts: seq<Table>, rs: seq<Recipe>, j: nat)
    requires Fit(rs) && Built(ts, rs) && Wellformed(ts) && AllFit(Final(ts)) && j < |ts|
    ensures |ts[j].data| >= 4 && Find(Final(ts), ts[j].data[..4]) <= j
  {
    hide Wellformed, AllFit, Find, Final, Built, Fit;
    SignatureSafe(ts, rs, j);
    SignatureKept(ts, j);
    FoundBy(Final(ts), ts[j].data[..4], j);
  }

  lemma {:induction false} RootResolves(ts: seq<Table>, rs: seq<Recipe>, i: nat)
    requires Fit(rs) && Built(ts, rs) && Wellformed(ts) && AllFit(Final(ts)) && i < 2
    ensures Resolved(Final(ts), ts[i].pointers)
  {
    hide Wellformed, AllFit, Find, Final, TableOf, Listing, Rsdp, Fit, RecipeOk, AllSound, Buildable, Rooted;
    var regs := Listing(rs);
    RootRegs(ts, regs, i);
    forall k | 0 <= k < |ts[i].pointers|
      ensures |ts[i].pointers[k].src| == 4 && Find(Final(ts), ts[i].pointers[k].src) < |Final(ts)|
    {
      RootPointers(ts, regs, k);
      Findable(ts, rs, regs[k]);
    }
  }

  lemma {:induction false} RootRegs(ts: seq<Table>, regs: seq<nat>, i: nat)
    requires Rooted(ts, regs) && i < 2
    ensures |ts[i].pointers| == |regs| && Registered(ts, regs)
  {
  }

  // ---- room

  /** Bytes that surely suffice for the first n tables. */
  function Room(ts: seq<Table>, n: nat): nat
    requires n <= |ts|
  {
    if n == 0 then 0 else Room(ts, n - 1) + ts[n - 1].alignment + |ts[n - 1].data|
  }

  lemma {:induction false} RoomGrows(ts: seq<Table>, i: nat, n: nat)
    requires i <= n <= |ts|
    ensures Room(ts, i) <= Room(ts, n)
    decreases n
  {
    if i < n { RoomGrows(ts, i, n - 1); }
  }

  lemma {:induction false} EndWithin(ts: seq<Table>, n: nat)
    requires Aligned(ts) && n <= |ts| && BASE + Room(ts, n) <= U32
    ensures EndOf(ts, n) <= Room(ts, n)
    ensures n > 0 ==> EndOf(ts, n) == OffsetOf(ts, n - 1) + |ts[n - 1].data|
  {
    hide RoundUp;
    if n > 0 {
      EndWithin(ts, n - 1);
      RoundUpIs(EndOf(ts, n - 1), ts[n - 1].alignment);
    }
  }

  lemma {:induction false} RoomPlaces(ts: seq<Table>, limit: nat, i: nat)
    requires Aligned(ts) && i < |ts| && ts[i].data != [] && BASE + Room(ts, |ts|) <= limit <= U32
    ensures Placeable(ts, i, true, limit)
  {
    hide OffsetOf, EndOf;
    RoomGrows(ts, i + 1, |ts|);
    EndWithin(ts, i + 1);
  }

  lemma {:induction false} RoomEnough(ts: seq<Table>, rs: seq<Recipe>, limit: nat)
    requires Fit(rs) && Built(ts, rs) && Wellformed(ts) && BASE + Room(ts, |ts|) <= limit <= U32
    ensures forall i :: 0 <= i < |ts| ==> Placeable(ts, i, true, limit)
  {
    hide Placeable, Built, Fit, Wellformed;
    forall i | 0 <= i < |ts| ensures Placeable(ts, i, true, limit) {
      SignatureSafe(ts, rs, i);
      RoomPlaces(ts, limit, i);
    }
  }

  // ---- what stands in memory

  /**
   * Entry k of both root tables holds one address: that of the first table with the signature of table j, which is
   * table j itself exactly when no table made before has the signature.
   */
  ghost predicate Entered(ts: seq<Table>, m1: seq<byte>, k: nat, j: nat) {
    j < |ts| && |ts[j].data| >= 4 && Wellformed(ts) &&
    exists addr :: Holds(ts, 0, 36 + 4 * k, 4, m1, addr) && Holds(ts, 1, 36 + 8 * k, 8, m1, addr) &&
      FirstAt(ts, ts[j].data[..4], addr) && (addr == BASE + Final(ts)[j].off <==> Unlike(Final(ts), j))
  }

  /** No table before j has its signature. */
  predicate Unlike(ts: seq<Table>, j: nat) {
    j < |ts| && (forall i :: 0 <= i <= j ==> |ts[i].data| >= 4) &&
    forall i :: 0 <= i < j ==> !SameSignature(ts[i].data, ts[j].data)
  }

  /**
   * Table 2 is "RSD PTR " of revision 2 with its length, a root pointer whose two ranges sum to zero and
   * which leads to tables 0 and 1.
   */
  ghost predicate RootReached(ts: seq<Table>, m1: seq<byte>) {
    Wellformed(ts) && |ts| > 2 && BASE + Final(ts)[2].off + |Final(ts)[2].data| <= |m1| &&
    |InMemory(ts, 2, m1)| == 36 && InMemory(ts, 2, m1)[0..8] == [0x52, 0x53, 0x44, 0x20, 0x50, 0x54, 0x52, 0x20] &&
    InMemory(ts, 2, m1)[9..16] == [0x42, 0x48, 0x59, 0x56, 0x45, 0x20, 2] && InMemory(ts, 2, m1)[20..24] == Le(36, 4) &&
    Total(InMemory(ts, 2, m1)[..20]) % 256 == 0 && Total(InMemory(ts, 2, m1)[..36]) % 256 == 0 &&
    Holds(ts, 2, 16, 4, m1, BASE + Final(ts)[0].off) && Holds(ts, 2, 24, 8, m1, BASE + Final(ts)[1].off)
  }

  /** Table i lies in memory. */
  ghost predicate Lies(ts: seq<Table>, i: nat, m1: seq<byte>) {
    Wellformed(ts) && i < |ts| && BASE + Final(ts)[i].off + |Final(ts)[i].data| <= |m1|
  }

  /** The common header stands in memory: signature and length, and all bytes of the table sum to zero. */
  ghost predicate Standing(ts: seq<Table>, i: nat, m1: seq<byte>, sig: seq<byte>, size: nat) {
    && Lies(ts, i, m1) && size >= 36
    && var d := InMemory(ts, i, m1);
       |d| == size && d[..4] == sig && d[4..8] == Le(size, 4) && Total(d) % 256 == 0
  }

  /** What the recipe asks for stands in memory, byte for byte but for the length and the checksum. */
  ghost predicate Delivered(ts: seq<Table>, i: nat, m1: seq<byte>, r: Recipe) {
    match r
    case Listed(sig, revision, oemRevision, body) =>
      && Standing(ts, i, m1, sig, 36 + |Joined(body)|)
      && var d := InMemory(ts, i, m1);
         d[8] == revision && d[10..36] == Maker(sig, oemRevision) && d[36..] == Joined(body)
    case Loose(_, _, bytes) => Lies(ts, i, m1) && InMemory(ts, i, m1) == bytes
  }

  /** "BHYVE ", "BV" and the signature, the revision, "BASL", 0x20220504 */
  function Maker(sig: seq<byte>, oemRevision: nat): seq<byte> {
    [0x42, 0x48, 0x59, 0x56, 0x45, 0x20] + ([0x42, 0x56] + sig + [0x20, 0]) + Le(oemRevision, 4) +
    [0x42, 0x41, 0x53, 0x4c, 0x04, 0x05, 0x22, 0x20]
  }

  lemma {:induction false} HeaderParts(sig: seq<byte>, revision: byte, oemRevision: nat)
    requires |sig| == 4
    ensures var h := HeaderBytes(sig, revision, oemRevision);
      h[..4] == sig && h[8] == revision && h[10..36] == Maker(sig, oemRevision)
  {
    hide Le;
    CompilerBytes();
  }

  lemma {:induction false} CompilerBytes()
    ensures Le(0x2022_0504, 4) == [4, 5, 0x22, 0x20]
  {
    assert Le(0x20, 1) == [0x20];
    assert Le(0x2022, 2) == [0x22, 0x20];
    assert Le(0x20_2205, 3) == [5, 0x22, 0x20];
  }

  lemma {:induction false} ListedIn(ts: seq<Table>, i: nat, r: Recipe, m: seq<byte>, m1: seq<byte>, end: nat)
    requires Done(ts, m, m1, end) && i < |ts| && RecipeOk(r) && r.Listed? && Buildable(r) && ts[i] == TableOf(r)
    ensures Delivered(ts, i, m1, r)
  {
    hide Done, Total, InMemory, Le, TableOf, HeaderBytes, Joined, Final, Wellformed, Buildable, Maker;
    SoundListed(r);
    DoneIs(ts, m, m1, end);
    HeaderInMemory(ts, i, m, m1, end);
    HeaderParts(r.sig, r.revision, r.oemRevision);
    var n, d, t := |Joined(r.body)|, InMemory(ts, i, m1), ts[i].data;
    BytesInMemory(ts, i, 0, 4, m, m1, end);
    BytesInMemory(ts, i, 8, 1, m, m1, end);
    BytesInMemory(ts, i, 10, 26, m, m1, end);
    BytesInMemory(ts, i, 36, n, m, m1, end);
    assert d[8..9] == t[8..9] && d[8] == d[8..9][0];
    assert d[36..] == d[36..36 + n];
  }

  lemma {:induction false} LooseIn(ts: seq<Table>, i: nat, r: Recipe, m: seq<byte>, m1: seq<byte>, end: nat)
    requires Done(ts, m, m1, end) && i < |ts| && RecipeOk(r) && r.Loose? && ts[i] == TableOf(r)
    ensures Delivered(ts, i, m1, r)
  {
    hide Done, InMemory, TableOf, Final, Wellformed;
    SoundLoose(r);
    DoneIs(ts, m, m1, end);
    BytesInMemory(ts, i, 0, |r.bytes|, m, m1, end);
    MemorySize(ts, i, m1);
    FinalSize(ts, i);
    var d := InMemory(ts, i, m1);
    assert d[0..|d|] == d && r.bytes[0..|r.bytes|] == r.bytes;
  }

  lemma {:induction false} FinalSize(ts: seq<Table>, i: nat)
    requires Wellformed(ts) && i < |ts|
    ensures |Final(ts)[i].data| == |ts[i].data|
  {
    FinalAt(ts, i);
  }

  /** Everything the recipes ask for, and the two root tables. */
  lemma {:induction false} AllDelivered(ts: seq<Table>, rs: seq<Recipe>, m: seq<byte>, m1: seq<byte>, end: nat)
    requires Fit(rs) && Built(ts, rs) && Done(ts, m, m1, end)
    ensures Standing(ts, 0, m1, RSDT, 36 + 4 * |Listing(rs)|) && Standing(ts, 1, m1, XSDT, 36 + 8 * |Listing(rs)|)
    ensures forall j :: 0 <= j < |rs| ==> Delivered(ts, 3 + j, m1, rs[j])
  {
    hide Done, Total, InMemory, Le, TableOf, Listing, Rsdp, Fit, Final, Wellformed, Buildable, RecipeOk, AllSound,
        Delivered, RsdtLists, XsdtLists, Registered;
    DoneIs(ts, m, m1, end);
    RootSizes(ts, Listing(rs));
    RootStands(ts, 0, RSDT, m, m1, end);
    RootStands(ts, 1, XSDT, m, m1, end);
    forall j | 0 <= j < |rs| ensures Delivered(ts, 3 + j, m1, rs[j]) {
      OneBuildable(rs, j);
      if rs[j].Listed? {
        ListedIn(ts, 3 + j, rs[j], m, m1, end);
      } else {
        LooseIn(ts, 3 + j, rs[j], m, m1, end);
      }
    }
  }

  lemma {:induction false} RootStands(ts: seq<Table>, i: nat, sig: seq<byte>, m: seq<byte>, m1: seq<byte>, end: nat)
    requires Done(ts, m, m1, end) && i < |ts| && RootTable(ts[i], sig)
    requires forall p :: p in ts[i].pointers ==> p.off >= 36
    ensures Standing(ts, i, m1, sig, |ts[i].data|)
  {
    hide Done, Total, InMemory, Le, Final, Wellformed;
    DoneIs(ts, m, m1, end);
    HeaderInMemory(ts, i, m, m1, end);
    BytesInMemory(ts, i, 0, 4, m, m1, end);
  }

  /** The listed tables are those made from listed recipes, in order. */
  lemma {:induction false} ListingIs(rs: seq<Recipe>)
    ensures forall k, l :: 0 <= k < l < |Listing(rs)| ==> Listing(rs)[k] < Listing(rs)[l]
    ensures forall k :: 0 <= k < |Listing(rs)| ==> 3 <= Listing(rs)[k] < 3 + |rs| && rs[Listing(rs)[k] - 3].Listed?
    ensures forall j :: 0 <= j < |rs| && rs[j].Listed? ==> 3 + j in Listing(rs)
    decreases |rs|
  {
    if rs != [] {
      var k := |rs| - 1;
      ListingIs(rs[..k]);
    }
  }

  /** The pieces in order. */
  lemma {:induction false} JoinedCat(a: seq<seq<byte>>, b: seq<seq<byte>>)
    ensures Joined(a + b) == Joined(a) + Joined(b) && (|b| == 1 ==> Joined(b) == b[0])
    decreases |b|
  {
    if b == [] {
      assert a + b == a;
    } else {
      var k := |b| - 1;
      JoinedCat(a, b[..k]);
      assert (a + b)[..|a + b| - 1] == a + b[..k];
      Assoc(Joined(a), Joined(b[..k]), b[k]);
      if |b| == 1 { assert b[..0] == []; }
    }
  }

  lemma {:induction false} EntryIn(ts: seq<Table>, rs: seq<Recipe>, m: seq<byte>, m1: seq<byte>, end: nat, k: nat)
    requires Fit(rs) && Built(ts, rs) && Done(ts, m, m1, end) && |m1| <= U32 && k < |Listing(rs)|
    ensures Entered(ts, m1, k, Listing(rs)[k])
  {
    hide TableOf, Listing, Rsdp, Fit, RecipeOk, AllSound, Buildable, Rooted, Done, Holds, FirstAt, Find, Final,
        SameSignature, Wellformed;
    var regs := Listing(rs);
    DoneIs(ts, m, m1, end);
    RootRegs(ts, regs, 0);
    var j := regs[k];
    SignatureSafe(ts, rs, j);
    var addr := RootEntries(ts, regs, k, m, m1, end);
    RootNames(ts, j, m, m1, end, addr);
  }

  lemma {:induction false} RootIn(ts: seq<Table>, rs: seq<Recipe>, m: seq<byte>, m1: seq<byte>, end: nat)
    requires Fit(rs) && Built(ts, rs) && Done(ts, m, m1, end) && |m1| <= U32
    ensures RootReached(ts, m1)
  {
    hide TableOf, Listing, Rsdp, Fit, RecipeOk, AllSound, Buildable, Rooted, Done, Holds, FirstAt, Find, Final,
        SameSignature, Wellformed, Total, InMemory;
    DoneIs(ts, m, m1, end);
    assert PowerOfTwo(16);
    RsdpShape(NewTable(RSDP_NAME, 16));
    var rsdt, xsdt := RsdpInMemory(ts, 2, NewTable(RSDP_NAME, 16), m, m1, end);
    BytesInMemory(ts, 2, 0, 8, m, m1, end);
    BytesInMemory(ts, 2, 9, 7, m, m1, end);
    RootsFound(ts, rs, rsdt, xsdt);
    MemorySize(ts, 2, m1);
  }

  lemma {:induction false} MemorySize(ts: seq<Table>, i: nat, m1: seq<byte>)
    requires Wellformed(ts) && i < |ts| && BASE + Final(ts)[i].off + |Final(ts)[i].data| <= |m1|
    ensures |InMemory(ts, i, m1)| == |Final(ts)[i].data|
  {
  }

  lemma {:induction false} RootsFound(ts: seq<Table>, rs: seq<Recipe>, rsdt: nat, xsdt: nat)
    requires Fit(rs) && Built(ts, rs) && FirstAt(ts, RSDT, rsdt) && FirstAt(ts, XSDT, xsdt)
    ensures rsdt == BASE + Final(ts)[0].off && xsdt == BASE + Final(ts)[1].off
  {
    hide TableOf, Listing, Rsdp, Fit, RecipeOk, AllSound, Buildable, Find, Final, SameSignature, Wellformed, AllFit;
    Findable(ts, rs, 0);
    Findable(ts, rs, 1);
    SignatureSafe(ts, rs, 0);
    FinalAt(ts, 0);
    SignatureKept(ts, 0);
    OtherSignature(Final(ts)[0].data);
  }

  lemma {:induction false} OtherSignature(d: seq<byte>)
    requires |d| >= 4 && d[..4] == RSDT
    ensures !SameSignature(d, XSDT)
  {
    assert XSDT[..4] == XSDT;
    assert StrLen(RSDT) == 4 && StrLen(XSDT) == 4;
  }

  // ---- the machine

  /**
   * The root tables, the root pointer, one table for each recipe, and finishing them. It succeeds exactly when all
   * tables can be built and placed, and surely when there is room for them; every pointer then finds its table.
   */
  method BuildMachine(ram: array<byte>, rs: seq<Recipe>, inMemory: bool) returns (l: Linker, ok: bool,
      ghost ts: seq<Table>)
    requires RecipesOk(rs) && BASE <= ram.Length <= U32 - BASE
    modifies ram
    ensures fresh(l) && l.ram == ram
    ensures Fit(rs) ==>
      Built(ts, rs) && Wellformed(ts) && (ok <==> forall i :: 0 <= i < |ts| ==> Placeable(ts, i, inMemory, ram.Length))
    ensures Fit(rs) && inMemory && BASE + Room(ts, |ts|) <= ram.Length ==> ok
    ensures !Fit(rs) ==> !ok
    ensures ok ==>
      l.tables == Final(ts) && AllFit(l.tables) && Resolves(l.tables, |ts|) && l.script == Script(l.tables) &&
      Offered(l.tables, l.files)
    ensures ok && inMemory ==> Done(ts, old(ram[..]), ram[..], EndOf(ts, |ts|)) && RootReached(ts, ram[..])
    ensures ok && inMemory ==> forall k :: 0 <= k < |Listing(rs)| ==> Entered(ts, ram[..], k, Listing(rs)[k])
    ensures ok && inMemory ==>
      Standing(ts, 0, ram[..], RSDT, 36 + 4 * |Listing(rs)|) && Standing(ts, 1, ram[..], XSDT, 36 + 8 * |Listing(rs)|)
    ensures ok && inMemory ==> forall j :: 0 <= j < |rs| ==> Delivered(ts, 3 + j, ram[..], rs[j])
    ensures ok && !inMemory ==> ram[..] == old(ram[..])
  {
    hide *;
    l, ok := BuildAll(ram, rs);
    ts := l.tables;
    if !ok { return; }
    BuiltWellformed(ts, rs);
    BuiltLinkable(ts, rs, inMemory, ram.Length);
    ghost var m := ram[..];
    ok := l.Finish(inMemory);
    if ok {
      LinkedTables(ts, inMemory, ram.Length);
      if inMemory {
        BuiltSound(ts, rs);
        RootIn(ts, rs, m, ram[..], EndOf(ts, |ts|));
        AllDelivered(ts, rs, m, ram[..], EndOf(ts, |ts|));
        forall k | 0 <= k < |Listing(rs)| ensures Entered(ts, ram[..], k, Listing(rs)[k]) {
          EntryIn(ts, rs, m, ram[..], EndOf(ts, |ts|), k);
        }
      }
    }
  }

  lemma {:induction false} BuiltSound(ts: seq<Table>, rs: seq<Recipe>)
    requires Built(ts, rs)
    ensures AllSound(ts)
  {
  }

  lemma {:induction false} LinkedTables(ts: seq<Table>, inMemory: bool, limit: nat)
    requires Wellformed(ts) && Linkable(ts, inMemory, limit)
    ensures AllFit(Final(ts)) && Resolves(Final(ts), |ts|)
  {
  }

  lemma {:induction false} BuiltLinkable(ts: seq<Table>, rs: seq<Recipe>, inMemory: bool, limit: nat)
    requires Fit(rs) && Built(ts, rs) && Wellformed(ts) && BASE <= limit <= U32 - BASE
    ensures Linkable(ts, inMemory, limit) <==> forall i :: 0 <= i < |ts| ==> Placeable(ts, i, inMemory, limit)
    ensures inMemory && BASE + Room(ts, |ts|) <= limit ==> Linkable(ts, inMemory, limit)
  {
    assert ts != [];
    hide Placeable, Final, Wellformed, Resolves, AllFit, Built, Fit, Linkable, Room;
    NotLinkable(ts, inMemory, limit);
    if inMemory && BASE + Room(ts, |ts|) <= limit { RoomEnough(ts, rs, limit); }
    if forall i :: 0 <= i < |ts| ==> Placeable(ts, i, inMemory, limit) {
      LinkableIs(ts, inMemory, limit);
      BuiltResolves(ts, rs);
    }
  }

  // ---- two tables with one signature

  const SSDT: seq<byte> := [0x53, 0x53, 0x44, 0x54]

  function Twins(): seq<Recipe> { [Listed(SSDT, 1, 1, []), Listed(SSDT, 1, 1, [])] }

  lemma {:induction false} TwinsFit()
    ensures RecipesOk(Twins()) && Fit(Twins()) && Listing(Twins()) == [3, 4]
  {
    var rs := Twins();
    assert rs[..1][..0] == [];
    assert Listing(rs[..1]) == [3] && rs[..2] == rs;
  }

  lemma {:induction false} TwinsRoom(ts: seq<Table>)
    requires Built(ts, Twins()) && Fit(Twins()) && Listing(Twins()) == [3, 4]
    ensures |ts| == 5 && Room(ts, 5) == 284 && ts[3] == ts[4] && ts[3].data[..4] == SSDT
  {
    hide AllSound, Sound, TableOf, Rsdp, Listing, FileName, Fit, Room, RsdtLists, XsdtLists;
    var r := Twins()[0];
    OneBuildable(Twins(), 0);
    SoundListed(r);
    assert ts[3 + 0] == TableOf(r) && ts[3 + 1] == TableOf(Twins()[1]);
    RootSizes(ts, [3, 4]);
    assert PowerOfTwo(16);
    RsdpShape(NewTable(RSDP_NAME, 16));
    RsdpAlignment(NewTable(RSDP_NAME, 16));
    ListedAlignment(r);
    FiveRoom(ts);
  }

  lemma {:induction false} FiveRoom(ts: seq<Table>)
    requires |ts| == 5 && |ts[0].data| == 44 && |ts[1].data| == 52 && |ts[2].data| == |ts[3].data| == |ts[4].data| == 36
    requires forall i :: 0 <= i < 5 ==> ts[i].alignment == 16
    ensures Room(ts, 5) == 284
  {
    assert Room(ts, 1) == 60;
    assert Room(ts, 2) == 128;
    assert Room(ts, 3) == 180;
    assert Room(ts, 4) == 232;
  }

  lemma {:induction false} RoomIs(n: nat)
    requires n == BASE + 1000
    ensures BASE <= n <= U32 - BASE && BASE + 284 <= n
  {
  }

  lemma {:induction false} RsdpAlignment(t: Table)
    ensures Rsdp(t).alignment == t.alignment
  {
  }

  lemma {:induction false} ListedAlignment(r: Recipe)
    requires RecipeOk(r) && r.Listed?
    ensures TableOf(r).alignment == 16 && (r.body == [] ==> |Joined(r.body)| == 0)
  {
  }

  /** Both are listed at the first one's address: the second entry does not lead to the second table. */
  method TwoAlike() returns (l: Linker, ok: bool, ghost ts: seq<Table>, ghost addr: nat)
    ensures fresh(l) && ok && |ts| == 5 && Wellformed(ts) && l.tables == Final(ts)
    ensures Holds(ts, 0, 36, 4, l.ram[..], addr) && Holds(ts, 0, 40, 4, l.ram[..], addr)
    ensures addr != BASE + Final(ts)[4].off
  {
    hide *;
    var ram := new byte[BASE + 1000];
    TwinsFit();
    RoomIs(ram.Length);
    l, ok, ts := BuildMachine(ram, Twins(), true);
    TwinsRoom(ts);
    SignatureSafe(ts, Twins(), 3);
    assert Listing(Twins())[0] == 3 && Listing(Twins())[1] == 4;
    addr := Alike(ts, ram[..]);
  }

  lemma {:induction false} Alike(ts: seq<Table>, m1: seq<byte>) returns (addr: nat)
    requires |ts| == 5 && Entered(ts, m1, 0, 3) && Entered(ts, m1, 1, 4) && ts[3] == ts[4] && ts[3].data[..4] == SSDT
    requires Wellformed(ts) && LengthsApart(ts[3].lengths, 0, 4)
    ensures Holds(ts, 0, 36, 4, m1, addr) && Holds(ts, 0, 40, 4, m1, addr) && addr != BASE + Final(ts)[4].off
  {
    hide Holds, FirstAt, Final, Wellformed, SameSignature;
    addr :| Holds(ts, 0, 36, 4, m1, addr) && FirstAt(ts, SSDT, addr);
    var other :| Holds(ts, 0, 40, 4, m1, other) && FirstAt(ts, SSDT,
      other) && (other == BASE + Final(ts)[4].off <==> Unlike(Final(ts), 4));
    FirstAtOne(ts, SSDT, addr, other);
    SignatureKept(ts, 3);
    SignatureKept(ts, 4);
    FinalAt(ts, 3);
    FinalAt(ts, 4);
    AlikeSignatures(Final(ts)[3].data, Final(ts)[4].data);
  }

  lemma {:induction false} AlikeSignatures(a: seq<byte>, b: seq<byte>)
    requires |a| >= 4 && |b| >= 4 && a[..4] == b[..4]
    ensures SameSignature(a, b)
  {
    assert a[..StrLen(a[..4])] == a[..4][..StrLen(a[..4])];
  }
}

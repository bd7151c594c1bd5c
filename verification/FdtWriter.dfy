/**
 * The sequential writer. The structure block grows up from the reservation
 * map, the string block grows down from the end of the buffer, and property
 * names are stored as distances from that end until the tree is finished.
 */
module FdtWriter {
  import opened Bytes
  import opened FdtTokens
  import opened FdtTree
  import opened FdtSpec
  import opened FdtBlob
  import opened FdtEdit
  import opened FdtRw

  class Sw {
    var buf: array<byte>
    var totalsize: nat
    var offRsv: nat
    var offStruct: nat
    var sizeStruct: nat
    var sizeStrings: nat
    ghost var toks: seq<Tok>

    constructor (buf: array<byte>, bufsize: nat)
      requires bufsize <= buf.Length
      ensures this.buf == buf && totalsize == bufsize && offRsv == offStruct == 48 && sizeStruct == sizeStrings == 0
      ensures toks == []
    {
      this.buf, totalsize, offRsv, offStruct, sizeStruct, sizeStrings, toks := buf, bufsize, 48, 48, 0, 0, [];
    }

    /** The two blocks face each other and have not met. */
    ghost predicate Layout()
      reads this
    {
      offStruct + sizeStruct + sizeStrings <= totalsize <= buf.Length && totalsize < MAX
    }

    ghost function Struct(): (s: seq<byte>)
      requires Layout()
      reads this, buf
      ensures |s| == sizeStruct
    {
      Part(buf[..], offStruct, sizeStruct)
    }

    ghost function Strings(): (s: seq<byte>)
      requires Layout()
      reads this, buf
      ensures |s| == sizeStrings
    {
      Part(buf[..], totalsize - sizeStrings, sizeStrings)
    }

    /** What lies before the structure block: room for the header, and the memory reserve map. */
    ghost function Front(): seq<byte>
      reads `buf, `offStruct, buf
    {
      if offStruct <= buf.Length then buf[..offStruct] else []
    }

    ghost predicate Valid()
      reads this, buf
    {
      Layout() && ValidToks(toks) && Struct() == Enc(toks) && BackNames(toks, Strings())
    }
  }

  /** Each name is found that far back from the end of the string block. */
  ghost predicate BackNames(ts: seq<Tok>, strs: seq<byte>) {
    forall i :: 0 <= i < |ts| && ts[i].Prop? ==> BackOk(strs, ts[i].nameoff)
  }

  predicate BackOk(strs: seq<byte>, raw: nat) {
    U32 - |strs| <= raw < U32 && NameOk(strs, raw + |strs| - U32)
  }

  function BackName(strs: seq<byte>, raw: nat): seq<byte> {
    if U32 - |strs| <= raw then NameAt(strs, raw + |strs| - U32) else []
  }

  // ---- what has been written

  datatype Event = Open(name: seq<byte>) | Set(name: seq<byte>, val: seq<byte>) | Close | Blank | Done

  function EventOf(t: Tok, strs: seq<byte>): Event {
    match t
    case Begin(name, _) => Open(name)
    case Prop(nameoff, val, _) => Set(BackName(strs, nameoff), val)
    case EndNode => Close
    case Nop => Blank
    case End => Done
  }

  /** The calls that the tokens record. */
  function Events(ts: seq<Tok>, strs: seq<byte>): (es: seq<Event>)
    ensures |es| == |ts|
  {
    if ts == [] then [] else [EventOf(ts[0], strs)] + Events(ts[1..], strs)
  }

  lemma {:induction false} EventsSnoc(ts: seq<Tok>, t: Tok, strs: seq<byte>)
    ensures Events(ts + [t], strs) == Events(ts, strs) + [EventOf(t, strs)]
  {
    if ts == [] {
      assert (ts + [t])[1..] == [];
    } else {
      assert (ts + [t])[1..] == ts[1..] + [t];
      EventsSnoc(ts[1..], t, strs);
    }
  }

  /** Strings added in front leave names counted from the end alone. */
  lemma {:induction false} BackGrows(strs: seq<byte>, more: seq<byte>, raw: nat)
    requires BackOk(strs, raw) && |more + strs| < U32
    ensures BackOk(more + strs, raw) && BackName(more + strs, raw) == BackName(strs, raw)
  {
    var k := raw + |strs| - U32;
    assert (more + strs)[|more| + k..] == strs[k..];
  }

  lemma {:induction false} EventsGrow(ts: seq<Tok>, strs: seq<byte>, more: seq<byte>)
    requires BackNames(ts, strs) && |more + strs| < U32
    ensures BackNames(ts, more + strs) && Events(ts, more + strs) == Events(ts, strs)
  {
    hide BackOk, BackName;
    if ts != [] {
      if ts[0].Prop? { BackGrows(strs, more, ts[0].nameoff); }
      assert forall i :: 0 <= i < |ts[1..]| ==> ts[1..][i] == ts[i + 1];
      EventsGrow(ts[1..], strs, more);
      assert forall i :: 0 < i < |ts| ==> ts[i] == ts[1..][i - 1];
    }
  }

  // ---- starting

  const HEADER: nat := 40

  /**
   * Starts a tree in bufsize bytes. The layout is sound from the start exactly when the reservation map
   * begins inside the buffer.
   */
  method Create(buf: array<byte>, bufsize: nat) returns (err: int, w: Sw?)
    requires bufsize <= buf.Length && bufsize < MAX
    modifies buf
    ensures err == if bufsize < HEADER then NOSPACE else 0
    ensures w != null <==> err == 0
    ensures w != null ==>
      fresh(w) && w.buf == buf && w.totalsize == bufsize && w.toks == [] && w.sizeStruct == w.sizeStrings == 0 &&
      w.offRsv == w.offStruct == 48
    ensures w != null ==> (w.Valid() <==> bufsize >= 48)
  {
    if bufsize < HEADER {
      return NOSPACE, null;
    }
    forall i | 0 <= i < bufsize { buf[i] := 0; }
    w := new Sw(buf, bufsize);
    return 0, w;
  }

  /** One reservation entry; allowed until the structure block has begun. */
  method AddReserveEntry(w: Sw, addr: nat, size: nat) returns (err: int)
    requires w.Valid() || (w.toks == [] && w.sizeStruct == w.sizeStrings == 0 && w.totalsize < w.offStruct)
    modifies w`offStruct, w.buf
    ensures err == if w.sizeStruct != 0 then BADSTATE else if old(w.offStruct) + 16 > w.totalsize then NOSPACE else 0
    ensures err != 0 ==> w.Valid() == old(w.Valid()) && w.offStruct == old(w.offStruct)
    ensures err == 0 ==>
      w.offStruct == old(w.offStruct) + 16 && w.Front() == old(w.Front()) + (Be(addr, 8) + Be(size, 8))
    ensures err == 0 ==> (w.Layout() <==> old(w.offStruct) + 16 + w.sizeStrings <= w.totalsize)
    ensures err == 0 && w.Layout() ==> w.Valid() && w.Strings() == old(w.Strings())
  {
    hide Be, Part, BackOk;
    if w.sizeStruct != 0 { return BADSTATE; }
    if w.offStruct + 16 > w.totalsize { return NOSPACE; }
    ghost var m, a := w.buf[..], w.offStruct;
    NoToks(w.toks);
    Write(w.buf, w.offStruct, Be(addr, 8) + Be(size, 8));
    w.offStruct := w.offStruct + 16;
    FrontGrows(m, a, Be(addr, 8) + Be(size, 8));
    assert w.buf[..a + 16] == w.buf[..][..a + 16];
    if w.Layout() {
      WrittenApart(m, w.totalsize - w.sizeStrings, w.sizeStrings, a, Be(addr, 8) + Be(size, 8));
    }
    err := 0;
  }

  lemma {:induction false} FrontGrows(m: seq<byte>, a: nat, bs: seq<byte>)
    requires a + |bs| <= |m|
    ensures Over(m, a, bs)[..a + |bs|] == m[..a] + bs
  {
  }

  lemma {:induction false} NoToks(ts: seq<Tok>)
    requires ValidToks(ts)
    ensures Size(ts) == 0 ==> ts == []
  {
    if ts != [] { TokAligned(ts[0]); }
  }

  // ---- growing the structure block

  /** Room for len more bytes of structure, or -1. */
  method Grab(w: Sw, len: nat) returns (offset: int)
    requires w.Layout()
    modifies w`sizeStruct
    ensures w.Layout()
    ensures offset ==
      if old(w.sizeStruct) + len > w.totalsize - w.offStruct - w.sizeStrings then -1 else old(w.sizeStruct)
    ensures w.sizeStruct == old(w.sizeStruct) + if offset < 0 then 0 else len
  {
    var spaceleft := w.totalsize - w.offStruct - w.sizeStrings;
    if w.sizeStruct + len > spaceleft { return -1; }
    offset := w.sizeStruct;
    w.sizeStruct := w.sizeStruct + len;
  }

  lemma {:induction false} LayoutPart(w: Sw, m: seq<byte>, size: nat)
    requires w.Layout() && w.buf[..] == m && size <= w.sizeStruct
    ensures w.Struct()[..size] == Part(m, w.offStruct, size)
    ensures w.Strings() == Part(m, w.totalsize - w.sizeStrings, w.sizeStrings)
  {
    SubSlice(m, w.offStruct, w.offStruct + w.sizeStruct, 0, size);
  }

  /** Writes bs into the structure block. */
  method PokeSw(w: Sw, off: nat, bs: seq<byte>)
    requires w.Layout() && off + |bs| <= w.sizeStruct
    modifies w.buf
    ensures w.Struct() == Over(old(w.Struct()), off, bs) && w.Strings() == old(w.Strings())
    ensures w.Front() == old(w.Front())
  {
    hide Part;
    ghost var m, a, n, o, k := w.buf[..], w.offStruct, w.sizeStruct, w.totalsize - w.sizeStrings, w.sizeStrings;
    Write(w.buf, w.offStruct + off, bs);
    WrittenPart(m, a, n, a + off, bs);
    WrittenApart(m, o, k, a + off, bs);
  }

  /** The block, grown by a token, spells out one token more. */
  ghost method Push(w: Sw, t: Tok)
    requires w.Layout() && ValidToks(w.toks) && ValidTok(t) && BackNames(w.toks, w.Strings())
    requires (t.Prop? ==> BackOk(w.Strings(), t.nameoff))
    requires var n := Size(w.toks); n <= w.sizeStruct && w.Struct()[..n] == Enc(w.toks) && w.Struct()[n..] == EncTok(t)
    modifies w`toks
    ensures w.Valid() && w.toks == old(w.toks) + [t] && w.Strings() == old(w.Strings())
    ensures Events(w.toks, w.Strings()) == old(Events(w.toks, w.Strings())) + [EventOf(t, w.Strings())]
  {
    hide Part, Enc, EncTok, Size, Events, EventOf, BackOk, ValidTok;
    EncConcat(w.toks, [t]);
    EncOne(t);
    EventsSnoc(w.toks, t, w.Strings());
    var s := w.Struct();
    assert s == s[..Size(w.toks)] + s[Size(w.toks)..];
    w.toks := w.toks + [t];
  }

  // ---- nodes

  lemma {:induction false} BeginBytes(s: seq<byte>, off: nat, name: seq<byte>) returns (pad: seq<byte>)
    requires off + 4 + Align4(|name| + 1) == |s| && s[off..off + 4 + |name| + 1] == Be(BEGIN_NODE, 4) + (name + [0])
    ensures |pad| == Pad4(|name| + 1) && s[off..] == EncTok(Begin(name, pad))
  {
    hide Be;
    var e := off + 4 + |name| + 1;
    pad := s[e..];
    assert s[off..] == s[off..e] + s[e..];
  }

  method BeginNode(w: Sw, name: seq<byte>) returns (err: int)
    requires w.Valid() && NoNul(name)
    modifies w`sizeStruct, w`toks, w.buf
    ensures w.Valid() && w.Strings() == old(w.Strings())
    ensures err ==
      if old(w.sizeStruct) + 4 + Align4(|name| + 1) > w.totalsize - w.offStruct - w.sizeStrings then NOSPACE else 0
    ensures err == 0 ==> w.sizeStruct == old(w.sizeStruct) + 4 + Align4(|name| + 1)
    ensures Events(w.toks, w.Strings()) == old(Events(w.toks, w.Strings())) + if err == 0 then [Open(name)] else []
    ensures w.Front() == old(w.Front())
  {
    hide Part, Enc, Be, Over, EncTok, Events, BackNames, Align4;
    ghost var m, n := w.buf[..], w.sizeStruct;
    var off := Grab(w, 4 + Align4(|name| + 1));
    if off < 0 { return NOSPACE; }
    LayoutPart(w, m, n);
    ghost var s1 := w.Struct();
    var bytes := Be(BEGIN_NODE, 4) + (name + [0]);
    PokeSw(w, off, bytes);
    OverSlices(s1, off, bytes, 0, off);
    Ends2(s1, w.Struct(), off);
    ghost var pad := BeginBytes(w.Struct(), off, name);
    Push(w, Begin(name, pad));
    return 0;
  }

  lemma {:induction false} Ends2(s: seq<byte>, r: seq<byte>, x: nat)
    requires x <= |s| && x <= |r|
    ensures s[0..x] == s[..x] && r[0..x] == r[..x]
  {
  }

  method EndNodeSw(w: Sw) returns (err: int)
    requires w.Valid()
    modifies w`sizeStruct, w`toks, w.buf
    ensures w.Valid() && w.Strings() == old(w.Strings())
    ensures err == if old(w.sizeStruct) + 4 > w.totalsize - w.offStruct - w.sizeStrings then NOSPACE else 0
    ensures err == 0 ==> w.sizeStruct == old(w.sizeStruct) + 4
    ensures Events(w.toks, w.Strings()) == old(Events(w.toks, w.Strings())) + if err == 0 then [Close] else []
    ensures w.Front() == old(w.Front())
  {
    err := PushTag(w, EndNode);
  }

  /** A token that is nothing but its tag. */
  method PushTag(w: Sw, t: Tok) returns (err: int)
    requires w.Valid() && (t == EndNode || t == End)
    modifies w`sizeStruct, w`toks, w.buf
    ensures w.Valid() && w.Strings() == old(w.Strings())
    ensures err == if old(w.sizeStruct) + 4 > w.totalsize - w.offStruct - w.sizeStrings then NOSPACE else 0
    ensures err == 0 ==> w.sizeStruct == old(w.sizeStruct) + 4
    ensures w.toks == old(w.toks) + if err == 0 then [t] else []
    ensures Events(w.toks, w.Strings()) == old(Events(w.toks, w.Strings())) + if err == 0 then [EventOf(t, [])] else []
    ensures w.Front() == old(w.Front())
  {
    hide Part, Enc, Be, Over, Events, BackNames;
    ghost var m, n := w.buf[..], w.sizeStruct;
    var off := Grab(w, 4);
    if off < 0 { return NOSPACE; }
    LayoutPart(w, m, n);
    ghost var s1 := w.Struct();
    PokeSw(w, off, Be(TagOf(t), 4));
    OverSlices(s1, off, Be(TagOf(t), 4), 0, off);
    Ends2(s1, w.Struct(), off);
    assert w.Struct()[off..] == w.Struct()[off..off + 4];
    assert EncTok(t) == Be(TagOf(t), 4) + [];
    Push(w, t);
    return 0;
  }

  // ---- names

  /** The room check of the writer, in the 32-bit arithmetic it is done in. */
  predicate RoomFor(totalsize: nat, strtabsize: nat, len: nat, top: nat) {
    (totalsize - strtabsize - len) % U32 >= top
  }

  /** The check tells the truth exactly when the name is not longer than the whole space outside the string table. */
  lemma {:induction false} RoomForIs(totalsize: nat, strtabsize: nat, len: nat, top: nat)
    requires totalsize < MAX && strtabsize <= totalsize && len < MAX && top <= totalsize
    ensures (RoomFor(totalsize, strtabsize, len, top) <==> top + strtabsize + len <= totalsize) <==> strtabsize + len <= totalsize
  {
    var d := totalsize - strtabsize - len;
    if d >= 0 {
      DivModUnique(d, U32, 0, d);
    } else {
      DivModUnique(d, U32, -1, d + U32);
    }
  }

  lemma {:induction false} RoomForLies()
    ensures RoomFor(64, 0, 100, 48)
  {
    DivModUnique(64 - 0 - 100, U32, -1, U32 - 36);
  }

  /** At the very start of a 64-byte tree the check lets a 99-byte name pass; its copy would begin before the buffer. */
  method RoomForLiesAtStart() returns (w: Sw, name: seq<byte>)
    ensures fresh(w) && w.Valid() && w.totalsize == 64 && |name| == 99 && NoNul(name) && !Stored(w.Strings(), name)
    ensures RoomFor(w.totalsize, w.sizeStrings, |name| + 1, w.offStruct + w.sizeStruct)
    ensures w.totalsize - w.sizeStrings - (|name| + 1) < 0
  {
    var buf := new byte[64];
    var err, v := Create(buf, 64);
    w, name := v, seq(99, i => 0x61);
    RoomForLies();
  }

  /** The string block once the name is in it. */
  ghost function WithName(strs: seq<byte>, name: seq<byte>): (r: seq<byte>)
    ensures |strs| <= |r| <= |strs| + |name| + 1
  {
    if Stored(strs, name) then strs else (name + [0]) + strs
  }

  /** Finds name in the string block or adds it in front; 0 when it has to be added and there is no room. */
  method FindAddName(w: Sw, name: seq<byte>) returns (raw: nat)
    requires w.Valid() && NoNul(name) && (Stored(w.Strings(), name) || w.sizeStrings + |name| + 1 <= w.totalsize)
    modifies w`sizeStrings, w.buf
    ensures w.Layout() && w.Valid()
    ensures raw == 0 <==> w.offStruct + w.sizeStruct + |WithName(old(w.Strings()), name)| > w.totalsize
    ensures w.Strings() == if raw == 0 then old(w.Strings()) else WithName(old(w.Strings()), name)
    ensures Events(w.toks, w.Strings()) == old(Events(w.toks, w.Strings()))
    ensures raw != 0 ==> BackOk(w.Strings(), raw) && BackName(w.Strings(), raw) == name
    ensures w.Front() == old(w.Front())
  {
    hide Part, Enc, Over, Events, BackNames, BackOk, BackName, w.Front;
    ghost var strs, s := w.Strings(), w.Struct();
    var k := FindBack(w, name);
    if k >= 0 {
      BackText(strs, k, name);
      assert Stored(strs, name);
      return U32 - w.sizeStrings + k;
    }
    assert !Stored(strs, name);
    RoomForIs(w.totalsize, w.sizeStrings, |name| + 1, w.offStruct + w.sizeStruct);
    if !RoomFor(w.totalsize, w.sizeStrings, |name| + 1, w.offStruct + w.sizeStruct) {
      return 0;
    }
    ghost var more := name + [0];
    AddName(w, name);
    EventsGrow(w.toks, strs, more);
    assert (more + strs)[0..|name| + 1] == name + [0];
    BackText(more + strs, 0, name);
    raw := U32 - w.sizeStrings;
  }

  /** Puts name in front of the string block. */
  method AddName(w: Sw, name: seq<byte>)
    requires w.Layout() && w.offStruct + w.sizeStruct + w.sizeStrings + |name| + 1 <= w.totalsize
    modifies w`sizeStrings, w.buf
    ensures w.Layout() && w.sizeStrings == old(w.sizeStrings) + |name| + 1
    ensures w.Strings() == (name + [0]) + old(w.Strings()) && w.Struct() == old(w.Struct())
    ensures w.Front() == old(w.Front())
  {
    hide Part;
    ghost var m, pos := w.buf[..], w.totalsize - w.sizeStrings - |name + [0]|;
    Write(w.buf, w.totalsize - w.sizeStrings - (|name| + 1), name + [0]);
    WrittenApart(m, w.offStruct, w.sizeStruct, pos, name + [0]);
    WrittenFront(m, pos, name + [0], w.sizeStrings);
    w.sizeStrings := w.sizeStrings + (|name| + 1);
  }

  lemma {:induction false} WrittenFront(m: seq<byte>, pos: nat, more: seq<byte>, n: nat)
    requires pos + |more| + n <= |m|
    ensures Part(Over(m, pos, more), pos, |more| + n) == more + Part(m, pos + |more|, n)
  {
  }

  lemma {:induction false} BackText(strs: seq<byte>, k: nat, name: seq<byte>)
    requires NoNul(name) && |strs| < U32 && k + |name| + 1 <= |strs| && strs[k..k + |name| + 1] == name + [0]
    ensures BackOk(strs, U32 - |strs| + k) && BackName(strs, U32 - |strs| + k) == name
  {
    TextAt(strs, k, name);
  }

  /** The first place where name and its terminator stand in the string block. */
  method FindBack(w: Sw, name: seq<byte>) returns (k: int)
    requires w.Layout()
    ensures k >= 0 ==> TextAtOff(w.Strings(), k, name + [0])
    ensures forall i :: 0 <= i && (k < 0 || i < k) ==> !TextAtOff(w.Strings(), i, name + [0])
  {
    hide Part;
    var len, bytes, base := |name| + 1, name + [0], w.totalsize - w.sizeStrings;
    k := 0;
    while k + len <= w.sizeStrings
      invariant 0 <= k
      invariant forall i :: 0 <= i < k ==> !TextAtOff(w.Strings(), i, bytes)
    {
      PartSlice(w.buf[..], base, w.sizeStrings, k, len);
      assert w.buf[base + k..base + k + len] == w.buf[..][base + k..base + k + len];
      if w.buf[base + k..base + k + len] == bytes { return; }
      k := k + 1;
    }
    k := -1;
  }

  // ---- properties

  /**
   * Writes a property: succeeds exactly when name and value fit. When they do not, the name has been
   * added all the same if it fits alone; everything written before still reads the same.
   */
  method Property(w: Sw, name: seq<byte>, val: seq<byte>) returns (err: int)
    requires w.Valid() && NoNul(name) && |val| < MAX
    requires (Stored(w.Strings(), name) || w.sizeStrings + |name| + 1 <= w.totalsize)
    modifies w`sizeStruct, w`sizeStrings, w`toks, w.buf
    ensures w.Valid() && w.Layout() && (err == 0 || err == NOSPACE)
    ensures err == 0 <==>
      w.offStruct + old(w.sizeStruct) + 12 + Align4(|val|) + |WithName(old(w.Strings()), name)| <= w.totalsize
    ensures w.sizeStruct == old(w.sizeStruct) + if err == 0 then 12 + Align4(|val|) else 0
    ensures w.Strings() ==
      if w.offStruct + old(w.sizeStruct) + |WithName(old(w.Strings()), name)| <= w.totalsize
      then WithName(old(w.Strings()), name)
      else old(w.Strings())
    ensures Events(w.toks, w.Strings()) == old(Events(w.toks, w.Strings())) + if err == 0 then [Set(name, val)] else []
    ensures w.Front() == old(w.Front())
  {
    hide w.Valid, Events, BackOk, BackName, w.Strings, w.Front, WithName, Stored;
    var nameoff := FindAddName(w, name);
    if nameoff == 0 { return NOSPACE; }
    err := PushProp(w, nameoff, val);
  }

  /** A property too large for a 64-byte tree leaves its name behind; a reserve entry then goes over it. */
  method ReserveOverStrings() returns (w: Sw, err: int)
    ensures fresh(w) && w.sizeStrings == 2 && err == 0 && !w.Layout()
  {
    hide Stored;
    var buf := new byte[64];
    var e, v := Create(buf, 64);
    w := v;
    Unstored(w.Strings(), [0x61]);
    e := Property(w, [0x61], Zeros(16));
    err := AddReserveEntry(w, 0, 0);
  }

  lemma {:induction false} Unstored(strs: seq<byte>, name: seq<byte>)
    requires |strs| <= |name|
    ensures !Stored(strs, name)
  {
  }

  /** In 40 bytes a tree is begun whose reserve map starts behind the end. */
  method CreatedTooShort() returns (w: Sw?, err: int)
    ensures err == 0 && w != null && fresh(w) && w.offRsv > w.totalsize && !w.Valid()
  {
    var buf := new byte[40];
    err, w := Create(buf, 40);
  }

  /** Writes a property whose name is in the string block. */
  method PushProp(w: Sw, nameoff: nat, val: seq<byte>) returns (err: int)
    requires w.Valid() && |val| < MAX && BackOk(w.Strings(), nameoff)
    modifies w`sizeStruct, w`toks, w.buf
    ensures w.Layout() && w.Valid() && w.Strings() == old(w.Strings())
    ensures err ==
      if old(w.sizeStruct) + 12 + Align4(|val|) > w.totalsize - w.offStruct - w.sizeStrings then NOSPACE else 0
    ensures w.sizeStruct == old(w.sizeStruct) + if err == 0 then 12 + Align4(|val|) else 0
    ensures Events(w.toks, w.Strings()) == old(Events(w.toks, w.Strings())) + if err ==
      0 then [Set(BackName(w.Strings(), nameoff), val)] else []
    ensures w.Front() == old(w.Front())
  {
    hide Part, Enc, Over, Events, BackNames, BackOk, BackName, Align4, Be, EncTok;
    ghost var m, n := w.buf[..], w.sizeStruct;
    BackSmall(w.Strings(), nameoff);
    var off := Grab(w, 12 + Align4(|val|));
    if off < 0 { return NOSPACE; }
    LayoutPart(w, m, n);
    ghost var s1, e := w.Struct(), off + 12 + Align4(|val|);
    var h := Be(PROP, 4) + Be(|val|, 4) + Be(nameoff, 4);
    PokeSw(w, off, h);
    PokeSw(w, off + 12, val);
    ghost var pad := PropPokes(s1, off, nameoff, val);
    assert w.Struct()[off..e] == w.Struct()[off..];
    Push(w, Prop(nameoff, val, pad));
    return 0;
  }

  lemma {:induction false} BackSmall(strs: seq<byte>, raw: nat)
    requires BackOk(strs, raw)
    ensures raw < U32
  {
  }

  // ---- finishing

  function FixTok(t: Tok, n: nat): Tok {
    if t.Prop? then t.(nameoff := (t.nameoff + n) % U32) else t
  }

  function FixAll(ts: seq<Tok>, n: nat): (r: seq<Tok>)
    ensures |r| == |ts| && forall i :: 0 <= i < |ts| ==> r[i] == FixTok(ts[i], n)
  {
    if ts == [] then [] else [FixTok(ts[0], n)] + FixAll(ts[1..], n)
  }

  /** What a reader of the finished tree finds, token by token. */
  function ReadEvent(t: Tok, strs: seq<byte>): Event {
    match t
    case Begin(name, _) => Open(name)
    case Prop(nameoff, val, _) => Set(NameAt(strs, nameoff), val)
    case EndNode => Close
    case Nop => Blank
    case End => Done
  }

  function ReadEvents(ts: seq<Tok>, strs: seq<byte>): (es: seq<Event>)
    ensures |es| == |ts| && forall i :: 0 <= i < |ts| ==> es[i] == ReadEvent(ts[i], strs)
  {
    if ts == [] then [] else [ReadEvent(ts[0], strs)] + ReadEvents(ts[1..], strs)
  }

  /** With offsets counted from the front, the names are where they were. */
  lemma {:induction false} FixReads(ts: seq<Tok>, strs: seq<byte>)
    requires BackNames(ts, strs) && ValidToks(ts) && |strs| < U32
    ensures ReadEvents(FixAll(ts, |strs|), strs) == Events(ts, strs)
    ensures NamesOk(FixAll(ts, |strs|), strs) && ValidToks(FixAll(ts, |strs|))
  {
    var r := FixAll(ts, |strs|);
    if ts != [] {
      FixOne(ts[0], strs);
      assert forall i :: 0 <= i < |ts[1..]| ==> ts[1..][i] == ts[i + 1];
      FixReads(ts[1..], strs);
      assert r[1..] == FixAll(ts[1..], |strs|);
      assert forall i :: 0 < i < |r| ==> r[i] == r[1..][i - 1];
    }
  }

  lemma {:induction false} FixOne(t: Tok, strs: seq<byte>)
    requires ValidTok(t) && |strs| < U32 && (t.Prop? ==> BackOk(strs, t.nameoff))
    ensures ReadEvent(FixTok(t, |strs|), strs) == EventOf(t, strs) && ValidTok(FixTok(t, |strs|))
    ensures t.Prop? ==> NameOk(strs, FixTok(t, |strs|).nameoff)
  {
    hide NameOk, NameAt;
    if t.Prop? { DivModUnique(t.nameoff + |strs|, U32, 1, t.nameoff + |strs| - U32); }
  }

  lemma {:induction false} NoEnds(ts: seq<Tok>, strs: seq<byte>)
    requires Done !in Events(ts, strs)
    ensures forall i :: 0 <= i < |ts| ==> !ts[i].End?
  {
    if ts != [] {
      assert Events(ts, strs)[0] == EventOf(ts[0], strs);
      assert forall i :: 0 <= i < |Events(ts[1..], strs)| ==> Events(ts[1..], strs)[i] == Events(ts, strs)[i + 1];
      NoEnds(ts[1..], strs);
      forall i | 0 <= i < |ts| ensures !ts[i].End? { if i > 0 { assert ts[i] == ts[1..][i - 1]; } }
    }
  }

  lemma {:induction false} OverMid(p: seq<byte>, a: seq<byte>, b: seq<byte>, c: seq<byte>, r: seq<byte>, b': seq<byte>)
    requires |b'| == |b|
    ensures Over(p + ((a + b + c) + r), |p| + |a|, b') == p + ((a + b' + c) + r)
  {
    var s := p + ((a + b + c) + r);
    assert s[..|p| + |a|] == p + a;
    assert s[|p| + |a| + |b|..] == c + r;
  }

  lemma {:induction false} PropParts(t: Tok)
    requires t.Prop?
    ensures EncTok(t) == (Be(PROP, 4) + Be(|t.val|, 4)) + Be(t.nameoff, 4) + (t.val + t.pad)
  {
    hide Be;
  }

  /** Token i and what surrounds it, as bytes. */
  lemma {:induction false} EncAround(ts: seq<Tok>, i: nat, t: Tok)
    requires i < |ts|
    ensures Enc(ts) == Enc(ts[..i]) + (EncTok(ts[i]) + Enc(ts[i + 1..]))
    ensures Enc(ts[i := t]) == Enc(ts[..i]) + (EncTok(t) + Enc(ts[i + 1..]))
  {
    hide EncTok;
    OffSplit(ts, i);
    assert ts[i..][1..] == ts[i + 1..];
    var ts' := ts[i := t];
    OffSplit(ts', i);
    assert ts'[i..][1..] == ts[i + 1..] && ts'[..i] == ts[..i];
  }

  /** Changing the name offset of token i in place. */
  lemma {:induction false} FixBytes(ts: seq<Tok>, i: nat, x: nat)
    requires i < |ts| && ts[i].Prop? && Off(ts, i) + 12 <= Size(ts)
    ensures Over(Enc(ts), Off(ts, i) + 8, Be(x, 4)) == Enc(ts[i := ts[i].(nameoff := x)])
  {
    hide Enc, Be, EncTok, Over;
    var t, t' := ts[i], ts[i].(nameoff := x);
    EncAround(ts, i, t');
    PropParts(t);
    PropParts(t');
    OverMid(Enc(ts[..i]), Be(PROP, 4) + Be(|t.val|, 4), Be(t.nameoff, 4), t.val + t.pad, Enc(ts[i + 1..]), Be(x, 4));
  }

  /** The tokens when the first k are done. */
  ghost function Mixed(ts: seq<Tok>, k: nat, n: nat): (r: seq<Tok>)
    ensures |r| == |ts|
  {
    seq(|ts|, i requires 0 <= i < |ts| => if i < k then FixTok(ts[i], n) else ts[i])
  }

  lemma {:induction false} MixedStep(ts: seq<Tok>, k: nat, n: nat)
    requires k < |ts|
    ensures k == 0 ==> Mixed(ts, k, n) == ts
    ensures Mixed(ts, k, n)[k] == ts[k] && Mixed(ts, k + 1, n) == Mixed(ts, k, n)[k := FixTok(ts[k], n)]
    ensures ts[k] == End && k == |ts| - 1 ==> Mixed(ts, k, n) == FixAll(ts, n)
  {
  }

  lemma {:induction false} SameOff(ts: seq<Tok>, k: nat, t: Tok)
    requires k < |ts| && TokSize(t) == TokSize(ts[k])
    ensures Off(ts[k := t], k + 1) == Off(ts, k + 1)
  {
    OffStep(ts, k);
    OffStep(ts[k := t], k);
    assert ts[k := t][..k] == ts[..k];
  }

  /** Turns the name of property k from a distance into an offset. */
  method FixName(f: Fdt, offset: nat, ghost k: nat)
    requires f.Framed() && k < |f.toks| && f.toks[k].Prop? && offset == Off(f.toks, k)
    modifies f`toks, f.buf
    ensures f.Framed() && f.toks == old(f.toks)[k := FixTok(old(f.toks)[k], f.sizeStrings)]
    ensures f.Strings() == old(f.Strings())
    ensures f.Front() == old(f.Front())
  {
    hide Off, Enc, Part, Be, Over, BeDec;
    ghost var ts := f.toks;
    PropIn(ts, k);
    f.StructSlice(offset + 8, 4);
    var nameoff := f.Word(f.offStruct + offset + 8);
    nameoff := (nameoff + f.sizeStrings) % U32;
    FixBytes(ts, k, nameoff);
    Poke(f, offset + 8, Be(nameoff, 4));
    f.toks := ts[k := ts[k].(nameoff := nameoff)];
  }

  /** Turns all names of a framed blob from distances into offsets. */
  method FixNames(f: Fdt, ghost ts: seq<Tok>)
    requires f.Framed() && f.toks == ts && ts != [] && ts[|ts| - 1] == End
    requires (forall i :: 0 <= i < |ts| - 1 ==> !ts[i].End?)
    modifies f`toks, f.buf
    ensures f.Framed() && f.toks == FixAll(ts, f.sizeStrings) && f.Strings() == old(f.Strings())
    ensures f.Front() == old(f.Front())
  {
    hide Off, f.Framed, f.Front, Part, FixTok, FixAll, Mixed;
    f.FramedBlocks();
    var offset := 0;
    ghost var k, n := 0, f.sizeStrings;
    MixedStep(ts, 0, n);
    FirstOff(ts);
    var tag, next := f.TagIn(offset, 0);
    while tag != END
      invariant 0 <= k < |ts| && f.Framed() && f.Blocks() && f.toks == Mixed(ts, k, n)
      invariant offset == Off(f.toks, k) && tag == TagOf(ts[k]) && next == Off(f.toks, k + 1)
      invariant f.Strings() == old(f.Strings()) && f.Front() == old(f.Front())
      decreases |ts| - k
    {
      MixedStep(ts, k, n);
      FixKeeps(ts[k], n);
      SameOff(f.toks, k, FixTok(ts[k], n));
      if tag == PROP { FixName(f, offset, k); }
      f.FramedBlocks();
      k, offset := k + 1, next;
      MixedStep(ts, k, n);
      tag, next := f.TagIn(offset, k);
    }
    MixedStep(ts, k, n);
  }

  lemma {:induction false} FirstOff(ts: seq<Tok>)
    ensures Off(ts, 0) == 0
  {
  }

  lemma {:induction false} FixKeeps(t: Tok, n: nat)
    ensures TokSize(FixTok(t, n)) == TokSize(t) && (!t.Prop? ==> FixTok(t, n) == t)
  {
  }

  /**
   * Ends the tree: an END token, the string block moved down against the
   * structure block, and names turned into offsets. A reader of the result
   * finds exactly what was written.
   */
  method Finish(w: Sw) returns (err: int, f: Fdt?)
    requires w.Valid() && Done !in Events(w.toks, w.Strings())
    modifies w`sizeStruct, w`toks, w.buf
    ensures err == if old(w.sizeStruct) + 4 > w.totalsize - w.offStruct - w.sizeStrings then NOSPACE else 0
    ensures f != null <==> err == 0
    ensures err != 0 ==> w.Valid() && Events(w.toks, w.Strings()) == old(Events(w.toks, w.Strings()))
    ensures f != null ==> fresh(f) && f.buf == w.buf && f.Valid() && f.Strings() == old(w.Strings())
    ensures f != null ==> f.offStrings == f.offStruct + f.sizeStruct && f.totalsize == f.offStrings + f.sizeStrings
    ensures f != null ==> f.offRsv == w.offRsv && f.offStruct == w.offStruct && f.Front() == old(w.Front())
    ensures f != null ==> ReadEvents(f.toks, f.Strings()) == old(Events(w.toks, w.Strings())) + [Done]
  {
    hide Part, Enc, Events, ReadEvents, BackNames, FixAll, ValidToks, w.Front, w.Strings, w.Struct;
    f := null;
    ghost var ts0, strs := w.toks, w.Strings();
    NoEnds(ts0, strs);
    err := PushTag(w, End);
    if err != 0 { return; }
    FixReads(w.toks, strs);
    f := HandOver(w);
    FixNames(f, w.toks);
    Trim(f);
  }

  /** Moves the string block down and hands the buffer over as a blob. */
  method HandOver(w: Sw) returns (f: Fdt)
    requires w.Valid()
    modifies w.buf
    ensures fresh(f) && f.buf == w.buf && f.Framed() && f.toks == w.toks && f.Strings() == old(w.Strings())
    ensures f.offStrings == f.offStruct + f.sizeStruct && f.sizeStrings == w.sizeStrings
    ensures f.offRsv == w.offRsv && f.offStruct == w.offStruct && f.Front() == w.Front() == old(w.Front())
  {
    hide Part, Enc, BackNames, ValidToks;
    var newoff := w.offStruct + w.sizeStruct;
    ghost var m, strs := w.buf[..], w.Strings();
    assert w.Front() == m[..w.offStruct];
    Move(w.buf, newoff, w.totalsize - w.sizeStrings, w.sizeStrings);
    Relocated(w, m, newoff, strs);
    f := new Fdt(w.buf, w.totalsize, w.offRsv, w.offStruct, w.sizeStruct, newoff, w.sizeStrings, w.toks);
  }

  /** Gives up the space behind the string block. */
  method Trim(f: Fdt)
    requires f.Framed() && NamesOk(f.toks, f.Strings()) && f.offStruct + f.sizeStruct == f.offStrings
    modifies f`totalsize
    ensures f.Valid() && f.totalsize == f.offStrings + f.sizeStrings && f.Strings() == old(f.Strings())
    ensures f.Front() == old(f.Front())
  {
    f.totalsize := f.offStrings + f.sizeStrings;
  }

  /** Moving the string block down leaves the structure block alone. */
  lemma {:induction false} Relocated(w: Sw, m: seq<byte>, newoff: nat, strs: seq<byte>)
    requires w.Layout() && newoff == w.offStruct + w.sizeStruct && |m| == w.buf.Length
    requires strs == Part(m, w.totalsize - w.sizeStrings, w.sizeStrings)
    requires w.buf[newoff..newoff + w.sizeStrings] == m[w.totalsize - w.sizeStrings..w.totalsize]
    requires forall i :: 0 <= i < w.buf.Length && !(newoff <= i < newoff + w.sizeStrings) ==> w.buf[i] == m[i]
    ensures Part(w.buf[..], newoff, w.sizeStrings) == strs
    ensures Part(w.buf[..], w.offStruct, w.sizeStruct) == Part(m, w.offStruct, w.sizeStruct)
    ensures w.Front() == m[..w.offStruct]
  {
    assert w.buf[newoff..newoff + w.sizeStrings] == w.buf[..][newoff..newoff + w.sizeStrings];
  }
}

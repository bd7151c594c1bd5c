/** The read-write functions: properties and nodes set, added, removed and blanked in place. */
module FdtRw {
  import opened Bytes
  import opened FdtTokens
  import opened FdtTree
  import opened FdtSpec
  import opened FdtBlob
  import opened FdtEdit

  // ---- properties, in bytes

  lemma {:induction false} PropHead(ts: seq<Tok>, i: nat)
    requires i < |ts| && ts[i].Prop?
    ensures var p, s, t := Off(ts, i), Enc(ts), ts[i];
      && p + 12 <= |s| && s[p..p + 4] == Be(PROP, 4) && s[p + 4..p + 8] == Be(|t.val|, 4)
      && s[p + 8..p + 12] == Be(t.nameoff, 4)
  {
    hide Enc, Off, Be;
    TokIn(ts, i);
    var p, s, t := Off(ts, i), Enc(ts), ts[i];
    var rest := t.val + t.pad + Enc(ts[i + 1..]);
    assert s[p..] == Be(PROP, 4) + Be(|t.val|, 4) + Be(t.nameoff, 4) + rest;
    SubSlice(s, p, |s|, 0, 4);
    SubSlice(s, p, |s|, 4, 8);
    SubSlice(s, p, |s|, 8, 12);
    assert s[p..|s|] == s[p..];
  }

  /** s differs from the block of ts only behind off + 12, in length, and in the tail after the value. */
  lemma {:induction false} ResizeBytes(ts: seq<Tok>, j: nat, val: seq<byte>, s: seq<byte>) returns (pad: seq<byte>)
    requires ValidToks(ts) && j < |ts| && ts[j].Prop? && |val| < MAX
    requires var off, n := Off(ts, j), Align4(|val|);
      && |s| == Size(ts) - Align4(|ts[j].val|) + n && off + 12 + n <= |s| && off + 12 + Align4(|ts[j].val|) <= Size(ts)
      && s[..off + 4] == Enc(ts)[..off + 4] && s[off + 4..off + 8] == Be(|val|, 4)
      && s[off + 8..off + 12] == Enc(ts)[off + 8..off + 12]
      && s[off + 12..off + 12 + |val|] == val && s[off + 12 + n..] == Enc(ts)[off + 12 + Align4(|ts[j].val|)..]
    ensures var t := Prop(ts[j].nameoff, val, pad); ValidTok(t) && s == Enc(ts[j := t])
  {
    hide Enc, Off, Be, EncTok;
    var off, n := Off(ts, j), Align4(|val|);
    PropHead(ts, j);
    EncSplit(ts, j, j + 1);
    OffStep(ts, j);
    SubSlice(s, 0, off + 4, 0, off);
    SubSlice(Enc(ts), 0, off + 4, 0, off);
    SubSlice(s, 0, off + 4, off, off + 4);
    SubSlice(Enc(ts), 0, off + 4, off, off + 4);
    assert s[0..off + 4] == s[..off + 4] && Enc(ts)[0..off + 4] == Enc(ts)[..off + 4] && s[0..off] == s[..off] &&
      Enc(ts)[0..off] == Enc(ts)[..off];
    pad := PropBytes(s, off, ts[j].nameoff, val);
    var t := Prop(ts[j].nameoff, val, pad);
    EncOne(t);
    EncThree(s, off, off + 12 + n, ts[..j], [t], ts[j + 1..]);
    assert ts[j := t] == ts[..j] + [t] + ts[j + 1..];
  }

  lemma {:induction false} PrefixOf(s: seq<byte>, r: seq<byte>, n: nat, x: nat, y: nat)
    requires x <= y <= n <= |s| && n <= |r| && s[..n] == r[..n]
    ensures s[x..y] == r[x..y] && s[..x] == r[..x]
  {
    SubSlice(s, 0, n, x, y);
    SubSlice(r, 0, n, x, y);
    SubSlice(s, 0, n, 0, x);
    SubSlice(r, 0, n, 0, x);
    assert s[0..n] == s[..n] && r[0..n] == r[..n] && s[0..x] == s[..x] && r[0..x] == r[..x];
  }

  /** A gap of the right length, then the new length and value written: the token with the new value. */
  lemma {:induction false} ResizeOver(ts: seq<Tok>, j: nat, val: seq<byte>, s1: seq<byte>) returns (pad: seq<byte>)
    requires ValidToks(ts) && j < |ts| && ts[j].Prop? && |val| < MAX
    requires var off, n, m := Off(ts, j), Align4(|val|), Align4(|ts[j].val|);
      && |s1| == Size(ts) - m + n && off + 12 + n <= |s1| && off + 12 + m <= Size(ts)
      && s1[..off + 12] == Enc(ts)[..off + 12] && s1[off + 12 + n..] == Enc(ts)[off + 12 + m..]
    ensures var off, t := Off(ts, j), Prop(ts[j].nameoff, val, pad);
      ValidTok(t) && Over(Over(s1, off + 4, Be(|val|, 4)), off + 12, val) == Enc(ts[j := t])
  {
    hide Enc, Off, Be, Over, ValidToks, ValidTok;
    var off, n, len := Off(ts, j), Align4(|val|), Be(|val|, 4);
    var s2 := Over(s1, off + 4, len);
    var s := Over(s2, off + 12, val);
    PrefixOf(s1, Enc(ts), off + 12, off + 8, off + 12);
    PrefixOf(s1, Enc(ts), off + 12, off + 4, off + 4);
    OverSlices(s1, off + 4, len, 0, off + 4);
    OverSlices(s1, off + 4, len, off + 8, off + 12);
    OverSlices(s1, off + 4, len, off + 12 + n, |s1|);
    OverSlices(s2, off + 12, val, 0, off + 4);
    OverSlices(s2, off + 12, val, off + 4, off + 8);
    OverSlices(s2, off + 12, val, off + 8, off + 12);
    OverSlices(s2, off + 12, val, off + 12 + n, |s1|);
    Ends(s1, off + 4, off + 12 + n);
    Ends(s, off + 4, off + 12 + n);
    pad := ResizeBytes(ts, j, val, s);
  }

  lemma {:induction false} Ends(s: seq<byte>, x: nat, y: nat)
    requires x <= |s| && y <= |s|
    ensures s[0..x] == s[..x] && s[y..|s|] == s[y..]
  {
  }

  /** Gives property j a new value, moving what follows. */
  method ResizeProp(f: Fdt, off: nat, val: seq<byte>, ghost j: nat) returns (err: int, ghost pad: seq<byte>)
    requires f.Valid() && Ordered(f) && j < |f.toks| && f.toks[j].Prop? && off == Off(f.toks, j) && |val| < MAX
    modifies f`sizeStruct, f`offStrings, f`toks, f.buf
    ensures f.Valid() && Ordered(f) && f.Strings() == old(f.Strings())
    ensures err == if old(DataSize(f)) - Align4(|old(f.toks)[j].val|) + Align4(|val|) > f.totalsize then NOSPACE else 0
    ensures f.toks == if err == 0 then old(f.toks)[j := Prop(old(f.toks)[j].nameoff, val, pad)] else old(f.toks)
    ensures err == 0 ==> DataSize(f) == old(DataSize(f)) - Align4(|old(f.toks)[j].val|) + Align4(|val|)
    ensures f.Front() == old(f.Front())
  {
    hide Enc, Off, Be, Over, Part, BeDec, ValidTok, NameOk, Align4, f.Front, f.Struct, f.Strings;
    ghost var ts, strs := f.toks, f.Strings();
    PropFits(ts, j);
    f.PropHere(j);
    var oldlen := f.Word(f.offStruct + off + 4);
    pad := [];
    err := SpliceStruct(f, off + 12, Align4(oldlen), Align4(|val|));
    if err != 0 { return; }
    pad := ResizeOver(ts, j, val, f.Struct());
    Poke(f, off + 4, Be(|val|, 4));
    Poke(f, off + 12, val);
    NamesReplace(ts, strs, j, Prop(ts[j].nameoff, val, pad));
    Retag(f, ts[j := Prop(ts[j].nameoff, val, pad)]);
  }

  /** The structure block now spells out ts. */
  ghost method Retag(f: Fdt, ts: seq<Tok>)
    requires f.Blocks() && f.Struct() == Enc(ts) && ValidToks(ts) && NamesOk(ts, f.Strings())
    modifies f`toks
    ensures f.toks == ts && f.Valid() && f.Strings() == old(f.Strings()) && f.Struct() == old(f.Struct())
  {
    f.toks := ts;
  }

  lemma {:induction false} PropFits(ts: seq<Tok>, j: nat)
    requires ValidToks(ts) && j < |ts| && ts[j].Prop?
    ensures Off(ts, j) + 12 + Align4(|ts[j].val|) <= Size(ts)
  {
    EncSplit(ts, j, j + 1);
    OffStep(ts, j);
  }

  lemma {:induction false} NamesReplace(ts: seq<Tok>, strs: seq<byte>, j: nat, t: Tok)
    requires NamesOk(ts, strs) && ValidToks(ts) && j < |ts| && ValidTok(t) && (t.Prop? ==> NameOk(strs, t.nameoff))
    ensures NamesOk(ts[j := t], strs) && ValidToks(ts[j := t])
  {
  }

  // ---- the string block

  predicate TextAtOff(strs: seq<byte>, i: nat, text: seq<byte>) {
    i + |text| <= |strs| && strs[i..i + |text|] == text
  }

  /** The name stands in the string block, perhaps as the end of a longer one. */
  ghost predicate Stored(strs: seq<byte>, name: seq<byte>) {
    exists k :: TextAtOff(strs, k, name + [0])
  }

  /** What the string block grows by when a name is needed. */
  ghost function NameCost(strs: seq<byte>, name: seq<byte>): nat {
    if Stored(strs, name) then 0 else |name| + 1
  }

  /** What the data grows by when a property, with value v now, is set. */
  ghost function SetCost(strs: seq<byte>, v: Option<seq<byte>>, name: seq<byte>, val: seq<byte>): int {
    if v.Some? then Align4(|val|) - Align4(|v.value|) else NameCost(strs, name) + 12 + Align4(|val|)
  }

  /** The first place where s and its terminator stand in the string block. */
  method FindString(f: Fdt, s: seq<byte>) returns (k: int)
    requires f.Blocks()
    ensures k >= 0 ==> TextAtOff(f.Strings(), k, s + [0])
    ensures forall i :: 0 <= i && (k < 0 || i < k) ==> !TextAtOff(f.Strings(), i, s + [0])
  {
    hide Part;
    var len, bytes := |s| + 1, s + [0];
    k := 0;
    while k + len <= f.sizeStrings
      invariant 0 <= k
      invariant forall i :: 0 <= i < k ==> !TextAtOff(f.Strings(), i, bytes)
    {
      f.StringSlice(k, len);
      if f.buf[f.offStrings + k..f.offStrings + k + len] == bytes { return; }
      k := k + 1;
    }
    k := -1;
  }

  /** The offset of name in the string block, where it is added if need be. */
  method FindAddString(f: Fdt, name: seq<byte>) returns (off: int, ghost more: seq<byte>)
    requires f.Valid() && Ordered(f) && NoNul(name)
    modifies f`sizeStrings, f.buf
    ensures f.Valid() && Ordered(f) && f.Strings() == old(f.Strings()) + more && f.Struct() == old(f.Struct())
    ensures off < 0 <==> old(DataSize(f)) + NameCost(old(f.Strings()), name) > f.totalsize
    ensures off < 0 ==> off == NOSPACE && more == [] && DataSize(f) == old(DataSize(f))
    ensures off >= 0 ==> |more| == NameCost(old(f.Strings()), name) && DataSize(f) == old(DataSize(f)) + |more|
    ensures off >= 0 ==> NameOk(f.Strings(), off) && NameAt(f.Strings(), off) == name && off < f.sizeStrings
    ensures more == [] || more == name + [0]
    ensures f.Front() == old(f.Front())
  {
    hide Part, NameOk, NameAt, Over, Enc, ValidToks, NamesOk;
    more := [];
    ghost var strs := f.Strings();
    assert strs + [] == strs;
    off := FindString(f, name);
    if off >= 0 {
      TextAt(strs, off, name);
      assert Stored(strs, name);
      return;
    }
    assert !Stored(strs, name);
    off := f.sizeStrings;
    ghost var n := f.sizeStrings;
    var err := SpliceString(f, |name| + 1);
    if err != 0 { return err, []; }
    ghost var strs1 := f.Strings();
    more := name + [0];
    OverEnd(strs1, strs, more);
    PokeString(f, off, name + [0]);
    TextAt(strs + more, off, name);
    NamesGrow(f.toks, strs, more);
  }

  lemma {:induction false} TextAt(strs: seq<byte>, off: nat, name: seq<byte>)
    requires NoNul(name) && off + |name| + 1 <= |strs| && strs[off..off + |name| + 1] == name + [0]
    ensures NameOk(strs, off) && NameAt(strs, off) == name
  {
    hide NameOk, NameAt;
    var t := strs[off..off + |name| + 1];
    SubSlice(strs, off, off + |name| + 1, 0, |name|);
    assert t[..|name|] == name && t[|name|] == 0;
    assert strs[off + |name|] == t[|name|];
    NameAtIs(strs, off, name);
  }

  lemma {:induction false} OverEnd(s1: seq<byte>, s: seq<byte>, more: seq<byte>)
    requires |s1| == |s| + |more| && s1[..|s|] == s
    ensures Over(s1, |s|, more) == s + more && (s + more)[|s|..|s| + |more|] == more
  {
  }

  lemma {:induction false} NamesGrow(ts: seq<Tok>, strs: seq<byte>, more: seq<byte>)
    requires NamesOk(ts, strs)
    ensures NamesOk(ts, strs + more)
  {
    hide NameOk;
    forall i | 0 <= i < |ts| && ts[i].Prop?
      ensures NameOk(strs + more, ts[i].nameoff)
    {
      NameKeeps(strs, ts[i].nameoff, more);
    }
  }

  // ---- adding a property

  /** Header and value written over a gap: a property token with some padding; the rest stays. */
  lemma {:induction false} PropPokes(s1: seq<byte>, off: nat, nameoff: nat, val: seq<byte>) returns (pad: seq<byte>)
    requires off + 12 + Align4(|val|) <= |s1|
    ensures |pad| == Pad4(|val|)
    ensures var s, e := Over(Over(s1, off, Be(PROP, 4) + Be(|val|, 4) + Be(nameoff, 4)), off + 12, val),
      off + 12 + Align4(|val|);
      s[..off] == s1[..off] && s[off..e] == EncTok(Prop(nameoff, val, pad)) && s[e..] == s1[e..]
  {
    hide Be, Over, EncTok, Align4, Pad4;
    var h, e := Be(PROP, 4) + Be(|val|, 4) + Be(nameoff, 4), off + 12 + Align4(|val|);
    var s2 := Over(s1, off, h);
    var s := Over(s2, off + 12, val);
    OverSlices(s1, off, h, 0, off);
    OverSlices(s1, off, h, e, |s1|);
    OverSlices(s2, off + 12, val, 0, off);
    OverSlices(s2, off + 12, val, off, off + 12);
    OverSlices(s2, off + 12, val, e, |s1|);
    SubSlice(s, off, off + 12, 0, 4);
    SubSlice(s, off, off + 12, 4, 8);
    SubSlice(s, off, off + 12, 8, 12);
    pad := PropBytes(s, off, nameoff, val);
    Ends(s, off, e);
    Ends(s1, off, e);
  }

  lemma {:induction false} AddBytes(ts: seq<Tok>, k: nat, nameoff: nat, val: seq<byte>, s1: seq<byte>)
      returns (pad: seq<byte>)
    requires ValidToks(ts) && k <= |ts| && |val| < MAX && nameoff < U32
    requires var off, n := Off(ts, k), 12 + Align4(|val|);
      && |s1| == Size(ts) + n && off <= Size(ts) && s1[..off] == Enc(ts)[..off] && s1[off + n..] == Enc(ts)[off..]
    ensures var off, t := Off(ts, k), Prop(nameoff, val, pad);
      && ValidTok(t)
      && Over(Over(s1, off, Be(PROP, 4) + Be(|val|, 4) + Be(nameoff, 4)), off + 12, val) == Enc(ts[..k] + [t] + ts[k..])
  {
    hide Enc, Off, Be, Over, ValidToks, EncTok, Align4;
    pad := PropPokes(s1, Off(ts, k), nameoff, val);
    var t := Prop(nameoff, val, pad);
    EncOne(t);
    EncSplit(ts, k, k);
    var off := Off(ts, k);
    EncThree(Over(Over(s1, off, Be(PROP, 4) + Be(|val|, 4) + Be(nameoff, 4)), off + 12, val), off,
      off + 12 + Align4(|val|), ts[..k], [t], ts[k..]);
  }

  lemma {:induction false} NamesInsert(ts: seq<Tok>, strs: seq<byte>, k: nat, t: Tok)
    requires NamesOk(ts, strs) && ValidToks(ts) && k <= |ts| && ValidTok(t) && (t.Prop? ==> NameOk(strs, t.nameoff))
    ensures NamesOk(ts[..k] + [t] + ts[k..], strs) && ValidToks(ts[..k] + [t] + ts[k..])
  {
  }

  /** Adds a property right behind the header of node i. */
  method AddProp(f: Fdt, nodeoffset: nat, name: seq<byte>, val: seq<byte>, ghost i: nat)
    returns (err: int, ghost nameoff: nat, ghost pad: seq<byte>, ghost more: seq<byte>)
    requires f.Valid() && Ordered(f) && i < |f.toks| && f.toks[i].Begin? && nodeoffset == Off(f.toks, i) && NoNul(name)
    requires |val| < MAX
    modifies f`sizeStruct, f`sizeStrings, f`offStrings, f`toks, f.buf
    ensures f.Valid() && Ordered(f) && f.Strings() == old(f.Strings()) + more
    ensures err ==
      if old(DataSize(f)) + NameCost(old(f.Strings()), name) + 12 + Align4(|val|) > f.totalsize then NOSPACE else 0
    ensures err == 0 ==> DataSize(f) == old(DataSize(f)) + NameCost(old(f.Strings()), name) + 12 + Align4(|val|)
    ensures err == 0 ==> f.toks == old(f.toks)[..i + 1] + [Prop(nameoff, val, pad)] + old(f.toks)[i + 1..]
    ensures err == 0 ==> NameOk(f.Strings(), nameoff) && NameAt(f.Strings(), nameoff) == name
    ensures err != 0 ==> f.toks == old(f.toks)
    ensures f.Front() == old(f.Front())
  {
    hide Enc, Off, Be, Over, Part, NameOk, NameAt, Align4, f.Front, f.Struct, f.Strings, NameCost;
    var tag, next := f.TagAt(nodeoffset, i);
    ghost var ts := f.toks;
    pad, nameoff := [], 0;
    var namestroff;
    namestroff, more := FindAddString(f, name);
    if namestroff < 0 { return namestroff, 0, [], more; }
    nameoff := namestroff;
    EncSplit(ts, i + 1, i + 1);
    err := SpliceStruct(f, next, 0, 12 + Align4(|val|));
    if err != 0 { return; }
    pad := AddBytes(ts, i + 1, nameoff, val, f.Struct());
    Poke(f, next, Be(PROP, 4) + Be(|val|, 4) + Be(namestroff, 4));
    Poke(f, next + 12, val);
    NamesInsert(ts, f.Strings(), i + 1, Prop(nameoff, val, pad));
    Retag(f, ts[..i + 1] + [Prop(nameoff, val, pad)] + ts[i + 1..]);
  }

  // ---- setting a property

  /** The value of property name of node i, if it has it. */
  ghost function ValueOf(ts: seq<Tok>, strs: seq<byte>, i: nat, name: seq<byte>): Option<seq<byte>>
    requires i < |ts|
  {
    var p := PropOf(ts[i + 1..], strs, name);
    if p.At? then Some(ts[i + 1 + p.i].val) else None
  }

  /** Tokens after setting name on node i. */
  ghost function PutToks(ts: seq<Tok>, strs: seq<byte>, i: nat, name: seq<byte>, nameoff: nat, val: seq<byte>,
      pad: seq<byte>): seq<Tok>
    requires i < |ts|
  {
    var p := PropOf(ts[i + 1..], strs, name);
    if p.At? then ts[i + 1 + p.i := Prop(ts[i + 1 + p.i].nameoff, val, pad)]
    else ts[..i + 1] + [Prop(nameoff, val, pad)] + ts[i + 1..]
  }

  /** Sets property name of node i to val: in place if it exists, else as a new first property. */
  method SetProp(f: Fdt, nodeoffset: nat, name: seq<byte>, val: seq<byte>, ghost i: nat)
    returns (err: int, ghost nameoff: nat, ghost pad: seq<byte>, ghost more: seq<byte>)
    requires f.Valid() && i < |f.toks| && f.toks[i].Begin? && nodeoffset == Off(f.toks, i) && NoNul(name) && |val| < MAX
    modifies f`sizeStruct, f`sizeStrings, f`offStrings, f`toks, f.buf
    ensures f.Valid() && f.Strings() == old(f.Strings()) + more
    ensures err == 0 ==> f.toks == PutToks(old(f.toks), old(f.Strings()), i, name, nameoff, val, pad)
    ensures err == 0 && PropOf(old(f.toks)[i + 1..], old(f.Strings()), name).Err? ==>
      NameOk(f.Strings(), nameoff) && NameAt(f.Strings(), nameoff) == name
    ensures err != 0 ==> f.toks == old(f.toks)
    ensures Ordered(f) == old(Ordered(f)) && (err == BADLAYOUT <==> !Ordered(f))
    ensures var v := ValueOf(old(f.toks), old(f.Strings()), i, name);
      var size := old(DataSize(f)) + SetCost(old(f.Strings()), v, name, val);
      (err == 0 ==> DataSize(f) == size <= f.totalsize) && (err == NOSPACE ==> size > f.totalsize)
    ensures err == 0 || err == NOSPACE || err == BADLAYOUT ||
      (err != NOTFOUND && Err(err) == PropOf(old(f.toks)[i + 1..], old(f.Strings()), name))
    ensures f.Front() == old(f.Front())
  {
    hide Off, Part, NameOk, NameAt, PropOf, Enc, f.Valid, NameCost, Align4;
    nameoff, pad, more := 0, [], [];
    f.ValidBlocks();
    assert f.Strings() + [] == f.Strings();
    if !Ordered(f) { return BADLAYOUT, 0, [], []; }
    ghost var ts, strs := f.toks, f.Strings();
    var off;
    ghost var j;
    off, j := f.GetProperty(nodeoffset, name, i);
    if off >= 0 {
      err, pad := ResizeProp(f, off, val, j);
    } else if off == NOTFOUND {
      err, nameoff, pad, more := AddProp(f, nodeoffset, name, val, i);
    } else {
      err := off;
    }
  }

  // ---- removing tokens

  lemma {:induction false} CutBytes(ts: seq<Tok>, i: nat, j: nat, s: seq<byte>)
    requires i <= j <= |ts| && |s| == Size(ts) - (Off(ts, j) - Off(ts, i))
    requires Off(ts, i) <= Off(ts, j) <= Size(ts)
    requires s[..Off(ts, i)] == Enc(ts)[..Off(ts, i)] && s[Off(ts, i)..] == Enc(ts)[Off(ts, j)..]
    ensures s == Enc(ts[..i] + ts[j..])
  {
    hide Enc, Off;
    EncSplit(ts, i, j);
    EncConcat(ts[..i], ts[j..]);
    assert s == s[..Off(ts, i)] + s[Off(ts, i)..];
  }

  lemma {:induction false} NamesCut(ts: seq<Tok>, strs: seq<byte>, i: nat, j: nat)
    requires NamesOk(ts, strs) && ValidToks(ts) && i <= j <= |ts|
    ensures NamesOk(ts[..i] + ts[j..], strs) && ValidToks(ts[..i] + ts[j..])
  {
  }

  /** Removes tokens i to j; this always fits. */
  method RemoveToks(f: Fdt, off: nat, end: nat, ghost i: nat, ghost j: nat) returns (err: int)
    requires f.Valid() && Ordered(f) && i <= j <= |f.toks| && off == Off(f.toks, i) && end == Off(f.toks, j)
    modifies f`sizeStruct, f`offStrings, f`toks, f.buf
    ensures err == 0 && f.Valid() && Ordered(f) && f.Strings() == old(f.Strings())
    ensures f.toks == old(f.toks)[..i] + old(f.toks)[j..]
    ensures f.Front() == old(f.Front())
  {
    hide Enc, Off, Part;
    ghost var ts := f.toks;
    EncSplit(ts, i, j);
    err := SpliceStruct(f, off, end - off, 0);
    CutBytes(ts, i, j, f.Struct());
    NamesCut(ts, f.Strings(), i, j);
    Retag(f, ts[..i] + ts[j..]);
  }

  /** Removes node i with everything below it. */
  method DelNode(f: Fdt, nodeoffset: nat, ghost i: nat) returns (err: int)
    requires f.Valid() && i < |f.toks| && f.toks[i].Begin? && nodeoffset == Off(f.toks, i)
    modifies f`sizeStruct, f`offStrings, f`toks, f.buf
    ensures f.Valid() && f.Strings() == old(f.Strings()) && Ordered(f) == old(Ordered(f))
    ensures !Ordered(f) ==> err == BADLAYOUT
    ensures Ordered(f) ==> err == (var e := EndOf(old(f.toks)[i + 1..], 0); if e.Err? then e.e else 0)
    ensures f.toks == if err ==
      0 then old(f.toks)[..i] + old(f.toks)[i + 1 + EndOf(old(f.toks)[i + 1..], 0).i..] else old(f.toks)
    ensures f.Front() == old(f.Front())
  {
    hide Off, EndOf, f.Valid;
    f.ValidBlocks();
    if !Ordered(f) { return BADLAYOUT; }
    var end;
    ghost var j;
    end, j := f.NodeEndOffset(nodeoffset, i);
    if end < 0 { return end; }
    err := RemoveToks(f, nodeoffset, end, i, j);
  }

  /** Removes property name of node i. */
  method DelProp(f: Fdt, nodeoffset: nat, name: seq<byte>, ghost i: nat) returns (err: int)
    requires f.Valid() && i < |f.toks| && f.toks[i].Begin? && nodeoffset == Off(f.toks, i)
    modifies f`sizeStruct, f`offStrings, f`toks, f.buf
    ensures f.Valid() && f.Strings() == old(f.Strings()) && Ordered(f) == old(Ordered(f))
    ensures !Ordered(f) ==> err == BADLAYOUT
    ensures Ordered(f) ==> err == (var e := PropOf(old(f.toks)[i + 1..], f.Strings(), name); if e.Err? then e.e else 0)
    ensures err == 0 ==>
      var j := i + 1 + PropOf(old(f.toks)[i + 1..], f.Strings(), name).i;
      f.toks == old(f.toks)[..j] + old(f.toks)[j + 1..]
    ensures err != 0 ==> f.toks == old(f.toks)
    ensures f.Front() == old(f.Front())
  {
    hide Off, PropOf, f.Valid, Part, Align4, BeDec, f.Word;
    f.ValidBlocks();
    if !Ordered(f) { return BADLAYOUT; }
    var off;
    ghost var j;
    off, j := f.GetProperty(nodeoffset, name, i);
    if off < 0 { return off; }
    var len := PropLen(f, off, j);
    err := RemoveToks(f, off, off + 12 + Align4(len), j, j + 1);
  }

  method PropVal(f: Fdt, off: nat, ghost j: nat) returns (val: seq<byte>)
    requires f.Valid() && j < |f.toks| && f.toks[j].Prop? && off == Off(f.toks, j)
    ensures val == f.toks[j].val
  {
    hide Off, Part, BeDec, Enc, NameOk;
    f.PropHere(j);
    var len := f.Word(f.offStruct + off + 4);
    val := f.buf[f.offStruct + off + 12..f.offStruct + off + 12 + len];
  }

  method PropLen(f: Fdt, off: nat, ghost j: nat) returns (len: nat)
    requires f.Valid() && j < |f.toks| && f.toks[j].Prop? && off == Off(f.toks, j)
    ensures len == |f.toks[j].val| && Off(f.toks, j + 1) == off + 12 + Align4(len)
  {
    hide Off, Part, BeDec, Enc, NameOk;
    f.PropHere(j);
    OffStep(f.toks, j);
    len := f.Word(f.offStruct + off + 4);
  }

  // ---- blanking tokens

  ghost function NopToks(k: nat): (ts: seq<Tok>)
    ensures |ts| == k && forall i :: 0 <= i < k ==> ts[i].Nop?
  {
    seq(k, i => Nop)
  }

  lemma {:induction false} NopSize(k: nat)
    ensures Size(NopToks(k)) == 4 * k && ValidToks(NopToks(k))
  {
    if k > 0 {
      assert NopToks(k)[1..] == NopToks(k - 1);
      NopSize(k - 1);
    }
  }

  lemma {:induction false} NopMore(k: nat)
    ensures Enc(NopToks(k + 1)) == Enc(NopToks(k)) + Be(NOP, 4)
  {
    hide Be;
    assert NopToks(k + 1) == NopToks(k) + [Nop];
    EncConcat(NopToks(k), [Nop]);
    EncOne(Nop);
    assert EncTok(Nop) == Be(NOP, 4) + [];
  }

  /** Writes NOP tags over len bytes, rounded up to whole tags. */
  method NopRegion(f: Fdt, off: nat, len: nat)
    requires f.Blocks() && off + Align4(len) <= f.sizeStruct
    modifies f.buf
    ensures f.Strings() == old(f.Strings()) && Size(NopToks(Align4(len) / 4)) == Align4(len)
    ensures f.Struct() == Over(old(f.Struct()), off, Enc(NopToks(Align4(len) / 4)))
    ensures f.Front() == old(f.Front())
  {
    hide Part, Be, Enc, Over, f.Front;
    ghost var s, k := f.Struct(), 0;
    var p := 0;
    NopNone(s, off);
    while p < len
      invariant p == 4 * k <= Align4(len) && f.Blocks() && f.Strings() == old(f.Strings())
      invariant f.Front() == old(f.Front())
      invariant |Enc(NopToks(k))| == p && f.Struct() == Over(s, off, Enc(NopToks(k)))
    {
      NopMore(k);
      OverOver(s, off, Enc(NopToks(k)), Be(NOP, 4));
      Poke(f, off + p, Be(NOP, 4));
      p, k := p + 4, k + 1;
    }
    NopSize(k);
  }

  lemma {:induction false} NopNone(s: seq<byte>, off: nat)
    requires off <= |s|
    ensures Enc(NopToks(0)) == [] && Over(s, off, []) == s
  {
  }

  lemma {:induction false} OverOver(s: seq<byte>, off: nat, a: seq<byte>, b: seq<byte>)
    requires off + |a| + |b| <= |s|
    ensures Over(Over(s, off, a), off + |a|, b) == Over(s, off, a + b)
  {
    var s1 := Over(s, off, a);
    assert s1[..off + |a|] == s[..off] + a;
    assert s1[off + |a| + |b|..] == s[off + |a| + |b|..];
  }

  lemma {:induction false} OverToks(ts: seq<Tok>, i: nat, j: nat, b: seq<Tok>)
    requires i <= j <= |ts| && Off(ts, i) <= Off(ts, j) <= Size(ts) && Size(b) == Off(ts, j) - Off(ts, i)
    ensures Over(Enc(ts), Off(ts, i), Enc(b)) == Enc(ts[..i] + b + ts[j..])
  {
    hide Enc, Off;
    EncSplit(ts, i, j);
    EncConcat(ts[..i] + b, ts[j..]);
    EncConcat(ts[..i], b);
  }

  lemma {:induction false} NamesBlank(ts: seq<Tok>, strs: seq<byte>, i: nat, j: nat, b: seq<Tok>)
    requires NamesOk(ts, strs) && ValidToks(ts) && i <= j <= |ts| && forall k :: 0 <= k < |b| ==>
      !b[k].Prop? && ValidTok(b[k])
    ensures NamesOk(ts[..i] + b + ts[j..], strs) && ValidToks(ts[..i] + b + ts[j..])
  {
  }

  /** Blanks tokens i to j. */
  method NopRange(f: Fdt, off: nat, len: nat, ghost i: nat, ghost j: nat)
    requires f.Valid() && i <= j <= |f.toks| && off == Off(f.toks, i) && off + Align4(len) == Off(f.toks, j)
    modifies f`toks, f.buf
    ensures f.Valid() && f.Strings() == old(f.Strings())
    ensures f.toks == old(f.toks)[..i] + NopToks(Align4(len) / 4) + old(f.toks)[j..]
    ensures f.Front() == old(f.Front())
  {
    hide Enc, Off, Part, Over, Align4;
    ghost var ts := f.toks;
    EncSplit(ts, i, j);
    NopRegion(f, off, len);
    ghost var b := NopToks(Align4(len) / 4);
    OverToks(ts, i, j, b);
    NamesBlank(ts, f.Strings(), i, j, b);
    Retag(f, ts[..i] + b + ts[j..]);
  }

  /** Blanks node i with everything below it. */
  method NopNode(f: Fdt, nodeoffset: nat, ghost i: nat) returns (err: int, ghost k: nat)
    requires f.Valid() && i < |f.toks| && f.toks[i].Begin? && nodeoffset == Off(f.toks, i)
    modifies f`toks, f.buf
    ensures f.Valid() && f.Strings() == old(f.Strings())
    ensures err == (var e := EndOf(old(f.toks)[i + 1..], 0); if e.Err? then e.e else 0)
    ensures f.toks == if err ==
      0 then old(f.toks)[..i] + NopToks(k) + old(f.toks)[i + 1 + EndOf(old(f.toks)[i + 1..], 0).i..] else old(f.toks)
    ensures f.Front() == old(f.Front())
  {
    hide Off, EndOf, f.Valid, Align4, NopToks, f.Strings;
    f.ValidBlocks();
    k := 0;
    var end;
    ghost var j;
    end, j := f.NodeEndOffset(nodeoffset, i);
    if end < 0 { return end, 0; }
    Whole(f, i, j);
    NopRange(f, nodeoffset, end - nodeoffset, i, j);
    return 0, Align4(end - nodeoffset) / 4;
  }

  lemma {:induction false} Whole(f: Fdt, i: nat, j: nat)
    requires f.Valid() && i <= j <= |f.toks|
    ensures Off(f.toks, i) <= Off(f.toks, j)
    ensures Align4(Off(f.toks, j) - Off(f.toks, i)) == Off(f.toks, j) - Off(f.toks, i)
  {
    hide Off, Enc, Part, Align4;
    OffMono(f.toks, i, j);
    OffAligned(f.toks, i);
    OffAligned(f.toks, j);
    Multiple(Off(f.toks, j), Off(f.toks, i));
  }

  lemma {:induction false} OffAligned(ts: seq<Tok>, i: nat)
    requires ValidToks(ts) && i <= |ts|
    ensures Off(ts, i) % 4 == 0
  {
    SizeAligned(ts[..i]);
  }

  lemma {:induction false} Multiple(a: nat, b: nat)
    requires b <= a && a % 4 == 0 && b % 4 == 0
    ensures (a - b) % 4 == 0 && Align4(a - b) == a - b
  {
  }

  /** Blanks property name of node i. */
  method NopProp(f: Fdt, nodeoffset: nat, name: seq<byte>, ghost i: nat) returns (err: int, ghost k: nat)
    requires f.Valid() && i < |f.toks| && f.toks[i].Begin? && nodeoffset == Off(f.toks, i)
    modifies f`toks, f.buf
    ensures f.Valid() && f.Strings() == old(f.Strings())
    ensures err == (var e := PropOf(old(f.toks)[i + 1..], f.Strings(), name); if e.Err? then e.e else 0)
    ensures err == 0 ==>
      var j := i + 1 + PropOf(old(f.toks)[i + 1..], f.Strings(), name).i;
      f.toks == old(f.toks)[..j] + NopToks(k) + old(f.toks)[j + 1..]
    ensures err != 0 ==> f.toks == old(f.toks)
    ensures f.Front() == old(f.Front())
  {
    hide Off, PropOf, f.Valid, Part, Pad4;
    f.ValidBlocks();
    k := 0;
    var off;
    ghost var j;
    off, j := f.GetProperty(nodeoffset, name, i);
    if off < 0 { return off, 0; }
    var len := PropLen(f, off, j);
    AlignShift(12, len);
    NopRange(f, off, len + 12, j, j + 1);
    return 0, Align4(len + 12) / 4;
  }

  // ---- adding a node

  ghost function NewNode(name: seq<byte>): seq<Tok> {
    [Begin(name, Zeros(Pad4(|name| + 1))), EndNode]
  }

  lemma {:induction false} NewNodeBytes(name: seq<byte>)
    requires NoNul(name)
    ensures Enc(NewNode(name)) == Be(BEGIN_NODE, 4) + (name + Zeros(Align4(|name| + 1) - |name|)) + Be(END_NODE, 4)
    ensures Size(NewNode(name)) == 4 + Align4(|name| + 1) + 4 && ValidToks(NewNode(name))
  {
    hide Be, Zeros;
    var b, z := Begin(name, Zeros(Pad4(|name| + 1))), Zeros(Align4(|name| + 1) - |name|);
    assert NewNode(name) == [b] + [EndNode];
    EncConcat([b], [EndNode]);
    EncOne(b);
    EncOne(EndNode);
    assert z == [0] + Zeros(Pad4(|name| + 1));
    assert EncTok(EndNode) == Be(END_NODE, 4) + [];
    assert EncTok(b) == Be(BEGIN_NODE, 4) + (name + z);
  }

  /** The first token after the header of node i that is neither a property nor a NOP. */
  method AfterProps(f: Fdt, nodeoffset: nat, ghost i: nat) returns (offset: nat, ghost k: nat)
    requires f.Valid() && i < |f.toks| && f.toks[i].Begin? && nodeoffset == Off(f.toks, i)
    ensures k == i + 1 + Leading(f.toks[i + 1..]) <= |f.toks| && offset == Off(f.toks, k)
  {
    hide Off, f.Valid;
    var tag, next := f.TagAt(nodeoffset, i);
    offset, k := next, i + 1;
    tag, next := f.TagAt(offset, k);
    while tag == PROP || tag == NOP
      invariant i < k <= |f.toks| && offset == Off(f.toks, k)
      invariant Leading(f.toks[i + 1..]) == k - i - 1 + Leading(f.toks[k..])
      invariant k < |f.toks| ==> tag == TagOf(f.toks[k]) && next == Off(f.toks, k + 1)
      invariant k == |f.toks| ==> tag == END
      decreases |f.toks| - k
    {
      assert f.toks[k..][1..] == f.toks[k + 1..];
      offset, k := next, k + 1;
      tag, next := f.TagAt(offset, k);
    }
  }

  lemma {:induction false} InsertBytes(ts: seq<Tok>, k: nat, b: seq<Tok>, s1: seq<byte>)
    requires k <= |ts| && Off(ts, k) <= Size(ts) && |s1| == Size(ts) + Size(b)
    requires s1[..Off(ts, k)] == Enc(ts)[..Off(ts, k)] && s1[Off(ts, k) + Size(b)..] == Enc(ts)[Off(ts, k)..]
    ensures Over(s1, Off(ts, k), Enc(b)) == Enc(ts[..k] + b + ts[k..])
  {
    hide Enc, Off;
    EncSplit(ts, k, k);
    EncConcat(ts[..k] + b, ts[k..]);
    EncConcat(ts[..k], b);
  }

  /** Adds an empty child called name behind the leading properties and NOPs of node i. */
  method AddSubnode(f: Fdt, parent: nat, name: seq<byte>, ghost i: nat) returns (offset: int, ghost k: nat)
    requires f.Valid() && i < |f.toks| && f.toks[i].Begin? && parent == Off(f.toks, i) && NoNul(name)
    modifies f`sizeStruct, f`offStrings, f`toks, f.buf
    ensures f.Valid() && f.Strings() == old(f.Strings()) && Ordered(f) == old(Ordered(f))
    ensures offset >= 0 ==> Ordered(f) && SubOf(old(f.toks)[i + 1..], 0, name) == Err(NOTFOUND)
    ensures offset >= 0 ==> k == i + 1 + Leading(old(f.toks)[i + 1..]) <= |old(f.toks)| && offset == Off(old(f.toks), k)
    ensures offset >= 0 ==> f.toks == old(f.toks)[..k] + NewNode(name) + old(f.toks)[k..]
    ensures offset < 0 ==> f.toks == old(f.toks)
    ensures !old(Ordered(f)) ==> offset == BADLAYOUT
    ensures Ordered(f) ==> (offset == EXISTS <==> SubOf(old(f.toks)[i + 1..], 0, name).At?)
    ensures Ordered(f) && SubOf(old(f.toks)[i + 1..], 0, name) == Err(TRUNCATED) ==> offset == TRUNCATED
    ensures Ordered(f) && SubOf(old(f.toks)[i + 1..], 0, name) == Err(NOTFOUND) ==>
      (offset < 0 <==> old(DataSize(f)) + 8 + Align4(|name| + 1) > f.totalsize) && (offset < 0 ==> offset == NOSPACE)
    ensures DataSize(f) == old(DataSize(f)) + if offset >= 0 then 8 + Align4(|name| + 1) else 0
    ensures f.Front() == old(f.Front())
  {
    hide Off, SubOf, f.Valid, Leading, Align4;
    f.ValidBlocks();
    k := 0;
    if !Ordered(f) { return BADLAYOUT, 0; }
    ghost var j;
    SubOfFacts(f.toks[i + 1..], 0, name);
    offset, j := f.SubnodeOffset(parent, name, i);
    if offset >= 0 { return EXISTS, 0; }
    if offset != NOTFOUND { return; }
    offset, k := AfterProps(f, parent, i);
    var err := InsertNode(f, offset, name, k);
    if err != 0 { offset := err; }
  }

  method InsertNode(f: Fdt, offset: nat, name: seq<byte>, ghost k: nat) returns (err: int)
    requires f.Valid() && Ordered(f) && k <= |f.toks| && offset == Off(f.toks, k) && NoNul(name)
    modifies f`sizeStruct, f`offStrings, f`toks, f.buf
    ensures f.Valid() && f.Strings() == old(f.Strings()) && Ordered(f)
    ensures err == if old(DataSize(f)) + 8 + Align4(|name| + 1) > f.totalsize then NOSPACE else 0
    ensures f.toks == if err == 0 then old(f.toks)[..k] + NewNode(name) + old(f.toks)[k..] else old(f.toks)
    ensures DataSize(f) == old(DataSize(f)) + if err == 0 then 8 + Align4(|name| + 1) else 0
    ensures f.Front() == old(f.Front())
  {
    hide Enc, Off, Part, Over, Align4, Be, NewNode, Zeros;
    ghost var ts, b := f.toks, NewNode(name);
    EncSplit(ts, k, k);
    NewNodeBytes(name);
    err := SpliceStruct(f, offset, 0, 4 + Align4(|name| + 1) + 4);
    if err != 0 { return; }
    InsertBytes(ts, k, b, f.Struct());
    Poke(f, offset, Be(BEGIN_NODE, 4) + (name + Zeros(Align4(|name| + 1) - |name|)) + Be(END_NODE, 4));
    NewNodeIs(name);
    NamesBlank(ts, f.Strings(), k, k, b);
    Retag(f, ts[..k] + b + ts[k..]);
  }

  lemma {:induction false} NewNodeIs(name: seq<byte>)
    requires NoNul(name)
    ensures forall k :: 0 <= k < |NewNode(name)| ==> !NewNode(name)[k].Prop? && ValidTok(NewNode(name)[k])
  {
  }
}

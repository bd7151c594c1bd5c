/** A flattened device tree in memory, and the functions that walk it. */
module FdtBlob {
  import opened Bytes
  import opened FdtTokens
  import opened FdtTree

  /** n bytes at a. */
  function Part(w: seq<byte>, a: nat, n: nat): (s: seq<byte>)
    requires a + n <= |w|
    ensures |s| == n
  {
    w[a..a + n]
  }

  /**
   * buf is the memory of the blob. The header fields the code works with are
   * kept beside it. toks is what the structure block spells out.
   */
  class Fdt {
    var buf: array<byte>
    var totalsize: nat
    var offRsv: nat
    var offStruct: nat
    var sizeStruct: nat
    var offStrings: nat
    var sizeStrings: nat
    ghost var toks: seq<Tok>

    constructor (buf: array<byte>, totalsize: nat, offRsv: nat, offStruct: nat, sizeStruct: nat, offStrings: nat,
        sizeStrings: nat, ghost toks: seq<Tok>)
      ensures this.buf == buf && this.totalsize == totalsize && this.offRsv == offRsv && this.offStruct == offStruct
      ensures this.sizeStruct == sizeStruct && this.offStrings == offStrings && this.sizeStrings == sizeStrings
      ensures this.toks == toks
    {
      this.buf, this.totalsize, this.offRsv, this.offStruct := buf, totalsize, offRsv, offStruct;
      this.sizeStruct, this.offStrings, this.sizeStrings, this.toks := sizeStruct, offStrings, sizeStrings, toks;
    }

    /** The two blocks lie in the buffer and do not overlap. */
    ghost predicate Blocks()
      reads this
    {
      && totalsize <= buf.Length && totalsize < MAX
      && offStruct + sizeStruct <= totalsize && offStrings + sizeStrings <= totalsize
      && (offStruct + sizeStruct <= offStrings || offStrings + sizeStrings <= offStruct)
    }

    ghost function Struct(): (s: seq<byte>)
      requires Blocks()
      reads this, buf
      ensures |s| == sizeStruct
    {
      Part(buf[..], offStruct, sizeStruct)
    }

    ghost function Strings(): (s: seq<byte>)
      requires Blocks()
      reads this, buf
      ensures |s| == sizeStrings
    {
      Part(buf[..], offStrings, sizeStrings)
    }

    /** What lies before the structure block: the header and the memory reserve map. */
    ghost function Front(): seq<byte>
      reads `buf, `offStruct, buf
    {
      if offStruct <= buf.Length then buf[..offStruct] else []
    }

    /** The structure block is a run of well-formed tokens. */
    ghost predicate Framed()
      reads this, buf
    {
      Blocks() && ValidToks(toks) && Struct() == Enc(toks)
    }

    /** Besides, property names are in the string block. */
    ghost predicate Valid()
      reads this, buf
    {
      Framed() && NamesOk(toks, Strings())
    }

    predicate OffsetPtr(off: int, len: nat)
      reads this
    {
      0 <= off && offStruct + off + len <= totalsize && off + len <= sizeStruct
    }

    function Word(pos: nat): nat
      requires pos + 4 <= buf.Length
      reads this, buf
    {
      BeDec(buf[pos..pos + 4])
    }

    lemma {:induction false} StructSlice(off: nat, len: nat)
      requires Blocks() && off + len <= sizeStruct
      ensures buf[offStruct + off..offStruct + off + len] == Struct()[off..off + len]
    {
      PartSlice(buf[..], offStruct, sizeStruct, off, len);
      assert buf[offStruct + off..offStruct + off + len] == buf[..][offStruct + off..offStruct + off + len];
    }

    lemma {:induction false} StringSlice(off: nat, len: nat)
      requires Blocks() && off + len <= sizeStrings
      ensures buf[offStrings + off..offStrings + off + len] == Strings()[off..off + len]
    {
      PartSlice(buf[..], offStrings, sizeStrings, off, len);
      assert buf[offStrings + off..offStrings + off + len] == buf[..][offStrings + off..offStrings + off + len];
    }

    lemma {:induction false} StructTail(off: nat)
      requires Blocks() && off <= sizeStruct
      ensures buf[offStruct + off..offStruct + sizeStruct] == Struct()[off..]
    {
      StructSlice(off, sizeStruct - off);
      assert Struct()[off..] == Struct()[off..sizeStruct];
    }

    /** Length of the C string at start, not looking beyond end. */
    method CStrLen(start: nat, end: nat) returns (n: nat)
      requires start <= end <= buf.Length
      ensures n == StrLen(buf[start..end]) && start + n <= end
    {
      hide StrLen;
      ghost var rest := buf[start..end];
      n := 0;
      while start + n < end && buf[start + n] != 0
        invariant start + n <= end
        invariant forall i :: 0 <= i < n ==> rest[i] != 0
      {
        n := n + 1;
      }
      StrLenAt(rest, n);
    }

    /** Just behind the name that starts at start, or -1 when it is not terminated. */
    method AfterName(start: nat) returns (offset: int)
      requires Blocks() && start <= sizeStruct
      ensures var n := StrLen(Struct()[start..]); offset == if start + n == sizeStruct then -1 else start + n + 1
    {
      hide StrLen, Part;
      var n := CStrLen(offStruct + start, offStruct + sizeStruct);
      StructTail(start);
      return if start + n == sizeStruct then -1 else start + n + 1;
    }

    /** The cell at off, or -1 when the block ends before it does. */
    method Cell(off: nat) returns (v: int)
      requires Blocks()
      ensures v == if Ptr(Struct(), off, 4) then BeDec(Struct()[off..off + 4]) else -1
    {
      hide BeDec, Part;
      if !OffsetPtr(off, 4) { return -1; }
      StructSlice(off, 4);
      v := Word(offStruct + off);
    }

    /** The tag at startoffset and the offset of the next one, on any bytes. */
    method NextTag(startoffset: int) returns (tag: nat, next: int)
      requires Blocks()
      ensures TagStep(tag, next) == NextTagOf(Struct(), startoffset)
    {
      hide BeDec, StrLen, Align4, Struct;
      if startoffset < 0 {
        return END, TRUNCATED;
      }
      var t := Cell(startoffset);
      if t < 0 {
        return END, TRUNCATED;
      }
      tag := t;
      var offset := startoffset + 4;
      if tag == BEGIN_NODE {
        offset := AfterName(offset);
        if offset < 0 {
          return END, BADSTRUCTURE;
        }
      } else if tag == PROP {
        var len := Cell(offset);
        if len < 0 {
          return END, BADSTRUCTURE;
        }
        offset := startoffset + (12 + len) % U32;
      } else if tag != END && tag != END_NODE && tag != NOP {
        return END, BADSTRUCTURE;
      }
      if !OffsetPtr(startoffset, offset - startoffset) {
        return END, BADSTRUCTURE;
      }
      return tag, Align4(offset);
    }

    // ---- walking well-formed tokens

    /** The step at token i. */
    method TagIn(offset: int, ghost i: nat) returns (tag: nat, next: int)
      requires Framed() && i <= |toks| && offset == Off(toks, i)
      ensures i < |toks| ==> tag == TagOf(toks[i]) && next == Off(toks, i + 1) && next >= 0
      ensures i == |toks| ==> tag == END && next == TRUNCATED
    {
      hide NextTagOf, Enc, Size, Off;
      NextTagAt(toks, i);
      tag, next := NextTag(offset);
    }

    method TagAt(offset: int, ghost i: nat) returns (tag: nat, next: int)
      requires Valid() && i <= |toks| && offset == Off(toks, i)
      ensures i < |toks| ==> tag == TagOf(toks[i]) && next == Off(toks, i + 1) && next >= 0
      ensures i == |toks| ==> tag == END && next == TRUNCATED
    {
      hide Off;
      tag, next := TagIn(offset, i);
    }

    /** From node i, the next node or, when depth runs out, the end of the enclosing one. */
    method NextNode(offset: nat, depth: nat, ghost i: nat) returns (next: int, depth': int, ghost j: nat)
      requires Valid() && i < |toks| && offset == Off(toks, i) && toks[i].Begin?
      ensures j <= |toks|
      ensures match NextNodeOf(toks[i + 1..], depth)
              case AtNode(k, d) => j == i + 1 + k && next == Off(toks, j) && depth' == d
              case Up(k) => j == i + 1 + k && next == Off(toks, j) && depth' == -1
              case Stop(e) => next == e < 0 <= depth'
    {
      hide Off, Valid, NextNodeOf, ShiftWalk;
      var tag;
      tag, next := TagAt(offset, i);
      j, depth' := i + 1, depth;
      WalkShift(toks, j, depth', 0);
      while true
        invariant i < j <= |toks| && next == Off(toks, j) && depth' >= 0
        invariant NextNodeOf(toks[i + 1..], depth) == ShiftWalk(NextNodeOf(toks[j..], depth'), j - i - 1)
        decreases |toks| - j
      {
        var here := next;
        WalkStep(toks, j, depth');
        WalkShift(toks, j, depth', j - i - 1);
        tag, next := TagAt(here, j);
        if tag == END {
          next := if next >= 0 then NOTFOUND else next;
          return;
        }
        if tag == BEGIN_NODE {
          return here, depth' + 1, j;
        }
        j := j + 1;
        if tag == END_NODE {
          depth' := depth' - 1;
          if depth' < 0 { return; }
        }
      }
    }

    /** The end of node i: the offset just after its END_NODE. */
    method NodeEndOffset(nodeoffset: nat, ghost i: nat) returns (end: int, ghost j: nat)
      requires Valid() && i < |toks| && nodeoffset == Off(toks, i) && toks[i].Begin?
      ensures match EndOf(toks[i + 1..], 0)
              case At(k) => j == i + 1 + k <= |toks| && end == Off(toks, j)
              case Err(e) => end == e < 0
    {
      hide Off, NextNodeOf, EndOf, Valid;
      var depth := 0;
      end, j := nodeoffset, i;
      while end >= 0 && depth >= 0
        invariant depth >= 0 && end >= 0 ==> i <= j < |toks| && toks[j].Begin? && end == Off(toks, j)
        invariant depth >= 0 && end >= 0 ==> EndOf(toks[i + 1..], 0) == Shift(EndOf(toks[j + 1..], depth), j - i)
        invariant end < 0 ==> EndOf(toks[i + 1..], 0) == Err(end)
        invariant end >= 0 && depth < 0 ==>
          i < j <= |toks| && EndOf(toks[i + 1..], 0) == At(j - i - 1) && end == Off(toks, j)
        decreases end >= 0 && depth >= 0, |toks| - j
      {
        EndByNodes(toks[j + 1..], depth);
        ghost var was := j;
        end, depth, j := NextNode(end, depth, j);
        if end >= 0 && depth >= 0 { assert toks[was + 1..][j - was - 1 + 1..] == toks[j + 1..]; }
      }
    }

    /** The name of node i. */
    method GetName(offset: nat, ghost i: nat) returns (name: seq<byte>)
      requires Valid() && i < |toks| && offset == Off(toks, i) && toks[i].Begin?
      ensures name == toks[i].name
    {
      hide Off, StrLen, Part, Enc, NamesOk;
      NameIn(toks, i);
      StructTail(offset + 4);
      StructSlice(offset + 4, |toks[i].name|);
      var p := offStruct + offset + 4;
      var len := CStrLen(p, offStruct + sizeStruct);
      name := buf[p..p + len];
    }

    /** Does the name of node i answer to s? */
    method NodeNameEq(offset: nat, s: seq<byte>, ghost i: nat) returns (eq: bool)
      requires Valid() && i < |toks| && offset == Off(toks, i) && toks[i].Begin?
      ensures eq == NameMatches(toks[i].name, s)
    {
      hide Off, Valid;
      var full := GetName(offset, i);
      if |full| < |s| || full[..|s|] != s {
        return false;
      }
      return |full| == |s| || (0x40 !in s && full[|s|] == 0x40);
    }

    /** The first child of node i that answers to name. */
    method SubnodeOffset(parent: nat, name: seq<byte>, ghost i: nat) returns (offset: int, ghost j: nat)
      requires Valid() && i < |toks| && parent == Off(toks, i) && toks[i].Begin?
      ensures match SubOf(toks[i + 1..], 0, name)
              case At(k) => j == i + 1 + k < |toks| && offset == Off(toks, j) && toks[j].Begin?
              case Err(e) => offset == e < 0
    {
      hide Off, NextNodeOf, SubOf, Valid, NameMatches;
      var depth := 0;
      offset, j := parent, i;
      while offset >= 0 && depth >= 0
        invariant depth >= 0 && offset >= 0 ==>
          i <= j < |toks| && toks[j].Begin? && offset == Off(toks, j) && (depth == 0 ==> j == i) &&
          (depth > 0 ==> j > i)
        invariant depth >= 0 && offset >= 0 && depth != 1 ==>
          SubOf(toks[i + 1..], 0, name) == Shift(SubOf(toks[j + 1..], depth, name), j - i)
        invariant depth >= 0 && offset >= 0 && depth == 1 ==>
          SubOf(toks[i + 1..], 0, name) == Shift(SubOf(toks[j..], 0, name), j - i - 1)
        invariant offset < 0 ==> depth >= 0 && SubOf(toks[i + 1..], 0, name) == Err(offset)
        invariant offset >= 0 && depth < 0 ==> SubOf(toks[i + 1..], 0, name) == Err(NOTFOUND)
        decreases offset >= 0 && depth >= 0, |toks| - j
      {
        if depth == 1 {
          SubHere(toks, j, name);
          var eq := NodeNameEq(offset, name, j);
          if eq { return; }
        }
        SubByNodes(toks[j + 1..], depth, name);
        ghost var was := j;
        offset, depth, j := NextNode(offset, depth, j);
        if offset >= 0 && depth >= 0 {
          assert toks[was + 1..][j - was - 1..] == toks[j..] && toks[was + 1..][j - was - 1 + 1..] == toks[j + 1..];
        }
      }
      if depth < 0 { offset := NOTFOUND; }
    }

    /** Does the string at stroffset of the string block equal s? */
    method StringEq(stroffset: nat, s: seq<byte>) returns (eq: bool)
      requires Blocks() && NameOk(Strings(), stroffset)
      ensures eq == (NameAt(Strings(), stroffset) == s)
    {
      hide StrLen;
      ghost var strs := Strings();
      var p := offStrings + stroffset;
      var n := CStrLen(p, offStrings + sizeStrings);
      StringSlice(stroffset, sizeStrings - stroffset);
      assert strs[stroffset..] == strs[stroffset..sizeStrings];
      StringSlice(stroffset, n);
      SubSlice(strs, stroffset, sizeStrings, 0, n);
      return n == |s| && buf[p..p + n] == s;
    }

    /** The first property at or after token i, up to the first other token that is not a NOP. */
    method NextProp(start: nat, ghost i: nat) returns (offset: int, ghost j: nat)
      requires Valid() && i <= |toks| && start == Off(toks, i)
      ensures PropFound(NextPropOf(toks[i..]), toks, i, offset, j)
    {
      hide Off, Valid, NextPropOf;
      offset, j := start, i;
      while true
        invariant i <= j <= |toks| && offset == Off(toks, j)
        invariant NextPropOf(toks[i..]) == Shift(NextPropOf(toks[j..]), j - i)
        decreases |toks| - j
      {
        PropStep(toks, j);
        var tag, next := TagAt(offset, j);
        if tag == END {
          offset := if next >= 0 then BADSTRUCTURE else next;
          return;
        }
        if tag == PROP { return; }
        if tag != NOP {
          offset := NOTFOUND;
          return;
        }
        offset, j := next, j + 1;
      }
    }

    /** Length, name offset and value of property j. */
    lemma {:induction false} PropHere(j: nat)
      requires Valid() && j < |toks| && toks[j].Prop?
      ensures var p, t := offStruct + Off(toks, j), toks[j];
        && p + TokSize(t) <= offStruct + sizeStruct && Word(p + 4) == |t.val| && Word(p + 8) == t.nameoff
        && buf[p + 12..p + 12 + |t.val|] == t.val && NameOk(Strings(), t.nameoff)
    {
      hide Enc, Off, BeDec, Struct, Strings;
      PropIn(toks, j);
      var off := Off(toks, j);
      StructSlice(off + 4, 4);
      StructSlice(off + 8, 4);
      StructSlice(off + 12, |toks[j].val|);
    }

    /** Is property j called name? */
    method PropNameEq(offset: nat, name: seq<byte>, ghost j: nat) returns (eq: bool)
      requires Valid() && j < |toks| && offset == Off(toks, j) && toks[j].Prop?
      ensures eq == (NameAt(Strings(), toks[j].nameoff) == name)
    {
      hide Off, NameAt, NameOk, Strings, Struct, BeDec;
      PropHere(j);
      eq := StringEq(Word(offStruct + offset + 8), name);
    }

    /** The property of node i called name. */
    method GetProperty(nodeoffset: nat, name: seq<byte>, ghost i: nat) returns (offset: int, ghost j: nat)
      requires Valid() && i < |toks| && nodeoffset == Off(toks, i) && toks[i].Begin?
      ensures PropFound(PropOf(toks[i + 1..], Strings(), name), toks, i + 1, offset, j)
    {
      hide Off, Valid, NextPropOf, PropOf, NameAt, Strings, Blocks;
      ValidBlocks();
      ghost var strs, k := Strings(), i + 1;
      var tag, next := TagAt(nodeoffset, i);
      offset, j := NextProp(next, i + 1);
      while offset >= 0
        invariant i < k <= |toks|
        invariant PropOf(toks[i + 1..], strs, name) == Shift(PropOf(toks[k..], strs, name), k - i - 1)
        invariant PropFound(NextPropOf(toks[k..]), toks, k, offset, j)
        decreases |toks| - k
      {
        PropByProps(toks[k..], strs, name);
        var eq := PropNameEq(offset, name, j);
        if eq { return; }
        assert toks[k..][j - k + 1..] == toks[j + 1..];
        tag, next := TagAt(offset, j);
        k := j + 1;
        offset, j := NextProp(next, k);
      }
      PropByProps(toks[k..], strs, name);
    }

    lemma {:induction false} FramedBlocks()
      requires Framed()
      ensures Blocks()
    {
    }

    lemma {:induction false} ValidBlocks()
      requires Valid()
      ensures Blocks()
    {
    }
  }

  /** A scan from token i found property j at offset, or ended with that error. */
  ghost predicate PropFound(f: Found, toks: seq<Tok>, i: nat, offset: int, j: nat) {
    match f
    case At(k) => j == i + k < |toks| && offset == Off(toks, j) && toks[j].Prop?
    case Err(e) => offset == e < 0
  }

  lemma {:induction false} PropStep(ts: seq<Tok>, j: nat)
    requires j <= |ts|
    ensures j == |ts| ==> NextPropOf(ts[j..]) == Err(TRUNCATED)
    ensures j < |ts| && ts[j].Prop? ==> NextPropOf(ts[j..]) == At(0)
    ensures j < |ts| && ts[j].Nop? ==> NextPropOf(ts[j..]) == Shift(NextPropOf(ts[j + 1..]), 1)
    ensures j < |ts| && ts[j].End? ==> NextPropOf(ts[j..]) == Err(BADSTRUCTURE)
    ensures j < |ts| && (ts[j].Begin? || ts[j].EndNode?) ==> NextPropOf(ts[j..]) == Err(NOTFOUND)
  {
    if j < |ts| { assert ts[j..][0] == ts[j] && ts[j..][1..] == ts[j + 1..]; }
  }

  /** The lookup of a property, one property at a time. */
  lemma {:induction false} PropByProps(ts: seq<Tok>, strs: seq<byte>, name: seq<byte>)
    ensures match NextPropOf(ts)
            case At(k) =>
        k < |ts| && PropOf(ts, strs, name) ==
          if NameAt(strs, ts[k].nameoff) == name then At(k) else Shift(PropOf(ts[k + 1..], strs, name), k + 1)
            case Err(e) => PropOf(ts, strs, name) == Err(e)
  {
    hide NameAt;
    if ts != [] && ts[0].Nop? {
      PropByProps(ts[1..], strs, name);
      if NextPropOf(ts).At? { assert ts[1..][NextPropOf(ts).i - 1 + 1..] == ts[NextPropOf(ts).i + 1..]; }
    }
  }

  lemma {:induction false} EndUnfold(ts: seq<Tok>, d: nat)
    ensures ts == [] ==> NextNodeOf(ts, d) == Stop(TRUNCATED) && EndOf(ts, d) == Err(TRUNCATED)
    ensures ts != [] && ts[0].Begin? ==>
      NextNodeOf(ts, d) == AtNode(0, d + 1) && EndOf(ts, d) == Shift(EndOf(ts[1..], d + 1), 1)
    ensures ts != [] && ts[0].End? ==> NextNodeOf(ts, d) == Stop(NOTFOUND) && EndOf(ts, d) == Err(NOTFOUND)
    ensures ts != [] && ts[0].EndNode? && d == 0 ==> NextNodeOf(ts, d) == Up(1) && EndOf(ts, d) == At(1)
    ensures ts != [] && ts[0].EndNode? && d > 0 ==>
      NextNodeOf(ts, d) == ShiftWalk(NextNodeOf(ts[1..], d - 1), 1) && EndOf(ts, d) == Shift(EndOf(ts[1..], d - 1), 1)
    ensures ts != [] && (ts[0].Prop? || ts[0].Nop?) ==>
      NextNodeOf(ts, d) == ShiftWalk(NextNodeOf(ts[1..], d), 1) && EndOf(ts, d) == Shift(EndOf(ts[1..], d), 1)
  {
  }

  /** The end of a node, one node at a time. */
  lemma {:induction false} EndByNodes(ts: seq<Tok>, d: nat)
    ensures match NextNodeOf(ts, d)
            case AtNode(k, e) => k < |ts| && EndOf(ts, d) == Shift(EndOf(ts[k + 1..], e), k + 1)
            case Up(k) => EndOf(ts, d) == At(k)
            case Stop(e) => EndOf(ts, d) == Err(e)
  {
    hide NextNodeOf, EndOf;
    EndUnfold(ts, d);
    if ts != [] && !ts[0].Begin? && !ts[0].End? && !(ts[0].EndNode? && d == 0) {
      var e := if ts[0].EndNode? then d - 1 else d;
      var w := NextNodeOf(ts[1..], e);
      EndByNodes(ts[1..], e);
      if w.AtNode? { assert ts[1..][w.i + 1..] == ts[w.i + 2..]; }
    }
  }

  /** The lookup going on at the node k tokens ahead, at depth e. */
  ghost function SubFrom(ts: seq<Tok>, k: nat, e: nat, name: seq<byte>): Found
    requires k < |ts|
  {
    if e == 1 then Shift(SubOf(ts[k..], 0, name), k) else Shift(SubOf(ts[k + 1..], e, name), k + 1)
  }

  lemma {:induction false} SubFromTail(ts: seq<Tok>, k: nat, e: nat, name: seq<byte>)
    requires k + 1 < |ts|
    ensures SubFrom(ts, k + 1, e, name) == Shift(SubFrom(ts[1..], k, e, name), 1)
  {
    assert ts[1..][k + 1..] == ts[k + 2..] && ts[1..][k..] == ts[k + 1..];
  }

  /** The lookup of a child, one node at a time. */
  lemma {:induction false} SubByNodes(ts: seq<Tok>, d: nat, name: seq<byte>)
    ensures match NextNodeOf(ts, d)
            case AtNode(k, e) => k < |ts| && SubOf(ts, d, name) == SubFrom(ts, k, e, name)
            case Up(k) => SubOf(ts, d, name) == Err(NOTFOUND)
            case Stop(e) => SubOf(ts, d, name) == Err(e)
  {
    hide NameMatches, SubFrom;
    if ts != [] && ts[0].Begin? {
      SubAtOnce(ts, d, name);
    } else if ts != [] && !ts[0].End? && !(ts[0].EndNode? && d == 0) {
      var w := NextNodeOf(ts[1..], if ts[0].EndNode? then d - 1 else d);
      SubByNodes(ts[1..], if ts[0].EndNode? then d - 1 else d, name);
      if w.AtNode? { SubFromTail(ts, w.i, w.depth, name); }
    }
  }

  lemma {:induction false} SubAtOnce(ts: seq<Tok>, d: nat, name: seq<byte>)
    requires ts != [] && ts[0].Begin?
    ensures SubOf(ts, d, name) == SubFrom(ts, 0, d + 1, name)
  {
    assert ts[0..] == ts;
  }

  lemma {:induction false} SubHere(ts: seq<Tok>, j: nat, name: seq<byte>)
    requires j < |ts| && ts[j].Begin?
    ensures SubOf(ts[j..], 0, name) ==
      if NameMatches(ts[j].name, name) then At(0) else Shift(SubOf(ts[j + 1..], 1, name), 1)
  {
    assert ts[j..][0] == ts[j] && ts[j..][1..] == ts[j + 1..];
  }

  /** How the step shifts with the tokens already passed. */
  lemma {:induction false} WalkShift(ts: seq<Tok>, j: nat, d: nat, k: nat)
    requires j <= |ts|
    ensures k == 0 ==> ShiftWalk(NextNodeOf(ts[j..], d), k) == NextNodeOf(ts[j..], d)
    ensures ShiftWalk(AtNode(0, d + 1), k) == AtNode(k, d + 1) && ShiftWalk(Up(1), k) == Up(k + 1)
    ensures ShiftWalk(Stop(NOTFOUND), k) == Stop(NOTFOUND) && ShiftWalk(Stop(TRUNCATED), k) == Stop(TRUNCATED)
    ensures forall w :: ShiftWalk(ShiftWalk(w, 1), k) == ShiftWalk(w, k + 1)
  {
  }

  lemma {:induction false} WalkStep(ts: seq<Tok>, j: nat, d: nat)
    requires j <= |ts|
    ensures j == |ts| ==> NextNodeOf(ts[j..], d) == Stop(TRUNCATED)
    ensures j < |ts| && ts[j].Begin? ==> NextNodeOf(ts[j..], d) == AtNode(0, d + 1)
    ensures j < |ts| && ts[j].EndNode? ==>
      NextNodeOf(ts[j..], d) == if d == 0 then Up(1) else ShiftWalk(NextNodeOf(ts[j + 1..], d - 1), 1)
    ensures j < |ts| && ts[j].End? ==> NextNodeOf(ts[j..], d) == Stop(NOTFOUND)
    ensures j < |ts| && (ts[j].Prop? || ts[j].Nop?) ==>
      NextNodeOf(ts[j..], d) == ShiftWalk(NextNodeOf(ts[j + 1..], d), 1)
  {
    if j < |ts| { assert ts[j..][0] == ts[j] && ts[j..][1..] == ts[j + 1..]; }
  }

  lemma {:induction false} PartSlice(w: seq<byte>, a: nat, n: nat, off: nat, len: nat)
    requires a + n <= |w| && off + len <= n
    ensures w[a + off..a + off + len] == Part(w, a, n)[off..off + len]
  {
    SubSlice(w, a, a + n, off, off + len);
  }

  ghost predicate NamesOk(toks: seq<Tok>, strs: seq<byte>) {
    forall i :: 0 <= i < |toks| && toks[i].Prop? ==> NameOk(strs, toks[i].nameoff)
  }

  lemma {:induction false} StrLenAt(bs: seq<byte>, n: nat)
    requires n <= |bs| && (n < |bs| ==> bs[n] == 0) && forall i :: 0 <= i < n ==> bs[i] != 0
    ensures StrLen(bs) == n
  {
    if n < |bs| { StrLenUnique(bs, n); }
  }
}

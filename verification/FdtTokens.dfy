/**
 * The structure block of a flattened device tree: tokens, the bytes they take,
 * and the step from one token to the next.
 */
module FdtTokens {
  import opened Bytes

  const BEGIN_NODE: nat := 1
  const END_NODE: nat := 2
  const PROP: nat := 3
  const NOP: nat := 4
  const END: nat := 9

  const NOTFOUND: int := -1
  const EXISTS: int := -2
  const NOSPACE: int := -3
  const BADPHANDLE: int := -6
  const BADSTATE: int := -7
  const TRUNCATED: int := -8
  const BADSTRUCTURE: int := -11
  const BADLAYOUT: int := -12
  const BADOVERLAY: int := -16
  const NOPHANDLES: int := -17

  /** Offsets and sizes are signed 32-bit numbers. */
  const MAX: nat := 0x8000_0000

  /** Padding up to the next multiple of 4. */
  function Pad4(n: nat): (k: nat)
    ensures k < 4 && (n + k) % 4 == 0
  {
    (4 - n % 4) % 4
  }

  function Align4(n: nat): (k: nat)
    ensures k % 4 == 0 && n <= k < n + 4 && (n % 4 == 0 ==> k == n)
  {
    n + Pad4(n)
  }

  /** A token with its padding bytes spelled out, whatever they hold. */
  datatype Tok =
    | Begin(name: seq<byte>, pad: seq<byte>)
    | Prop(nameoff: nat, val: seq<byte>, pad: seq<byte>)
    | EndNode
    | Nop
    | End

  predicate ValidTok(t: Tok) {
    match t
    case Begin(name, pad) => NoNul(name) && |pad| == Pad4(|name| + 1)
    case Prop(nameoff, val, pad) => nameoff < U32 && |val| < U32 && |pad| == Pad4(|val|)
    case _ => true
  }

  function TagOf(t: Tok): nat {
    match t
    case Begin(_, _) => BEGIN_NODE
    case Prop(_, _, _) => PROP
    case EndNode => END_NODE
    case Nop => NOP
    case End => END
  }

  /** What follows the tag. */
  function Body(t: Tok): seq<byte> {
    match t
    case Begin(name, pad) => name + [0] + pad
    case Prop(nameoff, val, pad) => Be(|val|, 4) + Be(nameoff, 4) + val + pad
    case _ => []
  }

  function EncTok(t: Tok): (bs: seq<byte>)
    ensures |bs| == TokSize(t)
  {
    Be(TagOf(t), 4) + Body(t)
  }

  function TokSize(t: Tok): nat {
    match t
    case Begin(name, pad) => 4 + |name| + 1 + |pad|
    case Prop(_, val, pad) => 12 + |val| + |pad|
    case _ => 4
  }

  lemma {:induction false} TokAligned(t: Tok)
    requires ValidTok(t)
    ensures TokSize(t) % 4 == 0 && TokSize(t) >= 4
  {
  }

  function Enc(ts: seq<Tok>): (bs: seq<byte>)
    ensures |bs| == Size(ts)
  {
    if ts == [] then [] else EncTok(ts[0]) + Enc(ts[1..])
  }

  function Size(ts: seq<Tok>): nat {
    if ts == [] then 0 else TokSize(ts[0]) + Size(ts[1..])
  }

  predicate ValidToks(ts: seq<Tok>) {
    forall i :: 0 <= i < |ts| ==> ValidTok(ts[i])
  }

  lemma {:induction false} SizeConcat(a: seq<Tok>, b: seq<Tok>)
    ensures Size(a + b) == Size(a) + Size(b)
  {
    if a == [] {
      assert a + b == b;
    } else {
      assert (a + b)[1..] == a[1..] + b;
      SizeConcat(a[1..], b);
    }
  }

  lemma {:induction false} EncConcat(a: seq<Tok>, b: seq<Tok>)
    ensures Enc(a + b) == Enc(a) + Enc(b)
  {
    if a == [] {
      assert a + b == b;
    } else {
      assert (a + b)[1..] == a[1..] + b;
      EncConcat(a[1..], b);
      Assoc(EncTok(a[0]), Enc(a[1..]), Enc(b));
    }
  }

  lemma {:induction false} SizeAligned(ts: seq<Tok>)
    requires ValidToks(ts)
    ensures Size(ts) % 4 == 0
  {
    hide ValidTok, TokSize;
    if ts != [] {
      TokAligned(ts[0]);
      assert forall i :: 0 <= i < |ts[1..]| ==> ts[1..][i] == ts[i + 1];
      SizeAligned(ts[1..]);
      SumAligned(TokSize(ts[0]), Size(ts[1..]));
    }
  }

  lemma {:induction false} SumAligned(a: nat, b: nat)
    requires a % 4 == 0 && b % 4 == 0
    ensures (a + b) % 4 == 0
  {
  }

  // ---- reading one token

  /** A tag and where the next token starts, or a negative error there. */
  datatype TagStep = TagStep(tag: nat, next: int)

  predicate Ptr(s: seq<byte>, off: int, len: nat) { 0 <= off && off + len <= |s| }

  /** The token at off in structure block s, as the reader sees any bytes at all. */
  function NextTagOf(s: seq<byte>, off: int): TagStep {
    if !Ptr(s, off, 4) then TagStep(END, TRUNCATED)
    else
      var tag := BeDec(s[off..off + 4]);
      if tag == BEGIN_NODE then
        var n := StrLen(s[off + 4..]);
        if off + 4 + n == |s| then TagStep(END, BADSTRUCTURE) else TagStep(tag, Align4(off + 4 + n + 1))
      else if tag == PROP then
        if !Ptr(s, off + 4, 4) then TagStep(END, BADSTRUCTURE)
        else
          var n := (12 + BeDec(s[off + 4..off + 8])) % U32;
          if !Ptr(s, off, n) then TagStep(END, BADSTRUCTURE) else TagStep(tag, Align4(off + n))
      else if tag == END || tag == END_NODE || tag == NOP then TagStep(tag, Align4(off + 4))
      else TagStep(END, BADSTRUCTURE)
  }

  lemma {:induction false} AlignShift(off: nat, n: nat)
    requires off % 4 == 0
    ensures Align4(off + n) == off + n + Pad4(n)
  {
  }

  lemma {:induction false} Slice(pre: seq<byte>, x: seq<byte>, y: seq<byte>, post: seq<byte>)
    ensures (pre + (x + y) + post)[|pre|..|pre| + |x|] == x
    ensures (pre + (x + y) + post)[|pre| + |x|..] == y + post
  {
  }

  lemma {:induction false} TagSlice(pre: seq<byte>, t: Tok, post: seq<byte>)
    ensures var s, off := pre + EncTok(t) + post, |pre|;
      Ptr(s, off, 4) && BeDec(s[off..off + 4]) == TagOf(t) && s[off + 4..] == Body(t) + post
  {
    hide Be, BeDec, Body;
    SpanValues();
    BeRoundTrip(TagOf(t), 4);
    Slice(pre, Be(TagOf(t), 4), Body(t), post);
  }

  lemma {:induction false} NameSlice(t: Tok, post: seq<byte>)
    requires ValidTok(t) && t.Begin?
    ensures StrLen(Body(t) + post) == |t.name|
  {
    hide StrLen;
    StrLenUnique(Body(t) + post, |t.name|);
  }

  lemma {:induction false} LenSlice(pre: seq<byte>, t: Tok, post: seq<byte>)
    requires ValidTok(t) && t.Prop?
    ensures var s, off := pre + EncTok(t) + post, |pre|;
      Ptr(s, off + 4, 4) && BeDec(s[off + 4..off + 8]) == |t.val|
  {
    hide Be, BeDec, EncTok;
    var s, off := pre + EncTok(t) + post, |pre|;
    SpanValues();
    BeRoundTrip(|t.val|, 4);
    TagSlice(pre, t, post);
    var rest := Be(t.nameoff, 4) + t.val + t.pad + post;
    assert s[off + 4..] == Be(|t.val|, 4) + rest;
    assert s[off + 4..off + 8] == s[off + 4..][..4];
  }

  /** The bytes of a token read back as that token, wherever it lies. */
  lemma {:induction false} NextTagEnc(pre: seq<byte>, t: Tok, post: seq<byte>)
    requires ValidTok(t) && |pre| % 4 == 0 && |pre| + TokSize(t) < MAX
    ensures NextTagOf(pre + EncTok(t) + post, |pre|) == TagStep(TagOf(t), |pre| + TokSize(t))
  {
    hide Be, BeDec, StrLen, EncTok, Body, Align4, Pad4, NoNul;
    TagSlice(pre, t, post);
    match t
    case Begin(name, _) =>
      NameSlice(t, post);
      AlignShift(|pre| + 4, |name| + 1);
    case Prop(_, val, _) =>
      LenSlice(pre, t, post);
      AlignShift(|pre| + 12, |val|);
    case _ =>
      AlignShift(|pre| + 4, 0);
  }

  /**
   * Stepping from an aligned offset makes progress, with one exception: a
   * property whose length field is 2^32 - 12 leads back to itself.
   */
  lemma {:induction false} Progress(s: seq<byte>, off: nat)
    requires off % 4 == 0 && NextTagOf(s, off).next >= 0
    ensures NextTagOf(s, off).next > off <==> !(NextTagOf(s, off).tag == PROP && BeDec(s[off + 4..off + 8]) == U32 - 12)
    ensures NextTagOf(s, off).next >= off && NextTagOf(s, off).next % 4 == 0
  {
    hide BeDec, StrLen, Align4, Pad4;
    if NextTagOf(s, off).tag == PROP {
      SpanValues();
      Wrap12(BeDec(s[off + 4..off + 8]));
    }
  }

  lemma {:induction false} Wrap12(len: nat)
    requires len < U32
    ensures (12 + len) % U32 == if 12 + len < U32 then 12 + len else 12 + len - U32
  {
  }

  lemma {:induction false} StuckExample()
    ensures exists s: seq<byte> :: NextTagOf(s, 0) == TagStep(PROP, 0)
  {
    hide Be, BeDec;
    var s := Be(PROP, 4) + Be(U32 - 12, 4);
    SpanValues();
    BeRoundTrip(PROP, 4);
    BeRoundTrip(U32 - 12, 4);
    assert s[0..4] == Be(PROP, 4);
    assert s[4..8] == Be(U32 - 12, 4);
    assert NextTagOf(s, 0) == TagStep(PROP, 0);
  }

  // ---- positions in a sequence of tokens

  /** Offset of token i. */
  function Off(ts: seq<Tok>, i: nat): nat
    requires i <= |ts|
  {
    Size(ts[..i])
  }

  lemma {:induction false} OffStep(ts: seq<Tok>, i: nat)
    requires i < |ts|
    ensures Off(ts, i + 1) == Off(ts, i) + TokSize(ts[i])
  {
    assert ts[..i + 1] == ts[..i] + [ts[i]];
    SizeConcat(ts[..i], [ts[i]]);
    assert Size([ts[i]]) == TokSize(ts[i]) + Size([ts[i]][1..]);
  }

  lemma {:induction false} OffSplit(ts: seq<Tok>, i: nat)
    requires i <= |ts|
    ensures Enc(ts) == Enc(ts[..i]) + Enc(ts[i..]) && Size(ts) == Off(ts, i) + Size(ts[i..])
  {
    assert ts == ts[..i] + ts[i..];
    EncConcat(ts[..i], ts[i..]);
  }

  lemma {:induction false} OffMono(ts: seq<Tok>, i: nat, j: nat)
    requires i <= j <= |ts| && ValidToks(ts)
    ensures Off(ts, i) + 4 * (j - i) <= Off(ts, j) <= Size(ts)
  {
    if i < j {
      OffMono(ts, i, j - 1);
      OffStep(ts, j - 1);
      TokAligned(ts[j - 1]);
    }
    OffSplit(ts, j);
  }

  /** The reader's step at token i of an encoded block. */
  lemma {:induction false} NextTagAt(ts: seq<Tok>, i: nat)
    requires ValidToks(ts) && Size(ts) < MAX && i <= |ts|
    ensures Off(ts, i) % 4 == 0 && Off(ts, i) <= Size(ts)
    ensures i < |ts| ==>
      NextTagOf(Enc(ts), Off(ts, i)) == TagStep(TagOf(ts[i]), Off(ts, i + 1)) && Off(ts, i + 1) <= Size(ts)
    ensures i == |ts| ==> NextTagOf(Enc(ts), Off(ts, i)) == TagStep(END, TRUNCATED)
  {
    hide NextTagOf, EncTok;
    OffSplit(ts, i);
    SizeAligned(ts[..i]);
    if i < |ts| {
      OffMono(ts, i + 1, |ts|);
      OffStep(ts, i);
      Assoc(Enc(ts[..i]), EncTok(ts[i]), Enc(ts[i + 1..]));
      assert ts[i..][1..] == ts[i + 1..];
      NextTagEnc(Enc(ts[..i]), ts[i], Enc(ts[i + 1..]));
    } else {
      assert ts[..i] == ts;
      PastEnd(Enc(ts));
    }
  }

  lemma {:induction false} PastEnd(s: seq<byte>)
    ensures NextTagOf(s, |s|) == TagStep(END, TRUNCATED)
  {
  }

  /** Token i in the encoded block. */
  lemma {:induction false} TokIn(ts: seq<Tok>, i: nat)
    requires i < |ts|
    ensures Off(ts, i) + TokSize(ts[i]) <= Size(ts)
    ensures Enc(ts)[Off(ts, i) + 4..] == Body(ts[i]) + Enc(ts[i + 1..])
    ensures Enc(ts)[Off(ts, i)..] == EncTok(ts[i]) + Enc(ts[i + 1..])
  {
    hide EncTok, Body;
    var pre, post := Enc(ts[..i]), Enc(ts[i + 1..]);
    OffSplit(ts, i);
    assert ts[i..][1..] == ts[i + 1..];
    Assoc(pre, EncTok(ts[i]), post);
    TagSlice(pre, ts[i], post);
  }

  lemma {:induction false} NameIn(ts: seq<Tok>, i: nat)
    requires i < |ts| && ValidTok(ts[i]) && ts[i].Begin?
    ensures var p, name := Off(ts, i) + 4, ts[i].name;
      p + |name| < Size(ts) && StrLen(Enc(ts)[p..]) == |name| && Enc(ts)[p..p + |name|] == name
  {
    hide StrLen, Enc, Off;
    TokIn(ts, i);
    NameSlice(ts[i], Enc(ts[i + 1..]));
    var p, name := Off(ts, i) + 4, ts[i].name;
    assert Enc(ts)[p..p + |name|] == Enc(ts)[p..][..|name|];
  }

  lemma {:induction false} PropIn(ts: seq<Tok>, i: nat)
    requires i < |ts| && ValidTok(ts[i]) && ts[i].Prop?
    ensures var p, t := Off(ts, i), ts[i];
      && p + 12 + |t.val| + |t.pad| <= Size(ts)
      && BeDec(Enc(ts)[p + 4..p + 8]) == |t.val| && BeDec(Enc(ts)[p + 8..p + 12]) == t.nameoff
      && Enc(ts)[p + 12..p + 12 + |t.val|] == t.val
  {
    hide Enc, Off, Be, BeDec;
    TokIn(ts, i);
    SpanValues();
    var p, t := Off(ts, i) + 4, ts[i];
    BeRoundTrip(|t.val|, 4);
    BeRoundTrip(t.nameoff, 4);
    FourParts(Enc(ts), p, Be(|t.val|, 4), Be(t.nameoff, 4), t.val, t.pad + Enc(ts[i + 1..]));
    assert Body(t) + Enc(ts[i + 1..]) == Be(|t.val|, 4) + Be(t.nameoff, 4) + t.val + (t.pad + Enc(ts[i + 1..]));
  }

  lemma {:induction false} FourParts(s: seq<byte>, p: nat, a: seq<byte>, b: seq<byte>, c: seq<byte>, d: seq<byte>)
    requires p <= |s| && |a| == 4 && |b| == 4
    ensures s[p..] == a + b + c + d ==>
      p + 8 + |c| <= |s| && s[p..p + 4] == a && s[p + 4..p + 8] == b && s[p + 8..p + 8 + |c|] == c
  {
    var r := s[p..];
    if r == a + b + c + d {
      assert r[..4] == s[p..p + 4] && r[4..8] == s[p + 4..p + 8] && r[8..8 + |c|] == s[p + 8..p + 8 + |c|];
    }
  }

  // ---- tokens that differ in property values only

  predicate SkelTok(s: Tok, t: Tok) {
    s == t || (s.Prop? && t.Prop? && s.nameoff == t.nameoff && s.pad == t.pad && |s.val| == |t.val|)
  }

  predicate SameSkel(a: seq<Tok>, b: seq<Tok>) {
    |a| == |b| && forall i :: 0 <= i < |a| ==> SkelTok(a[i], b[i])
  }

  lemma {:induction false} SkelFrom(a: seq<Tok>, b: seq<Tok>, k: nat)
    requires SameSkel(a, b) && k <= |a|
    ensures SameSkel(a[k..], b[k..])
  {
  }

  lemma {:induction false} SkelSize(a: seq<Tok>, b: seq<Tok>)
    requires SameSkel(a, b)
    ensures Size(a) == Size(b)
  {
    if a != [] {
      assert SkelTok(a[0], b[0]);
      SkelFrom(a, b, 1);
      SkelSize(a[1..], b[1..]);
    }
  }

  lemma {:induction false} SkelOff(a: seq<Tok>, b: seq<Tok>, i: nat)
    requires SameSkel(a, b) && i <= |a|
    ensures Off(a, i) == Off(b, i)
  {
    SkelSize(a[..i], b[..i]);
  }

  lemma {:induction false} SkelTrans(a: seq<Tok>, b: seq<Tok>, c: seq<Tok>)
    requires SameSkel(a, b) && SameSkel(b, c)
    ensures SameSkel(a, c)
  {
    forall i | 0 <= i < |a| ensures SkelTok(a[i], c[i]) {
      assert SkelTok(a[i], b[i]) && SkelTok(b[i], c[i]);
    }
  }

  lemma {:induction false} SkelSelf(ts: seq<Tok>)
    ensures SameSkel(ts, ts)
  {
  }
}

/**
 * The packed format: reading the headers and scalar data of the packed form,
 * the marker-driven state machine that rebuilds a tree, and the round trip.
 */
module NvCodec {
  import opened Bytes
  import opened NvTree

  function Dec(isbe: bool, bs: seq<byte>): nat {
    if isbe then BeDec(bs) else LeDec(bs)
  }

  datatype ListHead = ListHead(flags: byte, isbe: bool)

  /** A list header at the start of bs, where bs is all that is left of the buffer. */
  function ParseListHdr(bs: seq<byte>): (r: Option<ListHead>)
    ensures r.Some? ==> |bs| >= HDR && r.value.flags < 4
  {
    if |bs| < HDR then None
    else if LeDec(bs[11..19]) > U64 - 1 - HDR || bs[0] != 0x6c || bs[2] % 128 >= 4 then None
    else
      var isbe := bs[2] >= 128;
      if Dec(isbe, bs[11..19]) != |bs| - HDR || Dec(isbe, bs[3..11]) > 0 then None
      else Some(ListHead(bs[2] % 128, isbe))
  }

  datatype PairHead = PairHead(typ: byte, name: seq<byte>, datasize: nat, nitems: nat) {
    /** Bytes taken by the header and the name. */
    function Size(): nat { HDR + |name| + 1 }
  }

  function ParsePairHdr(isbe: bool, bs: seq<byte>): (r: Option<PairHead>)
    ensures r.Some? ==> ValidName(r.value.name) && r.value.Size() + r.value.datasize <= |bs|
  {
    if |bs| < HDR || bs[0] == 0 || (bs[0] > 12 && bs[0] != T_UP && bs[0] != T_NEXT) then None
    else
      var namesize, datasize := Dec(isbe, bs[1..3]), Dec(isbe, bs[3..11]);
      if namesize > NAME_MAX || |bs| - HDR < namesize || namesize < 1 then None
      else
        var name := bs[HDR..HDR + namesize];
        if StrLen(name) != namesize - 1 || |bs| - HDR - namesize < datasize then None
        else Some(PairHead(bs[0], name[..namesize - 1], datasize, Dec(isbe, bs[11..19])))
  }

  function Numbers(isbe: bool, bs: seq<byte>): (ns: seq<nat>)
    requires |bs| % 8 == 0
    ensures 8 * |ns| == |bs| && forall i :: 0 <= i < |ns| ==> ns[i] < U64
  {
    SpanValues();
    if bs == [] then [] else [Dec(isbe, bs[..8])] + Numbers(isbe, bs[8..])
  }

  /** n NUL-terminated strings that together fill bs. */
  function Strings(bs: seq<byte>, n: nat): (r: Option<seq<seq<byte>>>)
    ensures r.Some? ==> |r.value| == n && StringsSize(r.value) == |bs|
    ensures r.Some? ==> forall i :: 0 <= i < n ==> NoNul(r.value[i])
    decreases n
  {
    if n == 0 then if bs == [] then Some([]) else None
    else
      var k := StrLen(bs);
      if k == |bs| then None
      else
        var rest := Strings(bs[k + 1..], n - 1);
        if rest.None? then None else Some([bs[..k]] + rest.value)
  }

  /** The data of a scalar pair; it always takes exactly the announced size. */
  function ParseScalar(h: PairHead, isbe: bool, bs: seq<byte>): (r: Option<Scalar>)
    requires h.datasize <= |bs|
    ensures r.Some? ==> WfScalar(r.value) && ScalarSize(r.value) == h.datasize
  {
    SpanValues();
    var d := bs[..h.datasize];
    if h.typ == 1 then if d == [] then Some(Null) else None
    else if h.typ == 2 then if |d| == 1 && d[0] <= 1 then Some(Bool(d[0] == 1)) else None
    else if h.typ == 3 then if |d| == 8 then Some(Number(Dec(isbe, d))) else None
    else if h.typ == 4 then
      if d != [] && StrLen(d) == |d| - 1 then Some(Str(d[..|d| - 1])) else None
    else if h.typ == 7 then if d != [] then Some(Binary(d)) else None
    else if h.typ == 8 then if |d| == h.nitems != 0 then Some(BoolArray(d)) else None
    else if h.typ == 9 then if |d| == 8 * h.nitems != 0 then Some(NumberArray(Numbers(isbe, d))) else None
    else if h.typ == 10 && d != [] && h.nitems != 0 then
      var ss := Strings(d, h.nitems);
      if ss.Some? then Some(StringArray(ss.value)) else None
    else None
  }

  // ---- rebuilding a tree

  /** A list under construction, with the links the unpacker climbs. */
  datatype Open = Open(flags: byte, done: seq<Pair>, link: Link)
  datatype Link =
    | Root
    | Child(name: seq<byte>, up: Open)
    | Elem(name: seq<byte>, before: seq<Tree>, after: nat, up: Open)

  function Current(o: Open): Tree { Tree(o.flags, o.done) }

  function Empties(n: nat): (ts: seq<Tree>)
    ensures |ts| == n && forall i :: 0 <= i < n ==> ts[i] == Tree(0, [])
  {
    seq(n, i => Tree(0, []))
  }

  /** Leave the current list for its parent; array elements not reached stay empty. */
  function Close(o: Open): (r: Open)
    requires !o.link.Root?
    ensures Depth(r) + 1 == Depth(o) && r.link == o.link.up.link && r.flags == o.link.up.flags
  {
    match o.link
    case Child(name, up) => up.(done := up.done + [Pair(name, Nested(Current(o)))])
    case Elem(name, before, after, up) =>
      up.(done := up.done + [Pair(name, Elems(before + [Current(o)] + Empties(after)))])
  }

  function Depth(o: Open): nat {
    match o.link
    case Root => 0
    case Child(_, up) => 1 + Depth(up)
    case Elem(_, _, _, up) => 1 + Depth(up)
  }

  /** The tree hanging at the root; lists still open simply end here. */
  function Finish(o: Open): Tree
    decreases Depth(o)
  {
    if o.link.Root? then Current(o) else Finish(Close(o))
  }

  datatype Next = Fail | Goto(used: nat, isbe: bool, open: Open)

  /** One turn of the unpacking loop on what is left of the buffer. */
  function Step(bs: seq<byte>, isbe: bool, o: Open): (r: Next)
    ensures r.Goto? ==> 0 < r.used <= |bs|
  {
    var ph := ParsePairHdr(isbe, bs);
    if ph.None? then Fail
    else
      var h, k := ph.value, ph.value.Size();
      if h.typ == T_UP then
        if o.link.Root? then Fail else Goto(k, isbe, Close(o))
      else if h.typ == T_NEXT then
        if o.link.Root? then Fail
        else if o.link.Elem? && o.link.after > 0 then
          var lh := ParseListHdr(bs[k..]);
          if lh.None? then Fail else Goto(k + HDR, lh.value.isbe, NextElem(o, lh.value.flags))
        else Goto(k, isbe, Close(o))
      else if h.typ == T_NVLIST then
        var lh := ParseListHdr(bs[k..]);
        if h.datasize == 0 || lh.None? || !Fresh(o.flags, h.name, o.done) then Fail
        else Goto(k + HDR, isbe, Open(lh.value.flags, [], Child(h.name, o)))
      else if h.typ == T_NVLIST_ARRAY then
        var lh := ParseListHdr(bs[k..]);
        if h.nitems == 0 || HDR * h.nitems > |bs| - k || lh.None? || !Fresh(o.flags, h.name, o.done) then Fail
        else Goto(k + HDR, lh.value.isbe, Open(lh.value.flags, [], Elem(h.name, [], h.nitems - 1, o)))
      else
        var s := ParseScalar(h, isbe, bs[k..]);
        if s.None? || !Fresh(o.flags, h.name, o.done) then Fail
        else Goto(k + h.datasize, isbe, o.(done := o.done + [Pair(h.name, Leaf(s.value))]))
  }

  function NextElem(o: Open, flags: byte): Open
    requires o.link.Elem? && o.link.after > 0
  {
    Open(flags, [], o.link.(before := o.link.before + [Current(o)], after := o.link.after - 1))
  }

  function Run(bs: seq<byte>, isbe: bool, o: Open): Option<Tree>
    decreases |bs|
  {
    if bs == [] then Some(Finish(o))
    else
      var s := Step(bs, isbe, o);
      if s.Fail? then None else Run(bs[s.used..], s.isbe, s.open)
  }

  /** The tree that unpacking bs with the expected flags yields. */
  function Unpacked(bs: seq<byte>, flags: byte): Option<Tree> {
    var lh := ParseListHdr(bs);
    if lh.None? || lh.value.flags != flags then None
    else Run(bs[HDR..], lh.value.isbe, Open(flags, [], Root))
  }
}

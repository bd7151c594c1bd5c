/** Writing a whole tree and reserve map: it succeeds exactly when it fits, and reads back as written. */
module FdtWriteTree {
  import opened Bytes
  import opened FdtTokens
  import opened FdtTree
  import opened FdtBlob
  import opened FdtRw
  import opened FdtEdit
  import opened FdtRefine
  import opened FdtOps
  import opened FdtWriter
  import opened FdtReadBack

  // ---- the space a tree takes

  function PropsSize(props: seq<AProp>): nat {
    if props == [] then 0 else 12 + Align4(|props[0].val|) + PropsSize(props[1..])
  }

  function NodeSize(a: ANode): nat
    decreases a, 1
  {
    4 + Align4(|a.name| + 1) + PropsSize(a.props) + KidsSize(a.kids) + 4
  }

  function KidsSize(kids: seq<ANode>): nat
    decreases kids, 0
  {
    if kids == [] then 0 else NodeSize(kids[0]) + KidsSize(kids[1..])
  }

  /** The string block after the names of the properties, each stored once. */
  ghost function PropNames(strs: seq<byte>, props: seq<AProp>): (r: seq<byte>)
    ensures |r| >= |strs|
    decreases |props|
  {
    if props == [] then strs else PropNames(WithName(strs, props[0].name), props[1..])
  }

  ghost function NodeNames(strs: seq<byte>, a: ANode): (r: seq<byte>)
    ensures |r| >= |strs|
    decreases a, 1
  {
    KidNames(PropNames(strs, a.props), a.kids)
  }

  ghost function KidNames(strs: seq<byte>, kids: seq<ANode>): (r: seq<byte>)
    ensures |r| >= |strs|
    decreases kids, 0
  {
    if kids == [] then strs else KidNames(NodeNames(strs, kids[0]), kids[1..])
  }

  /** Names are C strings and values have a 31-bit length. */
  predicate PropsWritable(props: seq<AProp>) {
    forall i :: 0 <= i < |props| ==> NoNul(props[i].name) && |props[i].val| < MAX
  }

  predicate Writable(a: ANode)
    decreases a, 1
  {
    NoNul(a.name) && PropsWritable(a.props) && KidsWritable(a.kids)
  }

  predicate KidsWritable(kids: seq<ANode>)
    decreases kids, 0
  {
    kids == [] || (Writable(kids[0]) && KidsWritable(kids[1..]))
  }

  // ---- writing

  /** What the writer holds: how much structure, which strings, which calls, and what is in front. */
  datatype State = State(size: nat, strs: seq<byte>, calls: seq<Event>, front: seq<byte>)

  ghost function Of(w: Sw): State
    requires w.Valid()
    reads w, w.buf
  {
    State(w.sizeStruct, w.Strings(), Events(w.toks, w.Strings()), w.Front())
  }

  /** The state after more structure, given the strings and calls that come with it. */
  function More(s: State, size: nat, strs: seq<byte>, calls: seq<Event>): State {
    State(s.size + size, strs, s.calls + calls, s.front)
  }

  /** It all fits between the end of the reserve map and the end of the buffer. */
  predicate Room(w: Sw, size: nat, strs: seq<byte>)
    reads w
  {
    w.offStruct + size + |strs| <= w.totalsize
  }

  method WriteProps(w: Sw, props: seq<AProp>) returns (err: int)
    requires w.Valid() && PropsWritable(props) && |PropNames(w.Strings(), props)| <= w.totalsize
    modifies w`sizeStruct, w`sizeStrings, w`toks, w.buf
    ensures w.Valid() && (err == 0 || err == NOSPACE)
    ensures err == 0 <==> Room(w, old(w.sizeStruct) + PropsSize(props), PropNames(old(w.Strings()), props))
    ensures err == 0 ==>
      Of(w) == More(old(Of(w)), PropsSize(props), PropNames(old(w.Strings()), props), PropCalls(props))
    ensures w.Front() == old(w.Front())
    decreases |props|
  {
    hide w.Valid, w.Strings, w.Front, Events, WithName, Align4, Stored, NoNul;
    Layouts(w);
    if props == [] { return 0; }
    NameFits(w.Strings(), props[0].name);
    err := Property(w, props[0].name, props[0].val);
    Layouts(w);
    if err != 0 { return; }
    err := WriteProps(w, props[1..]);
  }

  /** The calls for a tree, made one after the other; the first that finds no room ends them. */
  method WriteNode(w: Sw, a: ANode) returns (err: int)
    requires w.Valid() && Writable(a) && |NodeNames(w.Strings(), a)| <= w.totalsize
    modifies w`sizeStruct, w`sizeStrings, w`toks, w.buf
    ensures w.Valid() && (err == 0 || err == NOSPACE)
    ensures err == 0 <==> Room(w, old(w.sizeStruct) + NodeSize(a), NodeNames(old(w.Strings()), a))
    ensures err == 0 ==> Of(w) == More(old(Of(w)), NodeSize(a), NodeNames(old(w.Strings()), a), Calls(a))
    ensures w.Front() == old(w.Front())
    decreases a, 1
  {
    hide w.Valid, w.Strings, w.Front, Events, Align4, NoNul, PropNames, KidNames, PropsSize, KidsSize, PropCalls,
        KidCalls, PropsWritable, KidsWritable;
    Layouts(w);
    err := BeginNode(w, a.name);
    Layouts(w);
    if err != 0 { return; }
    err := WriteProps(w, a.props);
    Layouts(w);
    if err != 0 { return; }
    err := WriteKids(w, a.kids);
    Layouts(w);
    if err != 0 { return; }
    err := EndNodeSw(w);
  }

  method WriteKids(w: Sw, kids: seq<ANode>) returns (err: int)
    requires w.Valid() && KidsWritable(kids) && |KidNames(w.Strings(), kids)| <= w.totalsize
    modifies w`sizeStruct, w`sizeStrings, w`toks, w.buf
    ensures w.Valid() && (err == 0 || err == NOSPACE)
    ensures err == 0 <==> Room(w, old(w.sizeStruct) + KidsSize(kids), KidNames(old(w.Strings()), kids))
    ensures err == 0 ==> Of(w) == More(old(Of(w)), KidsSize(kids), KidNames(old(w.Strings()), kids), KidCalls(kids))
    ensures w.Front() == old(w.Front())
    decreases kids, 0
  {
    hide w.Valid, w.Strings, w.Front, Events, NodeNames, NodeSize, Calls, Writable;
    Layouts(w);
    if kids == [] { return 0; }
    err := WriteNode(w, kids[0]);
    Layouts(w);
    if err != 0 { return; }
    err := WriteKids(w, kids[1..]);
  }

  lemma {:induction false} Layouts(w: Sw)
    requires w.Valid()
    ensures w.Layout() && w.offStruct + w.sizeStruct + w.sizeStrings <= w.totalsize && |w.Strings()| == w.sizeStrings
  {
  }

  lemma {:induction false} NameFits(strs: seq<byte>, name: seq<byte>)
    ensures Stored(strs, name) || |WithName(strs, name)| == |strs| + |name| + 1
  {
  }

  // ---- the memory reserve map

  datatype Rsv = Rsv(addr: nat, size: nat)

  predicate RsvOk(rs: seq<Rsv>) {
    forall i :: 0 <= i < |rs| ==> rs[i].addr < U64 && rs[i].size < U64
  }

  function EncRsv(rs: seq<Rsv>): (bs: seq<byte>)
    ensures |bs| == 16 * |rs|
  {
    if rs == [] then [] else EncRsv(rs[..|rs| - 1]) + (Be(rs[|rs| - 1].addr, 8) + Be(rs[|rs| - 1].size, 8))
  }

  /** The blob's reserve map is rs and the entry that ends it. */
  ghost predicate HasMap(f: Fdt, rs: seq<Rsv>)
    reads f, f.buf
  {
    f.offRsv == 48 && f.offStruct == 48 + 16 * (|rs| + 1) <= f.buf.Length &&
    f.Front()[48..] == EncRsv(rs + [Rsv(0, 0)]) && RsvOk(rs)
  }

  lemma {:induction false} EncRsvNext(rs: seq<Rsv>, r: Rsv)
    ensures EncRsv(rs + [r]) == EncRsv(rs) + (Be(r.addr, 8) + Be(r.size, 8))
  {
    assert (rs + [r])[..|rs|] == rs;
  }

  lemma {:induction false} EncRsvAt(rs: seq<Rsv>, i: nat)
    requires i < |rs|
    ensures EncRsv(rs)[16 * i..16 * i + 8] == Be(rs[i].addr, 8)
    ensures EncRsv(rs)[16 * i + 8..16 * i + 16] == Be(rs[i].size, 8)
    decreases |rs|
  {
    hide Be;
    var k := |rs| - 1;
    var e := EncRsv(rs[..k]);
    if i < k {
      EncRsvAt(rs[..k], i);
      assert EncRsv(rs)[16 * i..16 * i + 8] == e[16 * i..16 * i + 8];
      assert EncRsv(rs)[16 * i + 8..16 * i + 16] == e[16 * i + 8..16 * i + 16];
    }
  }

  /** Entry n of the map. */
  method GetMemRsv(f: Fdt, n: nat, ghost rs: seq<Rsv>) returns (addr: nat, size: nat)
    requires HasMap(f, rs) && n <= |rs|
    ensures var r := (rs + [Rsv(0, 0)])[n]; addr == r.addr && size == r.size
  {
    hide Be, BeDec, EncRsv;
    var at := f.offRsv + 16 * n;
    RsvField(f.buf[..f.offStruct], rs, n);
    assert f.buf[..f.offStruct][at..at + 8] == f.buf[at..at + 8] &&
      f.buf[..f.offStruct][at + 8..at + 16] == f.buf[at + 8..at + 16];
    addr, size := BeDec(f.buf[at..at + 8]), BeDec(f.buf[at + 8..at + 16]);
  }

  lemma {:induction false} RsvField(front: seq<byte>, rs: seq<Rsv>, n: nat)
    requires |front| == 48 + 16 * (|rs| + 1) && front[48..] == EncRsv(rs + [Rsv(0, 0)]) && RsvOk(rs) && n <= |rs|
    ensures var r, at := (rs + [Rsv(0, 0)])[n], 48 + 16 * n;
      BeDec(front[at..at + 8]) == r.addr && BeDec(front[at + 8..at + 16]) == r.size
  {
    hide Be, BeDec, EncRsv;
    var all := rs + [Rsv(0, 0)];
    EncRsvAt(all, n);
    var r, at := all[n], 48 + 16 * n;
    assert front[at..at + 8] == front[48..][16 * n..16 * n + 8];
    assert front[at + 8..at + 16] == front[48..][16 * n + 8..16 * n + 16];
    SpanValues();
    BeRoundTrip(r.addr, 8);
    BeRoundTrip(r.size, 8);
  }

  /** The number of entries: up to the first whose size is zero, so all of them exactly when none is. */
  method NumMemRsv(f: Fdt, ghost rs: seq<Rsv>) returns (n: nat)
    requires HasMap(f, rs)
    ensures n <= |rs| && (n < |rs| ==> rs[n].size == 0) && forall i :: 0 <= i < n ==> rs[i].size != 0
    ensures n == |rs| <==> forall i :: 0 <= i < |rs| ==> rs[i].size != 0
  {
    hide HasMap;
    n := 0;
    var addr, size := GetMemRsv(f, 0, rs);
    while size != 0
      invariant n <= |rs| && size == (rs + [Rsv(0, 0)])[n].size && forall i :: 0 <= i < n ==> rs[i].size != 0
      decreases |rs| - n
    {
      n := n + 1;
      addr, size := GetMemRsv(f, n, rs);
    }
  }

  // ---- everything

  /** The bytes a reserve map and a tree need: header, map with its end, structure with its end, strings. */
  ghost function Need(rsv: seq<Rsv>, a: ANode): nat {
    48 + 16 * (|rsv| + 1) + NodeSize(a) + 4 + |NodeNames([], a)|
  }

  lemma {:induction false} MapGrows(front: seq<byte>, more: seq<byte>, bs: seq<byte>)
    requires |front| >= 48 && more == front + bs
    ensures |more| >= 48 && more[48..] == front[48..] + bs
  {
  }

  /** A new writer whose map holds the entries, if there is room for a map at all. */
  ghost predicate MapStage(w: Sw, es: seq<Rsv>)
    reads w, w.buf
  {
    && w.toks == [] && w.sizeStruct == w.sizeStrings == 0 && w.offStruct == 48 + 16 * |es|
    && w.totalsize <= w.buf.Length && w.totalsize < MAX
    && (w.totalsize >= 48 ==>
         w.Valid() && w.offStruct <= w.totalsize && |w.Front()| >= 48 && w.Front()[48..] == EncRsv(es))
  }

  lemma {:induction false} MapStarts(w: Sw)
    requires w.toks == [] && w.sizeStruct == w.sizeStrings == 0 && w.offStruct == 48 && w.totalsize <= w.buf.Length
    requires w.totalsize < MAX && (w.totalsize >= 48 ==> w.Valid())
    ensures MapStage(w, [])
  {
  }

  /** One entry more. */
  method PushEntry(w: Sw, r: Rsv, ghost es: seq<Rsv>) returns (err: int)
    requires MapStage(w, es)
    modifies w`offStruct, w.buf
    ensures err == 0 || err == NOSPACE
    ensures err == 0 <==> 48 + 16 * (|es| + 1) <= w.totalsize
    ensures err == 0 ==> MapStage(w, es + [r]) && w.Valid()
  {
    hide EncRsv, Be, w.Front, w.Strings;
    ghost var front := w.Front();
    err := AddReserveEntry(w, r.addr, r.size);
    if err == 0 {
      EncRsvNext(es, r);
      MapGrows(front, w.Front(), Be(r.addr, 8) + Be(r.size, 8));
    }
  }

  method WriteMap(w: Sw, rsv: seq<Rsv>) returns (err: int)
    requires w.toks == [] && w.sizeStruct == w.sizeStrings == 0 && w.offStruct == 48 && w.totalsize <= w.buf.Length
    requires w.totalsize < MAX
    requires w.totalsize >= 48 ==> w.Valid()
    modifies w`offStruct, w.buf
    ensures err == 0 || err == NOSPACE
    ensures err == 0 <==> 48 + 16 * (|rsv| + 1) <= w.totalsize
    ensures err == 0 ==>
      w.Valid() && w.offStruct == 48 + 16 * (|rsv| + 1) && w.Front()[48..] == EncRsv(rsv + [Rsv(0, 0)])
  {
    MapStarts(w);
    assert rsv[..0] == [];
    err := WriteEntries(w, rsv);
    if err == 0 { err := PushEntry(w, Rsv(0, 0), rsv); }
  }

  method WriteEntries(w: Sw, rsv: seq<Rsv>) returns (err: int)
    requires MapStage(w, [])
    modifies w`offStruct, w.buf
    ensures err == 0 || err == NOSPACE
    ensures err == 0 <==> rsv == [] || 48 + 16 * |rsv| <= w.totalsize
    ensures err == 0 ==> MapStage(w, rsv)
  {
    hide *;
    err := 0;
    ghost var done: seq<Rsv> := [];
    for k := 0 to |rsv|
      invariant done == rsv[..k] && |done| == k && MapStage(w, done) && err == 0
      invariant k > 0 ==> 48 + 16 * k <= w.totalsize
    {
      err := PushEntry(w, rsv[k], done);
      if err != 0 { return; }
      done := done + [rsv[k]];
    }
    assert rsv[..|rsv|] == rsv;
  }

  /**
   * Create, the reserve map, the calls for the tree, finish: succeeds exactly when the whole fits
   * in the buffer, and then the blob holds the tree and the map.
   */
  method WriteTree(buf: array<byte>, bufsize: nat, rsv: seq<Rsv>, a: ANode) returns (err: int, f: Fdt?, ghost n: Node)
    requires bufsize <= buf.Length && bufsize < MAX && Writable(a) && RsvOk(rsv) && |NodeNames([], a)| <= bufsize
    modifies buf
    ensures err == 0 || err == NOSPACE
    ensures err == 0 <==> Need(rsv, a) <= bufsize
    ensures f != null <==> err == 0
    ensures f != null ==> fresh(f) && f.buf == buf && InTree(f, Top, n, [End]) && Ordered(f) && Abs(n, f.Strings()) == a
    ensures f != null ==> HasMap(f, rsv)
  {
    hide InTree, Ordered, HasMap, Need, NodeNames, Writable, Abs;
    f, n := null, Node([], [], []);
    var w;
    err, w := Create(buf, bufsize);
    NeedSome(rsv, a);
    if err != 0 { return; }
    err, f, n := WriteAll(w, rsv, a);
  }

  lemma {:induction false} NeedSome(rsv: seq<Rsv>, a: ANode)
    ensures Need(rsv, a) >= 64
  {
  }

  /** The calls behind create. */
  method WriteAll(w: Sw, rsv: seq<Rsv>, a: ANode) returns (err: int, f: Fdt?, ghost n: Node)
    requires w.toks == [] && w.sizeStruct == w.sizeStrings == 0 && w.offRsv == w.offStruct == 48
    requires w.totalsize <= w.buf.Length && w.totalsize < MAX && (w.totalsize >= 48 ==> w.Valid())
    requires Writable(a) && RsvOk(rsv) && |NodeNames([], a)| <= w.totalsize
    modifies w`offStruct, w`sizeStruct, w`sizeStrings, w`toks, w.buf
    ensures err == 0 || err == NOSPACE
    ensures err == 0 <==> Need(rsv, a) <= w.totalsize
    ensures f != null <==> err == 0
    ensures f != null ==>
      fresh(f) && f.buf == w.buf && InTree(f, Top, n, [End]) && Ordered(f) && Abs(n, f.Strings()) == a
    ensures f != null ==> HasMap(f, rsv)
  {
    hide InTree, Ordered, HasMap, NodeSize, NodeNames, Writable, Calls, Abs, EncRsv, Events, w.Valid, w.Strings,
        w.Front;
    f, n := null, Node([], [], []);
    err := WriteMap(w, rsv);
    if err != 0 { return; }
    NothingWritten(w);
    err := WriteNode(w, a);
    Layouts(w);
    if err != 0 { return; }
    err, f, n := FinishTree(w, rsv, a);
  }

  /** Finish, after the map and the calls for the tree have been made. */
  method FinishTree(w: Sw, ghost rsv: seq<Rsv>, ghost a: ANode) returns (err: int, f: Fdt?, ghost n: Node)
    requires w.Valid() && Events(w.toks, w.Strings()) == Calls(a) && RsvOk(rsv) && w.offRsv == 48
    requires w.offStruct == 48 + 16 * (|rsv| + 1) && w.Front()[48..] == EncRsv(rsv + [Rsv(0, 0)])
    modifies w`sizeStruct, w`toks, w.buf
    ensures err == if w.offStruct + old(w.sizeStruct) + 4 + w.sizeStrings > w.totalsize then NOSPACE else 0
    ensures f != null <==> err == 0
    ensures f != null ==>
      fresh(f) && f.buf == w.buf && InTree(f, Top, n, [End]) && Ordered(f) && Abs(n, f.Strings()) == a
    ensures f != null ==> HasMap(f, rsv)
  {
    hide w.Valid, w.Strings, Events, ReadEvents, Calls, EncRsv, Abs, Flat;
    n := Node([], [], []);
    CallsEnd(a);
    Layouts(w);
    err, f := Finish(w);
    if err != 0 { return; }
    n := ReadBack(f.toks, f.Strings(), a);
    HoldsTree(f.toks, Top, n, [End]);
  }

  lemma {:induction false} NothingWritten(w: Sw)
    requires w.Valid() && w.sizeStruct == w.sizeStrings == 0
    ensures w.Strings() == [] && Events(w.toks, w.Strings()) == []
  {
    NoToks(w.toks);
  }

  lemma {:induction false} CallsEnd(a: ANode)
    ensures Done !in Calls(a)
    decreases a, 1
  {
    PropCallsEnd(a.props);
    KidCallsEnd(a.kids);
  }

  lemma {:induction false} PropCallsEnd(props: seq<AProp>)
    ensures Done !in PropCalls(props)
  {
    if props != [] { PropCallsEnd(props[1..]); }
  }

  lemma {:induction false} KidCallsEnd(kids: seq<ANode>)
    ensures Done !in KidCalls(kids)
    decreases kids, 0
  {
    if kids != [] {
      CallsEnd(kids[0]);
      KidCallsEnd(kids[1..]);
    }
  }

  /** A map of two regions, the first of size zero, counts as empty. */
  method CountStopsEarly() returns (f: Fdt?, n: nat, ghost rs: seq<Rsv>)
    ensures f != null && fresh(f) && |rs| == 2 && HasMap(f, rs) && n == 0
  {
    hide InTree, Ordered, HasMap, Abs;
    var buf, two := new byte[200], [Rsv(0x1000, 0), Rsv(0x2000, 0x100)];
    var err;
    ghost var t;
    err, f, t := WriteTree(buf, 200, two, ANode([], [], []));
    rs := two;
    assert err == 0;
    n := NumMemRsv(f, rs);
    assert two[0].size == 0;
  }
}

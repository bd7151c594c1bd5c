/** Writing a tree call by call and reading it back gives the same tree. */
module FdtReadBack {
  import opened Bytes
  import opened FdtTokens
  import opened FdtTree
  import opened FdtSpec
  import opened FdtWriter

  /** The calls that write a tree: open a node, its properties, its children, close it. */
  function Calls(a: ANode): seq<Event>
    decreases a, 1
  {
    [Open(a.name)] + PropCalls(a.props) + KidCalls(a.kids) + [Close]
  }

  function PropCalls(props: seq<AProp>): (es: seq<Event>)
    ensures |es| == |props|
  {
    if props == [] then [] else [Set(props[0].name, props[0].val)] + PropCalls(props[1..])
  }

  function KidCalls(kids: seq<ANode>): seq<Event>
    decreases kids, 0
  {
    if kids == [] then [] else Calls(kids[0]) + KidCalls(kids[1..])
  }

  lemma {:induction false} ReadSlice(ts: seq<Tok>, strs: seq<byte>, i: nat, j: nat)
    requires i <= j <= |ts|
    ensures ReadEvents(ts[i..j], strs) == ReadEvents(ts, strs)[i..j]
  {
    var a, b := ReadEvents(ts[i..j], strs), ReadEvents(ts, strs)[i..j];
    forall k | 0 <= k < j - i ensures a[k] == b[k] { assert ts[i..j][k] == ts[i + k]; }
  }

  lemma {:induction false} ReadParts(ts: seq<Tok>, strs: seq<byte>, a: seq<Event>, b: seq<Event>)
    requires ReadEvents(ts, strs) == a + b
    ensures ReadEvents(ts[..|a|], strs) == a && ReadEvents(ts[|a|..], strs) == b && ts == ts[..|a|] + ts[|a|..]
  {
    hide ReadEvents;
    ReadSlice(ts, strs, 0, |a|);
    ReadSlice(ts, strs, |a|, |ts|);
    assert ts[0..|a|] == ts[..|a|] && ts[|a|..|ts|] == ts[|a|..];
    assert (a + b)[0..|a|] == a && (a + b)[|a|..|a| + |b|] == b;
  }

  lemma {:induction false} RebuildProps(ts: seq<Tok>, strs: seq<byte>, props: seq<AProp>) returns (items: seq<Item>)
    requires ReadEvents(ts, strs) == PropCalls(props)
    ensures FlatItems(items) == ts && AbsProps(items, strs) == props && forall i :: 0 <= i < |items| ==>
      !items[i].SubItem?
  {
    if props == [] { return []; }
    var t := ts[0];
    assert ReadEvents(ts, strs)[0] == PropCalls(props)[0];
    assert ReadEvents(ts[1..], strs) == PropCalls(props[1..]) by {
      ReadSlice(ts, strs, 1, |ts|);
      assert ts[1..|ts|] == ts[1..] && PropCalls(props)[1..|props|] == PropCalls(props[1..]);
    }
    var rest := RebuildProps(ts[1..], strs, props[1..]);
    items := [PropItem(t.nameoff, t.val, t.pad)] + rest;
    assert items[1..] == rest;
  }

  lemma {:induction false} RebuildKids(ts: seq<Tok>, strs: seq<byte>, kids: seq<ANode>) returns (items: seq<Item>)
    requires ReadEvents(ts, strs) == KidCalls(kids)
    ensures FlatItems(items) == ts && AbsKids(items, strs) == kids && (items != [] ==> items[0].SubItem?)
    decreases kids, 0
  {
    hide ReadEvents;
    if kids == [] { return []; }
    var a := Calls(kids[0]);
    ReadParts(ts, strs, a, KidCalls(kids[1..]));
    var n := Rebuild(ts[..|a|], strs, kids[0]);
    var rest := RebuildKids(ts[|a|..], strs, kids[1..]);
    items := [SubItem(n)] + rest;
    assert items[1..] == rest;
    ConsKid(n, rest, strs);
  }

  /** Tokens that read as the calls for a tree spell out a node that is seen as that tree. */
  lemma {:induction false} Rebuild(ts: seq<Tok>, strs: seq<byte>, a: ANode) returns (n: Node)
    requires ReadEvents(ts, strs) == Calls(a)
    ensures ts == Flat(n) && Abs(n, strs) == a
    decreases a, 1
  {
    hide ReadEvents, PropCalls, KidCalls, FlatItems, AbsProps, AbsKids;
    var open, ps, ks, close := [Open(a.name)], PropCalls(a.props), KidCalls(a.kids), [Close];
    ReadParts(ts, strs, open + ps + ks, close);
    var ts1 := ts[..|open + ps + ks|];
    ReadParts(ts1, strs, open + ps, ks);
    var ts2 := ts1[..|open + ps|];
    ReadParts(ts2, strs, open, ps);
    var pitems := RebuildProps(ts2[1..], strs, a.props);
    var kitems := RebuildKids(ts1[|open + ps|..], strs, a.kids);
    var first := FirstTok(ts2[..1], strs, Open(a.name));
    var last := FirstTok(ts[|open + ps + ks|..], strs, Close);
    n := Node(first.name, first.pad, pitems + kitems);
    FlatConcat(pitems, kitems);
    PropsConcat(pitems, kitems, strs);
    KidsConcat(pitems, kitems, strs);
    NoPropsAfter(kitems, strs);
    assert a.props + [] == a.props && [] + a.kids == a.kids;
    assert ts == [first] + (ts2[1..] + ts1[|open + ps|..]) + [last];
  }

  lemma {:induction false} FirstTok(ts: seq<Tok>, strs: seq<byte>, e: Event) returns (t: Tok)
    requires ReadEvents(ts, strs) == [e] && (e.Open? || e == Close)
    ensures ts == [t] && (e.Open? ==> t.Begin? && t.name == e.name) && (e == Close ==> t == EndNode)
  {
    t := ts[0];
    assert ReadEvents(ts, strs)[0] == e;
  }

  /** After the calls for a tree and a successful finish, the blob holds that tree. */
  lemma {:induction false} ReadBack(ts: seq<Tok>, strs: seq<byte>, a: ANode) returns (n: Node)
    requires ReadEvents(ts, strs) == Calls(a) + [Done]
    ensures ts == Flat(n) + [End] && Abs(n, strs) == a
  {
    hide ReadEvents, Calls, Flat, Abs;
    ReadParts(ts, strs, Calls(a), [Done]);
    n := Rebuild(ts[..|Calls(a)|], strs, a);
    LastTok(ts[|Calls(a)|..], strs);
  }

  lemma {:induction false} LastTok(ts: seq<Tok>, strs: seq<byte>)
    requires ReadEvents(ts, strs) == [Done]
    ensures ts == [End]
  {
    assert ReadEvents(ts, strs)[0] == Done;
  }
}

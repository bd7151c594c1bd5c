/** The walk over all nodes for the greatest phandle, and what shifting an overlay by it gives. */
module FdtMaxPhandle {
  import opened Bytes
  import opened FdtTokens
  import opened FdtTree
  import opened FdtSpec
  import opened FdtBlob
  import opened FdtRw
  import opened FdtRefine
  import opened FdtWriter
  import opened FdtPhandle

  // ---- on trees

  /** A phandle counts unless it is the reserved last value. */
  function Usable(h: nat): nat { if h == U32 - 1 then 0 else h }

  function Max(a: nat, b: nat): nat { if a < b then b else a }

  function Number(h: Option<nat>): nat { if h.Some? then h.value else 0 }

  function MaxOf(hs: seq<Option<nat>>): nat {
    if hs == [] then 0 else Max(Usable(Number(hs[0])), MaxOf(hs[1..]))
  }

  lemma {:induction false} MaxOfConcat(a: seq<Option<nat>>, b: seq<Option<nat>>)
    ensures MaxOf(a + b) == Max(MaxOf(a), MaxOf(b))
  {
    if a == [] {
      assert a + b == b;
    } else {
      assert (a + b)[1..] == a[1..] + b;
      MaxOfConcat(a[1..], b);
    }
  }

  /** It bounds every phandle that counts. */
  lemma {:induction false} MaxOfBounds(hs: seq<Option<nat>>, i: nat)
    requires i < |hs| && hs[i].Some? && hs[i].value != U32 - 1
    ensures hs[i].value <= MaxOf(hs)
  {
    if i > 0 { MaxOfBounds(hs[1..], i - 1); }
  }

  /** It is one of them, unless it is zero. */
  lemma {:induction false} MaxOfIsOne(hs: seq<Option<nat>>) returns (i: nat)
    requires MaxOf(hs) > 0
    ensures i < |hs| && hs[i] == Some(MaxOf(hs)) && MaxOf(hs) != U32 - 1
  {
    if Usable(Number(hs[0])) == MaxOf(hs) {
      i := 0;
    } else {
      i := MaxOfIsOne(hs[1..]);
      i := i + 1;
    }
  }

  // ---- on tokens

  /** The value of a property of the node whose header is ts[0]. */
  function ValueHere(ts: seq<Tok>, strs: seq<byte>, name: seq<byte>): Option<seq<byte>>
    requires ts != []
  {
    var p := PropOf(ts[1..], strs, name);
    if p.At? then Some(ts[1 + p.i].val) else None
  }

  function HandleHere(ts: seq<Tok>, strs: seq<byte>): nat
    requires ts != []
  {
    var v := ValueHere(ts, strs, PHANDLE);
    if v.Some? && |v.value| == 4 then BeDec(v.value)
    else
      var w := ValueHere(ts, strs, LINUX_PHANDLE);
      if w.Some? && |w.value| == 4 then BeDec(w.value) else 0
  }

  function MaxHere(ts: seq<Tok>, strs: seq<byte>): nat {
    if ts == [] || ts[0].End? then 0
    else if ts[0].Begin? then Max(Usable(HandleHere(ts, strs)), MaxHere(ts[1..], strs))
    else MaxHere(ts[1..], strs)
  }

  lemma {:induction false} ValueHereIs(n: Node, rest: seq<Tok>, strs: seq<byte>, name: seq<byte>)
    ensures ValueHere(Flat(n) + rest, strs, name) == Get(AbsProps(n.items, strs), name)
  {
    hide PropOf, PropIndex, FlatItems, AbsProps, Get;
    var ts := Flat(n) + rest;
    assert ts[1..] == FlatItems(n.items) + [EndNode] + rest;
    PropOfItems(n.items, rest, strs, name);
    GetIs(n.items, strs, name);
    var k := PropIndex(n.items, strs, name);
    if k < |n.items| {
      SameOffset(n.items, k);
      assert ts[1 + k] == ts[1..][k];
    }
  }

  lemma {:induction false} HandleHereIs(n: Node, rest: seq<Tok>, strs: seq<byte>)
    ensures HandleHere(Flat(n) + rest, strs) == Number(Handle(AbsProps(n.items, strs)))
  {
    hide ValueHere, BeDec, Get;
    ValueHereIs(n, rest, strs, PHANDLE);
    ValueHereIs(n, rest, strs, LINUX_PHANDLE);
  }

  /** The walk over a node's tokens finds the greatest phandle of the tree below it. */
  lemma {:induction false} MaxHereNode(n: Node, rest: seq<Tok>, strs: seq<byte>)
    ensures MaxHere(Flat(n) + rest, strs) == Max(MaxOf(Handles(Abs(n, strs))), MaxHere(rest, strs))
    decreases n, 1
  {
    hide HandleHere, Handle;
    var ts, tail := Flat(n) + rest, [EndNode] + rest;
    HandleHereIs(n, rest, strs);
    assert ts[1..] == FlatItems(n.items) + tail;
    MaxHereItems(n.items, tail, strs);
    assert tail[1..] == rest;
    var a := Abs(n, strs);
    assert Handles(a) == [Handle(a.props)] + KidHandles(a.kids);
    assert ([Handle(a.props)] + KidHandles(a.kids))[1..] == KidHandles(a.kids);
  }

  function ItemHandles(it: Item, strs: seq<byte>): seq<Option<nat>> {
    if it.SubItem? then Handles(Abs(it.node, strs)) else []
  }

  lemma {:induction false} MaxHereItem(it: Item, rest: seq<Tok>, strs: seq<byte>)
    ensures MaxHere(FlatItem(it) + rest, strs) == Max(MaxOf(ItemHandles(it, strs)), MaxHere(rest, strs))
    decreases it, 2
  {
    hide HandleHere;
    if it.SubItem? {
      MaxHereNode(it.node, rest, strs);
    } else {
      assert |FlatItem(it)| == 1 && (FlatItem(it) + rest)[1..] == rest;
    }
  }

  lemma {:induction false} MaxHereItems(items: seq<Item>, rest: seq<Tok>, strs: seq<byte>)
    ensures MaxHere(FlatItems(items) + rest, strs) == Max(MaxOf(KidHandles(AbsKids(items, strs))), MaxHere(rest, strs))
    decreases items, 0
  {
    hide MaxHere, ItemHandles, MaxOf;
    if items == [] {
      assert FlatItems(items) + rest == rest;
      NoHandles(KidHandles(AbsKids(items, strs)));
    } else {
      Assoc(FlatItem(items[0]), FlatItems(items[1..]), rest);
      MaxHereItem(items[0], FlatItems(items[1..]) + rest, strs);
      MaxHereItems(items[1..], rest, strs);
      FirstHandles(items, strs);
      MaxOfConcat(ItemHandles(items[0], strs), KidHandles(AbsKids(items[1..], strs)));
    }
  }

  lemma {:induction false} NoHandles(hs: seq<Option<nat>>)
    requires hs == []
    ensures MaxOf(hs) == 0
  {
  }

  lemma {:induction false} FirstHandles(items: seq<Item>, strs: seq<byte>)
    requires items != []
    ensures KidHandles(AbsKids(items, strs)) == ItemHandles(items[0], strs) + KidHandles(AbsKids(items[1..], strs))
  {
    hide Abs, Handles;
    if items[0].SubItem? {
      var kids := AbsKids(items, strs);
      assert kids[0] == Abs(items[0].node, strs) && kids[1..] == AbsKids(items[1..], strs);
    } else {
      assert AbsKids(items, strs) == AbsKids(items[1..], strs);
      assert ItemHandles(items[0], strs) == [];
    }
  }

  // ---- the walk

  /** No node header, and no end of the block, from token i up to j. */
  predicate Between(ts: seq<Tok>, i: nat, j: nat) {
    i <= j <= |ts| && forall k :: i <= k < j ==> !ts[k].Begin? && !ts[k].End?
  }

  /**
   * The first node header from token i on, whatever its depth; without a depth to keep, a block that just
   * stops is one that ends.
   */
  method NodeFrom(f: Fdt, offset: nat, ghost i: nat) returns (next: int, ghost j: nat)
    requires f.Valid() && i <= |f.toks| && offset == Off(f.toks, i)
    ensures Between(f.toks, i, j)
    ensures next >= 0 ==> j < |f.toks| && f.toks[j].Begin? && next == Off(f.toks, j)
    ensures next < 0 ==> next == NOTFOUND && (j < |f.toks| ==> f.toks[j].End?)
  {
    hide Off, f.Valid;
    f.ValidBlocks();
    next, j := offset, i;
    while true
      invariant Between(f.toks, i, j) && next == Off(f.toks, j)
      decreases |f.toks| - j
    {
      var here := next;
      var tag;
      tag, next := f.TagAt(here, j);
      if tag == END {
        next := if next >= 0 || next == TRUNCATED then NOTFOUND else next;
        return;
      }
      if tag == BEGIN_NODE { return here, j; }
      j := j + 1;
    }
  }

  lemma {:induction false} MaxSkip(ts: seq<Tok>, i: nat, j: nat, strs: seq<byte>)
    requires Between(ts, i, j)
    ensures MaxHere(ts[i..], strs) == MaxHere(ts[j..], strs)
    ensures j == |ts| || ts[j].End? ==> MaxHere(ts[i..], strs) == 0
    decreases j - i
  {
    hide HandleHere;
    if i < j {
      assert ts[i..][1..] == ts[i + 1..];
      MaxSkip(ts, i + 1, j, strs);
    }
  }

  lemma {:induction false} MaxTake(ts: seq<Tok>, j: nat, strs: seq<byte>)
    requires j < |ts| && ts[j].Begin?
    ensures MaxHere(ts[j..], strs) == Max(Usable(HandleHere(ts[j..], strs)), MaxHere(ts[j + 1..], strs))
  {
    hide HandleHere;
    assert ts[j..][1..] == ts[j + 1..];
  }

  /** One of the two properties of node i, if it holds one cell; -1 otherwise. */
  method CellProp(f: Fdt, offset: nat, name: seq<byte>, ghost i: nat) returns (v: int)
    requires f.Valid() && i < |f.toks| && offset == Off(f.toks, i) && f.toks[i].Begin?
    ensures var x := ValueHere(f.toks[i..], f.Strings(), name);
      v == (if x.Some? && |x.value| == 4 then BeDec(x.value) else -1) && v < U32
  {
    hide Off, f.Valid, f.Strings, PropOf, BeDec;
    f.ValidBlocks();
    assert f.toks[i..][1..] == f.toks[i + 1..];
    var off;
    ghost var j;
    off, j := f.GetProperty(offset, name, i);
    if off < 0 { return -1; }
    var val := PropVal(f, off, j);
    SpanValues();
    v := if |val| == 4 then BeDec(val) else -1;
  }

  method GetPhandle(f: Fdt, offset: nat, ghost i: nat) returns (h: nat)
    requires f.Valid() && i < |f.toks| && offset == Off(f.toks, i) && f.toks[i].Begin?
    ensures h == HandleHere(f.toks[i..], f.Strings()) && h < U32
  {
    hide Off, f.Valid, f.Strings, ValueHere, BeDec;
    f.ValidBlocks();
    var v := CellProp(f, offset, PHANDLE, i);
    if v < 0 { v := CellProp(f, offset, LINUX_PHANDLE, i); }
    h := if v < 0 then 0 else v;
  }

  /** fdt_get_max_phandle: the greatest phandle of all nodes, the reserved value apart. */
  method MaxPhandle(f: Fdt) returns (max: nat)
    requires f.Valid()
    ensures max == MaxHere(f.toks, f.Strings()) && max < U32
  {
    hide Off, f.Valid, f.Strings, MaxHere, HandleHere;
    f.ValidBlocks();
    FirstOff(f.toks);
    max := 0;
    assert f.toks[0..] == f.toks;
    var offset;
    ghost var i;
    offset, i := NodeFrom(f, 0, 0);
    MaxSkip(f.toks, 0, i, f.Strings());
    while true
      invariant i <= |f.toks| && max < U32
      invariant MaxHere(f.toks, f.Strings()) == Max(max, MaxHere(f.toks[i..], f.Strings()))
      invariant offset >= 0 ==> i < |f.toks| && f.toks[i].Begin? && offset == Off(f.toks, i)
      invariant offset < 0 ==> offset == NOTFOUND && MaxHere(f.toks[i..], f.Strings()) == 0
      decreases |f.toks| - i
    {
      if offset == NOTFOUND { return; }
      MaxTake(f.toks, i, f.Strings());
      var h := GetPhandle(f, offset, i);
      if h != U32 - 1 && h > max { max := h; }
      var tag, next := f.TagAt(offset, i);
      ghost var k := i + 1;
      offset, i := NodeFrom(f, next, k);
      MaxSkip(f.toks, k, i, f.Strings());
    }
  }

  /** On a whole tree: the greatest phandle of the tree. */
  lemma {:induction false} MaxOfTree(ts: seq<Tok>, n: Node, strs: seq<byte>)
    requires ts == Flat(n) + [End]
    ensures MaxHere(ts, strs) == MaxOf(Handles(Abs(n, strs)))
  {
    hide Flat, MaxOf, Handles, Abs;
    MaxHereNode(n, [End], strs);
  }

  // ---- shifting an overlay by it

  /** No moved phandle is the reserved last value. */
  lemma {:induction false} MovedBelow(a: ANode, delta: nat)
    requires MoveNode(a, delta).Good?
    ensures forall i :: 0 <= i < |Handles(MoveNode(a, delta).value)| ==>
      SmallHandle(Handles(MoveNode(a, delta).value)[i])
    decreases a, 1
  {
    hide MoveProp, Handle;
    OneBelow(a.props, delta);
    KidsBelow(a.kids, delta);
  }

  predicate SmallHandle(h: Option<nat>) { h.Some? ==> h.value < U32 - 1 }

  lemma {:induction false} OneBelow(props: seq<AProp>, delta: nat)
    requires MoveProp(props, PHANDLE, delta).Good?
    requires MoveProp(MoveProp(props, PHANDLE, delta).value, LINUX_PHANDLE, delta).Good?
    ensures SmallHandle(Handle(MoveProp(MoveProp(props, PHANDLE, delta).value, LINUX_PHANDLE, delta).value))
  {
    hide MoveProp, BeDec;
    assert |PHANDLE| != |LINUX_PHANDLE|;
    var p := MoveProp(props, PHANDLE, delta).value;
    MovedProp(props, PHANDLE, delta, LINUX_PHANDLE);
    MovedProp(p, LINUX_PHANDLE, delta, PHANDLE);
  }

  lemma {:induction false} KidsBelow(kids: seq<ANode>, delta: nat)
    requires MoveKids(kids, delta).Good?
    ensures forall i :: 0 <= i < |KidHandles(MoveKids(kids, delta).value)| ==>
      SmallHandle(KidHandles(MoveKids(kids, delta).value)[i])
    decreases kids, 0
  {
    hide SmallHandle;
    if kids != [] {
      MovedBelow(kids[0], delta);
      KidsBelow(kids[1..], delta);
      var r := MoveKids(kids, delta).value;
      assert r[1..] == MoveKids(kids[1..], delta).value;
    }
  }
}

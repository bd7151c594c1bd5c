/**
 * Device trees: a node as it lies in the structure block (padding, NOPs and
 * string offsets included), the abstract tree a reader sees, and the scans
 * over tokens that libfdt runs, each matched to the tree.
 */
module FdtTree {
  import opened Bytes
  import opened FdtTokens

  datatype Node = Node(name: seq<byte>, pad: seq<byte>, items: seq<Item>)
  datatype Item = NopItem | PropItem(nameoff: nat, val: seq<byte>, pad: seq<byte>) | SubItem(node: Node)

  function Flat(n: Node): (ts: seq<Tok>)
    ensures |ts| >= 2 && ts[0] == Begin(n.name, n.pad) && ts[|ts| - 1] == EndNode
    decreases n, 1
  {
    [Begin(n.name, n.pad)] + FlatItems(n.items) + [EndNode]
  }

  function FlatItem(it: Item): (ts: seq<Tok>)
    ensures |ts| >= 1
    decreases it, 2
  {
    match it
    case NopItem => [Nop]
    case PropItem(nameoff, val, pad) => [Prop(nameoff, val, pad)]
    case SubItem(n) => Flat(n)
  }

  function FlatItems(items: seq<Item>): seq<Tok>
    decreases items, 0
  {
    if items == [] then [] else FlatItem(items[0]) + FlatItems(items[1..])
  }

  lemma {:induction false} FlatConcat(a: seq<Item>, b: seq<Item>)
    ensures FlatItems(a + b) == FlatItems(a) + FlatItems(b)
  {
    if a == [] {
      assert a + b == b;
    } else {
      assert (a + b)[1..] == a[1..] + b;
      FlatConcat(a[1..], b);
      Assoc(FlatItem(a[0]), FlatItems(a[1..]), FlatItems(b));
    }
  }

  lemma {:induction false} FlatOne(it: Item)
    ensures FlatItems([it]) == FlatItem(it)
  {
    assert [it][1..] == [];
    assert FlatItems([it]) == FlatItem(it) + [];
  }

  // ---- a place in the tree

  /** What surrounds a node, from its parent up to the root. */
  datatype Ctx = Top | In(up: Ctx, name: seq<byte>, pad: seq<byte>, before: seq<Item>, after: seq<Item>)

  function Plug(c: Ctx, n: Node): Node {
    match c
    case Top => n
    case In(up, name, pad, before, after) => Plug(up, Node(name, pad, before + [SubItem(n)] + after))
  }

  function Pre(c: Ctx): seq<Tok> {
    match c
    case Top => []
    case In(up, name, pad, before, after) => Pre(up) + [Begin(name, pad)] + FlatItems(before)
  }

  function Post(c: Ctx): seq<Tok> {
    match c
    case Top => []
    case In(up, name, pad, before, after) => FlatItems(after) + [EndNode] + Post(up)
  }

  /** The tokens around a node do not depend on the node. */
  lemma {:induction false} PlugFlat(c: Ctx, n: Node)
    ensures Flat(Plug(c, n)) == Pre(c) + Flat(n) + Post(c)
  {
    match c
    case Top =>
    case In(up, name, pad, before, after) =>
      var m := Node(name, pad, before + [SubItem(n)] + after);
      PlugFlat(up, m);
      FlatConcat(before + [SubItem(n)], after);
      FlatConcat(before, [SubItem(n)]);
      FlatOne(SubItem(n));
      PlugParts(Pre(up), [Begin(name, pad)], FlatItems(before), Flat(n), FlatItems(after), [EndNode], Post(up));
  }

  lemma {:induction false} PlugParts(a: seq<Tok>, b: seq<Tok>, c: seq<Tok>, n: seq<Tok>, d: seq<Tok>, e: seq<Tok>,
      f: seq<Tok>)
    ensures a + (b + (c + n + d) + e) + f == (a + b + c) + n + (d + e + f)
  {
  }

  // ---- the string block

  /** The C string at off. */
  function NameAt(strs: seq<byte>, off: nat): seq<byte> {
    if off <= |strs| then strs[off..][..StrLen(strs[off..])] else []
  }

  /** A terminated string starts at off. */
  predicate NameOk(strs: seq<byte>, off: nat) {
    off < |strs| && off + StrLen(strs[off..]) < |strs|
  }

  lemma {:induction false} NameAtIs(strs: seq<byte>, off: nat, s: seq<byte>)
    requires NoNul(s) && off + |s| < |strs| && strs[off..off + |s|] == s && strs[off + |s|] == 0
    ensures NameOk(strs, off) && NameAt(strs, off) == s
  {
    hide StrLen;
    var rest := strs[off..];
    assert forall i :: 0 <= i < |s| ==> rest[i] == strs[off..off + |s|][i];
    StrLenUnique(rest, |s|);
    assert rest[..|s|] == s;
  }

  /** Strings added at the end leave the ones in front alone. */
  lemma {:induction false} NameKeeps(strs: seq<byte>, off: nat, more: seq<byte>)
    requires NameOk(strs, off)
    ensures NameOk(strs + more, off) && NameAt(strs + more, off) == NameAt(strs, off)
  {
    hide StrLen;
    var s := NameAt(strs, off);
    assert (strs + more)[off..off + |s|] == strs[off..off + |s|] == s;
    NameAtIs(strs + more, off, s);
  }

  // ---- what a reader sees

  datatype AProp = AProp(name: seq<byte>, val: seq<byte>)
  datatype ANode = ANode(name: seq<byte>, props: seq<AProp>, kids: seq<ANode>)

  /** Properties are looked for up to the first subnode only. */
  function AbsProps(items: seq<Item>, strs: seq<byte>): seq<AProp> {
    if items == [] then []
    else match items[0]
      case NopItem => AbsProps(items[1..], strs)
      case PropItem(nameoff, val, _) => [AProp(NameAt(strs, nameoff), val)] + AbsProps(items[1..], strs)
      case SubItem(_) => []
  }

  function AbsKids(items: seq<Item>, strs: seq<byte>): seq<ANode>
    decreases items, 0
  {
    if items == [] then []
    else (if items[0].SubItem? then AbsItem(items[0], strs) else []) + AbsKids(items[1..], strs)
  }

  function AbsItem(it: Item, strs: seq<byte>): (kids: seq<ANode>)
    requires it.SubItem?
    ensures kids == [Abs(it.node, strs)]
    decreases it, 2
  {
    [Abs(it.node, strs)]
  }

  function Abs(n: Node, strs: seq<byte>): ANode
    decreases n, 1
  {
    ANode(n.name, AbsProps(n.items, strs), AbsKids(n.items, strs))
  }

  /** All names used below n are in the string block, and all tokens are well formed. */
  predicate NodeOk(n: Node, strs: seq<byte>)
    decreases n, 1
  {
    ValidTok(Begin(n.name, n.pad)) && ItemsOk(n.items, strs)
  }

  predicate ItemsOk(items: seq<Item>, strs: seq<byte>)
    decreases items, 0
  {
    forall i :: 0 <= i < |items| ==> ItemOk(items[i], strs)
  }

  predicate ItemOk(it: Item, strs: seq<byte>)
    decreases it, 2
  {
    match it
    case NopItem => true
    case PropItem(nameoff, val, pad) => ValidTok(Prop(nameoff, val, pad)) && NameOk(strs, nameoff)
    case SubItem(n) => NodeOk(n, strs)
  }

  // ---- scans

  /** Where a scan stops, counted in tokens, or the error it ends with. */
  datatype Found = At(i: nat) | Err(e: int)

  function Shift(f: Found, k: nat): Found {
    if f.At? then At(f.i + k) else f
  }

  /** One step of the walk over nodes. */
  datatype Walk = AtNode(i: nat, depth: nat) | Up(i: nat) | Stop(e: int)

  function ShiftWalk(w: Walk, k: nat): Walk {
    match w
    case AtNode(i, d) => AtNode(i + k, d)
    case Up(i) => Up(i + k)
    case Stop(e) => w
  }

  /** The next node after the one whose header was just passed, or its end when depth runs out. */
  function NextNodeOf(ts: seq<Tok>, d: nat): (w: Walk)
    ensures w.AtNode? ==> w.i < |ts| && ts[w.i].Begin? && w.depth >= 1
    ensures w.Up? ==> 0 < w.i <= |ts|
  {
    if ts == [] then Stop(TRUNCATED)
    else match ts[0]
      case Begin(_, _) => AtNode(0, d + 1)
      case EndNode => if d == 0 then Up(1) else ShiftWalk(NextNodeOf(ts[1..], d - 1), 1)
      case End => Stop(NOTFOUND)
      case _ => ShiftWalk(NextNodeOf(ts[1..], d), 1)
  }

  /** The end of a node, just after its header: how many tokens until the depth runs out. */
  function EndOf(ts: seq<Tok>, d: nat): (f: Found)
    ensures f.At? ==> 0 < f.i <= |ts|
    ensures f.Err? ==> f.e == NOTFOUND || f.e == TRUNCATED
  {
    if ts == [] then Err(TRUNCATED)
    else match ts[0]
      case Begin(_, _) => Shift(EndOf(ts[1..], d + 1), 1)
      case EndNode => if d == 0 then At(1) else Shift(EndOf(ts[1..], d - 1), 1)
      case End => Err(NOTFOUND)
      case _ => Shift(EndOf(ts[1..], d), 1)
  }

  /** A stored name answers to s: equal, or equal up to the unit address when s has none. */
  predicate NameMatches(full: seq<byte>, s: seq<byte>) {
    && |s| <= |full| && full[..|s|] == s
    && (|full| == |s| || (0x40 !in s && full[|s|] == 0x40))
  }

  /** It answers to its full name, and without its unit address if what is asked for has none. */
  lemma {:induction false} NameMatchesIs(full: seq<byte>, s: seq<byte>)
    ensures NameMatches(full, s) <==> full == s || (0x40 !in s && exists unit :: full == s + [0x40] + unit)
  {
    if NameMatches(full, s) && |full| > |s| {
      assert full == s + [0x40] + full[|s| + 1..];
    }
  }

  /** The first child that answers to name, looking at depth 1 only. */
  function SubOf(ts: seq<Tok>, d: nat, name: seq<byte>): Found {
    if ts == [] then Err(TRUNCATED)
    else match ts[0]
      case Begin(full, _) => if d == 0 && NameMatches(full, name) then At(0) else Shift(SubOf(ts[1..], d + 1, name), 1)
      case EndNode => if d == 0 then Err(NOTFOUND) else Shift(SubOf(ts[1..], d - 1, name), 1)
      case End => Err(NOTFOUND)
      case _ => Shift(SubOf(ts[1..], d, name), 1)
  }

  lemma {:induction false} SubOfFacts(ts: seq<Tok>, d: nat, name: seq<byte>)
    ensures var f := SubOf(ts, d, name);
      if f.At? then f.i < |ts| && ts[f.i].Begin? && NameMatches(ts[f.i].name, name) else f.e == NOTFOUND || f.e == TRUNCATED
  {
    hide NameMatches;
    if ts != [] && !(ts[0].Begin? && d == 0 && NameMatches(ts[0].name, name)) && !ts[0].End? && !(ts[0].EndNode? && d == 0) {
      SubOfFacts(ts[1..], if ts[0].Begin? then d + 1 else if ts[0].EndNode? then d - 1 else d, name);
    }
  }

  /** The first property up to the first other token that is not a NOP. */
  function NextPropOf(ts: seq<Tok>): (f: Found)
    ensures f.At? ==> f.i < |ts| && ts[f.i].Prop?
  {
    if ts == [] then Err(TRUNCATED)
    else match ts[0]
      case Prop(_, _, _) => At(0)
      case Nop => Shift(NextPropOf(ts[1..]), 1)
      case End => Err(BADSTRUCTURE)
      case _ => Err(NOTFOUND)
  }

  function PropOf(ts: seq<Tok>, strs: seq<byte>, name: seq<byte>): (f: Found)
    ensures f.At? ==> f.i < |ts| && ts[f.i].Prop? && NameAt(strs, ts[f.i].nameoff) == name
    ensures f.Err? ==> f.e == NOTFOUND || f.e == TRUNCATED || f.e == BADSTRUCTURE
  {
    if ts == [] then Err(TRUNCATED)
    else match ts[0]
      case Prop(nameoff, _, _) => if NameAt(strs, nameoff) == name then At(0) else Shift(PropOf(ts[1..], strs, name), 1)
      case Nop => Shift(PropOf(ts[1..], strs, name), 1)
      case End => Err(BADSTRUCTURE)
      case _ => Err(NOTFOUND)
  }

  /** How many properties and NOPs come first. */
  function Leading(ts: seq<Tok>): (k: nat)
    ensures k <= |ts|
  {
    if ts != [] && (ts[0].Prop? || ts[0].Nop?) then 1 + Leading(ts[1..]) else 0
  }

  // ---- the scans on trees

  lemma {:induction false} EndSkip(items: seq<Item>, rest: seq<Tok>, d: nat)
    ensures EndOf(FlatItems(items) + rest, d) == Shift(EndOf(rest, d), |FlatItems(items)|)
    decreases items, 0
  {
    if items == [] {
      assert FlatItems(items) + rest == rest;
    } else {
      var tail := FlatItems(items[1..]) + rest;
      Assoc(FlatItem(items[0]), FlatItems(items[1..]), rest);
      EndSkip(items[1..], rest, d);
      EndSkipItem(items[0], tail, d);
    }
  }

  lemma {:induction false} EndSkipItem(it: Item, rest: seq<Tok>, d: nat)
    ensures EndOf(FlatItem(it) + rest, d) == Shift(EndOf(rest, d), |FlatItem(it)|)
    decreases it, 2
  {
    if it.SubItem? {
      EndSkipNode(it.node, rest, d);
    } else {
      assert (FlatItem(it) + rest)[1..] == rest;
    }
  }

  lemma {:induction false} EndSkipNode(n: Node, rest: seq<Tok>, d: nat)
    ensures EndOf(Flat(n) + rest, d) == Shift(EndOf(rest, d), |Flat(n)|)
    decreases n, 1
  {
    var ts := Flat(n) + rest;
    var tail := [EndNode] + rest;
    assert ts[1..] == FlatItems(n.items) + tail;
    EndSkip(n.items, tail, d + 1);
    assert tail[1..] == rest;
  }

  /** Just after a node's header, the end of the node is where its own tokens end. */
  lemma {:induction false} EndOfNode(n: Node, post: seq<Tok>)
    ensures EndOf((Flat(n) + post)[1..], 0) == At(|Flat(n)| - 1)
  {
    var tail := [EndNode] + post;
    assert (Flat(n) + post)[1..] == FlatItems(n.items) + tail;
    EndSkip(n.items, tail, 0);
  }

  lemma {:induction false} SubSkip(items: seq<Item>, rest: seq<Tok>, d: nat, name: seq<byte>)
    requires d > 0
    ensures SubOf(FlatItems(items) + rest, d, name) == Shift(SubOf(rest, d, name), |FlatItems(items)|)
    decreases items, 0
  {
    if items == [] {
      assert FlatItems(items) + rest == rest;
    } else {
      var tail := FlatItems(items[1..]) + rest;
      Assoc(FlatItem(items[0]), FlatItems(items[1..]), rest);
      SubSkip(items[1..], rest, d, name);
      SubSkipItem(items[0], tail, d, name);
    }
  }

  lemma {:induction false} SubSkipItem(it: Item, rest: seq<Tok>, d: nat, name: seq<byte>)
    requires d > 0 || !it.SubItem? || !NameMatches(it.node.name, name)
    ensures SubOf(FlatItem(it) + rest, d, name) == Shift(SubOf(rest, d, name), |FlatItem(it)|)
    decreases it, 2
  {
    if it.SubItem? {
      SubSkipNode(it.node, rest, d, name);
    } else {
      assert (FlatItem(it) + rest)[1..] == rest;
    }
  }

  lemma {:induction false} SubSkipNode(n: Node, rest: seq<Tok>, d: nat, name: seq<byte>)
    requires d > 0 || !NameMatches(n.name, name)
    ensures SubOf(Flat(n) + rest, d, name) == Shift(SubOf(rest, d, name), |Flat(n)|)
    decreases n, 1
  {
    var ts := Flat(n) + rest;
    var tail := [EndNode] + rest;
    assert ts[1..] == FlatItems(n.items) + tail;
    SubSkip(n.items, tail, d + 1, name);
    assert tail[1..] == rest;
  }

  /** The first child answering to name, or the number of items. */
  function SubIndex(items: seq<Item>, name: seq<byte>): (i: nat)
    ensures i <= |items| && (i < |items| ==> items[i].SubItem? && NameMatches(items[i].node.name, name))
    ensures forall j :: 0 <= j < i ==> !(items[j].SubItem? && NameMatches(items[j].node.name, name))
  {
    if items == [] || (items[0].SubItem? && NameMatches(items[0].node.name, name)) then 0
    else 1 + SubIndex(items[1..], name)
  }

  /** Looking a child up by name finds the first one that answers to it. */
  lemma {:induction false} SubOfItems(items: seq<Item>, post: seq<Tok>, name: seq<byte>)
    ensures var i := SubIndex(items, name);
      SubOf(FlatItems(items) + [EndNode] + post, 0, name) ==
        if i < |items| then At(|FlatItems(items[..i])|) else Err(NOTFOUND)
  {
    var tail := [EndNode] + post;
    Assoc(FlatItems(items), [EndNode], post);
    if items == [] {
      assert FlatItems(items) + tail == tail;
    } else {
      var rest := FlatItems(items[1..]) + tail;
      Assoc(FlatItem(items[0]), FlatItems(items[1..]), tail);
      Assoc(FlatItems(items[1..]), [EndNode], post);
      if items[0].SubItem? && NameMatches(items[0].node.name, name) {
        assert (FlatItem(items[0]) + rest)[0] == Begin(items[0].node.name, items[0].node.pad);
        assert items[..0] == [];
      } else {
        SubOfItems(items[1..], post, name);
        SubSkipItem(items[0], rest, 0, name);
        var i := SubIndex(items[1..], name);
        assert items[..i + 1] == [items[0]] + items[1..][..i];
        FlatConcat([items[0]], items[1..][..i]);
        FlatOne(items[0]);
      }
    }
  }

  // ---- properties of a node

  /** The first visible property called name, or the number of items. */
  function PropIndex(items: seq<Item>, strs: seq<byte>, name: seq<byte>): (i: nat)
    ensures i <= |items| && (i < |items| ==> items[i].PropItem? && NameAt(strs, items[i].nameoff) == name)
    ensures i < |items| ==> forall j :: 0 <= j < i ==>
      !items[j].SubItem? && (items[j].PropItem? ==> NameAt(strs, items[j].nameoff) != name)
  {
    if items == [] then 0
    else match items[0]
      case PropItem(nameoff, _, _) => if NameAt(strs, nameoff) == name then 0 else 1 + PropIndex(items[1..], strs, name)
      case NopItem => 1 + PropIndex(items[1..], strs, name)
      case SubItem(_) => |items|
  }

  /** Before the first subnode, items and tokens are counted alike. */
  lemma {:induction false} FlatShort(items: seq<Item>)
    requires forall j :: 0 <= j < |items| ==> !items[j].SubItem?
    ensures |FlatItems(items)| == |items|
    ensures forall j :: 0 <= j < |items| ==> [FlatItems(items)[j]] == FlatItem(items[j])
  {
    if items != [] { FlatShort(items[1..]); }
  }

  lemma {:induction false} PropOfItems(items: seq<Item>, post: seq<Tok>, strs: seq<byte>, name: seq<byte>)
    ensures var i := PropIndex(items, strs, name);
      PropOf(FlatItems(items) + [EndNode] + post, strs, name) == if i < |items| then At(i) else Err(NOTFOUND)
  {
    var tail := [EndNode] + post;
    Assoc(FlatItems(items), [EndNode], post);
    if items == [] {
      assert FlatItems(items) + tail == tail;
    } else {
      var rest := FlatItems(items[1..]) + tail;
      Assoc(FlatItem(items[0]), FlatItems(items[1..]), tail);
      Assoc(FlatItems(items[1..]), [EndNode], post);
      assert (FlatItem(items[0]) + rest)[0] == FlatItem(items[0])[0];
      if !items[0].SubItem? {
        assert (FlatItem(items[0]) + rest)[1..] == rest;
        PropOfItems(items[1..], post, strs, name);
      }
    }
  }

  /** Items before the first subnode. */
  function LeadingItems(items: seq<Item>): (k: nat)
    ensures k <= |items| && (k < |items| ==> items[k].SubItem?) && forall j :: 0 <= j < k ==> !items[j].SubItem?
  {
    if items != [] && !items[0].SubItem? then 1 + LeadingItems(items[1..]) else 0
  }

  lemma {:induction false} LeadingIs(items: seq<Item>, post: seq<Tok>)
    ensures Leading(FlatItems(items) + [EndNode] + post) == LeadingItems(items)
  {
    var tail := [EndNode] + post;
    Assoc(FlatItems(items), [EndNode], post);
    if items == [] {
      assert FlatItems(items) + tail == tail;
    } else {
      var rest := FlatItems(items[1..]) + tail;
      Assoc(FlatItem(items[0]), FlatItems(items[1..]), tail);
      Assoc(FlatItems(items[1..]), [EndNode], post);
      assert (FlatItem(items[0]) + rest)[0] == FlatItem(items[0])[0];
      if !items[0].SubItem? {
        assert (FlatItem(items[0]) + rest)[1..] == rest;
        LeadingIs(items[1..], post);
      }
    }
  }
}

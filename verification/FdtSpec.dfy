/**
 * Edits of a node, on the node as stored and on the tree a reader sees, and
 * how the two agree.
 */
module FdtSpec {
  import opened Bytes
  import opened FdtTokens
  import opened FdtTree

  // ---- reading a property

  function Get(props: seq<AProp>, name: seq<byte>): Option<seq<byte>> {
    if props == [] then None
    else if props[0].name == name then Some(props[0].val)
    else Get(props[1..], name)
  }

  /** The property found in the items is the one the reader's list names. */
  lemma {:induction false} GetIs(items: seq<Item>, strs: seq<byte>, name: seq<byte>)
    ensures var i := PropIndex(items, strs, name);
      Get(AbsProps(items, strs), name) == if i < |items| then Some(items[i].val) else None
  {
    if items != [] && !items[0].SubItem? { GetIs(items[1..], strs, name); }
  }

  // ---- setting a property

  /** A property that exists keeps its place; a new one goes in front. */
  function Put(props: seq<AProp>, name: seq<byte>, val: seq<byte>): seq<AProp> {
    if Get(props, name).Some? then Replace(props, name, val) else [AProp(name, val)] + props
  }

  function Replace(props: seq<AProp>, name: seq<byte>, val: seq<byte>): seq<AProp> {
    if props == [] then []
    else if props[0].name == name then [AProp(name, val)] + props[1..]
    else [props[0]] + Replace(props[1..], name, val)
  }

  lemma {:induction false} GetReplace(props: seq<AProp>, name: seq<byte>, val: seq<byte>, other: seq<byte>)
    requires Get(props, name).Some?
    ensures Get(Replace(props, name, val), other) == if other == name then Some(val) else Get(props, other)
  {
    if props[0].name != name { GetReplace(props[1..], name, val, other); }
  }

  /** Reading after setting: the new value under its own name, everything else as before. */
  lemma {:induction false} GetPut(props: seq<AProp>, name: seq<byte>, val: seq<byte>, other: seq<byte>)
    ensures Get(Put(props, name, val), other) == if other == name then Some(val) else Get(props, other)
  {
    if Get(props, name).Some? { GetReplace(props, name, val, other); }
  }

  function PutItems(items: seq<Item>, strs: seq<byte>, name: seq<byte>, nameoff: nat, val: seq<byte>,
      pad: seq<byte>): seq<Item> {
    var i := PropIndex(items, strs, name);
    if i < |items| then items[i := PropItem(items[i].nameoff, val, pad)]
    else [PropItem(nameoff, val, pad)] + items
  }

  lemma {:induction false} AbsReplace(items: seq<Item>, strs: seq<byte>, name: seq<byte>, val: seq<byte>,
      pad: seq<byte>)
    requires PropIndex(items, strs, name) < |items|
    ensures var i := PropIndex(items, strs, name);
      AbsProps(items[i := PropItem(items[i].nameoff, val, pad)], strs) == Replace(AbsProps(items, strs), name, val)
  {
    var i := PropIndex(items, strs, name);
    var items' := items[i := PropItem(items[i].nameoff, val, pad)];
    if i > 0 {
      AbsReplace(items[1..], strs, name, val, pad);
      assert items'[1..] == items[1..][i - 1 := PropItem(items[i].nameoff, val, pad)];
    } else {
      assert items'[1..] == items[1..];
    }
  }

  /** Children do not change when only properties and NOPs do. */
  lemma {:induction false} KidsSame(items: seq<Item>, items': seq<Item>, strs: seq<byte>)
    requires |items'| == |items|
    requires forall j :: 0 <= j < |items| ==> if items[j].SubItem? then items'[j] == items[j] else !items'[j].SubItem?
    ensures AbsKids(items', strs) == AbsKids(items, strs)
  {
    if items != [] { KidsSame(items[1..], items'[1..], strs); }
  }

  lemma {:induction false} AbsPut(items: seq<Item>, strs: seq<byte>, name: seq<byte>, nameoff: nat, val: seq<byte>,
      pad: seq<byte>)
    requires NameAt(strs, nameoff) == name
    ensures var items' := PutItems(items, strs, name, nameoff, val, pad);
      AbsProps(items', strs) == Put(AbsProps(items, strs), name, val) && AbsKids(items', strs) == AbsKids(items, strs)
  {
    GetIs(items, strs, name);
    var i, items' := PropIndex(items, strs, name), PutItems(items, strs, name, nameoff, val, pad);
    if i < |items| {
      AbsReplace(items, strs, name, val, pad);
      KidsSame(items, items', strs);
    } else {
      assert items'[1..] == items;
    }
  }

  // ---- longer string blocks

  lemma {:induction false} AbsGrow(n: Node, strs: seq<byte>, more: seq<byte>)
    requires NodeOk(n, strs)
    ensures NodeOk(n, strs + more) && Abs(n, strs + more) == Abs(n, strs)
    decreases n, 1
  {
    ItemsGrow(n.items, strs, more);
  }

  lemma {:induction false} ItemsGrow(items: seq<Item>, strs: seq<byte>, more: seq<byte>)
    requires ItemsOk(items, strs)
    ensures ItemsOk(items, strs + more)
    ensures AbsProps(items, strs + more) == AbsProps(items, strs) && AbsKids(items, strs + more) == AbsKids(items, strs)
    decreases items, 0
  {
    if items != [] {
      assert ItemOk(items[0], strs);
      assert forall i :: 0 <= i < |items[1..]| ==> ItemOk(items[1..][i], strs) by {
        assert forall i :: 0 <= i < |items[1..]| ==> items[1..][i] == items[i + 1];
      }
      ItemsGrow(items[1..], strs, more);
      ItemGrow(items[0], strs, more);
      assert forall i :: 0 < i < |items| ==> items[i] == items[1..][i - 1];
    }
  }

  lemma {:induction false} ItemGrow(it: Item, strs: seq<byte>, more: seq<byte>)
    requires ItemOk(it, strs)
    ensures ItemOk(it, strs + more)
    ensures it.PropItem? ==> NameAt(strs + more, it.nameoff) == NameAt(strs, it.nameoff)
    ensures it.SubItem? ==> Abs(it.node, strs + more) == Abs(it.node, strs)
    decreases it, 2
  {
    match it
    case NopItem =>
    case PropItem(nameoff, _, _) => NameKeeps(strs, nameoff, more);
    case SubItem(n) => AbsGrow(n, strs, more);
  }

  // ---- adding and removing subnodes

  lemma {:induction false} KidsConcat(a: seq<Item>, b: seq<Item>, strs: seq<byte>)
    ensures AbsKids(a + b, strs) == AbsKids(a, strs) + AbsKids(b, strs)
  {
    if a == [] {
      assert a + b == b;
    } else {
      assert (a + b)[1..] == a[1..] + b;
      KidsConcat(a[1..], b, strs);
      Assoc(if a[0].SubItem? then AbsItem(a[0], strs) else [], AbsKids(a[1..], strs), AbsKids(b, strs));
    }
  }

  lemma {:induction false} PropsConcat(a: seq<Item>, b: seq<Item>, strs: seq<byte>)
    requires forall j :: 0 <= j < |a| ==> !a[j].SubItem?
    ensures AbsProps(a + b, strs) == AbsProps(a, strs) + AbsProps(b, strs) && AbsKids(a, strs) == []
  {
    if a == [] {
      assert a + b == b;
    } else {
      assert (a + b)[1..] == a[1..] + b;
      PropsConcat(a[1..], b, strs);
    }
  }

  function EmptyNode(name: seq<byte>): Node {
    Node(name, Zeros(Pad4(|name| + 1)), [])
  }

  function Zeros(n: nat): (bs: seq<byte>)
    ensures |bs| == n && forall i :: 0 <= i < n ==> bs[i] == 0
  {
    seq(n, i => 0)
  }

  /** A new child goes after the leading properties and NOPs. */
  function AddItems(items: seq<Item>, n: Node): seq<Item> {
    var k := LeadingItems(items);
    items[..k] + [SubItem(n)] + items[k..]
  }

  lemma {:induction false} ConsKid(n: Node, b: seq<Item>, strs: seq<byte>)
    ensures AbsKids([SubItem(n)] + b, strs) == [Abs(n, strs)] + AbsKids(b, strs)
    ensures AbsProps([SubItem(n)] + b, strs) == []
  {
    assert ([SubItem(n)] + b)[1..] == b;
  }

  lemma {:induction false} NoPropsAfter(b: seq<Item>, strs: seq<byte>)
    requires b != [] ==> b[0].SubItem?
    ensures AbsProps(b, strs) == []
  {
  }

  function Cut(items: seq<Item>, i: nat): seq<Item>
    requires i < |items|
  {
    items[..i] + items[i + 1..]
  }

  function Nops(k: nat): (items: seq<Item>)
    ensures |items| == k && forall i :: 0 <= i < k ==> items[i].NopItem?
  {
    seq(k, i => NopItem)
  }

  /** An item overwritten with k NOPs. */
  function NopOut(items: seq<Item>, i: nat, k: nat): seq<Item>
    requires i < |items|
  {
    items[..i] + Nops(k) + items[i + 1..]
  }

  lemma {:induction false} AbsNops(k: nat, b: seq<Item>, strs: seq<byte>)
    ensures AbsProps(Nops(k) + b, strs) == AbsProps(b, strs) && AbsKids(Nops(k) + b, strs) == AbsKids(b, strs)
  {
    if k == 0 {
      assert Nops(k) + b == b;
    } else {
      assert (Nops(k) + b)[1..] == Nops(k - 1) + b;
      AbsNops(k - 1, b, strs);
    }
  }

  lemma {:induction false} AbsSameTail(a: seq<Item>, b: seq<Item>, c: seq<Item>, strs: seq<byte>)
    requires AbsProps(b, strs) == AbsProps(c, strs) && AbsKids(b, strs) == AbsKids(c, strs)
    ensures AbsProps(a + b, strs) == AbsProps(a + c, strs) && AbsKids(a + b, strs) == AbsKids(a + c, strs)
  {
    if a == [] {
      assert a + b == b && a + c == c;
    } else {
      assert (a + b)[1..] == a[1..] + b && (a + c)[1..] == a[1..] + c;
      AbsSameTail(a[1..], b, c, strs);
    }
  }

  /** Overwriting an item with NOPs and cutting it out look the same to a reader. */
  lemma {:induction false} NopIsCut(items: seq<Item>, i: nat, k: nat, strs: seq<byte>)
    requires i < |items|
    ensures AbsProps(NopOut(items, i, k), strs) == AbsProps(Cut(items, i), strs)
    ensures AbsKids(NopOut(items, i, k), strs) == AbsKids(Cut(items, i), strs)
  {
    AbsNops(k, items[i + 1..], strs);
    AbsSameTail(items[..i], Nops(k) + items[i + 1..], items[i + 1..], strs);
    assert NopOut(items, i, k) == items[..i] + (Nops(k) + items[i + 1..]);
  }

  /** A reader's view of the whole tree depends on a node only through the reader's view of it. */
  lemma {:induction false} AbsPlug(c: Ctx, n: Node, m: Node, strs: seq<byte>)
    requires Abs(n, strs) == Abs(m, strs)
    ensures Abs(Plug(c, n), strs) == Abs(Plug(c, m), strs)
  {
    match c
    case Top =>
    case In(up, name, pad, before, after) =>
      var a, b := [SubItem(n)] + after, [SubItem(m)] + after;
      assert a[1..] == after && b[1..] == after;
      AbsSameTail(before, a, b, strs);
      assert before + [SubItem(n)] + after == before + a && before + [SubItem(m)] + after == before + b;
      AbsPlug(up, Node(name, pad, before + [SubItem(n)] + after), Node(name, pad, before + [SubItem(m)] + after), strs);
  }
}

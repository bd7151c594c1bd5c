/** Moving the phandles of a tree, said node by node: which properties change, and when the move is refused. */
module FdtMoves {
  import opened Bytes
  import opened FdtTokens
  import opened FdtTree
  import opened FdtSpec
  import opened FdtPhandle
  import opened FdtPlaces

  predicate HandleName(name: seq<byte>) { name == PHANDLE || name == LINUX_PHANDLE }

  /** Property x is a phandle: the first so called of its node. */
  predicate HandleProp(props: seq<AProp>, x: nat) {
    x < |props| && HandleName(props[x].name) && x == FirstCalled(props, props[x].name)
  }

  /** One cell, and delta more does not reach the last value. */
  predicate Movable(v: seq<byte>, delta: nat) { |v| == 4 && BeDec(v) + delta < U32 - 1 }

  predicate PropsMovable(props: seq<AProp>, delta: nat) {
    forall x :: 0 <= x < |props| && HandleProp(props, x) ==> Movable(props[x].val, delta)
  }

  /** Every phandle of the tree can move by delta. */
  ghost predicate AllMovable(a: ANode, delta: nat) {
    forall path :: NodeAt(a, path).Some? ==> PropsMovable(NodeAt(a, path).value.props, delta)
  }

  /** The phandles grew by delta, the other properties are the same. */
  predicate PropsGrown(was: seq<AProp>, now: seq<AProp>, delta: nat) {
    |now| == |was| && forall x :: 0 <= x < |was| ==>
      now[x] == if HandleProp(was, x) then AProp(was[x].name, Be(BeDec(was[x].val) + delta, 4)) else was[x]
  }

  // ---- one property

  lemma {:induction false} ReplaceIs(props: seq<AProp>, name: seq<byte>, val: seq<byte>)
    requires FirstCalled(props, name) < |props|
    ensures Replace(props, name, val) == props[FirstCalled(props, name) := AProp(name, val)]
  {
    var x := FirstCalled(props, name);
    if props[0].name != name {
      ReplaceIs(props[1..], name, val);
      assert props[x := AProp(name, val)] == [props[0]] + props[1..][x - 1 := AProp(name, val)];
    } else {
      assert props[0 := AProp(name, val)] == [AProp(name, val)] + props[1..];
    }
  }

  lemma {:induction false} MovePropIs(props: seq<AProp>, name: seq<byte>, delta: nat)
    ensures var x, r := FirstCalled(props, name), MoveProp(props, name, delta);
      && (r.Good? <==> (x < |props| ==> Movable(props[x].val, delta)))
      && (r.Good? ==>
           r.value == if x < |props| then props[x := AProp(name, Be(BeDec(props[x].val) + delta, 4))] else props)
      && (r == Bad(BADPHANDLE) ==> x < |props| && |props[x].val| != 4)
      && (r == Bad(NOPHANDLES) ==> x < |props| && |props[x].val| == 4 && BeDec(props[x].val) + delta >= U32 - 1)
  {
    hide BeDec, Be;
    GetFirst(props, name);
    var x := FirstCalled(props, name);
    if x < |props| && Movable(props[x].val, delta) { ReplaceIs(props, name, Be(BeDec(props[x].val) + delta, 4)); }
  }

  /** A new value does not change which property is the first of a name. */
  lemma {:induction false} FirstSame(props: seq<AProp>, props': seq<AProp>, name: seq<byte>)
    requires |props'| == |props| && forall x :: 0 <= x < |props| ==> props'[x].name == props[x].name
    ensures FirstCalled(props', name) == FirstCalled(props, name)
  {
    hide FirstCalled;
  }

  /** Both phandle properties of a node. */
  lemma {:induction false} MovePropsIs(props: seq<AProp>, delta: nat)
    ensures var p := MoveProp(props, PHANDLE, delta);
      if p.Bad? then !PropsMovable(props, delta)
      else
        var q := MoveProp(p.value, LINUX_PHANDLE, delta);
        (q.Good? <==> PropsMovable(props, delta)) && (q.Good? ==> PropsGrown(props, q.value, delta))
  {
    hide BeDec, Be, MoveProp, FirstCalled;
    assert |PHANDLE| != |LINUX_PHANDLE|;
    var x, y := FirstCalled(props, PHANDLE), FirstCalled(props, LINUX_PHANDLE);
    MovePropIs(props, PHANDLE, delta);
    assert forall z :: 0 <= z < |props| ==> (HandleProp(props, z) <==> z == x || z == y);
    if MoveProp(props, PHANDLE, delta).Good? {
      var p := MoveProp(props, PHANDLE, delta).value;
      FirstSame(props, p, LINUX_PHANDLE);
      MovePropIs(p, LINUX_PHANDLE, delta);
    }
  }

  // ---- the whole tree

  lemma {:induction false} MoveKidsIs(kids: seq<ANode>, delta: nat)
    ensures var r := MoveKids(kids, delta);
      && (r.Good? <==> forall i :: 0 <= i < |kids| ==> MoveNode(kids[i], delta).Good?)
      && (r.Good? ==> forall i :: 0 <= i < |kids| ==> r.value[i] == MoveNode(kids[i], delta).value)
  {
    hide MoveNode;
    if kids != [] {
      MoveKidsIs(kids[1..], delta);
      assert forall i :: 0 < i < |kids| ==> kids[i] == kids[1..][i - 1];
      assert forall i :: 0 <= i < |kids[1..]| ==> kids[1..][i] == kids[i + 1];
    }
  }

  lemma {:induction false} MoveNodeIs(a: ANode, delta: nat)
    ensures var r := MoveNode(a, delta);
      && (r.Good? <==> PropsMovable(a.props, delta) && forall i :: 0 <= i < |a.kids| ==>
           MoveNode(a.kids[i], delta).Good?)
      && (r.Good? ==>
           && r.value.name == a.name && PropsGrown(a.props, r.value.props, delta) && |r.value.kids| == |a.kids|
           && forall i :: 0 <= i < |a.kids| ==> r.value.kids[i] == MoveNode(a.kids[i], delta).value)
  {
    hide MoveProp, MoveKids, PropsMovable, PropsGrown;
    MovePropsIs(a.props, delta);
    MoveKidsIs(a.kids, delta);
  }

  /** The move is refused exactly when some phandle cannot move. */
  lemma {:induction false} MoveRefused(a: ANode, delta: nat)
    ensures MoveNode(a, delta).Good? <==> AllMovable(a, delta)
    decreases a
  {
    hide MoveNode, PropsMovable;
    MoveNodeIs(a, delta);
    forall i | 0 <= i < |a.kids| ensures MoveNode(a.kids[i], delta).Good? <==> AllMovable(a.kids[i], delta) {
      MoveRefused(a.kids[i], delta);
    }
    if MoveNode(a, delta).Good? {
      forall path | NodeAt(a, path).Some? ensures PropsMovable(NodeAt(a, path).value.props, delta) {
        if path != [] { assert AllMovable(a.kids[path[0]], delta); }
      }
    }
    if AllMovable(a, delta) {
      assert NodeAt(a, []).Some?;
      forall i | 0 <= i < |a.kids| ensures AllMovable(a.kids[i], delta) {
        forall path | NodeAt(a.kids[i], path).Some? ensures PropsMovable(NodeAt(a.kids[i], path).value.props, delta) {
          NodeBelow(a, i, path);
        }
      }
    }
  }

  /** After the move, node by node. */
  lemma {:induction false} MovedNode(a: ANode, delta: nat, path: seq<nat>)
    requires MoveNode(a, delta).Good?
    ensures var n, m := NodeAt(a, path), NodeAt(MoveNode(a, delta).value, path);
      && (n.Some? <==> m.Some?)
      && (n.Some? ==> m.value.name == n.value.name && PropsGrown(n.value.props, m.value.props, delta))
    decreases |path|
  {
    hide MoveNode, PropsMovable, PropsGrown;
    MoveNodeIs(a, delta);
    if path != [] && path[0] < |a.kids| { MovedNode(a.kids[path[0]], delta, path[1..]); }
  }
}

/** The nodes of a tree, each named by the child indices that lead to it. */
module FdtPlaces {
  import opened Bytes
  import opened FdtTree
  import opened FdtSpec
  import opened FdtOps
  import opened FdtOverlay

  function NodeAt(a: ANode, path: seq<nat>): Option<ANode>
    decreases |path|
  {
    if path == [] then Some(a)
    else if path[0] < |a.kids| then NodeAt(a.kids[path[0]], path[1..])
    else None
  }

  /** Tree order: a node comes before everything below it, and before its later siblings. */
  predicate Before(p: seq<nat>, q: seq<nat>)
    decreases |p|
  {
    q != [] && (p == [] || p[0] < q[0] || (p[0] == q[0] && Before(p[1..], q[1..])))
  }

  lemma {:induction false} NodeBelow(a: ANode, i: nat, path: seq<nat>)
    ensures NodeAt(a, [i] + path) == if i < |a.kids| then NodeAt(a.kids[i], path) else None
  {
    assert ([i] + path)[1..] == path;
  }

  /** The first property called name, or how many there are. */
  function FirstCalled(props: seq<AProp>, name: seq<byte>): (x: nat)
    ensures x <= |props| && (x < |props| ==> props[x].name == name)
    ensures forall y :: 0 <= y < x ==> props[y].name != name
  {
    if props == [] || props[0].name == name then 0 else 1 + FirstCalled(props[1..], name)
  }

  lemma {:induction false} GetFirst(props: seq<AProp>, name: seq<byte>)
    ensures var x := FirstCalled(props, name); Get(props, name) == if x < |props| then Some(props[x].val) else None
  {
    if props != [] && props[0].name != name { GetFirst(props[1..], name); }
  }

  // ---- stored children and seen ones

  /** Child k of a, in its surroundings. */
  function AChild(c: ACtx, a: ANode, k: nat): ACtx
    requires k < |a.kids|
  {
    AIn(c, a.name, a.props, a.kids[..k], a.kids[k + 1..])
  }

  lemma {:induction false} AbsParts(n: Node, strs: seq<byte>)
    ensures Abs(n, strs) == ANode(n.name, AbsProps(n.items, strs), AbsKids(n.items, strs))
  {
  }

  /** Item k, a child, as child number j. */
  lemma {:induction false} ChildSeen(c: Ctx, n: Node, k: nat, strs: seq<byte>)
    requires k < |n.items| && n.items[k].SubItem?
    ensures var j, a := |AbsKids(n.items[..k], strs)|, Abs(n, strs);
      && j < |a.kids| && a.kids[j] == Abs(n.items[k].node, strs)
      && AbsCtx(Child(c, n, k), strs) == AChild(AbsCtx(c, strs), a, j)
      && |AbsKids(n.items[..k + 1], strs)| == j + 1
  {
    hide AbsKids, AbsProps;
    var before, m, after := n.items[..k], n.items[k].node, n.items[k + 1..];
    assert n.items == before + [SubItem(m)] + after;
    KidsAround(before, m, after, strs);
    PropsBeforeChild(before, m, after, strs);
    assert n.items[..k + 1] == before + [SubItem(m)] + [];
    KidsAround(before, m, [], strs);
    NoKids(strs);
  }

  lemma {:induction false} NotChildSeen(n: Node, k: nat, strs: seq<byte>)
    requires k < |n.items| && !n.items[k].SubItem?
    ensures AbsKids(n.items[..k + 1], strs) == AbsKids(n.items[..k], strs)
  {
    hide AbsKids;
    assert n.items[..k + 1] == n.items[..k] + [n.items[k]];
    KidsConcat(n.items[..k], [n.items[k]], strs);
    KidsCons([n.items[k]], strs);
    assert [n.items[k]][1..] == [];
    NoKids(strs);
  }

  /** A later child has a greater number. */
  lemma {:induction false} CountGrows(n: Node, k: nat, m: nat, strs: seq<byte>)
    requires k <= m <= |n.items|
    ensures |AbsKids(n.items[..k], strs)| <= |AbsKids(n.items[..m], strs)| <= |AbsKids(n.items, strs)|
    ensures k < m && n.items[k].SubItem? ==> |AbsKids(n.items[..k], strs)| < |AbsKids(n.items[..m], strs)|
    decreases |n.items| - k
  {
    hide AbsKids;
    if k < |n.items| {
      if n.items[k].SubItem? { ChildSeen(Top, n, k, strs); } else { NotChildSeen(n, k, strs); }
      CountGrows(n, k + 1, if k < m then m else k + 1, strs);
    } else {
      assert n.items[..k] == n.items;
    }
  }

  // ---- places and paths

  function PathOf(c: ACtx): seq<nat> {
    match c
    case ATop => []
    case AIn(up, _, _, before, _) => PathOf(up) + [|before|]
  }

  lemma {:induction false} NodeCat(a: ANode, p: seq<nat>, q: seq<nat>)
    ensures NodeAt(a, p + q) == if NodeAt(a, p).Some? then NodeAt(NodeAt(a, p).value, q) else None
    decreases |p|
  {
    if p == [] {
      assert p + q == q;
    } else if p[0] < |a.kids| {
      assert (p + q)[1..] == p[1..] + q;
      NodeCat(a.kids[p[0]], p[1..], q);
    }
  }

  /** The tree with another node at the path. */
  function PutAt(a: ANode, path: seq<nat>, n: ANode): (r: ANode)
    requires NodeAt(a, path).Some?
    decreases |path|
  {
    if path == [] then n
    else a.(kids := a.kids[path[0] := PutAt(a.kids[path[0]], path[1..], n)])
  }

  lemma {:induction false} PutCat(a: ANode, p: seq<nat>, i: nat, n: ANode)
    requires NodeAt(a, p).Some? && i < |NodeAt(a, p).value.kids|
    ensures NodeAt(a, p + [i]).Some?
    ensures var m := NodeAt(a, p).value; PutAt(a, p + [i], n) == PutAt(a, p, m.(kids := m.kids[i := n]))
    decreases |p|
  {
    NodeCat(a, p, [i]);
    if p == [] {
      assert p + [i] == [i] && [i][1..] == [];
    } else {
      assert (p + [i])[1..] == p[1..] + [i];
      PutCat(a.kids[p[0]], p[1..], i, n);
    }
  }

  /** A node in its surroundings is the node at their path, and another in its place is put there. */
  lemma {:induction false} PlugAt(c: ACtx, n: ANode, n': ANode)
    ensures NodeAt(APlug(c, n), PathOf(c)) == Some(n) && APlug(c, n') == PutAt(APlug(c, n), PathOf(c), n')
  {
    match c
    case ATop =>
    case AIn(up, name, props, before, after) =>
      var m, m' := ANode(name, props, before + [n] + after), ANode(name, props, before + [n'] + after);
      PlugAt(up, m, m');
      NodeCat(APlug(up, m), PathOf(up), [|before|]);
      PutCat(APlug(up, m), PathOf(up), |before|, n');
      assert m.kids[|before| := n'] == m'.kids;
      assert [|before|][1..] == [];
  }

  /** Neither path leads through the end of the other. */
  predicate Aside(p: seq<nat>, q: seq<nat>)
    decreases |p|
  {
    p != [] && q != [] && (p[0] != q[0] || Aside(p[1..], q[1..]))
  }

  predicate SameHead(m: Option<ANode>, n: Option<ANode>) {
    m.Some? && n.Some? && m.value.name == n.value.name && m.value.props == n.value.props &&
    |m.value.kids| == |n.value.kids|
  }

  /**
   * Below the place everything is as in the new node, aside from it as before, and so are the nodes above but
   * for it.
   */
  lemma {:induction false} ReadPut(a: ANode, p: seq<nat>, n: ANode, q: seq<nat>)
    requires NodeAt(a, p).Some?
    ensures NodeAt(PutAt(a, p, n), p + q) == NodeAt(n, q)
    ensures Aside(p, q) ==> NodeAt(PutAt(a, p, n), q) == NodeAt(a, q)
    ensures q < p ==> SameHead(NodeAt(PutAt(a, p, n), q), NodeAt(a, q))
    decreases |p|
  {
    if p == [] {
      assert p + q == q;
    } else {
      assert (p + q)[1..] == p[1..] + q;
      ReadPut(a.kids[p[0]], p[1..], n, q);
      if q != [] { ReadPut(a.kids[p[0]], p[1..], n, q[1..]); }
    }
  }
}

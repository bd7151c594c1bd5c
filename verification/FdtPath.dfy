/** Paths and ancestors: walking all nodes in order, and the chain of nodes open at each. */
module FdtPath {
  import opened Bytes
  import opened FdtTokens
  import opened FdtTree
  import opened FdtBlob
  import opened FdtRefine
  import opened FdtOps

  // ---- which nodes are open

  /** The open nodes, outermost first, after token t at index i. */
  ghost function Push(js: seq<nat>, i: nat, t: Tok): seq<nat> {
    if t.Begin? then js + [i]
    else if t.EndNode? && js != [] then js[..|js| - 1]
    else js
  }

  ghost function OpensFrom(js: seq<nat>, i: nat, ts: seq<Tok>): seq<nat>
    decreases ts
  {
    if ts == [] then js else OpensFrom(Push(js, i, ts[0]), i + 1, ts[1..])
  }

  /** With d nodes open, at least one stays open all along, and the tree does not end. */
  ghost predicate Keeps(d: nat, ts: seq<Tok>)
    decreases ts
  {
    ts == [] ||
    match ts[0]
    case Begin(_, _) => Keeps(d + 1, ts[1..])
    case EndNode => d >= 2 && Keeps(d - 1, ts[1..])
    case End => false
    case _ => d >= 1 && Keeps(d, ts[1..])
  }

  lemma {:induction false} SkipItems(items: seq<Item>, js: seq<nat>, i: nat, rest: seq<Tok>)
    ensures OpensFrom(js, i, FlatItems(items) + rest) == OpensFrom(js, i + |FlatItems(items)|, rest)
    ensures js != [] ==> Keeps(|js|, FlatItems(items) + rest) == Keeps(|js|, rest)
    decreases items, 0
  {
    hide OpensFrom, Keeps;
    if items == [] {
      assert FlatItems(items) + rest == rest;
    } else {
      var a, b := FlatItem(items[0]), FlatItems(items[1..]);
      Assoc(a, b, rest);
      assert i + |FlatItems(items)| == i + |a| + |b|;
      SkipItem(items[0], js, i, b + rest);
      SkipItems(items[1..], js, i + |a|, rest);
    }
  }

  lemma {:induction false} SkipItem(it: Item, js: seq<nat>, i: nat, rest: seq<Tok>)
    ensures OpensFrom(js, i, FlatItem(it) + rest) == OpensFrom(js, i + |FlatItem(it)|, rest)
    ensures js != [] ==> Keeps(|js|, FlatItem(it) + rest) == Keeps(|js|, rest)
    decreases it, 2
  {
    if it.SubItem? {
      SkipNode(it.node, js, i, rest);
    } else {
      assert (FlatItem(it) + rest)[1..] == rest;
    }
  }

  lemma {:induction false} SkipNode(n: Node, js: seq<nat>, i: nat, rest: seq<Tok>)
    ensures OpensFrom(js, i, Flat(n) + rest) == OpensFrom(js, i + |Flat(n)|, rest)
    ensures js != [] ==> Keeps(|js|, Flat(n) + rest) == Keeps(|js|, rest)
    decreases n, 1
  {
    var ts, tail := Flat(n) + rest, [EndNode] + rest;
    assert ts[1..] == FlatItems(n.items) + tail;
    SkipItems(n.items, js + [i], i + 1, tail);
    assert tail[1..] == rest;
  }

  // ---- the chain of a place in the tree

  function Depth(c: Ctx): nat {
    match c
    case Top => 0
    case In(up, _, _, _, _) => Depth(up) + 1
  }

  /** The nodes that a place lies in, as token indices, outermost first. */
  ghost function Chain(c: Ctx): (js: seq<nat>)
    ensures |js| == Depth(c)
  {
    match c
    case Top => []
    case In(up, _, _, _, _) => Chain(up) + [|Pre(up)|]
  }

  lemma {:induction false} PreSplit(c: Ctx, rest: seq<Tok>)
    requires c.In?
    ensures Pre(c) + rest == Pre(c.up) + ([Begin(c.name, c.pad)] + (FlatItems(c.before) + rest))
    ensures |Pre(c)| == |Pre(c.up)| + 1 + |FlatItems(c.before)|
  {
    hide FlatItems;
    PreParts(Pre(c.up), [Begin(c.name, c.pad)], FlatItems(c.before), rest);
  }

  lemma {:induction false} AfterHeader(h: Tok, ts: seq<Tok>, js: seq<nat>, i: nat)
    requires h.Begin?
    ensures OpensFrom(js, i, [h] + ts) == OpensFrom(js + [i], i + 1, ts) && Keeps(|js|, [h] + ts) == Keeps(|js| + 1, ts)
  {
    assert ([h] + ts)[1..] == ts;
  }

  lemma {:induction false} ChainIs(c: Ctx, rest: seq<Tok>)
    ensures OpensFrom([], 0, Pre(c) + rest) == OpensFrom(Chain(c), |Pre(c)|, rest)
    ensures Keeps(0, Pre(c) + rest) == Keeps(Depth(c), rest)
  {
    hide OpensFrom, Keeps, FlatItems, Pre;
    if c.Top? {
      TopPre();
      assert Pre(c) + rest == rest;
    } else {
      var h, tail := Begin(c.name, c.pad), FlatItems(c.before) + rest;
      PreSplit(c, rest);
      ChainIs(c.up, [h] + tail);
      AfterHeader(h, tail, Chain(c.up), |Pre(c.up)|);
      SkipItems(c.before, Chain(c), |Pre(c.up)| + 1, rest);
    }
  }

  lemma {:induction false} PreParts<T>(a: seq<T>, b: seq<T>, c: seq<T>, r: seq<T>)
    ensures (a + b + c) + r == a + (b + (c + r))
  {
  }

  /** The tokens up to a place keep its root open. */
  lemma {:induction false} PlaceKeeps(c: Ctx)
    requires c.In?
    ensures OpensFrom([], 0, Pre(c)) == Chain(c) && Keeps(0, Pre(c)) && |Pre(c)| > 0 && Pre(c)[0].Begin?
  {
    hide Pre;
    ChainIs(c, []);
    assert Pre(c) + [] == Pre(c);
    RootFirst(c);
  }

  lemma {:induction false} RootFirst(c: Ctx)
    requires c.In?
    ensures |Pre(c)| > 0 && Pre(c)[0].Begin?
  {
    if c.up.In? { RootFirst(c.up); }
  }

  // ---- from one node to the next

  /** One token that is not a node header, on the way to the next node. */
  lemma {:induction false} PassTok(b: seq<Tok>, ts: seq<Tok>, js: seq<nat>, base: nat)
    requires b != [] && ts != [] && ts[0] == b[0] && js != [] && Keeps(|js|, b) && !b[0].Begin?
    ensures var js' := Push(js, base, b[0]);
      && js' != [] && Keeps(|js'|, b[1..]) && OpensFrom(js', base + 1, b[1..]) == OpensFrom(js, base, b)
      && NextNodeOf(ts, |js| - 1) == ShiftWalk(NextNodeOf(ts[1..], |js'| - 1), 1)
      && |js'| <= |js| && js[..|js'|] == js'
  {
  }

  /** The node reached k tokens on, at depth d, with the nodes of js that it lies in. */
  ghost predicate OnTheWay(b: seq<Tok>, js: seq<nat>, base: nat, k: nat, d: nat) {
    && k <= |b| && d <= |js|
    && (k == |b| ==> js[..d] == OpensFrom(js, base, b))
    && (k < |b| ==>
         (b[k].Begin? && Keeps(d + 1, b[k + 1..]) && OpensFrom(js[..d] + [base + k], base + k + 1, b[k + 1..]) == OpensFrom(js, base, b)))
  }

  lemma {:induction false} WayStep(b: seq<Tok>, js: seq<nat>, js': seq<nat>, base: nat, k: nat, d: nat)
    requires b != [] && OnTheWay(b[1..], js', base + 1, k, d) && |js'| <= |js| && js[..|js'|] == js'
    requires OpensFrom(js', base + 1, b[1..]) == OpensFrom(js, base, b)
    ensures OnTheWay(b, js, base, k + 1, d)
  {
    hide OpensFrom, Keeps;
    assert js'[..d] == js[..d];
    if k < |b| - 1 {
      assert b[1..][k + 1..] == b[k + 2..];
      assert base + 1 + k == base + (k + 1) && base + 1 + k + 1 == base + (k + 1) + 1;
    }
  }

  lemma {:induction false} WayHere(b: seq<Tok>, js: seq<nat>, base: nat)
    requires b == [] || (b[0].Begin? && Keeps(|js|, b))
    ensures OnTheWay(b, js, base, 0, |js|)
  {
    assert js[..|js|] == js;
  }

  /** Walking on from a node of chain js: the next node on the way to token t, with its own chain. */
  lemma {:induction false} WalkTo(b: seq<Tok>, t: Tok, rest: seq<Tok>, js: seq<nat>, base: nat)
    requires js != [] && Keeps(|js|, b) && t.Begin?
    ensures var w := NextNodeOf(b + [t] + rest, |js| - 1); w.AtNode? && OnTheWay(b, js, base, w.i, w.depth)
    decreases b
  {
    hide OnTheWay, Keeps, OpensFrom, Push, NextNodeOf;
    var ts := b + [t] + rest;
    if b == [] || b[0].Begin? {
      assert ts[0].Begin?;
      HeaderFirst(ts, |js| - 1);
      WayHere(b, js, base);
    } else {
      assert ts[0] == b[0] && ts[1..] == b[1..] + [t] + rest;
      PassTok(b, ts, js, base);
      var js' := Push(js, base, b[0]);
      WalkTo(b[1..], t, rest, js', base + 1);
      var w := NextNodeOf(ts[1..], |js'| - 1);
      WayStep(b, js, js', base, w.i, w.depth);
    }
  }

  lemma {:induction false} HeaderFirst(ts: seq<Tok>, d: nat)
    requires ts != [] && ts[0].Begin?
    ensures NextNodeOf(ts, d) == AtNode(0, d + 1)
  {
  }

  // ---- walking towards a node

  /** Node j, with ancestors js, lies on the walk to node i, whose ancestors are goal. */
  ghost predicate Bound(ts: seq<Tok>, i: nat, goal: seq<nat>, j: nat, js: seq<nat>) {
    && j <= i < |ts| && ts[i].Begin? && ts[j].Begin?
    && (j == i ==> js == goal)
    && (j < i ==> Keeps(|js| + 1, ts[j + 1..i]) && OpensFrom(js + [j], j + 1, ts[j + 1..i]) == goal)
  }

  lemma {:induction false} BoundStart(ts: seq<Tok>, c: Ctx, n: Node, tail: seq<Tok>)
    requires Holds(ts, c, n, tail)
    ensures Bound(ts, |Pre(c)|, Chain(c), 0, [])
  {
    hide Pre, Post, FlatItems, Flat, Holds, Keeps, OpensFrom;
    Here(ts, c, n, tail);
    if c.In? {
      PlaceKeeps(c);
      FirstTok(Pre(c));
      assert ts[0] == ts[..|Pre(c)|][0] && ts[1..|Pre(c)|] == ts[..|Pre(c)|][1..];
      assert [] + [0] == [0];
    } else {
      TopPre();
    }
  }

  lemma {:induction false} Here(ts: seq<Tok>, c: Ctx, n: Node, tail: seq<Tok>)
    requires Holds(ts, c, n, tail)
    ensures |Pre(c)| < |ts| && ts[|Pre(c)|] == Begin(n.name, n.pad) && ts[..|Pre(c)|] == Pre(c)
  {
    hide Pre, Post, FlatItems;
    InsideNode(ts, Pre(c), n, Post(c) + tail);
  }

  lemma {:induction false} TopPre()
    ensures Pre(Top) == []
  {
  }

  lemma {:induction false} FirstTok(b: seq<Tok>)
    requires b != [] && b[0].Begin? && Keeps(0, b)
    ensures Keeps(1, b[1..]) && OpensFrom([0], 1, b[1..]) == OpensFrom([], 0, b)
  {
    assert Push([], 0, b[0]) == [0];
  }

  lemma {:induction false} BoundStep(ts: seq<Tok>, i: nat, goal: seq<nat>, j: nat, js: seq<nat>)
    requires Bound(ts, i, goal, j, js) && j < i
    ensures var w := NextNodeOf(ts[j + 1..], |js|);
      && w.AtNode? && w.depth <= |js| + 1 && Bound(ts, i, goal, j + 1 + w.i, (js + [j])[..w.depth])
  {
    hide Keeps, OpensFrom, NextNodeOf;
    var b, t, rest := ts[j + 1..i], ts[i], ts[i + 1..];
    assert ts[j + 1..] == b + [t] + rest;
    WalkTo(b, t, rest, js + [j], j + 1);
    var w := NextNodeOf(ts[j + 1..], |js|);
    if w.i < |b| {
      assert b[w.i + 1..] == ts[j + 1 + w.i + 1..i];
      assert b[w.i] == ts[j + 1 + w.i];
    }
  }

  // ---- ancestors

  /** The place at depth d on the way down to c. */
  ghost function Anc(c: Ctx, d: nat): Ctx
    requires d <= Depth(c)
  {
    if d == Depth(c) then c else Anc(c.up, d)
  }

  lemma {:induction false} AncPre(c: Ctx, d: nat)
    requires d <= Depth(c)
    ensures (Chain(c) + [|Pre(c)|])[d] == |Pre(Anc(c, d))| && Pre(Anc(c, d)) <= Pre(c)
  {
    if d < Depth(c) {
      AncPre(c.up, d);
      assert (Chain(c) + [|Pre(c)|])[d] == (Chain(c.up) + [|Pre(c.up)|])[d];
      assert Pre(c.up) <= Pre(c);
    }
  }

  lemma {:induction false} AncOff(ts: seq<Tok>, c: Ctx, n: Node, tail: seq<Tok>, d: nat)
    requires Holds(ts, c, n, tail) && d <= Depth(c)
    ensures var k := (Chain(c) + [|Pre(c)|])[d]; k < |ts| && Off(ts, k) == Place(Anc(c, d))
  {
    hide Holds, Size, Pre, Chain;
    Here(ts, c, n, tail);
    AncPre(c, d);
    var k := |Pre(Anc(c, d))|;
    assert Pre(c)[..k] == Pre(Anc(c, d));
    assert ts[..k] == ts[..|Pre(c)|][..k];
  }

  /** The ancestor of node n at the given depth, n itself included, and the depth of n. */
  method SupernodeAtDepth(f: Fdt, nodeoffset: nat, superdepth: int, ghost c: Ctx, ghost n: Node, ghost tail: seq<Tok>)
      returns (super: int, nodedepth: int)
    requires InTree(f, c, n, tail) && nodeoffset == Place(c)
    ensures superdepth >= 0 ==> nodedepth == Depth(c)
    ensures if 0 <= superdepth <= Depth(c) then super == Place(Anc(c, superdepth)) else super == NOTFOUND
  {
    hide Pre, Post, FlatItems, Off, f.Valid, Spells, Size, NodeOk, CtxOk, Bound, Chain, NextNodeOf, Anc;
    nodedepth := 0;
    if superdepth < 0 { return NOTFOUND, 0; }
    TreeHere(f, c, n, tail);
    BoundStart(f.toks, c, n, tail);
    BoundFacts(f.toks, |Pre(c)|, Chain(c), 0, []);
    OffZero(f.toks);
    if superdepth <= Depth(c) { AncOff(f.toks, c, n, tail, superdepth); }
    var offset, depth := 0, 0;
    ghost var j: nat, js: seq<nat>, i := 0, [], |Pre(c)|;
    super := -13;
    while true
      invariant j <= i < |f.toks| && f.toks[j].Begin? && offset == Off(f.toks, j) && depth == |js|
      invariant Bound(f.toks, i, Chain(c), j, js)
      invariant forall k :: 0 <= k < |js| ==> js[k] < |f.toks|
      invariant superdepth < |js| ==> super == Off(f.toks, js[superdepth])
      decreases i - j
    {
      if depth == superdepth { super := offset; }
      SamePlace(f, c, n, tail, j);
      BoundFacts(f.toks, i, Chain(c), j, js);
      if offset == nodeoffset {
        return if superdepth > depth then NOTFOUND else super, depth;
      }
      BoundStep(f.toks, i, Chain(c), j, js);
      ghost var was := j;
      offset, depth, j := f.NextNode(offset, depth, j);
      js := (js + [was])[..depth];
      BoundFacts(f.toks, i, Chain(c), j, js);
    }
  }

  lemma {:induction false} BoundFacts(ts: seq<Tok>, i: nat, goal: seq<nat>, j: nat, js: seq<nat>)
    requires Bound(ts, i, goal, j, js)
    ensures j <= i < |ts| && ts[j].Begin? && (j == i ==> js == goal)
  {
  }

  lemma {:induction false} OffZero(ts: seq<Tok>)
    ensures Off(ts, 0) == 0
  {
  }

  /** Two tokens at the same offset are the same token. */
  lemma {:induction false} SamePlace(f: Fdt, c: Ctx, n: Node, tail: seq<Tok>, j: nat)
    requires InTree(f, c, n, tail) && j <= |f.toks|
    ensures Off(f.toks, j) == Place(c) <==> j == |Pre(c)|
  {
    hide Pre, Post, FlatItems, Off, Spells, Size, NodeOk, CtxOk, Enc, Part, NamesOk;
    TreeHere(f, c, n, tail);
    if j < |Pre(c)| { OffMono(f.toks, j, |Pre(c)|); } else { OffMono(f.toks, |Pre(c)|, j); }
  }

  lemma {:induction false} UpHere(f: Fdt, c: Ctx, n: Node, tail: seq<Tok>)
    requires InTree(f, c, n, tail) && c.In?
    ensures Anc(c, Depth(c) - 1) == c.up
    ensures InTree(f, c.up, Node(c.name, c.pad, c.before + [SubItem(n)] + c.after), tail)
  {
    hide Holds, f.Valid;
    Descend(f.toks, c.up, Node(c.name, c.pad, c.before + [SubItem(n)] + c.after), tail, c.before, n, c.after);
  }

  /** The parent of n: the innermost node that n lies in. The root has none. */
  method ParentOffset(f: Fdt, nodeoffset: nat, ghost c: Ctx, ghost n: Node, ghost tail: seq<Tok>) returns (parent: int)
    requires InTree(f, c, n, tail) && nodeoffset == Place(c)
    ensures if c.Top? then parent == NOTFOUND else parent == Place(c.up)
    ensures c.In? ==> InTree(f, c.up, Node(c.name, c.pad, c.before + [SubItem(n)] + c.after), tail)
  {
    hide Pre, Post, FlatItems, Off, f.Valid, Spells, Size, Anc;
    var super, nodedepth := SupernodeAtDepth(f, nodeoffset, 0, c, n, tail);
    if c.In? { UpHere(f, c, n, tail); }
    parent, super := SupernodeAtDepth(f, nodeoffset, nodedepth - 1, c, n, tail);
  }
}

/** The path of a node as text, the node of a path, and when the one undoes the other. */
module FdtGetPath {
  import opened Bytes
  import opened FdtTokens
  import opened FdtTree
  import opened FdtBlob
  import opened FdtRefine
  import opened FdtOps
  import opened FdtPath

  const SLASH: byte := 0x2f

  /** Each name followed by a slash. */
  ghost function Text(ns: seq<seq<byte>>): (t: seq<byte>)
    ensures ns != [] ==> t != [] && t[|t| - 1] == SLASH
  {
    if ns == [] then [] else Text(ns[..|ns| - 1]) + ns[|ns| - 1] + [SLASH]
  }

  /** The path that names a node: no slash at the end, except for the root. */
  ghost function PathText(ns: seq<seq<byte>>): seq<byte> {
    var t := Text(ns);
    if |t| > 1 then t[..|t| - 1] else t
  }

  ghost predicate SlashFree(ts: seq<Tok>) {
    forall i :: 0 <= i < |ts| && ts[i].Begin? ==> SLASH !in ts[i].name
  }

  /** Names of the nodes a place lies in, outermost first. */
  ghost function CtxNames(c: Ctx): (ns: seq<seq<byte>>)
    ensures |ns| == Depth(c)
  {
    match c
    case Top => []
    case In(up, name, _, _, _) => CtxNames(up) + [name]
  }

  ghost function NameOfTok(ts: seq<Tok>, j: nat): seq<byte> {
    if j < |ts| && ts[j].Begin? then ts[j].name else []
  }

  ghost function Names(ts: seq<Tok>, js: seq<nat>): (ns: seq<seq<byte>>)
    ensures |ns| == |js| && forall k :: 0 <= k < |js| ==> ns[k] == NameOfTok(ts, js[k])
  {
    seq(|js|, k requires 0 <= k < |js| => NameOfTok(ts, js[k]))
  }

  lemma {:induction false} ChainNames(ts: seq<Tok>, c: Ctx)
    requires Pre(c) <= ts
    ensures Names(ts, Chain(c)) == CtxNames(c)
  {
    match c
    case Top =>
    case In(up, name, pad, before, after) =>
      assert Pre(up) <= Pre(c);
      ChainNames(ts, up);
      assert Pre(c)[|Pre(up)|] == Begin(name, pad);
      var a, b := Names(ts, Chain(c)), CtxNames(c);
      forall k | 0 <= k < |a| ensures a[k] == b[k] {
        if k < |a| - 1 { assert Names(ts, Chain(up))[k] == a[k]; }
      }
  }

  // ---- taking names off and putting them on

  lemma {:induction false} TextSnoc(ns: seq<seq<byte>>, name: seq<byte>)
    ensures Text(ns + [name]) == Text(ns) + name + [SLASH]
  {
    assert (ns + [name])[..|ns|] == ns;
  }

  lemma {:induction false} TextPrefix(ns: seq<seq<byte>>, k: nat)
    requires k <= |ns|
    ensures |Text(ns[..k])| <= |Text(ns)| && Text(ns)[..|Text(ns[..k])|] == Text(ns[..k])
  {
    if k < |ns| {
      TextPrefix(ns[..|ns| - 1], k);
      assert ns[..|ns| - 1][..k] == ns[..k];
      var t, u := Text(ns), Text(ns[..|ns| - 1]);
      assert t[..|u|] == u;
    } else {
      assert ns[..k] == ns;
    }
  }

  /** Drops the last name from the text. */
  method Pop(buf: array<byte>, p: nat, ghost ns: seq<seq<byte>>) returns (p': nat)
    requires p <= buf.Length && buf[..p] == Text(ns) && |ns| >= 2 && SLASH !in ns[|ns| - 1]
    ensures p' == |Text(ns[..|ns| - 1])| <= p && buf[..p'] == Text(ns[..|ns| - 1])
  {
    ghost var pre, last := Text(ns[..|ns| - 1]), ns[|ns| - 1];
    ghost var t := buf[..p];
    assert t == pre + last + [SLASH];
    p' := p - 1;
    while buf[p' - 1] != SLASH
      invariant |pre| <= p' <= p - 1
      decreases p'
    {
      assert buf[p' - 1] == t[p' - 1];
      p' := p' - 1;
    }
    assert buf[p' - 1] == t[p' - 1];
    assert forall k :: |pre| <= k < p - 1 ==> t[k] == last[k - |pre|];
    assert buf[..p'] == t[..p'];
  }

  /** Drops names until at most depth are left. */
  method PopTo(buf: array<byte>, p: nat, pdepth: nat, depth: nat, ghost ns: seq<seq<byte>>) returns (p': nat,
      pdepth': nat)
    requires p <= buf.Length && pdepth <= |ns| && buf[..p] == Text(ns[..pdepth])
    requires (forall k :: 0 <= k < |ns| ==> SLASH !in ns[k])
    requires depth >= 1 || pdepth <= depth
    ensures pdepth' == (if pdepth > depth then depth else pdepth) && p' == |Text(ns[..pdepth'])| <= p
    ensures buf[..p'] == Text(ns[..pdepth'])
  {
    hide Text;
    p', pdepth' := p, pdepth;
    while pdepth' > depth
      invariant pdepth' <= pdepth && (pdepth > depth ==> pdepth' >= depth) && (pdepth <= depth ==> pdepth' == pdepth)
      invariant p' <= p && p' == |Text(ns[..pdepth'])| && buf[..p'] == Text(ns[..pdepth'])
    {
      assert ns[..pdepth'][..pdepth' - 1] == ns[..pdepth' - 1];
      p' := Pop(buf, p', ns[..pdepth']);
      pdepth' := pdepth' - 1;
    }
  }

  /** pdepth names of ns are in buf, as many as fit into buflen. */
  ghost predicate Filled(buf: array<byte>, buflen: nat, p: nat, pdepth: nat, ns: seq<seq<byte>>)
    reads buf
  {
    && p <= buflen <= buf.Length && pdepth <= |ns| && buf[..p] == Text(ns[..pdepth])
    && (pdepth < |ns| ==> |Text(ns[..pdepth + 1])| > buflen)
  }

  lemma {:induction false} FilledPrefix(buf: array<byte>, buflen: nat, p: nat, pdepth: nat, ns: seq<seq<byte>>, p': nat,
      pdepth': nat, d: nat)
    requires Filled(buf, buflen, p, pdepth, ns) && d <= |ns| && pdepth' == (if pdepth > d then d else pdepth)
    requires p' <= p && p' == |Text(ns[..pdepth'])| && buf[..p'] == Text(ns[..pdepth'])
    ensures Filled(buf, buflen, p', pdepth', ns[..d])
  {
    hide Text;
    assert ns[..d][..pdepth'] == ns[..pdepth'];
    if pdepth' < d { assert ns[..d][..pdepth' + 1] == ns[..pdepth' + 1]; }
  }

  /** Adds the name of the current node if all the names above it are there and it fits. */
  method Put(buf: array<byte>, buflen: nat, p: nat, pdepth: nat, depth: nat, name: seq<byte>, ghost ns: seq<seq<byte>>)
      returns (p': nat, pdepth': nat)
    requires Filled(buf, buflen, p, pdepth, ns) && depth == |ns|
    modifies buf
    ensures Filled(buf, buflen, p', pdepth', ns + [name])
  {
    hide Text;
    ghost var was := buf[..];
    p', pdepth' := p, pdepth;
    ghost var all := ns + [name];
    assert all[..|ns|] == ns && all[..|ns| + 1] == all;
    TextSnoc(ns, name);
    if pdepth >= depth {
      assert ns[..pdepth] == ns;
      if p + |name| + 1 <= buflen {
        forall k | 0 <= k < |name| { buf[p + k] := name[k]; }
        buf[p + |name|] := SLASH;
        p', pdepth' := p + |name| + 1, pdepth + 1;
        assert buf[..p] == was[..p];
        assert buf[..p'] == Text(ns) + name + [SLASH];
      }
    } else {
      assert all[..pdepth] == ns[..pdepth] && all[..pdepth + 1] == ns[..pdepth + 1];
    }
  }

  // ---- the path of a node

  lemma {:induction false} AllNames(ts: seq<Tok>, c: Ctx, n: Node, tail: seq<Tok>)
    requires Holds(ts, c, n, tail)
    ensures Names(ts, Chain(c) + [|Pre(c)|]) == CtxNames(c) + [n.name]
  {
    hide Pre, Post, FlatItems, Holds, Chain, CtxNames;
    Here(ts, c, n, tail);
    ChainNames(ts, c);
    NamesSnoc(ts, Chain(c), |Pre(c)|);
  }

  lemma {:induction false} NamesSnoc(ts: seq<Tok>, js: seq<nat>, j: nat)
    ensures Names(ts, js + [j]) == Names(ts, js) + [NameOfTok(ts, j)]
  {
  }

  lemma {:induction false} NamesPrefix(ts: seq<Tok>, js: seq<nat>, d: nat)
    requires d <= |js|
    ensures Names(ts, js[..d]) == Names(ts, js)[..d]
  {
  }

  lemma {:induction false} NoSlashes(ts: seq<Tok>, js: seq<nat>, i: nat)
    requires i <= |ts| && SlashFree(ts[..i]) && forall k :: 0 <= k < |js| ==> js[k] < i
    ensures forall k :: 0 <= k < |js| ==> SLASH !in Names(ts, js)[k]
  {
  }

  /** Writes the path of node n into buf, walking over all nodes up to n. */
  method GetPath(f: Fdt, nodeoffset: nat, buf: array<byte>, buflen: nat, ghost c: Ctx, ghost n: Node,
      ghost tail: seq<Tok>) returns (err: int, ghost len: nat)
    requires InTree(f, c, n, tail) && nodeoffset == Place(c) && buflen <= buf.Length && buf != f.buf
    requires |Pre(c)| <= |f.toks| && SlashFree(f.toks[..|Pre(c)|])
    modifies buf
    ensures err == if buflen < 2 || |Text(CtxNames(c) + [n.name])| > buflen then NOSPACE else 0
    ensures err == 0 ==> len < buflen && buf[len] == 0 && buf[..len] == PathText(CtxNames(c) + [n.name])
  {
    hide Pre, Post, FlatItems, Off, f.Valid, Spells, Size, NodeOk, CtxOk, Bound, Chain, NextNodeOf, Names, CtxNames,
        Text, Filled, SlashFree;
    len := 0;
    if buflen < 2 { return NOSPACE, 0; }
    TreeHere(f, c, n, tail);
    BoundStart(f.toks, c, n, tail);
    BoundFacts(f.toks, |Pre(c)|, Chain(c), 0, []);
    OffZero(f.toks);
    AllNames(f.toks, c, n, tail);
    NothingYet(buf, buflen, f.toks);
    var offset, depth, p, pdepth := 0, 0, 0, 0;
    ghost var j: nat, js: seq<nat>, i := 0, [], |Pre(c)|;
    while true
      invariant InTree(f, c, n, tail)
      invariant j <= i < |f.toks| && f.toks[j].Begin? && offset == Off(f.toks, j) && depth == |js|
      invariant Bound(f.toks, i, Chain(c), j, js)
      invariant Filled(buf, buflen, p, pdepth, Names(f.toks, js)) && forall k :: 0 <= k < |js| ==> js[k] < i
      decreases i - j
    {
      var name := f.GetName(offset, j);
      NamesSnoc(f.toks, js, j);
      p, pdepth := Put(buf, buflen, p, pdepth, depth, name, Names(f.toks, js));
      SamePlace(f, c, n, tail, j);
      BoundFacts(f.toks, i, Chain(c), j, js);
      if offset == nodeoffset {
        err, len := Terminate(buf, buflen, p, pdepth, depth, Names(f.toks, js + [j]));
        return;
      }
      BoundStep(f.toks, i, Chain(c), j, js);
      ghost var was := j;
      offset, depth, j := f.NextNode(offset, depth, j);
      ghost var pc := js + [was];
      js := pc[..depth];
      BoundFacts(f.toks, i, Chain(c), j, js);
      NamesPrefix(f.toks, pc, depth);
      NoSlashes(f.toks, pc, i);
      p, pdepth := PopAll(buf, buflen, p, pdepth, depth, Names(f.toks, pc));
    }
  }

  lemma {:induction false} NothingYet(buf: array<byte>, buflen: nat, ts: seq<Tok>)
    requires buflen <= buf.Length
    ensures Filled(buf, buflen, 0, 0, Names(ts, []))
  {
  }

  method PopAll(buf: array<byte>, buflen: nat, p: nat, pdepth: nat, depth: nat, ghost ns: seq<seq<byte>>)
      returns (p': nat, pdepth': nat)
    requires Filled(buf, buflen, p, pdepth, ns) && 1 <= depth <= |ns| && forall k :: 0 <= k < |ns| ==> SLASH !in ns[k]
    ensures Filled(buf, buflen, p', pdepth', ns[..depth])
  {
    hide Text;
    p', pdepth' := PopTo(buf, p, pdepth, depth, ns);
    FilledPrefix(buf, buflen, p, pdepth, ns, p', pdepth', depth);
  }

  /** Ends the text: no room if a name is missing. */
  method Terminate(buf: array<byte>, buflen: nat, p: nat, pdepth: nat, depth: nat, ghost ns: seq<seq<byte>>)
      returns (err: int, ghost len: nat)
    requires Filled(buf, buflen, p, pdepth, ns) && depth + 1 == |ns| && buflen >= 2
    modifies buf
    ensures err == if |Text(ns)| > buflen then NOSPACE else 0
    ensures err == 0 ==> len < buflen && buf[len] == 0 && buf[..len] == PathText(ns)
  {
    hide Text;
    if pdepth < depth + 1 {
      TextPrefix(ns, pdepth + 1);
      return NOSPACE, 0;
    }
    assert ns[..pdepth] == ns;
    var e := if p > 1 then p - 1 else p;
    ghost var t := buf[..p];
    buf[e] := 0;
    assert buf[..e] == t[..e];
    return 0, e;
  }

  // ---- the node of a path

  function FirstSlash(s: seq<byte>): (k: nat)
    ensures k <= |s| && (k < |s| ==> s[k] == SLASH) && forall i :: 0 <= i < k ==> s[i] != SLASH
  {
    if s == [] || s[0] == SLASH then 0 else 1 + FirstSlash(s[1..])
  }

  /** The names between the slashes; empty ones do not count. */
  function Comps(s: seq<byte>): seq<seq<byte>>
    decreases |s|
  {
    if s == [] then []
    else if s[0] == SLASH then Comps(s[1..])
    else [s[..FirstSlash(s)]] + Comps(s[FirstSlash(s)..])
  }

  /** Following names down from node n at c: always the first child that answers. */
  ghost function Resolve(c: Ctx, n: Node, names: seq<seq<byte>>): Option<(Ctx, Node)>
    decreases |names|
  {
    if names == [] then Some((c, n))
    else
      var k := SubIndex(n.items, names[0]);
      if k == |n.items| then None else Resolve(Child(c, n, k), n.items[k].node, names[1..])
  }

  /** The walk has come to node n at c, with the names in rest still to follow. */
  ghost predicate Following(f: Fdt, root: Node, tail: seq<Tok>, path: seq<byte>, c: Ctx, n: Node, offset: int,
      rest: seq<byte>)
    reads f, f.buf
  {
    InTree(f, c, n, tail) && offset == Place(c) && Resolve(Top, root, Comps(path)) == Resolve(c, n, Comps(rest))
  }

  lemma {:induction false} FollowSlash(f: Fdt, root: Node, tail: seq<Tok>, path: seq<byte>, c: Ctx, n: Node,
      offset: int, p: nat)
    requires p < |path| && path[p] == SLASH && Following(f, root, tail, path, c, n, offset, path[p..])
    ensures Following(f, root, tail, path, c, n, offset, path[p + 1..])
  {
    hide InTree, Resolve;
    assert path[p..][1..] == path[p + 1..];
  }

  lemma {:induction false} FollowEnd(f: Fdt, root: Node, tail: seq<Tok>, path: seq<byte>, c: Ctx, n: Node, offset: int)
    requires Following(f, root, tail, path, c, n, offset, [])
    ensures Resolve(Top, root, Comps(path)) == Some((c, n)) && offset == Place(c) && InTree(f, c, n, tail)
  {
    hide InTree;
  }

  lemma {:induction false} FollowName(f: Fdt, root: Node, tail: seq<Tok>, path: seq<byte>, c: Ctx, n: Node, offset: int,
      p: nat, q: nat)
    requires p < |path| && path[p] != SLASH && Following(f, root, tail, path, c, n, offset, path[p..])
    requires q == p + FirstSlash(path[p..])
    ensures p < q <= |path|
    ensures var k := SubIndex(n.items, path[p..q]);
      Resolve(Top, root, Comps(path)) == if k ==
        |n.items| then None else Resolve(Child(c, n, k), n.items[k].node, Comps(path[q..]))
  {
    hide InTree, SubIndex;
    assert path[p..][..q - p] == path[p..q] && path[p..][q - p..] == path[q..];
    NextComp(path[p..]);
  }

  /** Finds the node that an absolute path names. */
  method PathOffset(f: Fdt, path: seq<byte>, ghost root: Node, ghost tail: seq<Tok>) returns (offset: int)
    requires InTree(f, Top, root, tail) && path != [] && path[0] == SLASH
    ensures var r := Resolve(Top, root, Comps(path));
      if r.None? then offset == NOTFOUND else offset == Place(r.value.0) && InTree(f, r.value.0, r.value.1, tail)
  {
    hide InTree, Place, Resolve, Comps, SubIndex, FirstSlash, Following;
    ghost var c, n := Top, root;
    var p := 0;
    offset := 0;
    FollowStart(f, root, tail, path);
    while p < |path|
      invariant p <= |path| && offset >= 0 && Following(f, root, tail, path, c, n, offset, path[p..])
    {
      while path[p] == SLASH
        invariant p < |path| && Following(f, root, tail, path, c, n, offset, path[p..])
        decreases |path| - p
      {
        FollowSlash(f, root, tail, path, c, n, offset, p);
        p := p + 1;
        if p == |path| {
          assert path[p..] == [];
          FollowEnd(f, root, tail, path, c, n, offset);
          return;
        }
      }
      var q := p + FirstSlash(path[p..]);
      FollowName(f, root, tail, path, c, n, offset, p, q);
      FollowHere(f, root, tail, path, c, n, offset, path[p..]);
      ghost var k;
      offset, k := FindChild(f, offset, path[p..q], c, n, tail);
      if offset < 0 { return; }
      c, n := Child(c, n, k), n.items[k].node;
      p := q;
      assert Following(f, root, tail, path, c, n, offset, path[p..]) by {
        Followed(f, root, tail, path, c, n, offset, path[p..]);
      }
    }
    assert path[p..] == [];
    FollowEnd(f, root, tail, path, c, n, offset);
  }

  lemma {:induction false} FollowStart(f: Fdt, root: Node, tail: seq<Tok>, path: seq<byte>)
    requires InTree(f, Top, root, tail)
    ensures Following(f, root, tail, path, Top, root, 0, path[0..])
  {
    hide InTree, Resolve;
    TopPlace();
    assert path[0..] == path;
  }

  lemma {:induction false} FollowHere(f: Fdt, root: Node, tail: seq<Tok>, path: seq<byte>, c: Ctx, n: Node, offset: int,
      rest: seq<byte>)
    requires Following(f, root, tail, path, c, n, offset, rest)
    ensures InTree(f, c, n, tail) && offset == Place(c) >= 0
  {
    hide InTree;
  }

  lemma {:induction false} Followed(f: Fdt, root: Node, tail: seq<Tok>, path: seq<byte>, c: Ctx, n: Node, offset: int,
      rest: seq<byte>)
    requires InTree(f, c, n, tail) && offset == Place(c)
    requires Resolve(Top, root, Comps(path)) == Resolve(c, n, Comps(rest))
    ensures Following(f, root, tail, path, c, n, offset, rest)
  {
  }

  lemma {:induction false} TopPlace()
    ensures Place(Top) == 0
  {
  }

  lemma {:induction false} NextComp(s: seq<byte>)
    requires s != [] && s[0] != SLASH
    ensures FirstSlash(s) > 0 && Comps(s) == [s[..FirstSlash(s)]] + Comps(s[FirstSlash(s)..])
    ensures Comps(s)[0] == s[..FirstSlash(s)] && Comps(s)[1..] == Comps(s[FirstSlash(s)..])
  {
  }

  // ---- when the path of a node leads back to it

  lemma {:induction false} ResolveSnoc(c: Ctx, n: Node, names: seq<seq<byte>>, last: seq<byte>)
    ensures Resolve(c, n, names + [last]) ==
      (var r := Resolve(c, n, names); if r.None? then None else Resolve(r.value.0, r.value.1, [last]))
    decreases |names|
  {
    if names != [] {
      assert (names + [last])[0] == names[0] && (names + [last])[1..] == names[1..] + [last];
      var k := SubIndex(n.items, names[0]);
      if k < |n.items| { ResolveSnoc(Child(c, n, k), n.items[k].node, names[1..], last); }
    } else {
      assert names + [last] == [last];
    }
  }

  lemma {:induction false} ResolveOne(c: Ctx, n: Node, last: seq<byte>)
    ensures var k := SubIndex(n.items, last);
      Resolve(c, n, [last]) == if k == |n.items| then None else Some((Child(c, n, k), n.items[k].node))
  {
    assert [last][1..] == [];
  }

  /** At every level, no earlier sibling answers to the node's name. */
  ghost predicate FirstNamed(c: Ctx, n: Node) {
    match c
    case Top => true
    case In(up, name, pad, before, after) =>
      SubIndex(before + [SubItem(n)] + after, n.name) == |before| &&
      FirstNamed(up, Node(name, pad, before + [SubItem(n)] + after))
  }

  /** The names that lead from the root to a node. */
  ghost function Below(c: Ctx, n: Node): seq<seq<byte>> {
    match c
    case Top => []
    case In(up, name, pad, before, after) => Below(up, Node(name, pad, before + [SubItem(n)] + after)) + [n.name]
  }

  lemma {:induction false} BelowIs(c: Ctx, n: Node)
    ensures [Plug(c, n).name] + Below(c, n) == CtxNames(c) + [n.name]
  {
    match c
    case Top =>
    case In(up, name, pad, before, after) =>
      BelowIs(up, Node(name, pad, before + [SubItem(n)] + after));
  }

  /**
   * Following a node's own names from the root ends at the node exactly when it is the first so named, level
   * by level.
   */
  lemma {:induction false} ResolveBack(c: Ctx, n: Node)
    ensures Resolve(Top, Plug(c, n), Below(c, n)) == Some((c, n)) <==> FirstNamed(c, n)
  {
    match c
    case Top =>
    case In(up, name, pad, before, after) =>
      hide SubIndex;
      var m := Node(name, pad, before + [SubItem(n)] + after);
      ResolveBack(up, m);
      ResolveSnoc(Top, Plug(up, m), Below(up, m), n.name);
      var r := Resolve(Top, Plug(up, m), Below(up, m));
      if r.Some? {
        ResolveOne(r.value.0, r.value.1, n.name);
        var k := SubIndex(r.value.1.items, n.name);
        if k < |r.value.1.items| { SameChild(r.value.0, r.value.1, k, up, m, before, n, after); }
      }
  }

  lemma {:induction false} SameChild(c1: Ctx, n1: Node, k: nat, up: Ctx, m: Node, before: seq<Item>, n: Node,
      after: seq<Item>)
    requires k < |n1.items| && n1.items[k].SubItem? && m.items == before + [SubItem(n)] + after
    ensures (Child(c1, n1, k) == In(up, m.name, m.pad, before, after) && n1.items[k].node == n) <==> (c1 == up && n1 == m && k == |before|)
  {
    if Child(c1, n1, k) == In(up, m.name, m.pad, before, after) && n1.items[k].node == n {
      assert n1.items == n1.items[..k] + [n1.items[k]] + n1.items[k + 1..];
    }
    if c1 == up && n1 == m && k == |before| {
      assert m.items[..k] == before && m.items[k + 1..] == after && m.items[k] == SubItem(n);
    }
  }

  // ---- the text of a path and its names

  lemma {:induction false} CompsAppend(t: seq<byte>, name: seq<byte>)
    requires t != [] && t[|t| - 1] == SLASH && name != [] && SLASH !in name
    ensures Comps(t + name) == Comps(t) + [name] && Comps(t + name + [SLASH]) == Comps(t) + [name]
    decreases |t|
  {
    var u, v := t + name, t + name + [SLASH];
    if t[0] == SLASH {
      assert u[1..] == t[1..] + name && v[1..] == t[1..] + name + [SLASH];
      if |t| == 1 {
        LastComp(name);
        assert t[1..] + name == name && t[1..] == [];
      } else {
        CompsAppend(t[1..], name);
      }
    } else {
      var k := FirstSlash(t);
      SlashAt(u, k);
      SlashAt(v, k);
      assert u[..k] == t[..k] == v[..k];
      assert u[k..] == t[k..] + name && v[k..] == t[k..] + name + [SLASH];
      CompsAppend(t[k..], name);
      assert Comps(t) == [t[..k]] + Comps(t[k..]);
    }
  }

  lemma {:induction false} SlashAt(s: seq<byte>, k: nat)
    requires k < |s| && s[k] == SLASH && forall i :: 0 <= i < k ==> s[i] != SLASH
    ensures FirstSlash(s) == k
  {
  }

  lemma {:induction false} LastComp(name: seq<byte>)
    requires name != [] && SLASH !in name
    ensures Comps(name) == [name] && Comps(name + [SLASH]) == [name]
  {
    assert FirstSlash(name) == |name|;
    assert name[..|name|] == name && name[|name|..] == [];
    var v := name + [SLASH];
    SlashAt(v, |name|);
    assert v[..|name|] == name && v[|name|..] == [SLASH];
    assert [SLASH][1..] == [];
  }

  /** A slash separates: the names are those before it and those behind it. */
  lemma {:induction false} CompsCat(a: seq<byte>, b: seq<byte>)
    ensures Comps(a + [SLASH] + b) == Comps(a) + Comps(b)
    decreases |a|
  {
    var s := a + [SLASH] + b;
    if a == [] {
      assert s[1..] == b && Comps(a) == [];
    } else if a[0] == SLASH {
      assert s[1..] == a[1..] + [SLASH] + b;
      CompsCat(a[1..], b);
    } else {
      var k := FirstSlash(a);
      SlashAt(s, k);
      assert s[..k] == a[..k] && s[k..] == a[k..] + [SLASH] + b;
      CompsCat(a[k..], b);
      Assoc([a[..k]], Comps(a[k..]), Comps(b));
    }
  }

  ghost predicate Plain(ns: seq<seq<byte>>) {
    forall k :: 0 <= k < |ns| ==> ns[k] != [] && SLASH !in ns[k]
  }

  /** The root is a slash; below it every name has one slash in front of it and nothing behind. */
  lemma {:induction false} PathTextIs(ns: seq<seq<byte>>, name: seq<byte>)
    requires Plain(ns) && name != []
    ensures PathText([[]]) == [SLASH]
    ensures PathText([[]] + ns + [name]) == (if ns == [] then [] else PathText([[]] + ns)) + [SLASH] + name
  {
    hide Plain;
    var none: seq<seq<byte>> := [];
    RootText(none);
    assert [[]] + none == [[]];
    var all := [[]] + ns + [name];
    assert all[..|all| - 1] == [[]] + ns;
    var t := Text([[]] + ns);
    assert Text(all) == t + name + [SLASH];
    assert Text(all)[..|Text(all)| - 1] == t + name;
    if ns == [] {
      assert [[]] + ns == [[]];
    } else {
      LongText(ns);
      assert t == t[..|t| - 1] + [SLASH];
    }
  }

  lemma {:induction false} LongText(ns: seq<seq<byte>>)
    requires ns != [] && Plain(ns)
    ensures |Text([[]] + ns)| > 1
  {
    var all := [[]] + ns;
    assert all[|all| - 1] == ns[|ns| - 1];
  }

  lemma {:induction false} RootText(ns: seq<seq<byte>>)
    requires ns == []
    ensures Text([[]] + ns) == [SLASH] == PathText([[]] + ns) && Comps([SLASH]) == []
  {
    var none: seq<seq<byte>> := [];
    assert [[]] + ns == none + [[]];
    TextSnoc(none, []);
    assert [SLASH][1..] == [];
  }

  lemma {:induction false} MoreText(ns: seq<seq<byte>>, last: seq<byte>)
    requires Text([[]] + ns) != []
    ensures var t := Text([[]] + ns);
      Text([[]] + (ns + [last])) == t + last + [SLASH] && PathText([[]] + (ns + [last])) == t + last
  {
    hide Text;
    assert [[]] + (ns + [last]) == ([[]] + ns) + [last];
    TextSnoc([[]] + ns, last);
    var t := Text([[]] + ns);
    assert (t + last + [SLASH])[..|t + last|] == t + last;
  }

  lemma {:induction false} CompsText(ns: seq<seq<byte>>)
    requires Plain(ns)
    ensures var t, p := Text([[]] + ns), PathText([[]] + ns);
      t != [] && t[|t| - 1] == SLASH && Comps(t) == ns && Comps(p) == ns && p != [] && t[0] == p[0] == SLASH
    decreases |ns|
  {
    hide Text, PathText, Comps;
    if ns == [] {
      RootText(ns);
    } else {
      var k := |ns| - 1;
      var init, last := ns[..k], ns[k];
      CompsText(init);
      MoreText(init, last);
      assert init + [last] == ns;
      CompsAppend(Text([[]] + init), last);
    }
  }

  // ---- two places at the same offset are the same place

  lemma {:induction false} Deeper(c: Ctx, n: Node)
    requires c.In?
    ensures |Pre(c)| > 0
  {
    RootFirst(c);
  }

  lemma {:induction false} FlatGrows(items: seq<Item>, j: nat, k: nat)
    requires j <= k <= |items|
    ensures |FlatItems(items[..k])| >= |FlatItems(items[..j])| + (k - j)
  {
    if j < k {
      FlatGrows(items, j, k - 1);
      assert items[..k] == items[..k - 1] + [items[k - 1]];
      FlatConcat(items[..k - 1], [items[k - 1]]);
      FlatOne(items[k - 1]);
    }
  }

  lemma {:induction false} SameSpot(c: Ctx, n: Node, c': Ctx, n': Node)
    requires Plug(c, n) == Plug(c', n') && |Pre(c)| == |Pre(c')|
    ensures c == c' && n == n'
    decreases c
  {
    hide Pre, Post, Flat, FlatItems, Chain;
    if c.Top? || c'.Top? {
      TopPre();
      if c.In? { Deeper(c, n); }
      if c'.In? { Deeper(c', n'); }
    } else {
      var m, m' := Node(c.name, c.pad, c.before + [SubItem(n)] + c.after), Node(c'.name, c'.pad,
        c'.before + [SubItem(n')] + c'.after);
      SameUp(c, n, c', n');
      SameSpot(c.up, m, c'.up, m');
      SameSplit(c, n, c', n', m.items);
    }
  }

  lemma {:induction false} SameUp(c: Ctx, n: Node, c': Ctx, n': Node)
    requires c.In? && c'.In? && Plug(c, n) == Plug(c', n') && |Pre(c)| == |Pre(c')|
    ensures |Pre(c.up)| == |Pre(c'.up)|
  {
    hide Pre, Post, Flat, FlatItems;
    var ts := Flat(Plug(c, n));
    PlugFlat(c, n);
    PlugFlat(c', n');
    assert ts[..|Pre(c)|] == Pre(c) && ts[..|Pre(c')|] == Pre(c');
    PlaceKeeps(c);
    PlaceKeeps(c');
    assert Chain(c)[|Chain(c)| - 1] == |Pre(c.up)| && Chain(c')[|Chain(c')| - 1] == |Pre(c'.up)|;
  }

  lemma {:induction false} SameSplit(c: Ctx, n: Node, c': Ctx, n': Node, items: seq<Item>)
    requires c.In? && c'.In? && c.up == c'.up && |Pre(c)| == |Pre(c')|
    requires items == c.before + [SubItem(n)] + c.after == c'.before + [SubItem(n')] + c'.after
    ensures c.before == c'.before && c.after == c'.after && n == n'
  {
    var j, k := |c.before|, |c'.before|;
    assert items[..j] == c.before && items[..k] == c'.before;
    if j < k { FlatGrows(items, j, k); } else { FlatGrows(items, k, j); }
    assert items[j] == SubItem(n) && items[k] == SubItem(n');
    assert items[j + 1..] == c.after && items[k + 1..] == c'.after;
  }

  // ---- the theorem

  /**
   * For a tree with an unnamed root and plain node names: looking up the path
   * of a node gives its offset back exactly when, at each level, no earlier
   * sibling answers to the name.
   */
  lemma {:induction false} PathRoundTrip(c: Ctx, n: Node)
    requires Plug(c, n).name == [] && Plain(Below(c, n))
    ensures var r := Resolve(Top, Plug(c, n), Comps(PathText(CtxNames(c) + [n.name])));
      (r.Some? && |Pre(r.value.0)| == |Pre(c)|) <==> FirstNamed(c, n)
  {
    hide Resolve, Comps, Below, FirstNamed, Pre, Plug, PathText;
    BelowIs(c, n);
    CompsText(Below(c, n));
    ResolveBack(c, n);
    var r := Resolve(Top, Plug(c, n), Below(c, n));
    if r.Some? {
      ResolvePlug(Top, Plug(c, n), Below(c, n));
      PlugTop(Plug(c, n));
      if |Pre(r.value.0)| == |Pre(c)| { SameSpot(c, n, r.value.0, r.value.1); }
    }
  }

  lemma {:induction false} PlugTop(n: Node)
    ensures Plug(Top, n) == n
  {
  }

  /** Whatever a lookup finds is a place in the same tree. */
  lemma {:induction false} ResolvePlug(c: Ctx, n: Node, names: seq<seq<byte>>)
    requires Resolve(c, n, names).Some?
    ensures var r := Resolve(c, n, names).value; Plug(r.0, r.1) == Plug(c, n)
    decreases |names|
  {
    if names != [] {
      var k := SubIndex(n.items, names[0]);
      ResolvePlug(Child(c, n, k), n.items[k].node, names[1..]);
      assert n.items == n.items[..k] + [SubItem(n.items[k].node)] + n.items[k + 1..];
      PlugIn(c, n, n.items[..k], n.items[k].node, n.items[k + 1..]);
    }
  }

  /**
   * A node of a well-formed tree whose path leads elsewhere: an earlier sibling with a unit address
   * answers to the bare name, and the lookup returns that sibling.
   */
  lemma {:induction false} PathLost() returns (c: Ctx, n: Node, sib: Node)
    ensures NodeOk(Plug(c, n), []) && Plug(c, n).name == [] && Plain(Below(c, n)) && !FirstNamed(c, n) && sib != n
    ensures Plug(c, n).items != []
    ensures Resolve(Top, Plug(c, n), Comps(PathText(CtxNames(c) + [n.name]))) == Some((Child(Top, Plug(c, n), 0), sib))
  {
    var a: seq<byte>, at: seq<byte> := [0x61], [0x61, 0x40, 0x30];
    n, sib := Node(a, [0, 0], []), Node(at, [], []);
    c := In(Top, [], [0, 0, 0], [SubItem(sib)], []);
    var items := [SubItem(sib)] + [SubItem(n)] + [];
    var root := Node([], [0, 0, 0], items);
    assert Plug(c, n) == root;
    LostOk(root, sib, n, items);
    assert NameMatches(at, a) by { assert at[..1] == a; }
    assert items[0] == SubItem(sib);
    assert SubIndex(items, a) == 0;
    assert Below(Top, root) == [];
    assert Below(c, n) == [] + [a] == [a];
    BelowIs(c, n);
    CompsText(Below(c, n));
    assert Resolve(Child(Top, root, 0), sib, [a][1..]) == Some((Child(Top, root, 0), sib));
  }

  lemma {:induction false} LostOk(root: Node, sib: Node, n: Node, items: seq<Item>)
    requires root == Node([], [0, 0, 0], items) && items == [SubItem(sib), SubItem(n)]
    requires n == Node([0x61], [0, 0], []) && sib == Node([0x61, 0x40, 0x30], [], [])
    ensures NodeOk(root, [])
  {
    assert NodeOk(sib, []) && NodeOk(n, []);
    assert items[1..] == [SubItem(n)] && [SubItem(n)][1..] == [];
    assert ItemsOk([SubItem(n)], []);
  }

  /** Asking for a node's path and then for the node of that path. */
  method PathAndBack(f: Fdt, nodeoffset: nat, buf: array<byte>, buflen: nat, ghost c: Ctx, ghost n: Node,
      ghost tail: seq<Tok>) returns (err: int, offset: int)
    requires InTree(f, c, n, tail) && nodeoffset == Place(c) && buflen <= buf.Length && buf != f.buf
    requires |Pre(c)| <= |f.toks| && SlashFree(f.toks[..|Pre(c)|]) && Plug(c, n).name == [] && Plain(Below(c, n))
    modifies buf
    ensures err == if buflen < 2 || |Text(CtxNames(c) + [n.name])| > buflen then NOSPACE else 0
    ensures err == 0 ==> (offset == nodeoffset <==> FirstNamed(c, n))
  {
    hide InTree, Pre, Plug, Plain, Below, FirstNamed, Text, SlashFree, Resolve, Comps, Place, PathText, CtxNames;
    offset := 0;
    ghost var len;
    err, len := GetPath(f, nodeoffset, buf, buflen, c, n, tail);
    if err != 0 { return; }
    ghost var text := PathText(CtxNames(c) + [n.name]);
    PathString(f, c, n, tail);
    assert forall k :: 0 <= k < len ==> buf[..len][k] != 0;
    assert forall k :: 0 <= k < len ==> buf[k] != 0;
    var size := 0;
    while buf[size] != 0
      invariant size <= len
      decreases len - size
    {
      size := size + 1;
    }
    RootTree(f, c, n, tail);
    offset := PathOffset(f, buf[..size], Plug(c, n), tail);
    PathRoundTrip(c, n);
    ghost var r := Resolve(Top, Plug(c, n), Comps(text));
    if r.Some? { SamePlaces(f, c, n, r.value.0, r.value.1, tail); }
  }

  lemma {:induction false} RootTree(f: Fdt, c: Ctx, n: Node, tail: seq<Tok>)
    requires InTree(f, c, n, tail)
    ensures InTree(f, Top, Plug(c, n), tail)
  {
    HoldsTree(f.toks, c, n, tail);
    HoldsTree(f.toks, Top, Plug(c, n), tail);
  }

  lemma {:induction false} SamePlaces(f: Fdt, c: Ctx, n: Node, c': Ctx, n': Node, tail: seq<Tok>)
    requires InTree(f, c, n, tail) && InTree(f, c', n', tail)
    ensures Place(c') == Place(c) <==> |Pre(c')| == |Pre(c)|
  {
    hide Pre, Off, Size, InTree, Place;
    TreeHere(f, c', n', tail);
    SamePlace(f, c, n, tail, |Pre(c')|);
  }

  lemma {:induction false} TextNoNul(ns: seq<seq<byte>>)
    requires forall k :: 0 <= k < |ns| ==> NoNul(ns[k])
    ensures NoNul(Text(ns))
  {
    if ns != [] { TextNoNul(ns[..|ns| - 1]); }
  }

  /** The path is a C string that starts with a slash. */
  lemma {:induction false} PathString(f: Fdt, c: Ctx, n: Node, tail: seq<Tok>)
    requires InTree(f, c, n, tail) && Plug(c, n).name == [] && Plain(Below(c, n))
    ensures var text := PathText(CtxNames(c) + [n.name]); NoNul(text) && text != [] && text[0] == SLASH
  {
    hide Text, Chain, CtxNames, Below, Plug, Plain, Pre, Post, Flat, Comps;
    var ns := CtxNames(c) + [n.name];
    AllNames(f.toks, c, n, tail);
    assert forall k :: 0 <= k < |ns| ==> NoNul(ns[k]);
    TextNoNul(ns);
    BelowIs(c, n);
    CompsText(Below(c, n));
  }
}

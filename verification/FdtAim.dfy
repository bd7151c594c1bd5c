/** Which node of the base tree a fragment is meant for. */
module FdtAim {
  import opened Bytes
  import opened FdtTokens
  import opened FdtTree
  import opened FdtSpec
  import opened FdtOps
  import opened FdtOverlay
  import opened FdtPhandle
  import opened FdtMaxPhandle
  import opened FdtPlaces
  import GP = FdtGetPath

  // ---- places, as a reader sees them

  datatype Spot = Spot(c: ACtx, n: ANode)

  /** The first node, in tree order, with the phandle. */
  function AByHandle(c: ACtx, a: ANode, h: nat): Option<Spot>
    decreases a, |a.kids| + 1
  {
    if Number(Handle(a.props)) == h then Some(Spot(c, a)) else AByHandleFrom(c, a, 0, h)
  }

  function AByHandleFrom(c: ACtx, a: ANode, k: nat, h: nat): Option<Spot>
    requires k <= |a.kids|
    decreases a, |a.kids| - k
  {
    if k == |a.kids| then None
    else
      var r := AByHandle(AChild(c, a, k), a.kids[k], h);
      if r.Some? then r else AByHandleFrom(c, a, k + 1, h)
  }

  /** Following names down: always the first child that answers. */
  function AResolve(c: ACtx, a: ANode, names: seq<seq<byte>>): Option<Spot>
    decreases |names|
  {
    if names == [] then Some(Spot(c, a))
    else
      var k := KidIndex(a.kids, names[0]);
      if k == |a.kids| then None else AResolve(AChild(c, a, k), a.kids[k], names[1..])
  }

  /** What is found is a place of the tree, and has the phandle; it is found if any node has it. */
  lemma {:induction false} ByHandleIs(c: ACtx, a: ANode, h: nat)
    ensures var r := AByHandle(c, a, h);
      && (r.Some? ==> APlug(r.value.c, r.value.n) == APlug(c, a) && Number(Handle(r.value.n.props)) == h)
      && (r.None? ==> forall i :: 0 <= i < |Handles(a)| ==> Number(Handles(a)[i]) != h)
    decreases a, |a.kids| + 1
  {
    hide Handle;
    if Number(Handle(a.props)) != h { ByHandleFromIs(c, a, 0, h); assert a.kids[0..] == a.kids; }
  }

  lemma {:induction false} ByHandleFromIs(c: ACtx, a: ANode, k: nat, h: nat)
    requires k <= |a.kids|
    ensures var r := AByHandleFrom(c, a, k, h);
      && (r.Some? ==> APlug(r.value.c, r.value.n) == APlug(c, a) && Number(Handle(r.value.n.props)) == h)
      && (r.None? ==> forall i :: 0 <= i < |KidHandles(a.kids[k..])| ==> Number(KidHandles(a.kids[k..])[i]) != h)
    decreases a, |a.kids| - k
  {
    hide Handle;
    if k < |a.kids| {
      ByHandleIs(AChild(c, a, k), a.kids[k], h);
      ByHandleFromIs(c, a, k + 1, h);
      assert a.kids == a.kids[..k] + [a.kids[k]] + a.kids[k + 1..];
      assert a.kids[k..][1..] == a.kids[k + 1..];
    }
  }

  lemma {:induction false} ResolveIs(c: ACtx, a: ANode, names: seq<seq<byte>>)
    ensures var r := AResolve(c, a, names); r.Some? ==> APlug(r.value.c, r.value.n) == APlug(c, a)
    decreases |names|
  {
    if names != [] {
      var k := KidIndex(a.kids, names[0]);
      if k < |a.kids| {
        ResolveIs(AChild(c, a, k), a.kids[k], names[1..]);
        assert a.kids == a.kids[..k] + [a.kids[k]] + a.kids[k + 1..];
      }
    }
  }

  // ---- the target of a fragment

  /** "target", "target-path" and "__overlay__" */
  const TARGET: seq<byte> := [0x74, 0x61, 0x72, 0x67, 0x65, 0x74]
  const TARGET_PATH: seq<byte> := TARGET + [0x2d, 0x70, 0x61, 0x74, 0x68]

  /** Stands for reading on behind a property: the path is not terminated inside it. */
  const UNTERMINATED: int := -1000
  /** Stands for the lookup of an alias: the path is not absolute. */
  const ALIAS: int := -1001

  datatype Target = Found(spot: Spot) | Lost(err: int)

  /** An absolute path, or why it is none. */
  function PathTarget(base: ANode, path: seq<byte>): Target {
    var len := StrLen(path);
    if len == |path| then Lost(UNTERMINATED)
    else if len == 0 || path[0] != GP.SLASH then Lost(ALIAS)
    else
      var r := AResolve(ATop, base, GP.Comps(path[..len]));
      if r.None? then Lost(NOTFOUND) else Found(r.value)
  }

  /** The phandle goes first; a phandle of zero counts as none. */
  function TargetOf(base: ANode, props: seq<AProp>): (t: Target)
    ensures t.Lost? ==> t.err < 0
  {
    var v := Get(props, TARGET);
    if v.Some? && (|v.value| != 4 || BeDec(v.value) == U32 - 1) then Lost(BADPHANDLE)
    else if v.Some? && BeDec(v.value) != 0 then
      var r := AByHandle(ATop, base, BeDec(v.value));
      if r.None? then Lost(NOTFOUND) else Found(r.value)
    else
      var p := Get(props, TARGET_PATH);
      if p.None? then Lost(BADOVERLAY) else PathTarget(base, p.value)
  }

  /** What is found is a place of the base tree. */
  lemma {:induction false} TargetInside(base: ANode, props: seq<AProp>)
    ensures var t := TargetOf(base, props); t.Found? ==> APlug(t.spot.c, t.spot.n) == base
  {
    hide AByHandle, AResolve, Get, BeDec;
    var v := Get(props, TARGET);
    if v.Some? && |v.value| == 4 { ByHandleIs(ATop, base, BeDec(v.value)); }
    var p := Get(props, TARGET_PATH);
    if p.Some? { ResolveIs(ATop, base, GP.Comps(p.value[..StrLen(p.value)])); }
  }

  // ---- what the target is

  predicate HasHandle(a: ANode, p: seq<nat>, h: nat) {
    NodeAt(a, p).Some? && Number(Handle(NodeAt(a, p).value.props)) == h
  }

  /** The node at p has the phandle, and no node before it in tree order has. */
  ghost predicate FirstWithHandle(a: ANode, p: seq<nat>, h: nat) {
    HasHandle(a, p, h) && forall q :: Before(q, p) ==> !HasHandle(a, q, h)
  }

  /** Child k is the first that answers to the name. */
  predicate Answers(kids: seq<ANode>, name: seq<byte>, k: nat) {
    k < |kids| && NameMatches(kids[k].name, name) && forall j :: 0 <= j < k ==> !NameMatches(kids[j].name, name)
  }

  /** The nodes along p answer to the names one by one, each as the first of its siblings. */
  predicate Leads(a: ANode, names: seq<seq<byte>>, p: seq<nat>)
    decreases |p|
  {
    |p| == |names| && (p == [] || (Answers(a.kids, names[0], p[0]) && Leads(a.kids[p[0]], names[1..], p[1..])))
  }

  lemma {:induction false} HandleBelow(a: ANode, i: nat, p: seq<nat>, h: nat)
    ensures HasHandle(a, [i] + p, h) <==> i < |a.kids| && HasHandle(a.kids[i], p, h)
  {
    NodeBelow(a, i, p);
  }

  /** The first node with the phandle, with the path that leads to it. */
  lemma {:induction false} HandleFound(c: ACtx, a: ANode, h: nat) returns (p: seq<nat>)
    ensures var r := AByHandle(c, a, h);
      && (r.Some? ==> PathOf(r.value.c) == PathOf(c) + p && FirstWithHandle(a, p, h))
      && (r.None? ==> forall q :: !HasHandle(a, q, h))
    decreases a, |a.kids| + 1
  {
    hide Handle;
    p := [];
    if Number(Handle(a.props)) == h {
      assert PathOf(c) + [] == PathOf(c);
    } else {
      p := HandleFoundFrom(c, a, 0, h);
      forall q | HasHandle(a, q, h) ensures q != [] { }
    }
  }

  lemma {:induction false} HandleFoundFrom(c: ACtx, a: ANode, k: nat, h: nat) returns (p: seq<nat>)
    requires k <= |a.kids|
    ensures var r := AByHandleFrom(c, a, k, h);
      && (r.Some? ==>
           PathOf(r.value.c) == PathOf(c) + p && HasHandle(a, p, h) && p != [] && p[0] >= k &&
           forall q :: Before(q, p) && q != [] && q[0] >= k ==> !HasHandle(a, q, h))
      && (r.None? ==> forall q :: q != [] && q[0] >= k ==> !HasHandle(a, q, h))
    decreases a, |a.kids| - k
  {
    hide AByHandle;
    p := [];
    if k < |a.kids| {
      var p' := HandleFound(AChild(c, a, k), a.kids[k], h);
      HandleBelow(a, k, p', h);
      forall q | q != [] && q[0] == k ensures HasHandle(a, q, h) <==> HasHandle(a.kids[k], q[1..], h) {
        HandleBelow(a, k, q[1..], h);
        assert q == [k] + q[1..];
      }
      if AByHandle(AChild(c, a, k), a.kids[k], h).Some? {
        p := [k] + p';
        assert PathOf(AChild(c, a, k)) == PathOf(c) + [k];
        assert PathOf(c) + [k] + p' == PathOf(c) + p && p[1..] == p';
      } else {
        p := HandleFoundFrom(c, a, k + 1, h);
      }
    }
  }

  lemma {:induction false} PathFound(c: ACtx, a: ANode, names: seq<seq<byte>>) returns (p: seq<nat>)
    ensures var r := AResolve(c, a, names);
      && (r.Some? ==> PathOf(r.value.c) == PathOf(c) + p && Leads(a, names, p))
      && (r.None? ==> forall q :: !Leads(a, names, q))
    decreases |names|
  {
    hide KidIndex, NameMatches;
    p := [];
    if names == [] {
      assert PathOf(c) + [] == PathOf(c);
    } else {
      var k := KidIndex(a.kids, names[0]);
      forall q | Leads(a, names, q) ensures k < |a.kids| && q != [] && q[0] == k { }
      if k < |a.kids| {
        var p' := PathFound(AChild(c, a, k), a.kids[k], names[1..]);
        p := [k] + p';
        assert PathOf(AChild(c, a, k)) == PathOf(c) + [k];
        assert PathOf(c) + [k] + p' == PathOf(c) + p && p[1..] == p';
      }
    }
  }

  /** The fragment names its target by a phandle that can be one. */
  predicate ByNumber(props: seq<AProp>, h: nat) {
    Get(props, TARGET).Some? && |Get(props, TARGET).value| == 4 && BeDec(Get(props, TARGET).value) == h &&
    h != 0 && h != U32 - 1
  }

  /** The fragment has no target, or a zero one, and an absolute path of these names. */
  predicate ByPath(props: seq<AProp>, names: seq<seq<byte>>) {
    var v, w := Get(props, TARGET), Get(props, TARGET_PATH);
    (v.None? || (|v.value| == 4 && BeDec(v.value) == 0)) && w.Some? &&
    exists len :: 0 < len < |w.value| && CString(w.value, len) && w.value[0] == GP.SLASH && names == GP.Comps(w.value[..len])
  }

  /** The bytes up to the first zero, which is at len. */
  predicate CString(v: seq<byte>, len: nat) { len < |v| && v[len] == 0 && NoNul(v[..len]) }

  /** The node at path p of the base tree is the one the fragment is meant for. */
  ghost predicate Meant(base: ANode, props: seq<AProp>, p: seq<nat>) {
    || (exists h :: ByNumber(props, h) && FirstWithHandle(base, p, h))
    || (exists names :: ByPath(props, names) && Leads(base, names, p))
  }

  /** The target is the node that is meant; there is none exactly if no node is. */
  lemma {:induction false} TargetIs(base: ANode, props: seq<AProp>)
    ensures var t := TargetOf(base, props);
      && (t.Found? ==>
           Meant(base, props, PathOf(t.spot.c)) && APlug(t.spot.c, t.spot.n) == base &&
           NodeAt(base, PathOf(t.spot.c)) == Some(t.spot.n))
      && (t.Lost? ==> forall p :: !Meant(base, props, p))
  {
    hide AByHandle, AResolve, Get, BeDec, StrLen, Leads, FirstWithHandle, GP.Comps, HasHandle;
    TargetInside(base, props);
    var t, v, w := TargetOf(base, props), Get(props, TARGET), Get(props, TARGET_PATH);
    if t.Found? { PlugAt(t.spot.c, t.spot.n, t.spot.n); }
    if v.Some? && (|v.value| != 4 || BeDec(v.value) == U32 - 1) {
    } else if v.Some? && BeDec(v.value) != 0 {
      var p := HandleFound(ATop, base, BeDec(v.value));
      assert [] + p == p;
      forall q | FirstWithHandle(base, q, BeDec(v.value)) ensures HasHandle(base, q, BeDec(v.value)) {
        FirstHas(base, q, BeDec(v.value));
      }
      assert ByNumber(props, BeDec(v.value));
    } else if w.Some? {
      PathMeant(base, props, w.value);
    }
  }

  /** Which error it is when no node is meant. */
  lemma {:induction false} TargetErrors(base: ANode, props: seq<AProp>)
    ensures var t, v, w := TargetOf(base, props), Get(props, TARGET), Get(props, TARGET_PATH);
      && (t == Lost(BADPHANDLE) <==> v.Some? && (|v.value| != 4 || BeDec(v.value) == U32 - 1))
      && (t == Lost(BADOVERLAY) <==> (v.None? || (|v.value| == 4 && BeDec(v.value) == 0)) && w.None?)
      && (t.Lost? && (exists h :: ByNumber(props, h)) ==> t.err == NOTFOUND)
      && (t.Lost? && (exists names :: ByPath(props, names)) ==> t.err == NOTFOUND)
  {
    hide AByHandle, AResolve, Get, BeDec, StrLen, GP.Comps;
    var w := Get(props, TARGET_PATH);
    if w.Some? {
      forall l: nat | CString(w.value, l) ensures l == StrLen(w.value) { StrLenUnique(w.value, l); }
    }
  }

  lemma {:induction false} FirstHas(base: ANode, p: seq<nat>, h: nat)
    ensures FirstWithHandle(base, p, h) ==> HasHandle(base, p, h)
  {
  }

  lemma {:induction false} PathMeant(base: ANode, props: seq<AProp>, path: seq<byte>)
    requires Get(props, TARGET_PATH) == Some(path)
    requires Get(props, TARGET).None? || (|Get(props, TARGET).value| == 4 && BeDec(Get(props, TARGET).value) == 0)
    ensures var t := PathTarget(base, path);
      && (t.Found? ==> Meant(base, props, PathOf(t.spot.c)))
      && (t.Lost? ==> forall p :: !Meant(base, props, p))
  {
    hide AResolve, Get, BeDec, StrLen, Leads, FirstWithHandle, GP.Comps;
    var len := StrLen(path);
    forall l: nat | CString(path, l) ensures l == len { StrLenUnique(path, l); }
    if len < |path| {
      Terminated(path);
      if len > 0 && path[0] == GP.SLASH {
        var names := GP.Comps(path[..len]);
        var p := PathFound(ATop, base, names);
        assert [] + p == p;
        assert ByPath(props, names);
      }
    }
  }

  lemma {:induction false} Terminated(path: seq<byte>)
    requires StrLen(path) < |path|
    ensures CString(path, StrLen(path))
  {
  }
}

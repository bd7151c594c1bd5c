/** The node of the base tree that a fragment is meant for: found by phandle or by path. */
module FdtTarget {
  import opened Bytes
  import opened FdtTokens
  import opened FdtTree
  import opened FdtSpec
  import opened FdtBlob
  import opened FdtRefine
  import opened FdtOps
  import opened FdtIter
  import opened FdtWriter
  import opened FdtOverlay
  import opened FdtPlaces
  import opened FdtAim
  import opened FdtPhandle
  import opened FdtMaxPhandle
  import GP = FdtGetPath

  // ---- stored places and seen ones

  function SpotOf(r: Option<(Ctx, Node)>, strs: seq<byte>): Option<Spot> {
    if r.None? then None else Some(Spot(AbsCtx(r.value.0, strs), Abs(r.value.1, strs)))
  }

  lemma {:induction false} ResolveSeen(c: Ctx, n: Node, names: seq<seq<byte>>, strs: seq<byte>)
    ensures SpotOf(GP.Resolve(c, n, names), strs) == AResolve(AbsCtx(c, strs), Abs(n, strs), names)
    decreases |names|
  {
    hide AbsKids, AbsProps, AbsCtx, SubIndex, KidIndex, Abs;
    if names != [] {
      var k := SubIndex(n.items, names[0]);
      KidIs(n.items, names[0], strs);
      AbsParts(n, strs);
      if k < |n.items| {
        ChildSeen(c, n, k, strs);
        ResolveSeen(Child(c, n, k), n.items[k].node, names[1..], strs);
      }
    }
  }

  // ---- the walk for a phandle

  /** The first node header whose node has the phandle. */
  function FirstWith(ts: seq<Tok>, strs: seq<byte>, h: nat): Option<nat> {
    if ts == [] || ts[0].End? then None
    else if ts[0].Begin? && HandleHere(ts, strs) == h then Some(0)
    else More(FirstWith(ts[1..], strs, h), 1)
  }

  /** The same in the tree as stored. */
  ghost function ByHandle(c: Ctx, n: Node, strs: seq<byte>, h: nat): Option<(Ctx, Node)>
    decreases n, |n.items| + 1
  {
    if Number(Handle(AbsProps(n.items, strs))) == h then Some((c, n)) else ByHandleFrom(c, n, 0, strs, h)
  }

  ghost function ByHandleFrom(c: Ctx, n: Node, k: nat, strs: seq<byte>, h: nat): Option<(Ctx, Node)>
    requires k <= |n.items|
    decreases n, |n.items| - k
  {
    if k == |n.items| then None
    else if n.items[k].SubItem? then
      SmallerChild(n, k);
      var r := ByHandle(Child(c, n, k), n.items[k].node, strs, h);
      if r.Some? then r else ByHandleFrom(c, n, k + 1, strs, h)
    else ByHandleFrom(c, n, k + 1, strs, h)
  }

  lemma {:induction false} ByHandleSeen(c: Ctx, n: Node, strs: seq<byte>, h: nat)
    ensures SpotOf(ByHandle(c, n, strs, h), strs) == AByHandle(AbsCtx(c, strs), Abs(n, strs), h)
    decreases n, |n.items| + 1
  {
    hide AbsKids, AbsProps, AbsCtx, Abs, Handle;
    AbsParts(n, strs);
    assert n.items[..0] == [];
    NoKids(strs);
    ByHandleFromSeen(c, n, 0, strs, h);
  }

  lemma {:induction false} ByHandleFromSeen(c: Ctx, n: Node, k: nat, strs: seq<byte>, h: nat)
    requires k <= |n.items|
    ensures var j := |AbsKids(n.items[..k], strs)|;
      j <= |Abs(n, strs).kids| &&
      SpotOf(ByHandleFrom(c, n, k, strs, h), strs) == AByHandleFrom(AbsCtx(c, strs), Abs(n, strs), j, h)
    decreases n, |n.items| - k
  {
    hide AbsKids, AbsProps, AbsCtx, Abs, Handle, AByHandle, ByHandle;
    AbsParts(n, strs);
    if k == |n.items| {
      assert n.items[..k] == n.items;
    } else if n.items[k].SubItem? {
      SmallerChild(n, k);
      ChildSeen(c, n, k, strs);
      ByHandleSeen(Child(c, n, k), n.items[k].node, strs, h);
      ByHandleFromSeen(c, n, k + 1, strs, h);
    } else {
      NotChildSeen(n, k, strs);
      ByHandleFromSeen(c, n, k + 1, strs, h);
    }
  }

  /** How far into the tokens of the node at c the place r is. */
  ghost function Ahead(c: Ctx, r: (Ctx, Node)): int { |Pre(r.0)| - |Pre(c)| }

  /** The walk over a node's tokens finds what the tree says, or goes on behind it. */
  lemma {:induction false} WalkFinds(c: Ctx, n: Node, rest: seq<Tok>, strs: seq<byte>, h: nat)
    ensures var r, f := ByHandle(c, n, strs, h), FirstWith(Flat(n) + rest, strs, h);
      if r.Some? then f.Some? && f.value == Ahead(c, r.value) else f == More(FirstWith(rest, strs, h), |Flat(n)|)
    decreases n, |n.items| + 1
  {
    hide HandleHere, Handle, Pre, AbsProps, FlatItems;
    var ts, tail := Flat(n) + rest, [EndNode] + rest;
    HandleHereIs(n, rest, strs);
    assert ts[1..] == FlatItems(n.items) + tail;
    if Number(Handle(AbsProps(n.items, strs))) != h {
      assert n.items[0..] == n.items && n.items[..0] == [];
      WalkItems(c, n, 0, tail, strs, h);
      assert tail[1..] == rest;
      NoItems();
    }
  }

  lemma {:induction false} WalkItems(c: Ctx, n: Node, k: nat, rest: seq<Tok>, strs: seq<byte>, h: nat)
    requires k <= |n.items|
    ensures var r, f := ByHandleFrom(c, n, k, strs, h), FirstWith(FlatItems(n.items[k..]) + rest, strs, h);
      if r.Some? then f.Some? && 1 + |FlatItems(n.items[..k])| + f.value == Ahead(c, r.value)
      else f == More(FirstWith(rest, strs, h), |FlatItems(n.items[k..])|)
    decreases n, |n.items| - k
  {
    hide HandleHere, Handle, Pre, AbsProps, ByHandle, FirstWith, FlatItems;
    if k == |n.items| {
      NoItems();
      assert n.items[k..] == [] && [] + rest == rest;
    } else {
      var it, behind := n.items[k], FlatItems(n.items[k + 1..]) + rest;
      FirstItem(n.items, k, rest);
      WalkItems(c, n, k + 1, rest, strs, h);
      if it.SubItem? {
        SmallerChild(n, k);
        WalkFinds(Child(c, n, k), it.node, behind, strs, h);
        InParts(c, n, n.items[..k], n.items[k + 1..]);
      } else {
        SkipOne(it, behind, strs, h);
      }
    }
  }

  lemma {:induction false} FirstItem(items: seq<Item>, k: nat, rest: seq<Tok>)
    requires k < |items|
    ensures FlatItems(items[k..]) + rest == FlatItem(items[k]) + (FlatItems(items[k + 1..]) + rest)
    ensures |FlatItems(items[k..])| == |FlatItem(items[k])| + |FlatItems(items[k + 1..])|
    ensures |FlatItems(items[..k + 1])| == |FlatItems(items[..k])| + |FlatItem(items[k])|
  {
    assert items[k..] == [items[k]] + items[k + 1..] && items[..k + 1] == items[..k] + [items[k]];
    hide FlatItems, FlatItem;
    FlatConcat([items[k]], items[k + 1..]);
    FlatConcat(items[..k], [items[k]]);
    FlatOne(items[k]);
    Assoc(FlatItem(items[k]), FlatItems(items[k + 1..]), rest);
  }

  lemma {:induction false} SkipOne(it: Item, rest: seq<Tok>, strs: seq<byte>, h: nat)
    requires !it.SubItem?
    ensures |FlatItem(it)| == 1 && FirstWith(FlatItem(it) + rest, strs, h) == More(FirstWith(rest, strs, h), 1)
  {
    hide HandleHere;
    assert (FlatItem(it) + rest)[1..] == rest;
  }

  lemma {:induction false} WithSkip(ts: seq<Tok>, i: nat, j: nat, strs: seq<byte>, h: nat)
    requires Between(ts, i, j)
    ensures FirstWith(ts[i..], strs, h) == More(FirstWith(ts[j..], strs, h), j - i)
    ensures j == |ts| || ts[j].End? ==> FirstWith(ts[i..], strs, h).None?
    decreases j - i
  {
    hide HandleHere;
    if i < j {
      assert ts[i..][1..] == ts[i + 1..];
      WithSkip(ts, i + 1, j, strs, h);
    }
  }

  lemma {:induction false} WithTake(ts: seq<Tok>, i: nat, strs: seq<byte>, h: nat)
    requires i < |ts| && ts[i].Begin?
    ensures FirstWith(ts[i..], strs, h) == if HandleHere(ts[i..], strs) ==
      h then Some(0) else More(FirstWith(ts[i + 1..], strs, h), 1)
  {
    hide HandleHere;
    assert ts[i..][1..] == ts[i + 1..];
  }

  /** fdt_node_offset_by_phandle, for a phandle that can be one. */
  method OffsetByPhandle(f: Fdt, h: nat) returns (offset: int, ghost j: nat)
    requires f.Valid()
    ensures var r := FirstWith(f.toks, f.Strings(), h);
      if r.None? then offset == NOTFOUND else offset >= 0 && j == r.value < |f.toks| && offset == Off(f.toks, j)
  {
    hide Off, f.Valid, f.Strings, FirstWith, HandleHere;
    f.ValidBlocks();
    FirstOff(f.toks);
    assert f.toks[0..] == f.toks;
    offset, j := NodeFrom(f, 0, 0);
    WithSkip(f.toks, 0, j, f.Strings(), h);
    while offset >= 0
      invariant j <= |f.toks| && FirstWith(f.toks, f.Strings(), h) == More(FirstWith(f.toks[j..], f.Strings(), h), j)
      invariant offset >= 0 ==> j < |f.toks| && f.toks[j].Begin? && offset == Off(f.toks, j)
      invariant offset < 0 ==> offset == NOTFOUND && FirstWith(f.toks, f.Strings(), h).None?
      decreases |f.toks| - j
    {
      WithTake(f.toks, j, f.Strings(), h);
      var here := GetPhandle(f, offset, j);
      if here == h { return; }
      var tag, next := f.TagAt(offset, j);
      ghost var k := j + 1;
      offset, j := NodeFrom(f, next, k);
      WithSkip(f.toks, k, j, f.Strings(), h);
    }
  }

  lemma {:induction false} ByHandleHeld(ts: seq<Tok>, c: Ctx, n: Node, tail: seq<Tok>, strs: seq<byte>, h: nat)
    requires Holds(ts, c, n, tail)
    ensures var r := ByHandle(c, n, strs, h); r.Some? ==> Holds(ts, r.value.0, r.value.1, tail)
    decreases n, |n.items| + 1
  {
    hide Holds, Handle, AbsProps;
    ByHandleFromHeld(ts, c, n, 0, tail, strs, h);
  }

  lemma {:induction false} ByHandleFromHeld(ts: seq<Tok>, c: Ctx, n: Node, k: nat, tail: seq<Tok>, strs: seq<byte>,
      h: nat)
    requires k <= |n.items| && Holds(ts, c, n, tail)
    ensures var r := ByHandleFrom(c, n, k, strs, h); r.Some? ==> Holds(ts, r.value.0, r.value.1, tail)
    decreases n, |n.items| - k
  {
    hide Holds, ByHandle;
    if k < |n.items| {
      if n.items[k].SubItem? {
        SmallerChild(n, k);
        assert n.items == n.items[..k] + [SubItem(n.items[k].node)] + n.items[k + 1..];
        Descend(ts, c, n, tail, n.items[..k], n.items[k].node, n.items[k + 1..]);
        ByHandleHeld(ts, Child(c, n, k), n.items[k].node, tail, strs, h);
      }
      ByHandleFromHeld(ts, c, n, k + 1, tail, strs, h);
    }
  }

  /** In a tree: the offset of the first node with the phandle. */
  method NodeByPhandle(f: Fdt, h: nat, ghost root: Node) returns (offset: int)
    requires InTree(f, Top, root, [End])
    ensures var r := ByHandle(Top, root, f.Strings(), h);
      if r.None? then offset == NOTFOUND else offset >= 0 && offset == Place(r.value.0) && InTree(f, r.value.0, r.value.1, [End])
  {
    hide Off, f.Valid, ByHandle, FirstWith, Flat, Pre;
    ghost var strs, r := f.Strings(), ByHandle(Top, root, f.Strings(), h);
    HoldsTree(f.toks, Top, root, [End]);
    WalkFinds(Top, root, [End], strs, h);
    NoneAtEnd(strs, h);
    GP.TopPlace();
    ghost var j;
    offset, j := OffsetByPhandle(f, h);
    if r.Some? {
      ByHandleHeld(f.toks, Top, root, [End], strs, h);
      TopAhead(r.value);
      TreeHere(f, r.value.0, r.value.1, [End]);
    }
  }

  lemma {:induction false} NoneAtEnd(strs: seq<byte>, h: nat)
    ensures FirstWith([End], strs, h).None?
  {
  }

  lemma {:induction false} TopAhead(r: (Ctx, Node))
    ensures Ahead(Top, r) == |Pre(r.0)|
  {
  }

  // ---- the target of a fragment

  /** f holds node n of its tree at an offset, and the reader sees the spot there. */
  ghost predicate AtSpot(f: Fdt, c: Ctx, n: Node, root: Node, offset: int, t: Target)
    reads f, f.buf
  {
    t.Found? && f.Blocks() && offset >= 0 && offset == Place(c) && InTree(f, c, n, [End]) && Plug(c, n) == root &&
    t.spot == Spot(AbsCtx(c, f.Strings()), Abs(n, f.Strings()))
  }

  method FindPath(f: Fdt, path: seq<byte>, ghost root: Node) returns (offset: int, ghost c: Ctx, ghost n: Node)
    requires InTree(f, Top, root, [End])
    ensures f.Blocks()
    ensures var t := PathTarget(Abs(root, f.Strings()), path);
      if t.Lost? then offset == t.err else AtSpot(f, c, n, root, offset, t)
  {
    hide f.Valid, Holds, Abs, AbsCtx, AResolve, Place, GP.Resolve, GP.Comps;
    c, n := Top, root;
    var len := StrLen(path);
    if len == |path| { return UNTERMINATED, c, n; }
    if len == 0 || path[0] != GP.SLASH { return ALIAS, c, n; }
    var p := path[..len];
    assert p[0] == path[0];
    offset := GP.PathOffset(f, p, root, [End]);
    TopSeen(f.Strings());
    ResolveSeen(Top, root, GP.Comps(p), f.Strings());
    ghost var r := GP.Resolve(Top, root, GP.Comps(p));
    if r.Some? {
      c, n := r.value.0, r.value.1;
      GP.ResolvePlug(Top, root, GP.Comps(p));
      GP.PlugTop(root);
    }
  }

  lemma {:induction false} TopSeen(strs: seq<byte>)
    ensures AbsCtx(Top, strs) == ATop
  {
  }

  lemma {:induction false} HandlePlug(c: Ctx, n: Node, strs: seq<byte>, h: nat)
    ensures var r := ByHandle(c, n, strs, h); r.Some? ==> Plug(r.value.0, r.value.1) == Plug(c, n)
    decreases n, |n.items| + 1
  {
    hide Handle, AbsProps;
    HandlePlugFrom(c, n, 0, strs, h);
  }

  lemma {:induction false} HandlePlugFrom(c: Ctx, n: Node, k: nat, strs: seq<byte>, h: nat)
    requires k <= |n.items|
    ensures var r := ByHandleFrom(c, n, k, strs, h); r.Some? ==> Plug(r.value.0, r.value.1) == Plug(c, n)
    decreases n, |n.items| - k
  {
    hide ByHandle;
    if k < |n.items| {
      if n.items[k].SubItem? {
        SmallerChild(n, k);
        assert n.items == n.items[..k] + [SubItem(n.items[k].node)] + n.items[k + 1..];
        PlugIn(c, n, n.items[..k], n.items[k].node, n.items[k + 1..]);
        HandlePlug(Child(c, n, k), n.items[k].node, strs, h);
      }
      HandlePlugFrom(c, n, k + 1, strs, h);
    }
  }

  method FindHandle(f: Fdt, h: nat, ghost root: Node) returns (offset: int, ghost c: Ctx, ghost n: Node)
    requires InTree(f, Top, root, [End])
    ensures f.Blocks()
    ensures var r := AByHandle(ATop, Abs(root, f.Strings()), h);
      if r.None? then offset == NOTFOUND else AtSpot(f, c, n, root, offset, Found(r.value))
  {
    hide f.Valid, Holds, Abs, AbsCtx, AByHandle, ByHandle, Place;
    c, n := Top, root;
    offset := NodeByPhandle(f, h, root);
    TopSeen(f.Strings());
    ByHandleSeen(Top, root, f.Strings(), h);
    ghost var r := ByHandle(Top, root, f.Strings(), h);
    if r.Some? {
      c, n := r.value.0, r.value.1;
      HandlePlug(Top, root, f.Strings(), h);
      GP.PlugTop(root);
    }
  }

  /** overlay_get_target: the offset in the base tree of the node that a fragment is meant for. */
  method GetTarget(f: Fdt, fo: Fdt, fragment: nat, ghost root: Node, ghost co: Ctx, ghost frag: Node)
    returns (offset: int, ghost c: Ctx, ghost n: Node)
    requires InTree(f, Top, root, [End]) && InTree(fo, co, frag, [End]) && fragment == Place(co)
    ensures f.Blocks() && fo.Blocks()
    ensures var t := TargetOf(Abs(root, f.Strings()), AbsProps(frag.items, fo.Strings()));
      if t.Lost? then offset == t.err else AtSpot(f, c, n, root, offset, t)
    ensures var base, props := Abs(root, f.Strings()), AbsProps(frag.items, fo.Strings());
      if offset >= 0 then Meant(base, props, PathOf(AbsCtx(c, f.Strings()))) else forall p :: !Meant(base, props, p)
  {
    hide f.Valid, fo.Valid, Holds, AbsKids, AbsProps, AbsCtx, AByHandle, PathTarget, Place, Get, BeDec, Meant;
    c, n := Top, root;
    TargetIs(Abs(root, f.Strings()), AbsProps(frag.items, fo.Strings()));
    var v := GetNodeProp(fo, fragment, TARGET, co, frag, [End]);
    if v.Some? && (|v.value| != 4 || BeDec(v.value) == U32 - 1) { return BADPHANDLE, c, n; }
    if v.Some? && BeDec(v.value) != 0 {
      offset, c, n := FindHandle(f, BeDec(v.value), root);
      return;
    }
    var p := GetNodeProp(fo, fragment, TARGET_PATH, co, frag, [End]);
    if p.None? { return BADOVERLAY, c, n; }
    offset, c, n := FindPath(f, p.value, root);
  }
}

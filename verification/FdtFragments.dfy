/** Merging a whole overlay: its fragments one after the other, each into the tree that the ones before have left. */
module FdtFragments {
  import opened Bytes
  import opened FdtTokens
  import opened FdtTree
  import opened FdtBlob
  import opened FdtEdit
  import opened FdtRefine
  import opened FdtOps
  import opened FdtIter
  import opened FdtOverlay
  import opened FdtPhandle
  import opened FdtPlaces
  import opened FdtAim
  import opened FdtTarget

  /** "__overlay__" */
  const OVERLAY: seq<byte> := [0x5f, 0x5f, 0x6f, 0x76, 0x65, 0x72, 0x6c, 0x61, 0x79, 0x5f, 0x5f]

  // ---- on trees

  /** A fragment without content is passed over; otherwise its content is merged into its target. */
  function MergeFragment(base: ANode, frag: ANode): Moved<ANode> {
    var k := KidIndex(frag.kids, OVERLAY);
    if k == |frag.kids| then Good(base)
    else
      match TargetOf(base, frag.props)
      case Lost(e) => Bad(e)
      case Found(s) => Good(APlug(s.c, Merge(s.n, frag.kids[k])))
  }

  function MergeFragments(base: ANode, frags: seq<ANode>): Moved<ANode>
    decreases frags
  {
    if frags == [] then Good(base)
    else
      var r := MergeFragment(base, frags[0]);
      if r.Bad? then r else MergeFragments(r.value, frags[1..])
  }

  /** Only the node that is meant changes: its content is merged into it, in surroundings that stay. */
  lemma {:induction false} FragmentLocal(base: ANode, frag: ANode) returns (p: seq<nat>)
    requires MergeFragment(base, frag).Good? && KidIndex(frag.kids, OVERLAY) < |frag.kids|
    ensures Meant(base, frag.props, p) && NodeAt(base, p).Some?
    ensures var n := NodeAt(base, p).value;
      MergeFragment(base, frag) == Good(PutAt(base, p, Merge(n, frag.kids[KidIndex(frag.kids, OVERLAY)])))
  {
    hide TargetOf, KidIndex, Merge, APlug, Meant, NodeAt, PutAt;
    TargetIs(base, frag.props);
    var s := TargetOf(base, frag.props).spot;
    p := PathOf(s.c);
    PlugAt(s.c, s.n, Merge(s.n, frag.kids[KidIndex(frag.kids, OVERLAY)]));
  }

  /**
   * After a fragment: the tree with its content merged into the node that is meant, or the same tree without
   * content.
   */
  ghost predicate Step(base: ANode, frag: ANode, after: ANode) {
    var k := KidIndex(frag.kids, OVERLAY);
    if k == |frag.kids| then after == base
    else exists p ::
      Meant(base, frag.props, p) && NodeAt(base, p).Some? &&
      after == PutAt(base, p, Merge(NodeAt(base, p).value, frag.kids[k]))
  }

  /** A fragment that has content and is meant for no node. */
  ghost predicate Astray(base: ANode, frag: ANode) {
    KidIndex(frag.kids, OVERLAY) < |frag.kids| && forall p :: !Meant(base, frag.props, p)
  }

  /** One tree after the other, a fragment between two of them. */
  ghost predicate Run(trees: seq<ANode>, frags: seq<ANode>) {
    0 < |trees| <= |frags| + 1 && forall i :: 0 <= i < |trees| - 1 ==> Step(trees[i], frags[i], trees[i + 1])
  }

  /** The run ends before a fragment that is meant for no node; err says why. */
  ghost predicate Stopped(trees: seq<ANode>, frags: seq<ANode>, err: int) {
    var k := |trees| - 1;
    0 <= k < |frags| && Astray(trees[k], frags[k]) && TargetOf(trees[k], frags[k].props) == Lost(err)
  }

  lemma {:induction false} FragmentStep(base: ANode, frag: ANode)
    ensures var r := MergeFragment(base, frag); if r.Good? then Step(base, frag, r.value) else Astray(base, frag)
  {
    hide TargetOf, KidIndex, Merge, APlug, Meant, NodeAt, PutAt;
    TargetIs(base, frag.props);
    if MergeFragment(base, frag).Good? && KidIndex(frag.kids, OVERLAY) < |frag.kids| {
      var p := FragmentLocal(base, frag);
    }
  }

  /** All fragments in order; or up to the first that is meant for no node, with the error of its lookup. */
  lemma {:induction false} FragmentRun(base: ANode, frags: seq<ANode>) returns (trees: seq<ANode>)
    ensures Run(trees, frags) && trees[0] == base
    ensures var r, k := MergeFragments(base, frags), |trees| - 1;
      if r.Good? then k == |frags| && trees[k] == r.value else Stopped(trees, frags, r.err)
    decreases frags
  {
    hide KidIndex, TargetOf, Step, Astray;
    if frags == [] {
      trees := [base];
    } else {
      var r := MergeFragment(base, frags[0]);
      FragmentStep(base, frags[0]);
      if r.Bad? {
        trees := [base];
      } else {
        var rest := FragmentRun(r.value, frags[1..]);
        trees := [base] + rest;
        forall i | 0 <= i < |trees| - 1 ensures Step(trees[i], frags[i], trees[i + 1]) {
          if i > 0 { assert Step(rest[i - 1], frags[1..][i - 1], rest[i]); }
        }
      }
    }
  }

  /** Bytes that suffice for the content of a fragment, and of all. */
  function FragRoom(frag: ANode): nat {
    var k := KidIndex(frag.kids, OVERLAY);
    if k == |frag.kids| then 0 else NodeRoom(frag.kids[k])
  }

  function FragsRoom(frags: seq<ANode>): nat {
    if frags == [] then 0 else FragRoom(frags[0]) + FragsRoom(frags[1..])
  }

  // ---- one fragment

  /** From a node back to the whole tree. */
  lemma {:induction false} Rise(f: Fdt, c: Ctx, n: Node, tail: seq<Tok>)
    requires InTree(f, c, n, tail)
    ensures f.Blocks() && InTree(f, Top, Plug(c, n), tail)
    ensures Abs(Plug(c, n), f.Strings()) == APlug(AbsCtx(c, f.Strings()), Abs(n, f.Strings()))
  {
    hide Pre, Post, Flat, f.Valid, Abs, AbsCtx;
    HoldsTree(f.toks, c, n, tail);
    HoldsTree(f.toks, Top, Plug(c, n), tail);
    AbsPlugIs(c, n, f.Strings());
  }

  /** Item k of the fragment's node is its content. */
  lemma {:induction false} ContentSeen(frag: Node, strs: seq<byte>)
    ensures var k, a := SubIndex(frag.items, OVERLAY), Abs(frag, strs);
      var j := KidIndex(a.kids, OVERLAY);
      (k == |frag.items| <==> j == |a.kids|) && (k < |frag.items| ==> a.kids[j] == Abs(frag.items[k].node, strs))
  {
    hide AbsKids, AbsProps, SubIndex, KidIndex;
    KidIs(frag.items, OVERLAY, strs);
    var k := SubIndex(frag.items, OVERLAY);
    if k < |frag.items| { ChildSeen(Top, frag, k, strs); }
  }

  /** What a fragment's merge leaves, or the error it ends with. */
  ghost predicate FragDone(f: Fdt, size: nat, r: Moved<ANode>, room: nat, root: Node, err: int)
    reads f, f.buf
  {
    && f.Blocks() && InTree(f, Top, root, [End])
    && (r.Bad? ==> err == r.err && err != 0)
    && (r.Good? ==> (err == 0 || err == NOSPACE || err == BADLAYOUT) && Fitted(f, size, room, err))
    && (r.Good? && err == 0 ==> Abs(root, f.Strings()) == r.value)
  }

  /** Merges one fragment of the overlay into the base tree. */
  method ApplyFragment(f: Fdt, fo: Fdt, fragment: nat, ghost root: Node, ghost co: Ctx, ghost frag: Node)
      returns (err: int, ghost root': Node)
    requires InTree(f, Top, root, [End]) && InTree(fo, co, frag, [End]) && fragment == Place(co) && f != fo
    requires f.buf != fo.buf
    modifies f`sizeStruct, f`sizeStrings, f`offStrings, f`toks, f.buf
    ensures fo.Blocks() && Ordered(f) == old(Ordered(f)) && f.Front() == old(f.Front())
    ensures FragDone(f, old(DataSize(f)), old(MergeFragment(Abs(root, f.Strings()), Abs(frag, fo.Strings()))),
      FragRoom(Abs(frag, fo.Strings())), root', err)
  {
    hide f.Valid, fo.Valid, Holds, AbsKids, AbsProps, AbsCtx, Place, SubIndex, KidIndex, NodeRoom, Merge, TargetOf,
        Plug, APlug, f.Front;
    root' := root;
    ContentSeen(frag, fo.Strings());
    ghost var k;
    var overlay;
    overlay, k := FindChild(fo, fragment, OVERLAY, co, frag, [End]);
    if overlay == NOTFOUND { return 0, root; }
    var target;
    ghost var c, n;
    target, c, n := GetTarget(f, fo, fragment, root, co, frag);
    if target < 0 { return target, root; }
    ghost var m;
    err, m := ApplyNode(f, target, fo, overlay, c, n, [End], Child(co, frag, k), frag.items[k].node, [End]);
    root' := Plug(c, m);
    Rise(f, c, m, [End]);
  }

  // ---- all of them

  /** The fragments before item q of the overlay's root are done. */
  ghost predicate FragStage(base: ANode, size: nat, ordered: bool, front: seq<byte>, f: Fdt, root: Node, fo: Fdt,
      ro: Node, q: nat, child: int)
    reads f, f.buf, fo, fo.buf
  {
    && f != fo && f.buf != fo.buf && f.Blocks() && fo.Blocks() && InTree(f, Top, root, [End])
    && InTree(fo, Top, ro, [End])
    && Ordered(f) == ordered && f.Front() == front && q <= |ro.items| && (q < |ro.items| ==> ro.items[q].SubItem?)
    && (if q == |ro.items| then child == NOTFOUND else KidAt(fo, Top, ro, [End], q, child))
    && DataSize(f) + FragsRoom(KidsAt(ro.items, q, fo.Strings())) <= size + FragsRoom(AbsKids(ro.items, fo.Strings()))
    && MergeFragments(base, AbsKids(ro.items, fo.Strings())) ==
         MergeFragments(Abs(root, f.Strings()), KidsAt(ro.items, q, fo.Strings()))
  }

  lemma {:induction false} FragNext(t: ANode, items: seq<Item>, q: nat, strs: seq<byte>)
    requires q < |items| && items[q].SubItem?
    ensures var frag, rest := Abs(items[q].node, strs), KidsAt(items, NextKid(items, q + 1), strs);
      var r := MergeFragment(t, frag);
      && MergeFragments(t, KidsAt(items, q, strs)) == (if r.Bad? then r else MergeFragments(r.value, rest))
      && FragsRoom(KidsAt(items, q, strs)) == FragRoom(frag) + FragsRoom(rest)
  {
    hide MergeFragment, FragRoom, Abs, AbsKids, NextKid;
    KidsFrom(items, q + 1, strs);
    var ks := KidsAt(items, q, strs);
    assert ks[0] == Abs(items[q].node, strs) && ks[1..] == AbsKids(items[q + 1..], strs);
  }

  method NextFragment(f: Fdt, fo: Fdt, child: nat, ghost base: ANode, ghost size: nat, ghost root: Node, ghost ro: Node,
      ghost q: nat)
    returns (err: int, next: int, ghost root': Node)
    requires FragStage(base, size, Ordered(f), f.Front(), f, root, fo, ro, q, child)
    modifies f`sizeStruct, f`sizeStrings, f`offStrings, f`toks, f.buf
    ensures q < |ro.items| && f.Blocks() && fo.Blocks() && InTree(f, Top, root', [End]) && Ordered(f) == old(Ordered(f))
    ensures f.Front() == old(f.Front())
    ensures err == 0 ==> FragStage(base, size, Ordered(f), f.Front(), f, root', fo, ro, NextKid(ro.items, q + 1), next)
    ensures err != 0 ==> FragFailed(f, base, size, AbsKids(ro.items, fo.Strings()), err)
  {
    hide NextKid, f.Front, f.Valid, fo.Valid, Holds, AbsKids, MergeFragments, MergeFragment, FragsRoom, FragRoom,
        KidsAt, Place, Ordered, Abs;
    next := NOTFOUND;
    FragNext(Abs(root, f.Strings()), ro.items, q, fo.Strings());
    err, root' := ApplyFragment(f, fo, child, root, Child(Top, ro, q), ro.items[q].node);
    if err != 0 { return; }
    next := NextChild(fo, child, Top, ro, [End], q);
  }

  /** The merge of the fragments fails with this error, or there was not surely room. */
  ghost predicate FragFailed(f: Fdt, base: ANode, size: nat, frags: seq<ANode>, err: int)
    reads f
  {
    MergeFragments(base, frags) == Bad(err) ||
    ((err == NOSPACE || err == BADLAYOUT) && !(Ordered(f) && size + FragsRoom(frags) <= f.totalsize))
  }

  lemma {:induction false} FragStart(f: Fdt, root: Node, fo: Fdt, ro: Node, child: int)
    requires InTree(f, Top, root, [End]) && InTree(fo, Top, ro, [End]) && f != fo && f.buf != fo.buf
    requires var q := NextKid(ro.items, 0);
      if q == |ro.items| then child == NOTFOUND else KidAt(fo, Top, ro, [End], q, child)
    ensures f.Blocks()
    ensures FragStage(Abs(root, f.Strings()), DataSize(f), Ordered(f), f.Front(), f, root, fo, ro, NextKid(ro.items, 0),
      child)
  {
    hide NextKid, f.Front, f.Valid, fo.Valid, Holds, AbsKids, MergeFragments, FragsRoom, KidsAt, Ordered, Abs;
    KidsAtRoom(ro.items, NextKid(ro.items, 0), fo.Strings());
  }

  lemma {:induction false} FragEnd(base: ANode, size: nat, ordered: bool, front: seq<byte>, f: Fdt, root: Node, fo: Fdt,
      ro: Node, q: nat,
      child: int)
    requires FragStage(base, size, ordered, front, f, root, fo, ro, q, child) && child < 0
    ensures f.Blocks() && fo.Blocks()
    ensures MergeFragments(base, AbsKids(ro.items, fo.Strings())) == Good(Abs(root, f.Strings()))
  {
    hide f.Front, f.Valid, fo.Valid, Holds, AbsKids, FragsRoom, Ordered, Abs, MergeFragment;
  }

  /**
   * Merges every fragment of the overlay. Offsets are looked up afresh for each, in the tree as it is by then: trees
   * are the base tree and what it becomes, fragment by fragment, up to the last or to the first that is meant for no
   * node.
   */
  method MergeOverlay(f: Fdt, fo: Fdt, ghost root: Node, ghost ro: Node) returns (err: int, ghost root': Node,
      ghost trees: seq<ANode>)
    requires InTree(f, Top, root, [End]) && InTree(fo, Top, ro, [End]) && f != fo && f.buf != fo.buf
    modifies f`sizeStruct, f`sizeStrings, f`offStrings, f`toks, f.buf
    ensures f.Blocks() && fo.Blocks() && InTree(f, Top, root', [End]) && Ordered(f) == old(Ordered(f))
    ensures f.Front() == old(f.Front())
    ensures Run(trees, AbsKids(ro.items, fo.Strings())) && trees[0] == old(Abs(root, f.Strings()))
    ensures err == 0 ==>
      |trees| == |AbsKids(ro.items, fo.Strings())| + 1 && trees[|trees| - 1] == Abs(root', f.Strings())
    ensures err != 0 ==>
      Stopped(trees, AbsKids(ro.items, fo.Strings()), err) ||
      ((err == NOSPACE || err == BADLAYOUT) &&
       !(Ordered(f) && old(DataSize(f)) + FragsRoom(AbsKids(ro.items, fo.Strings())) <= f.totalsize))
  {
    hide NextKid, f.Front, f.Valid, fo.Valid, Holds, AbsKids, MergeFragments, FragsRoom, FragStage, Ordered, Abs, Run,
        Stopped;
    trees := FragmentRun(Abs(root, f.Strings()), AbsKids(ro.items, fo.Strings()));
    GetTopPlace();
    var child := FirstChild(fo, 0, Top, ro, [End]);
    FragStart(f, root, fo, ro, child);
    err, root' := RestFragments(f, fo, child, Abs(root, f.Strings()), DataSize(f), root, ro, NextKid(ro.items, 0));
  }

  lemma {:induction false} GetTopPlace()
    ensures Place(Top) == 0
  {
  }

  method RestFragments(f: Fdt, fo: Fdt, first: int, ghost base: ANode, ghost size: nat, ghost root: Node,
      ghost ro: Node, ghost k: nat)
    returns (err: int, ghost root': Node)
    requires k <= |ro.items| && FragStage(base, size, Ordered(f), f.Front(), f, root, fo, ro, k, first)
    modifies f`sizeStruct, f`sizeStrings, f`offStrings, f`toks, f.buf
    ensures f.Blocks() && fo.Blocks() && InTree(f, Top, root', [End]) && Ordered(f) == old(Ordered(f))
    ensures f.Front() == old(f.Front())
    ensures err == 0 ==> MergeFragments(base, AbsKids(ro.items, fo.Strings())) == Good(Abs(root', f.Strings()))
    ensures err != 0 ==> FragFailed(f, base, size, AbsKids(ro.items, fo.Strings()), err)
  {
    StageTree(base, size, Ordered(f), f.Front(), f, root, fo, ro, k, first);
    hide NextKid, f.Front, AbsKids, MergeFragments, FragStage, FragFailed, Ordered, Abs, InTree;
    ghost var q, ordered, front := k, Ordered(f), f.Front();
    var child := first;
    err, root' := 0, root;
    while child >= 0
      invariant err == 0 && q <= |ro.items| && Ordered(f) == ordered && f.Front() == front
      invariant FragStage(base, size, ordered, front, f, root', fo, ro, q, child)
      decreases |ro.items| - q
    {
      err, child, root' := NextFragment(f, fo, child, base, size, root', ro, q);
      if err != 0 { return; }
      q := NextKid(ro.items, q + 1);
    }
    StageTree(base, size, ordered, front, f, root', fo, ro, q, child);
    FragEnd(base, size, ordered, front, f, root', fo, ro, q, child);
  }

  lemma {:induction false} StageTree(base: ANode, size: nat, ordered: bool, front: seq<byte>, f: Fdt, root: Node,
      fo: Fdt, ro: Node,
      q: nat, child: int)
    requires FragStage(base, size, ordered, front, f, root, fo, ro, q, child)
    ensures f.Blocks() && fo.Blocks() && InTree(f, Top, root, [End])
  {
  }
}

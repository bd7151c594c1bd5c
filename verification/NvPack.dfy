/**
 * Packing: the walk over the objects that climbs parent and array-next links
 * instead of keeping a stack, and the recursive serialiser it agrees with.
 */
module NvPack {
  import opened Bytes
  import opened NvTree
  import opened NvHeap
  import opened NvView
  import NvRoundTrip

  // ---- where the walk stands in the tree

  datatype Up =
    | Top
    | InPair(list: Tree, idx: nat, up: Up)
    | InElem(list: Tree, idx: nat, elem: nat, up: Up)

  ghost predicate WfUp(cur: Tree, up: Up)
    decreases up
  {
    match up
    case Top => true
    case InPair(l, i, u) => i < |l.pairs| && l.pairs[i].value == Nested(cur) && WfUp(l, u)
    case InElem(l, i, e, u) =>
      i < |l.pairs| && l.pairs[i].value.Elems? && e < |l.pairs[i].value.lists| && l.pairs[i].value.lists[e] == cur &&
      WfUp(l, u)
  }

  /** What is still to be written once pair i of the current list comes next. */
  ghost function Rest(cur: Tree, i: nat, up: Up): seq<Chunk>
    requires i <= |cur.pairs| && WfUp(cur, up)
    decreases up, 1
  {
    PairsChunks(cur.pairs[i..]) + After(cur, up)
  }

  /** What is still to be written once the current list is complete. */
  ghost function After(cur: Tree, up: Up): seq<Chunk>
    requires WfUp(cur, up)
    decreases up, 0
  {
    match up
    case Top => []
    case InPair(l, i, u) => [UP] + Rest(l, i + 1, u)
    case InElem(l, i, e, u) => [NEXT] + (ElemsChunks(l.pairs[i].value.lists[e + 1..]) + Rest(l, i + 1, u))
  }

  /** List object nvl is the current list, and its links lead where up says. */
  ghost predicate Linked(st: Store, C: set<NvList>, nvl: NvList, cur: Tree, up: Up)
    decreases up
  {
    && IsTree(st, C, nvl, cur)
    && var p := st.lists[nvl].parent;
       match up
       case Top => p == null
       case InPair(l, i, u) =>
         && p != null && p in st.pairs && st.pairs[p].value == Kid(nvl) && st.pairs[p].list != null
         && Linked(st, C, st.pairs[p].list, l, u)
         && i < |l.pairs| && st.lists[st.pairs[p].list].head[i] == p && l.pairs[i].value == Nested(cur)
       case InElem(l, i, e, u) =>
         && p != null && p in st.pairs && st.pairs[p].value.Kids? && st.pairs[p].list != null
         && Linked(st, C, st.pairs[p].list, l, u)
         && i < |l.pairs| && st.lists[st.pairs[p].list].head[i] == p && l.pairs[i].value.Elems?
         && e < |st.pairs[p].value.kids| == |l.pairs[i].value.lists|
         && st.pairs[p].value.kids[e] == nvl && l.pairs[i].value.lists[e] == cur
  }

  lemma {:induction false} LinkedWf(st: Store, C: set<NvList>, nvl: NvList, cur: Tree, up: Up)
    requires Linked(st, C, nvl, cur, up)
    ensures WfUp(cur, up)
    decreases up
  {
    match up
    case Top =>
    case InPair(l, i, u) => LinkedWf(st, C, st.pairs[st.lists[nvl].parent].list, l, u);
    case InElem(l, i, e, u) => LinkedWf(st, C, st.pairs[st.lists[nvl].parent].list, l, u);
  }

  // ---- moving through the tree and through the objects together

  lemma {:induction false} Regroup<T>(a: seq<T>, b: seq<T>, c: seq<T>, d: seq<T>, e: seq<T>)
    ensures (a + (b + c) + d) + e == a + (b + (c + (d + e)))
  {
  }

  lemma {:induction false} RestCons(cur: Tree, i: nat, up: Up)
    requires i < |cur.pairs| && WfUp(cur, up)
    ensures Rest(cur, i, up) == PairChunks(cur.pairs[i]) + Rest(cur, i + 1, up)
  {
    var ps := cur.pairs[i..];
    assert ps[0] == cur.pairs[i] && ps[1..] == cur.pairs[i + 1..];
    Assoc(PairChunks(ps[0]), PairsChunks(ps[1..]), After(cur, up));
  }

  lemma {:induction false} RestEnd(cur: Tree, up: Up)
    requires WfUp(cur, up)
    ensures Rest(cur, |cur.pairs|, up) == After(cur, up)
  {
    assert cur.pairs[|cur.pairs|..] == [];
  }

  /** Going down into a nested list changes nothing about what is left to write. */
  lemma {:induction false} RestDown(cur: Tree, i: nat, up: Up, t: Tree)
    requires i < |cur.pairs| && WfUp(cur, up) && cur.pairs[i].value == Nested(t)
    ensures Rest(cur, i, up) ==
      [PairHdr(T_NVLIST, cur.pairs[i].name, TreeSize(t), 0)] + ([ListHdr(t.flags)] + Rest(t, 0, InPair(cur, i, up)))
  {
    RestCons(cur, i, up);
    var h, x, y := PairHdr(T_NVLIST, cur.pairs[i].name, TreeSize(t), 0), PairsChunks(t.pairs), Rest(cur, i + 1, up);
    assert t.pairs[0..] == t.pairs;
    assert Rest(t, 0, InPair(cur, i, up)) == x + ([UP] + y);
    assert PairChunks(cur.pairs[i]) == [h] + ([ListHdr(t.flags)] + x) + [UP];
    Regroup([h], [ListHdr(t.flags)], x, [UP], y);
  }

  /** Elements e and later of an array, then the rest of the list around it. */
  ghost function Elements(cur: Tree, i: nat, e: nat, up: Up): seq<Chunk>
    requires i < |cur.pairs| && WfUp(cur, up) && cur.pairs[i].value.Elems? && e <= |cur.pairs[i].value.lists|
  {
    ElemsChunks(cur.pairs[i].value.lists[e..]) + Rest(cur, i + 1, up)
  }

  lemma {:induction false} RestArray(cur: Tree, i: nat, up: Up)
    requires i < |cur.pairs| && WfUp(cur, up) && cur.pairs[i].value.Elems?
    ensures Rest(cur, i, up) ==
      [PairHdr(T_NVLIST_ARRAY, cur.pairs[i].name, 0, |cur.pairs[i].value.lists|)] + Elements(cur, i, 0, up)
  {
    RestCons(cur, i, up);
    var ts := cur.pairs[i].value.lists;
    assert ts[0..] == ts;
    Assoc([PairHdr(T_NVLIST_ARRAY, cur.pairs[i].name, 0, |ts|)], ElemsChunks(ts), Rest(cur, i + 1, up));
  }

  lemma {:induction false} ElementsCons(cur: Tree, i: nat, e: nat, up: Up)
    requires i < |cur.pairs| && WfUp(cur, up) && cur.pairs[i].value.Elems? && e < |cur.pairs[i].value.lists|
    ensures var t := cur.pairs[i].value.lists[e];
      Elements(cur, i, e, up) == [ListHdr(t.flags)] + Rest(t, 0, InElem(cur, i, e, up))
  {
    var ts, t, y := cur.pairs[i].value.lists, cur.pairs[i].value.lists[e], Rest(cur, i + 1, up);
    assert ts[e..][0] == t && ts[e..][1..] == ts[e + 1..] && t.pairs[0..] == t.pairs;
    var x, z := PairsChunks(t.pairs), ElemsChunks(ts[e + 1..]);
    assert Rest(t, 0, InElem(cur, i, e, up)) == x + ([NEXT] + (z + y));
    assert ElemsChunks(ts[e..]) == ([ListHdr(t.flags)] + x) + [NEXT] + z;
    Regroup([ListHdr(t.flags)], x, [NEXT], z, y);
    assert ([ListHdr(t.flags)] + x) + [NEXT] + z == [ListHdr(t.flags)] + (x + [NEXT]) + z;
  }

  lemma {:induction false} Down(st: Store, C: set<NvList>, nvl: NvList, cur: Tree, up: Up, i: nat)
    requires Consistent(st, map[]) && Linked(st, C, nvl, cur, up) && i < |cur.pairs| && cur.pairs[i].value.Nested?
    ensures st.lists[nvl].head[i] in st.pairs && st.pairs[st.lists[nvl].head[i]].value.Kid?
    ensures Linked(st, C, st.pairs[st.lists[nvl].head[i]].value.kid, cur.pairs[i].value.list, InPair(cur, i, up))
  {
    var p := st.lists[nvl].head[i];
    assert IsPair(st, C, p, cur.pairs[i]);
    assert ListOk(st, nvl, 0) && PairOk(st, p);
    assert KidOk(st, p, 0);
  }

  lemma {:induction false} DownElem(st: Store, C: set<NvList>, nvl: NvList, cur: Tree, up: Up, i: nat, e: nat)
    requires Consistent(st, map[]) && Linked(st, C, nvl, cur, up) && i < |cur.pairs| && cur.pairs[i].value.Elems?
    requires e < |cur.pairs[i].value.lists|
    ensures var p := st.lists[nvl].head[i];
      && p in st.pairs && st.pairs[p].value.Kids? && |st.pairs[p].value.kids| == |cur.pairs[i].value.lists|
      && Linked(st, C, st.pairs[p].value.kids[e], cur.pairs[i].value.lists[e], InElem(cur, i, e, up))
  {
    var p := st.lists[nvl].head[i];
    assert IsPair(st, C, p, cur.pairs[i]);
    assert ListOk(st, nvl, 0) && PairOk(st, p);
    assert KidOk(st, p, e);
  }

  /** What the links of the current list say about where to go once it is complete. */
  lemma {:induction false} Links(st: Store, C: set<NvList>, nvl: NvList, cur: Tree, up: Up)
    requires Consistent(st, map[]) && Linked(st, C, nvl, cur, up)
    ensures nvl in st.lists
    ensures var r := st.lists[nvl];
      && r.inArray == up.InElem?
      && (up.InElem? && up.elem + 1 < |up.list.pairs[up.idx].value.lists| ==>
            r.next != null &&
            Linked(st, C, r.next, up.list.pairs[up.idx].value.lists[up.elem + 1], up.(elem := up.elem + 1)))
      && (!up.InElem? || up.elem + 1 == |up.list.pairs[up.idx].value.lists| ==> r.next == null)
  {
    assert ListOk(st, nvl, 0);
    var p := st.lists[nvl].parent;
    if !up.Top? {
      assert PairOk(st, p);
      if up.InPair? {
        assert KidOk(st, p, 0);
      } else {
        assert KidOk(st, p, up.elem);
        if up.elem + 1 < |up.list.pairs[up.idx].value.lists| {
          DownElem(st, C, st.pairs[p].list, up.list, up.up, up.idx, up.elem + 1);
        }
      }
    }
  }

  // ---- writing

  /** The buffer's first ptr bytes are written; rest, written into the left bytes, completes total. */
  ghost predicate Filling(buf: array<byte>, ptr: nat, left: nat, rest: seq<Chunk>, total: seq<byte>)
    reads buf
  {
    ptr + left == buf.Length && ChunksSize(rest) == left && buf[..ptr] + Render(false, rest, left) == total
  }

  method Copy(buf: array<byte>, ptr: nat, bs: seq<byte>)
    requires ptr + |bs| <= buf.Length
    modifies buf
    ensures buf[..ptr + |bs|] == old(buf[..ptr]) + bs
  {
    for i := 0 to |bs|
      invariant buf[..ptr + i] == old(buf[..ptr]) + bs[..i]
    {
      buf[ptr + i] := bs[i];
      assert buf[..ptr + i + 1] == buf[..ptr + i] + [bs[i]];
    }
  }

  /** Write one piece; there is always room for it. */
  method Emit(buf: array<byte>, ptr: nat, left: nat, c: Chunk, ghost rest: seq<Chunk>, ghost total: seq<byte>)
    returns (ptr': nat, left': nat)
    requires Filling(buf, ptr, left, [c] + rest, total)
    modifies buf
    ensures Filling(buf, ptr', left', rest, total) && left' == left - ChunkSize(c)
  {
    hide Render, RenderChunk, ChunksSize;
    ChunksSizePush(c, rest);
    RenderPush(false, c, rest, left);
    var bs := RenderChunk(false, c, left);
    assert left >= |bs|;
    Copy(buf, ptr, bs);
    ptr', left' := ptr + |bs|, left - |bs|;
    Assoc(old(buf[..ptr]), bs, Render(false, rest, left'));
  }

  // ---- the walk

  method NextPair(nvl: NvList, nvp: NvPair, ghost i: nat) returns (q: NvPair?)
    requires i < |nvl.head| && nvl.head[i] == nvp && Distinct(nvl.head)
    ensures q == if i + 1 < |nvl.head| then nvl.head[i + 1] else null
  {
    var j := 0;
    while nvl.head[j] != nvp
      invariant j <= i
      decreases i - j
    {
      j := j + 1;
    }
    assert j == i;
    q := if j + 1 < |nvl.head| then nvl.head[j + 1] else null;
  }

  /** Pair object nvp is pair i of the current list. */
  ghost predicate At(st: Store, C: set<NvList>, nvl: NvList, nvp: NvPair, cur: Tree, i: nat, up: Up) {
    Linked(st, C, nvl, cur, up) && i < |cur.pairs| && st.lists[nvl].head[i] == nvp
  }

  lemma {:induction false} Here(S: Objs, nvl: NvList, cur: Tree, up: Up)
    requires Inv(S) && Linked(Snap(S), S.ls, nvl, cur, up)
    ensures nvl in S.ls && |nvl.head| == |cur.pairs| && Distinct(nvl.head) && nvl.flags == cur.flags && WfUp(cur, up)
    ensures var r := Snap(S).lists[nvl];
      nvl.parent == r.parent && nvl.arrayNext == r.next && nvl.inArray == r.inArray && nvl.head == r.head
    ensures nvl.datasize == TreeSize(cur)
    ensures forall i :: 0 <= i < |cur.pairs| ==> nvl.head[i] in S.ps
  {
    assert ListOk(Snap(S), nvl, 0);
    LinkedWf(Snap(S), S.ls, nvl, cur, up);
    CachedSize(Snap(S), S.ls, nvl, cur);
  }

  /** Leave a complete list: for the next array element, for the list above, or for good. */
  method Climb(nvl: NvList, buf: array<byte>, ptr: nat, left: nat, ghost S: Objs, ghost cur: Tree, ghost up: Up,
      ghost total: seq<byte>)
    returns (done: bool, nvl': NvList, nvp: NvPair?, cookie: NvPair?, ptr': nat, left': nat, ghost cur': Tree,
             ghost i': nat, ghost up': Up)
    requires Inv(S) && Linked(Snap(S), S.ls, nvl, cur, up) && WfUp(cur, up)
    requires Filling(buf, ptr, left, After(cur, up), total)
    modifies buf
    ensures left' <= left && (done ==> Filling(buf, ptr', left', [], total))
    ensures !done ==> left' < left && Linked(Snap(S), S.ls, nvl', cur', up') && WfUp(cur', up')
    ensures !done && cookie != null ==>
      nvp == cookie && At(Snap(S), S.ls, nvl', nvp, cur', i', up') &&
      Filling(buf, ptr', left', Rest(cur', i' + 1, up'), total)
    ensures !done && cookie == null ==>
      nvl'.inArray && i' == 0 && (nvp == null <==> cur'.pairs == []) &&
      Filling(buf, ptr', left', Rest(cur', 0, up'), total)
      && (nvp != null ==> At(Snap(S), S.ls, nvl', nvp, cur', 0, up'))
  {
    hide Inv, Snap, Linked, IsTree, ElemsChunks, PairsChunks, Filling, Rest;
    LinksHere(S, nvl, cur, up);
    done, nvl', nvp, cookie, ptr', left', cur', i', up' := false, nvl, null, null, ptr, left, cur, 0, up;
    if nvl.inArray {
      ptr', left' := Emit(buf, ptr, left, NEXT, Elements(up.list, up.idx, up.elem + 1, up.up), total);
    }
    if nvl.arrayNext != null {
      nvl', cur', up' := nvl.arrayNext, up.list.pairs[up.idx].value.lists[up.elem + 1], up.(elem := up.elem + 1);
      Here(S, nvl', cur', up');
      nvp := if nvl'.head == [] then null else nvl'.head[0];
      ElementsCons(up.list, up.idx, up.elem + 1, up.up);
      LinksHere(S, nvl', cur', up');
      ptr', left' := Emit(buf, ptr', left', ListHdr(nvl'.flags), Rest(cur', 0, up'), total);
    } else if nvl.parent == null {
      done := true;
    } else {
      cookie := nvl.parent;
      nvl', cur', i', up' := cookie.list, up.list, up.idx, up.up;
      if !cookie.value.Kids? {
        ptr', left' := Emit(buf, ptr', left', UP, Rest(cur', i' + 1, up'), total);
      } else {
        ElementsEnd(up.list, up.idx, up.up);
      }
      nvp := cookie;
      Here(S, nvl', cur', up');
    }
  }

  lemma {:induction false} ElementsEnd(cur: Tree, i: nat, up: Up)
    requires i < |cur.pairs| && WfUp(cur, up) && cur.pairs[i].value.Elems?
    ensures Elements(cur, i, |cur.pairs[i].value.lists|, up) == Rest(cur, i + 1, up)
  {
    var ts := cur.pairs[i].value.lists;
    assert ts[|ts|..] == [];
  }

  lemma {:induction false} LinksHere(S: Objs, nvl: NvList, cur: Tree, up: Up)
    requires Inv(S) && Linked(Snap(S), S.ls, nvl, cur, up)
    ensures nvl in S.ls && (nvl.parent == null <==> up.Top?) && nvl.inArray == up.InElem?
    ensures nvl.parent != null ==>
      nvl.parent in S.ps && nvl.parent.list != null && nvl.parent.value.Kids? == up.InElem?
      && Linked(Snap(S), S.ls, nvl.parent.list, up.list, up.up) && nvl.parent.list in S.ls
      && up.idx < |up.list.pairs| && up.idx < |nvl.parent.list.head| && nvl.parent.list.head[up.idx] == nvl.parent
    ensures nvl.arrayNext != null ==>
      up.InElem? && up.idx < |up.list.pairs| && up.list.pairs[up.idx].value.Elems? &&
      up.elem + 1 < |up.list.pairs[up.idx].value.lists|
      && Linked(Snap(S), S.ls, nvl.arrayNext, up.list.pairs[up.idx].value.lists[up.elem + 1], up.(elem := up.elem + 1))
    ensures nvl.arrayNext == null && up.InElem? ==>
      up.idx < |up.list.pairs| && up.list.pairs[up.idx].value.Elems? &&
      up.elem + 1 == |up.list.pairs[up.idx].value.lists|
  {
    Links(Snap(S), S.ls, nvl, cur, up);
  }

  /** Climb from a complete list until a pair is reached: a written one (via its cookie) or one to write. */
  method ClimbOut(nvl0: NvList, buf: array<byte>, ptr0: nat, left0: nat, ghost S: Objs, ghost cur0: Tree, ghost up0: Up,
      ghost total: seq<byte>)
    returns (nvl: NvList, nvp: NvPair?, cookie: NvPair?, ptr: nat, left: nat, ghost cur: Tree, ghost i: nat,
             ghost up: Up)
    requires Inv(S) && Linked(Snap(S), S.ls, nvl0, cur0, up0) && WfUp(cur0, up0)
    requires Filling(buf, ptr0, left0, After(cur0, up0), total)
    modifies buf
    ensures left <= left0
    ensures nvp == null ==> Filling(buf, ptr, left, [], total)
    ensures nvp != null ==> left < left0 && At(Snap(S), S.ls, nvl, nvp, cur, i, up) && WfUp(cur, up)
    ensures nvp != null && cookie != null ==> Filling(buf, ptr, left, Rest(cur, i + 1, up), total)
    ensures nvp != null && cookie == null ==> nvl.inArray && Filling(buf, ptr, left, Rest(cur, i, up), total)
  {
    hide Inv, Snap, Linked, IsTree, Filling, Rest, After;
    nvl, nvp, cookie, ptr, left, cur, i, up := nvl0, null, null, ptr0, left0, cur0, 0, up0;
    while true
      invariant left <= left0 && Linked(Snap(S), S.ls, nvl, cur, up) && WfUp(cur, up)
      invariant Filling(buf, ptr, left, After(cur, up), total)
      decreases left
    {
      var done;
      done, nvl, nvp, cookie, ptr, left, cur, i, up := Climb(nvl, buf, ptr, left, S, cur, up, total);
      if done {
        return nvl, null, null, ptr, left, cur, i, up;
      }
      if nvp != null {
        return;
      }
      RestEnd(cur, up);
    }
  }

  /** From a written pair to the next pair to write, however far up and along that is. */
  method Advance(nvl0: NvList, nvp0: NvPair, buf: array<byte>, ptr0: nat, left0: nat, ghost S: Objs,
                 ghost cur0: Tree, ghost i0: nat, ghost up0: Up, ghost total: seq<byte>)
    returns (nvl: NvList, nvp: NvPair?, ptr: nat, left: nat, ghost cur: Tree, ghost i: nat, ghost up: Up)
    requires Inv(S) && At(Snap(S), S.ls, nvl0, nvp0, cur0, i0, up0) && WfUp(cur0, up0)
    requires Filling(buf, ptr0, left0, Rest(cur0, i0 + 1, up0), total)
    modifies buf
    ensures left <= left0
    ensures nvp == null ==> Filling(buf, ptr, left, [], total)
    ensures nvp != null ==>
      At(Snap(S), S.ls, nvl, nvp, cur, i, up) && WfUp(cur, up) && Filling(buf, ptr, left, Rest(cur, i, up), total)
  {
    hide Inv, Snap, Linked, IsTree, Filling, Rest, After;
    nvl, nvp, ptr, left, cur, i, up := nvl0, nvp0, ptr0, left0, cur0, i0, up0;
    while true
      invariant left <= left0 && nvp != null && At(Snap(S), S.ls, nvl, nvp, cur, i, up) && WfUp(cur, up)
      invariant Filling(buf, ptr, left, Rest(cur, i + 1, up), total)
      decreases left
    {
      Here(S, nvl, cur, up);
      nvp := NextPair(nvl, nvp, i);
      i := i + 1;
      if nvp != null {
        return;
      }
      RestEnd(cur, up);
      var cookie;
      nvl, nvp, cookie, ptr, left, cur, i, up := ClimbOut(nvl, buf, ptr, left, S, cur, up, total);
      if nvp == null || (nvl.inArray && cookie == null) {
        return;
      }
    }
  }

  /** Element e has pairs, its header is written, and its pairs come next. */
  ghost predicate FoundFull(buf: array<byte>, S: Objs, found: NvList, ptr: nat, left: nat, cur: Tree, i: nat, e: nat,
      up: Up, total: seq<byte>)
    reads buf, S.ls, S.ps, found
  {
    && i < |cur.pairs| && cur.pairs[i].value.Elems? && e < |cur.pairs[i].value.lists| && found.head != []
    && WfUp(cur.pairs[i].value.lists[e], InElem(cur, i, e, up))
    && Linked(Snap(S), S.ls, found, cur.pairs[i].value.lists[e], InElem(cur, i, e, up))
    && Filling(buf, ptr, left, Rest(cur.pairs[i].value.lists[e], 0, InElem(cur, i, e, up)), total)
  }

  /** Write list headers of array elements up to the first one that has pairs. */
  method FirstFull(nvl: NvList, p: NvPair, buf: array<byte>, ptr0: nat, left0: nat, ghost S: Objs,
                   ghost cur: Tree, ghost i: nat, ghost up: Up, ghost total: seq<byte>)
    returns (found: NvList?, ptr: nat, left: nat, ghost e: nat)
    requires Inv(S) && At(Snap(S), S.ls, nvl, p, cur, i, up) && WfUp(cur, up) && cur.pairs[i].value.Elems?
    requires p.value.Kids? && |p.value.kids| == |cur.pairs[i].value.lists|
    requires Filling(buf, ptr0, left0, Elements(cur, i, 0, up), total)
    modifies buf
    ensures left <= left0
    ensures found == null ==> Filling(buf, ptr, left, Rest(cur, i + 1, up), total)
    ensures found != null ==> FoundFull(buf, S, found, ptr, left, cur, i, e, up, total)
  {
    hide Inv, Snap, Linked, IsTree, Filling, Rest, ElemsChunks, WfUp;
    ghost var ts := cur.pairs[i].value.lists;
    ptr, left, found, e := ptr0, left0, null, 0;
    for ii := 0 to |p.value.kids|
      invariant left <= left0 && Filling(buf, ptr, left, Elements(cur, i, ii, up), total)
    {
      ElementsCons(cur, i, ii, up);
      KidHere(S, nvl, p, cur, i, up, ii);
      var k := p.value.kids[ii];
      ghost var up' := InElem(cur, i, ii, up);
      Here(S, k, ts[ii], up');
      ptr, left := Emit(buf, ptr, left, ListHdr(k.flags), Rest(ts[ii], 0, up'), total);
      if k.head != [] {
        return k, ptr, left, ii;
      }
      RestEnd(ts[ii], up');
      ptr, left := Emit(buf, ptr, left, NEXT, Elements(cur, i, ii + 1, up), total);
    }
    ElementsEnd(cur, i, up);
  }

  lemma {:induction false} KidHere(S: Objs, nvl: NvList, p: NvPair, cur: Tree, i: nat, up: Up, e: nat)
    requires Inv(S) && At(Snap(S), S.ls, nvl, p, cur, i, up) && cur.pairs[i].value.Elems?
    requires e < |cur.pairs[i].value.lists|
    ensures p in S.ps && p.value.Kids? && |p.value.kids| == |cur.pairs[i].value.lists|
    ensures Linked(Snap(S), S.ls, p.value.kids[e], cur.pairs[i].value.lists[e], InElem(cur, i, e, up))
  {
    DownElem(Snap(S), S.ls, nvl, cur, up, i, e);
  }

  lemma {:induction false} ScalarHere(S: Objs, nvl: NvList, p: NvPair, cur: Tree, i: nat, up: Up)
    requires Inv(S) && At(Snap(S), S.ls, nvl, p, cur, i, up)
    ensures p in S.ps && p.name == cur.pairs[i].name
    ensures p.value.Scal? <==> cur.pairs[i].value.Leaf?
    ensures p.value.Kid? <==> cur.pairs[i].value.Nested?
    ensures p.value.Kids? <==> cur.pairs[i].value.Elems?
    ensures p.value.Scal? ==> cur.pairs[i].value.s == p.value.s && p.datasize == ScalarSize(p.value.s)
    ensures p.value.Kids? ==> |p.value.kids| == |cur.pairs[i].value.lists|
    ensures p.value.Kid? ==> Linked(Snap(S), S.ls, p.value.kid, cur.pairs[i].value.list, InPair(cur, i, up))
  {
    assert IsPair(Snap(S), S.ls, p, cur.pairs[i]);
    assert PairOk(Snap(S), p);
    if p.value.Kid? { Down(Snap(S), S.ls, nvl, cur, up, i); }
  }

  /** Write one pair: its header and data, or the way into its first list that has pairs. */
  method PackPair(nvl0: NvList, nvp0: NvPair, buf: array<byte>, ptr0: nat, left0: nat, ghost S: Objs,
                  ghost cur0: Tree, ghost i0: nat, ghost up0: Up, ghost total: seq<byte>)
    returns (below: NvList?, ptr: nat, left: nat, ghost cur: Tree, ghost i: nat, ghost up: Up)
    requires Inv(S) && At(Snap(S), S.ls, nvl0, nvp0, cur0, i0, up0) && WfUp(cur0, up0)
    requires Filling(buf, ptr0, left0, Rest(cur0, i0, up0), total)
    modifies buf
    ensures left < left0
    ensures below == null ==> Filling(buf, ptr, left, Rest(cur0, i0 + 1, up0), total)
    ensures below != null ==>
      below.head != [] && Linked(Snap(S), S.ls, below, cur, up) && WfUp(cur, up) &&
      Filling(buf, ptr, left, Rest(cur, 0, up), total)
  {
    hide Inv, Snap, Linked, IsTree, Filling, Rest, After, ElemsChunks;
    below, cur, i, up := null, cur0, i0, up0;
    ScalarHere(S, nvl0, nvp0, cur0, i0, up0);
    match nvp0.value {
      case Scal(s) =>
        RestCons(cur0, i0, up0);
        ghost var rest := Rest(cur0, i0 + 1, up0);
        var h := PairHdr(ScalarType(s), nvp0.name, nvp0.datasize, ScalarItems(s));
        assert PairChunks(cur0.pairs[i0]) + rest == [h] + ([Data(s)] + rest);
        ptr, left := Emit(buf, ptr0, left0, h, [Data(s)] + rest, total);
        ptr, left := Emit(buf, ptr, left, Data(s), rest, total);
      case Kid(k) =>
        ghost var t, up1 := cur0.pairs[i0].value.list, InPair(cur0, i0, up0);
        RestDown(cur0, i0, up0, t);
        Here(S, k, t, up1);
        ptr, left := Emit(buf, ptr0, left0, PairHdr(T_NVLIST, nvp0.name, k.datasize, 0),
          [ListHdr(t.flags)] + Rest(t, 0, up1), total);
        ptr, left := Emit(buf, ptr, left, ListHdr(k.flags), Rest(t, 0, up1), total);
        if k.head != [] {
          return k, ptr, left, t, 0, up1;
        }
        NestedEnd(t, cur0, i0, up0);
        ptr, left := Emit(buf, ptr, left, UP, Rest(cur0, i0 + 1, up0), total);
      case Kids(ks) =>
        RestArray(cur0, i0, up0);
        ptr, left := Emit(buf, ptr0, left0, PairHdr(T_NVLIST_ARRAY, nvp0.name, 0, |ks|), Elements(cur0, i0, 0, up0),
          total);
        ghost var e;
        below, ptr, left, e := FirstFull(nvl0, nvp0, buf, ptr, left, S, cur0, i0, up0, total);
        if below != null {
          cur, up := cur0.pairs[i0].value.lists[e], InElem(cur0, i0, e, up0);
          Here(S, below, cur, up);
        }
    }
  }

  lemma {:induction false} NestedEnd(t: Tree, cur: Tree, i: nat, up: Up)
    requires t.pairs == [] && i < |cur.pairs| && WfUp(cur, up) && cur.pairs[i].value == Nested(t)
    ensures Rest(t, 0, InPair(cur, i, up)) == [UP] + Rest(cur, i + 1, up)
  {
    RestEnd(t, InPair(cur, i, up));
  }

  /** Pack a root list: exactly its cached size is allocated, and the recursive form fills it. */
  method Pack(nvl0: NvList, ghost S: Objs, ghost t: Tree) returns (buf: array?<byte>)
    requires Inv(S) && nvl0 in S.ls && nvl0.parent == null && IsTree(Snap(S), S.ls, nvl0, t)
    ensures buf == null <==> nvl0.error != 0
    ensures buf != null ==> fresh(buf) && buf.Length == nvl0.datasize && buf[..] == NvRoundTrip.Packed(false, t)
  {
    hide Inv, Snap, Linked, IsTree, Filling, Rest, After;
    buf := null;
    RootHere(S, nvl0, t);
    if nvl0.error != 0 {
      return;
    }
    var size := nvl0.datasize;
    var b := new byte[size];
    RootFilling(b, t);
    ghost var total := NvRoundTrip.Packed(false, t);
    var ptr, left := Emit(b, 0, size, ListHdr(nvl0.flags), Rest(t, 0, Top), total);
    if nvl0.head != [] {
      Walk(nvl0, nvl0.head[0], b, ptr, left, S, t, Top, total);
    } else {
      EmptyEnd(t);
      Full(b, ptr, left, total);
    }
    buf := b;
  }

  method Walk(nvl0: NvList, nvp0: NvPair, b: array<byte>, ptr0: nat, left0: nat, ghost S: Objs, ghost t: Tree,
      ghost up0: Up, ghost total: seq<byte>)
    requires Inv(S) && At(Snap(S), S.ls, nvl0, nvp0, t, 0, up0) && WfUp(t, up0)
    requires Filling(b, ptr0, left0, Rest(t, 0, up0), total)
    modifies b
    ensures b[..] == total
  {
    hide Inv, Snap, Linked, IsTree, Filling, Rest, After;
    ghost var cur, i: nat, up := t, 0, up0;
    var nvl: NvList, nvp: NvPair?, ptr: nat, left: nat := nvl0, nvp0, ptr0, left0;
    while nvp != null
      invariant nvp == null ==> Filling(b, ptr, left, [], total)
      invariant nvp != null ==>
        At(Snap(S), S.ls, nvl, nvp, cur, i, up) && WfUp(cur, up) && Filling(b, ptr, left, Rest(cur, i, up), total)
      decreases left, nvp != null
    {
      ghost var cur1, i1, up1;
      var below;
      below, ptr, left, cur1, i1, up1 := PackPair(nvl, nvp, b, ptr, left, S, cur, i, up, total);
      if below != null {
        cur, i, up, nvl := cur1, 0, up1, below;
        Here(S, nvl, cur, up);
        nvp := nvl.head[0];
      } else {
        nvl, nvp, ptr, left, cur, i, up := Advance(nvl, nvp, b, ptr, left, S, cur, i, up, total);
      }
    }
    Full(b, ptr, left, total);
  }

  lemma {:induction false} RootHere(S: Objs, nvl: NvList, t: Tree)
    requires Inv(S) && nvl in S.ls && nvl.parent == null && IsTree(Snap(S), S.ls, nvl, t)
    ensures Linked(Snap(S), S.ls, nvl, t, Top) && nvl.datasize == TreeSize(t) && nvl.flags == t.flags
    ensures nvl.head == Snap(S).lists[nvl].head
    ensures nvl.head == [] <==> t.pairs == []
  {
    CachedSize(Snap(S), S.ls, nvl, t);
  }

  lemma {:induction false} RootFilling(b: array<byte>, t: Tree)
    requires b.Length == TreeSize(t)
    ensures Filling(b, 0, b.Length, [ListHdr(t.flags)] + Rest(t, 0, Top), NvRoundTrip.Packed(false, t))
  {
    TreeChunksSize(t);
    assert t.pairs[0..] == t.pairs;
    assert Rest(t, 0, Top) == PairsChunks(t.pairs);
    assert b[..0] == [];
  }

  lemma {:induction false} EmptyEnd(t: Tree)
    requires t.pairs == []
    ensures Rest(t, 0, Top) == []
  {
  }

  lemma {:induction false} Full(b: array<byte>, ptr: nat, left: nat, total: seq<byte>)
    requires Filling(b, ptr, left, [], total)
    ensures b[..] == total
  {
    assert b[..ptr] == b[..];
  }
}

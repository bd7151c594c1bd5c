/** What a merged tree reads as: the overlay's layer where it says something, the base tree elsewhere. */
module FdtLayer {
  import opened Bytes
  import opened FdtTree
  import opened FdtSpec
  import opened FdtOverlay

  /** The first child with that very name. */
  function At(kids: seq<ANode>, name: seq<byte>): (k: nat)
    ensures k <= |kids| && (k < |kids| ==> kids[k].name == name)
    ensures forall j :: 0 <= j < k ==> kids[j].name != name
  {
    if kids == [] || kids[0].name == name then 0 else 1 + At(kids[1..], name)
  }

  function Kid(t: ANode, name: seq<byte>): Option<ANode> {
    var k := At(t.kids, name);
    if k < |t.kids| then Some(t.kids[k]) else None
  }

  /** A property read at the end of a path; the last one written under a name counts in the overlay. */
  function Value(t: ANode, path: seq<seq<byte>>, name: seq<byte>): Option<seq<byte>>
    decreases |path|
  {
    if path == [] then Get(t.props, name)
    else
      var k := Kid(t, path[0]);
      if k.None? then None else Value(k.value, path[1..], name)
  }

  function Said(o: ANode, path: seq<seq<byte>>, name: seq<byte>): Option<seq<byte>>
    decreases |path|
  {
    if path == [] then Last(o.props, name)
    else
      var k := Kid(o, path[0]);
      if k.None? then None else Said(k.value, path[1..], name)
  }

  /** The child answers to that name exactly when it has it. */
  predicate Exactly(kids: seq<ANode>, name: seq<byte>) {
    forall j :: 0 <= j < |kids| && NameMatches(kids[j].name, name) ==> kids[j].name == name
  }

  /**
   * Overlay children named in full, each once, and no child of the base answers to one of the names without
   * having it.
   */
  predicate Coming(t: ANode, kids: seq<ANode>) {
    (forall i :: 0 <= i < |kids| ==> Exactly(t.kids, kids[i].name) && Exactly(kids, kids[i].name)) &&
    (forall i, j :: 0 <= i < j < |kids| ==> kids[i].name != kids[j].name)
  }

  function Base(t: ANode, name: seq<byte>): ANode {
    var k := Kid(t, name);
    if k.Some? then k.value else ANode(name, [], [])
  }

  /** So it is at every node of the overlay. */
  predicate AllNamed(t: ANode, o: ANode)
    decreases o, 1
  {
    Coming(t, o.kids) && KidsNamed(t, o.kids)
  }

  predicate KidsNamed(t: ANode, kids: seq<ANode>)
    decreases kids, 0
  {
    kids == [] || (AllNamed(Base(t, kids[0].name), kids[0]) && KidsNamed(t, kids[1..]))
  }

  lemma {:induction false} SelfMatch(name: seq<byte>)
    ensures NameMatches(name, name)
  {
  }

  lemma {:induction false} ExactIndex(kids: seq<ANode>, name: seq<byte>)
    requires Exactly(kids, name)
    ensures KidIndex(kids, name) == At(kids, name)
  {
    hide NameMatches;
    SelfMatch(name);
    assert forall j :: 0 <= j < |kids| ==> (NameMatches(kids[j].name, name) <==> kids[j].name == name);
  }

  /** Merging one child: lookups of its name find the merged child, lookups of other names what they found. */
  lemma {:induction false} KidMerged(t: ANode, kid: ANode, name: seq<byte>)
    requires Exactly(t.kids, kid.name)
    ensures Kid(MergeKid(t, kid), name) == if name == kid.name then Some(Merge(Base(t, name), kid)) else Kid(t, name)
  {
    hide Merge, NameMatches;
    ExactIndex(t.kids, kid.name);
    var k, r := At(t.kids, kid.name), MergeKid(t, kid);
    MergeProps(Base(t, kid.name), kid, []);
    if k < |t.kids| {
      AtUpdated(t.kids, k, r.kids[k], name);
    } else {
      assert r.kids[0].name == kid.name && r.kids[1..] == t.kids;
    }
  }

  lemma {:induction false} AtUpdated(kids: seq<ANode>, k: nat, n: ANode, name: seq<byte>)
    requires k < |kids| && n.name == kids[k].name
    ensures At(kids[k := n], name) == At(kids, name)
  {
    if k > 0 {
      AtUpdated(kids[1..], k - 1, n, name);
      assert kids[k := n][1..] == kids[1..][k - 1 := n];
    } else {
      assert kids[0 := n][1..] == kids[1..];
    }
  }

  /** Merging keeps names unambiguous for the overlay children still to come. */
  lemma {:induction false} ExactAfter(t: ANode, kid: ANode, name: seq<byte>)
    requires Exactly(t.kids, kid.name) && Exactly(t.kids, name) && (NameMatches(kid.name, name) ==> kid.name == name)
    ensures Exactly(MergeKid(t, kid).kids, name)
  {
    hide Merge, NameMatches;
    var k, r := KidIndex(t.kids, kid.name), MergeKid(t, kid);
    if k < |t.kids| {
      MergeProps(t.kids[k], kid, []);
    } else {
      MergeProps(ANode(kid.name, [], []), kid, []);
      forall j | 0 <= j < |r.kids| && NameMatches(r.kids[j].name, name) ensures r.kids[j].name == name {
        if j > 0 { assert r.kids[j] == t.kids[j - 1]; }
      }
    }
  }

  lemma {:induction false} ComingNext(t: ANode, kids: seq<ANode>)
    requires Coming(t, kids) && kids != []
    ensures Coming(MergeKid(t, kids[0]), kids[1..])
  {
    hide MergeKid, NameMatches;
    var rest := kids[1..];
    forall i | 0 <= i < |rest| ensures Exactly(MergeKid(t, kids[0]).kids, rest[i].name) && Exactly(rest, rest[i].name) {
      assert rest[i] == kids[i + 1] && Exactly(kids, kids[i + 1].name);
      ExactAfter(t, kids[0], rest[i].name);
      forall j | 0 <= j < |rest| && NameMatches(rest[j].name, rest[i].name) ensures rest[j].name == rest[i].name {
        assert rest[j] == kids[j + 1];
      }
    }
  }

  lemma {:induction false} KidsMerged(t: ANode, kids: seq<ANode>, name: seq<byte>)
    requires Coming(t, kids)
    ensures var k := At(kids, name);
      Kid(MergeKids(t, kids), name) == if k < |kids| then Some(Merge(Base(t, name), kids[k])) else Kid(t, name)
    decreases |kids|
  {
    hide Merge, MergeKid, NameMatches;
    if kids != [] {
      ComingNext(t, kids);
      KidMerged(t, kids[0], name);
      KidsMerged(MergeKid(t, kids[0]), kids[1..], name);
      var k := At(kids, name);
      if k == 0 {
        forall j | 0 <= j < |kids[1..]| ensures kids[1..][j].name != name {
          assert kids[1..][j] == kids[j + 1];
        }
      }
    }
  }

  lemma {:induction false} NamedKid(t: ANode, kids: seq<ANode>, k: nat)
    requires KidsNamed(t, kids) && k < |kids|
    ensures AllNamed(Base(t, kids[k].name), kids[k])
    decreases |kids|
  {
    if k > 0 { NamedKid(t, kids[1..], k - 1); }
  }

  /**
   * Layering: at every path, a property of the merged tree reads as the overlay says; where the overlay
   * says nothing, as it read before.
   */
  lemma {:induction false} MergedReads(t: ANode, o: ANode, path: seq<seq<byte>>, name: seq<byte>)
    requires AllNamed(t, o)
    ensures Value(Merge(t, o), path, name) ==
      (var l := Said(o, path, name); if l.Some? then l else Value(t, path, name))
    decreases |path|
  {
    hide MergeKids, AllNamed, NameMatches;
    MergeProps(t, o, name);
    if path != [] {
      var x, t1 := path[0], t.(props := PutAll(t.props, o.props));
      var k := At(o.kids, x);
      AllNamedIs(t, o);
      KidsMerged(t1, o.kids, x);
      assert Kid(t1, x) == Kid(t, x) && Base(t1, x) == Base(t, x);
      if k < |o.kids| {
        NamedKid(t, o.kids, k);
        MergedReads(Base(t, x), o.kids[k], path[1..], name);
        if Kid(t, x).None? { EmptyReads(x, path[1..], name); }
      }
    }
  }

  lemma {:induction false} AllNamedIs(t: ANode, o: ANode)
    requires AllNamed(t, o)
    ensures KidsNamed(t, o.kids) && Coming(t.(props := PutAll(t.props, o.props)), o.kids)
  {
    hide NameMatches;
  }

  lemma {:induction false} EmptyReads(x: seq<byte>, path: seq<seq<byte>>, name: seq<byte>)
    ensures Value(ANode(x, [], []), path, name) == None
  {
  }

  // ---- the merge as a list of edits

  /** One edit at the node that the names lead to: make sure that it is there, or set a property of it. */
  datatype Edit = Enter(path: seq<seq<byte>>) | Set(path: seq<seq<byte>>, name: seq<byte>, val: seq<byte>)

  /** The edits that an overlay stands for, in the order of its tree. */
  function Edits(o: ANode): seq<Edit>
    decreases o, 1
  {
    SetAll(o.props) + KidEdits(o.kids)
  }

  function SetAll(props: seq<AProp>): seq<Edit> {
    if props == [] then [] else [Set([], props[0].name, props[0].val)] + SetAll(props[1..])
  }

  function KidEdits(kids: seq<ANode>): seq<Edit>
    decreases kids, 0
  {
    if kids == [] then []
    else [Enter([kids[0].name])] + Under(kids[0].name, Edits(kids[0])) + KidEdits(kids[1..])
  }

  /** The edits, one level further down. */
  function Under(name: seq<byte>, es: seq<Edit>): (r: seq<Edit>)
    ensures |r| == |es| && forall i :: 0 <= i < |es| ==> r[i] == es[i].(path := [name] + es[i].path)
  {
    seq(|es|, i requires 0 <= i < |es| => es[i].(path := [name] + es[i].path))
  }

  /** Looks the node up from the top, each time the first child that answers; a missing last one is added in front. */
  function Apply(t: ANode, e: Edit): (r: ANode)
    ensures r.name == t.name
    decreases |e.path|
  {
    if e.path == [] then (if e.Set? then t.(props := Put(t.props, e.name, e.val)) else t)
    else
      var k := KidIndex(t.kids, e.path[0]);
      if k < |t.kids| then t.(kids := t.kids[k := Apply(t.kids[k], e.(path := e.path[1..]))])
      else if e.Enter? && |e.path| == 1 then t.(kids := [ANode(e.path[0], [], [])] + t.kids)
      else t
  }

  function ApplyAll(t: ANode, es: seq<Edit>): ANode
    decreases |es|
  {
    if es == [] then t else ApplyAll(Apply(t, es[0]), es[1..])
  }

  lemma {:induction false} ApplyCat(t: ANode, a: seq<Edit>, b: seq<Edit>)
    ensures ApplyAll(t, a + b) == ApplyAll(ApplyAll(t, a), b)
    decreases |a|
  {
    hide Apply;
    if a == [] {
      assert a + b == b;
    } else {
      assert (a + b)[1..] == a[1..] + b;
      ApplyCat(Apply(t, a[0]), a[1..], b);
    }
  }

  lemma {:induction false} ApplySets(t: ANode, props: seq<AProp>)
    ensures ApplyAll(t, SetAll(props)) == t.(props := PutAll(t.props, props))
    decreases |props|
  {
    if props != [] {
      var es := SetAll(props);
      assert es[1..] == SetAll(props[1..]);
      ApplySets(Apply(t, es[0]), props[1..]);
    }
  }

  /** Child k is and stays the first that answers to the name while edits below it are made. */
  lemma {:induction false} ApplyUnder(t: ANode, name: seq<byte>, es: seq<Edit>, k: nat)
    requires k == KidIndex(t.kids, name) < |t.kids|
    ensures ApplyAll(t, Under(name, es)) == t.(kids := t.kids[k := ApplyAll(t.kids[k], es)])
    decreases |es|
  {
    hide KidIndex, NameMatches;
    var us := Under(name, es);
    if es == [] {
      assert t.kids[k := t.kids[k]] == t.kids;
    } else {
      var t1 := Apply(t, us[0]);
      assert us[0].path[1..] == es[0].path && us[0].(path := us[0].path[1..]) == es[0];
      assert t1 == t.(kids := t.kids[k := Apply(t.kids[k], es[0])]);
      SameIndex(t.kids, t1.kids, name);
      assert us[1..] == Under(name, es[1..]);
      ApplyUnder(t1, name, es[1..], k);
    }
  }

  lemma {:induction false} SameIndex(a: seq<ANode>, b: seq<ANode>, name: seq<byte>)
    requires |a| == |b| && forall i :: 0 <= i < |a| ==> a[i].name == b[i].name
    ensures KidIndex(a, name) == KidIndex(b, name)
  {
    hide KidIndex, NameMatches;
  }

  lemma {:induction false} ApplyKid(t: ANode, kid: ANode)
    requires forall u :: ApplyAll(u, Edits(kid)) == Merge(u, kid)
    ensures ApplyAll(t, [Enter([kid.name])] + Under(kid.name, Edits(kid))) == MergeKid(t, kid)
  {
    hide Edits, Merge, ApplyAll, KidIndex;
    var e, es := Enter([kid.name]), Under(kid.name, Edits(kid));
    var t1, k := Apply(t, e), KidIndex(t.kids, kid.name);
    ApplyCat(t, [e], es);
    OneEdit(t, e);
    if k < |t.kids| {
      assert t.kids[k := t.kids[k]] == t.kids;
      assert t1 == t;
      ApplyUnder(t, kid.name, Edits(kid), k);
    } else {
      SelfMatch(kid.name);
      assert t1.kids[0].name == kid.name;
      ApplyUnder(t1, kid.name, Edits(kid), 0);
    }
  }

  lemma {:induction false} OneEdit(t: ANode, e: Edit)
    ensures ApplyAll(t, [e]) == Apply(t, e)
  {
    assert [e][1..] == [];
  }

  lemma {:induction false} ApplyKids(t: ANode, kids: seq<ANode>)
    ensures ApplyAll(t, KidEdits(kids)) == MergeKids(t, kids)
    decreases kids, 0
  {
    hide Edits, MergeKid, Merge;
    if kids != [] {
      forall u ensures ApplyAll(u, Edits(kids[0])) == Merge(u, kids[0]) { MergeIsEdits(u, kids[0]); }
      var a := [Enter([kids[0].name])] + Under(kids[0].name, Edits(kids[0]));
      ApplyKid(t, kids[0]);
      ApplyCat(t, a, KidEdits(kids[1..]));
      ApplyKids(MergeKid(t, kids[0]), kids[1..]);
    }
  }

  /**
   * Merging an overlay is making its edits one by one: each node of the overlay is looked up by its names from the
   * top, and made if it is not there; each property is set there. No condition on the names.
   */
  lemma {:induction false} MergeIsEdits(t: ANode, o: ANode)
    ensures Merge(t, o) == ApplyAll(t, Edits(o))
    decreases o, 1
  {
    hide MergeKids, KidEdits, ApplyAll;
    ApplyCat(t, SetAll(o.props), KidEdits(o.kids));
    ApplySets(t, o.props);
    ApplyKids(t.(props := PutAll(t.props, o.props)), o.kids);
  }
}

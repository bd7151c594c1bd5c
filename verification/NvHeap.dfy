/**
 * Lists and pairs as objects. A list holds its pairs, a link to the pair that
 * contains it, a link to the next element when it is in an array, and a cached
 * packed size. Lemmas work on a snapshot of the objects' fields (Store).
 */
module NvHeap {
  import opened Bytes
  import opened NvTree

  datatype Payload = Scal(s: Scalar) | Kid(kid: NvList) | Kids(kids: seq<NvList>)

  class NvList {
    var error: int
    var flags: byte
    var inArray: bool
    var datasize: int
    var parent: NvPair?
    var arrayNext: NvList?
    var head: seq<NvPair>
    ghost var depth: nat

    constructor (flags: byte)
      ensures error == 0 && this.flags == flags && !inArray && datasize == HDR
      ensures parent == null && arrayNext == null && head == [] && depth == 0
    {
      error, this.flags, inArray, datasize := 0, flags, false, HDR;
      parent, arrayNext, head, depth := null, null, [], 0;
    }
  }

  class NvPair {
    var name: seq<byte>
    var value: Payload
    var datasize: int
    var list: NvList?

    constructor (name: seq<byte>, value: Payload, datasize: int)
      ensures this.name == name && this.value == value && this.datasize == datasize && list == null
    {
      this.name, this.value, this.datasize, list := name, value, datasize, null;
    }
  }

  /** The objects under consideration. */
  datatype Objs = Objs(ls: set<NvList>, ps: set<NvPair>)

  datatype ListRec = ListRec(error: int, flags: byte, inArray: bool, parent: NvPair?, next: NvList?, head: seq<NvPair>)
  datatype PairRec = PairRec(name: seq<byte>, value: Payload, datasize: int, list: NvList?)
  datatype Store = Store(lists: map<NvList, ListRec>, pairs: map<NvPair, PairRec>,
                         sizes: map<NvList, int>, depths: map<NvList, nat>)

  ghost function SnapLists(ls: set<NvList>): (m: map<NvList, ListRec>)
    reads ls`error, ls`flags, ls`inArray, ls`parent, ls`arrayNext, ls`head
    ensures m.Keys == ls
  {
    map l | l in ls :: ListRec(l.error, l.flags, l.inArray, l.parent, l.arrayNext, l.head)
  }

  ghost function SnapPairs(ps: set<NvPair>): (m: map<NvPair, PairRec>)
    reads ps
    ensures m.Keys == ps
  {
    map p | p in ps :: PairRec(p.name, p.value, p.datasize, p.list)
  }

  ghost function SnapSizes(ls: set<NvList>): (m: map<NvList, int>)
    reads ls`datasize
    ensures m.Keys == ls
  {
    map l | l in ls :: l.datasize
  }

  ghost function SnapDepths(ls: set<NvList>): (m: map<NvList, nat>)
    reads ls`depth
    ensures m.Keys == ls
  {
    map l | l in ls :: l.depth
  }

  ghost function Snap(S: Objs): (st: Store)
    reads S.ls, S.ps
    ensures st.lists.Keys == st.sizes.Keys == st.depths.Keys == S.ls && st.pairs.Keys == S.ps
  {
    Store(SnapLists(S.ls), SnapPairs(S.ps), SnapSizes(S.ls), SnapDepths(S.ls))
  }

  function KidsOf(v: Payload): seq<NvList> {
    match v
    case Scal(_) => []
    case Kid(k) => [k]
    case Kids(ks) => ks
  }

  ghost predicate Distinct<T>(s: seq<T>) {
    forall i, j :: 0 <= i < j < |s| ==> s[i] != s[j]
  }

  // ---- what the cached sizes should add up to

  ghost function Cached(st: Store, l: NvList): int {
    if l in st.sizes then st.sizes[l] else 0
  }

  ghost function KidsSize(st: Store, ks: seq<NvList>): int {
    if ks == [] then 0 else Cached(st, ks[0]) + MARK + KidsSize(st, ks[1..])
  }

  /** What one pair adds to its list, reading the cached sizes of its own lists. */
  ghost function PairBytes(st: Store, p: NvPair): int {
    if p !in st.pairs then 0
    else
      var r := st.pairs[p];
      HDR + |r.name| + 1 + if r.value.Scal? then r.datasize else KidsSize(st, KidsOf(r.value))
  }

  ghost function HeadSize(st: Store, ps: seq<NvPair>): int {
    if ps == [] then 0 else PairBytes(st, ps[0]) + HeadSize(st, ps[1..])
  }

  // ---- the invariant

  ghost function NameOf(st: Store, p: NvPair): seq<byte> {
    if p in st.pairs then st.pairs[p].name else []
  }

  ghost predicate UniqueNames(st: Store, flags: byte, ps: seq<NvPair>) {
    NoUnique(flags) || forall i, j :: 0 <= i < j < |ps| ==> !SameName(flags, NameOf(st, ps[i]), NameOf(st, ps[j]))
  }

  /** off is what the cached size still lacks. */
  ghost predicate ListOk(st: Store, l: NvList, off: int)
    requires l in st.lists
  {
    var r := st.lists[l];
    && l in st.sizes && l in st.depths && r.flags < 4
    && Distinct(r.head)
    && (forall i :: 0 <= i < |r.head| ==> r.head[i] in st.pairs && st.pairs[r.head[i]].list == l)
    && (r.parent != null ==> r.parent in st.pairs && l in KidsOf(st.pairs[r.parent].value))
    && (r.parent == null ==> !r.inArray && r.next == null)
    && UniqueNames(st, r.flags, r.head)
    && st.sizes[l] + off == HDR + HeadSize(st, r.head)
  }

  /** Element j of pair p points back to p and on to element j + 1. */
  ghost predicate KidOk(st: Store, p: NvPair, j: int)
    requires p in st.pairs && 0 <= j < |KidsOf(st.pairs[p].value)|
  {
    var r, ks := st.pairs[p], KidsOf(st.pairs[p].value);
    && ks[j] in st.lists && ks[j] in st.depths
    && st.lists[ks[j]].parent == p
    && st.lists[ks[j]].inArray == r.value.Kids?
    && st.lists[ks[j]].next == (if j + 1 < |ks| then ks[j + 1] else null)
    && (r.list != null && r.list in st.depths ==> st.depths[r.list] < st.depths[ks[j]])
  }

  ghost predicate PairOk(st: Store, p: NvPair)
    requires p in st.pairs
  {
    var r := st.pairs[p];
    && ValidName(r.name)
    && (r.list != null ==> r.list in st.lists && p in st.lists[r.list].head)
    && Distinct(KidsOf(r.value))
    && (forall j :: 0 <= j < |KidsOf(r.value)| ==> KidOk(st, p, j))
    && (r.value.Scal? ==> WfScalar(r.value.s) && r.datasize == ScalarSize(r.value.s))
    && (r.value.Kids? ==> r.value.kids != [])
  }

  /** All links agree and each cached size is right up to the given amounts. */
  ghost predicate Consistent(st: Store, offs: map<NvList, int>) {
    && (forall l :: l in st.lists ==> ListOk(st, l, if l in offs then offs[l] else 0))
    && (forall p :: p in st.pairs ==> PairOk(st, p))
  }

  ghost predicate Inv(S: Objs)
    reads S.ls, S.ps
  {
    Consistent(Snap(S), map[])
  }

  // ---- sums

  lemma {:induction false} KidsSizeSame(st: Store, st': Store, ks: seq<NvList>)
    requires forall i :: 0 <= i < |ks| ==> Cached(st, ks[i]) == Cached(st', ks[i])
    ensures KidsSize(st, ks) == KidsSize(st', ks)
  {
    if ks != [] { KidsSizeSame(st, st', ks[1..]); }
  }

  lemma {:induction false} HeadSizeSame(st: Store, st': Store, ps: seq<NvPair>)
    requires forall i :: 0 <= i < |ps| ==> PairBytes(st, ps[i]) == PairBytes(st', ps[i])
    ensures HeadSize(st, ps) == HeadSize(st', ps)
  {
    if ps != [] { HeadSizeSame(st, st', ps[1..]); }
  }

  /** One list's cached size grows by d: a sum over distinct lists grows by d if it is among them. */
  lemma {:induction false} KidsSizeBump(st: Store, st': Store, ks: seq<NvList>, l: NvList, d: int)
    requires Distinct(ks) && Cached(st', l) == Cached(st, l) + d
    requires forall i :: 0 <= i < |ks| && ks[i] != l ==> Cached(st, ks[i]) == Cached(st', ks[i])
    ensures KidsSize(st', ks) == KidsSize(st, ks) + if l in ks then d else 0
  {
    if ks != [] {
      KidsSizeBump(st, st', ks[1..], l, d);
      assert l in ks <==> l == ks[0] || l in ks[1..];
    }
  }

  lemma {:induction false} HeadSizeBump(st: Store, st': Store, ps: seq<NvPair>, p: NvPair, d: int)
    requires Distinct(ps) && PairBytes(st', p) == PairBytes(st, p) + d
    requires forall i :: 0 <= i < |ps| && ps[i] != p ==> PairBytes(st, ps[i]) == PairBytes(st', ps[i])
    ensures HeadSize(st', ps) == HeadSize(st, ps) + if p in ps then d else 0
  {
    if ps != [] {
      HeadSizeBump(st, st', ps[1..], p, d);
      assert p in ps <==> p == ps[0] || p in ps[1..];
    }
  }

  lemma {:induction false} HeadSizeConcat(st: Store, a: seq<NvPair>, b: seq<NvPair>)
    ensures HeadSize(st, a + b) == HeadSize(st, a) + HeadSize(st, b)
  {
    if a == [] {
      assert a + b == b;
    } else {
      HeadSizeConcat(st, a[1..], b);
      assert (a + b)[1..] == a[1..] + b;
    }
  }

  // ---- what an edit elsewhere leaves alone

  ghost predicate SamePair(st: Store, st': Store, q: NvPair) {
    q in st.pairs && q in st'.pairs && st'.pairs[q] == st.pairs[q]
  }

  ghost predicate SameList(st: Store, st': Store, x: NvList) {
    && x in st.lists && x in st'.lists && st'.lists[x].(error := 0) == st.lists[x].(error := 0)
    && x in st.sizes && x in st'.sizes && st'.sizes[x] == st.sizes[x]
    && x in st.depths && x in st'.depths && st'.depths[x] == st.depths[x]
  }

  lemma {:induction false} BytesKeep(st: Store, st': Store, q: NvPair)
    requires q in st.pairs && q in st'.pairs && st'.pairs[q].(list := null) == st.pairs[q].(list := null)
    requires forall k :: k in KidsOf(st.pairs[q].value) ==> Cached(st, k) == Cached(st', k)
    ensures PairBytes(st', q) == PairBytes(st, q)
  {
    KidsSizeSame(st, st', KidsOf(st.pairs[q].value));
  }

  lemma {:induction false} PairKeeps(st: Store, st': Store, q: NvPair)
    requires SamePair(st, st', q) && PairOk(st, q)
    requires forall k :: k in KidsOf(st.pairs[q].value) ==> SameList(st, st', k)
    requires var l := st.pairs[q].list; l != null ==> SameList(st, st', l)
    ensures PairOk(st', q) && PairBytes(st', q) == PairBytes(st, q)
  {
    BytesKeep(st, st', q);
    var ks := KidsOf(st.pairs[q].value);
    forall j | 0 <= j < |ks| ensures KidOk(st', q, j) {
      assert KidOk(st, q, j) && ks[j] in ks;
      assert SameList(st, st', ks[j]);
    }
  }

  lemma {:induction false} ListKeeps(st: Store, st': Store, x: NvList, off: int)
    requires SameList(st, st', x) && ListOk(st, x, off)
    requires forall i :: 0 <= i < |st.lists[x].head| ==>
      SamePair(st, st', st.lists[x].head[i]) &&
      PairBytes(st', st.lists[x].head[i]) == PairBytes(st, st.lists[x].head[i])
    requires var p := st.lists[x].parent; p != null ==> p in st'.pairs && st'.pairs[p].value == st.pairs[p].value
    ensures ListOk(st', x, off)
  {
    hide PairBytes, HeadSize;
    HeadSizeSame(st, st', st.lists[x].head);
  }

  // ---- adding to one cached size

  /** The list that holds the pair that holds l. */
  ghost function ParentList(st: Store, l: NvList): NvList?
    requires l in st.lists
  {
    var p := st.lists[l].parent;
    if p == null || p !in st.pairs then null else st.pairs[p].list
  }

  ghost function Plus(offs: map<NvList, int>, l: NvList?, d: int): map<NvList, int> {
    if l == null then offs else offs[l := (if l in offs then offs[l] else 0) + d]
  }

  ghost function Bump(st: Store, l: NvList, d: int): Store
    requires l in st.sizes
  {
    st.(sizes := st.sizes[l := st.sizes[l] + d])
  }

  lemma {:induction false} ParentUp(st: Store, offs: map<NvList, int>, l: NvList)
    requires Consistent(st, offs) && l in st.lists
    ensures l in st.sizes && l in st.depths
    ensures var p := st.lists[l].parent; p != null ==> p in st.pairs && l in KidsOf(st.pairs[p].value)
    ensures var up := ParentList(st, l);
      up != null ==> up in st.lists && up in st.depths && up != l && st.depths[up] < st.depths[l]
  {
    assert ListOk(st, l, if l in offs then offs[l] else 0);
    var p := st.lists[l].parent;
    if p != null {
      assert PairOk(st, p);
      var j :| 0 <= j < |KidsOf(st.pairs[p].value)| && KidsOf(st.pairs[p].value)[j] == l;
      assert KidOk(st, p, j);
    }
  }

  /** Adding d to l's cached size moves the shortfall d from l to the list above. */
  lemma {:induction false} BumpOne(st: Store, offs: map<NvList, int>, l: NvList, d: int)
    requires Consistent(st, offs) && l in st.lists && l in st.sizes
    ensures Consistent(Bump(st, l, d), Plus(Plus(offs, l, -d), ParentList(st, l), d))
  {
    ParentUp(st, offs, l);
    var st', offs' := Bump(st, l, d), Plus(Plus(offs, l, -d), ParentList(st, l), d);
    forall x | x in st'.lists ensures ListOk(st', x, if x in offs' then offs'[x] else 0) {
      BumpList(st, offs, l, d, x);
    }
    forall q | q in st'.pairs ensures PairOk(st', q) {
      assert PairOk(st, q);
      forall j | 0 <= j < |KidsOf(st.pairs[q].value)| ensures KidOk(st', q, j) {
        assert KidOk(st, q, j);
      }
    }
  }

  lemma {:induction false} BumpSum(st: Store, offs: map<NvList, int>, l: NvList, d: int, x: NvList)
    requires Consistent(st, offs) && l in st.lists && l in st.sizes && x in st.lists
    requires var p := st.lists[l].parent; p != null ==> p in st.pairs && l in KidsOf(st.pairs[p].value)
    ensures HeadSize(Bump(st, l, d), st.lists[x].head) == HeadSize(st, st.lists[x].head) + if x ==
      ParentList(st, l) then d else 0
  {
    hide PairBytes, HeadSize, UniqueNames;
    var st', p, head := Bump(st, l, d), st.lists[l].parent, st.lists[x].head;
    assert ListOk(st, x, if x in offs then offs[x] else 0);
    forall q | q in st.pairs
      ensures PairBytes(st', q) == PairBytes(st, q) + if q == p then d else 0
    {
      assert PairOk(st, q);
      BumpPair(st, st', q, l, d);
    }
    if p != null {
      assert PairOk(st, p);
      HeadSizeBump(st, st', head, p, d);
    } else {
      HeadSizeSame(st, st', head);
    }
  }

  lemma {:induction false} BumpList(st: Store, offs: map<NvList, int>, l: NvList, d: int, x: NvList)
    requires Consistent(st, offs) && l in st.lists && l in st.sizes && x in st.lists
    requires ParentList(st, l) != l
    requires var p := st.lists[l].parent; p != null ==> p in st.pairs && l in KidsOf(st.pairs[p].value)
    ensures var offs' := Plus(Plus(offs, l, -d), ParentList(st, l), d);
      ListOk(Bump(st, l, d), x, if x in offs' then offs'[x] else 0)
  {
    hide PairBytes, HeadSize, UniqueNames;
    BumpSum(st, offs, l, d, x);
    assert ListOk(st, x, if x in offs then offs[x] else 0);
    BumpNames(st, l, d, st.lists[x].flags, st.lists[x].head);
  }

  lemma {:induction false} BumpNames(st: Store, l: NvList, d: int, flags: byte, ps: seq<NvPair>)
    requires UniqueNames(st, flags, ps) && l in st.sizes
    ensures UniqueNames(Bump(st, l, d), flags, ps)
  {
  }

  lemma {:induction false} BumpPair(st: Store, st': Store, q: NvPair, l: NvList, d: int)
    requires l in st.lists && l in st.sizes && st' == st.(sizes := st.sizes[l := st.sizes[l] + d])
    requires q in st.pairs && PairOk(st, q)
    requires st.lists[l].parent != null ==>
      st.lists[l].parent in st.pairs && l in KidsOf(st.pairs[st.lists[l].parent].value)
    ensures PairBytes(st', q) == PairBytes(st, q) + if q == st.lists[l].parent then d else 0
  {
    var ks := KidsOf(st.pairs[q].value);
    KidsSizeBump(st, st', ks, l, d);
    if l in ks {
      var j :| 0 <= j < |ks| && ks[j] == l;
      assert KidOk(st, q, j);
    }
  }
}

/** The path trees of content/urldb.c: segments below a host, siblings sorted by segment.

    An addition compares whole segments; a lookup only compares as many characters as the
    sought segment has, and takes the first sibling that agrees on those.
 */
module PathTree {
  import opened Options
  import S = Strings

  /** Scheme and port of a URL. */
  datatype Origin = Origin(scheme: string, port: nat)

  /** A node; `id` stands for its address, `children` for the sibling list below it. */
  datatype Node = Node(id: nat, segment: string, origin: Origin, use: Use, children: seq<Node>)

  /** The record of visits that decides what is written out. */
  datatype Use = Use(persistent: bool, lastVisit: int, visits: nat)

  const UNUSED: Use := Use(false, 0, 0)

  // ---------------------------------------------------------------- addition

  /** Index of the child with exactly this segment and origin, or the number of children. */
  function Position(kids: seq<Node>, seg: string, o: Origin): (i: nat)
    ensures i <= |kids|
    ensures i < |kids| ==> kids[i].segment == seg && kids[i].origin == o
    ensures forall j :: 0 <= j < i ==> !(kids[j].segment == seg && kids[j].origin == o)
  {
    if kids == [] || (kids[0].segment == seg && kids[0].origin == o) then 0
    else 1 + Position(kids[1..], seg, o)
  }

  /** urldb_add_path_node: where a new segment goes, after all that do not compare greater. */
  function Slot(kids: seq<Node>, seg: string): (i: nat)
    ensures i <= |kids|
    ensures i < |kids| ==> S.Compare(kids[i].segment, seg) > 0
    ensures forall j :: 0 <= j < i ==> S.Compare(kids[j].segment, seg) <= 0
  {
    if kids == [] || S.Compare(kids[0].segment, seg) > 0 then 0
    else 1 + Slot(kids[1..], seg)
  }

  function Inserted<T>(s: seq<T>, k: nat, x: T): seq<T>
    requires k <= |s|
  {
    s[..k] + [x] + s[k..]
  }

  lemma InsertedAt(kids: seq<Node>, k: nat, n: Node)
    requires k <= |kids|
    ensures var all := Inserted(kids, k, n);
            && |all| == |kids| + 1 && all[k] == n
            && (forall i :: 0 <= i < k ==> all[i] == kids[i])
            && (forall i :: k < i < |all| ==> all[i] == kids[i - 1])
  {
  }

  /** urldb_add_path below a node: the new children and the id of the leaf.  New nodes take
      the ids from `next` on. */
  function Add(kids: seq<Node>, segs: seq<string>, o: Origin, next: nat): (seq<Node>, nat)
    requires segs != []
    decreases |segs|
  {
    var i := Position(kids, segs[0], o);
    if i < |kids| then
      if |segs| == 1 then (kids, kids[i].id)
      else
        var (below, leaf) := Add(kids[i].children, segs[1..], o, next);
        (kids[i := kids[i].(children := below)], leaf)
    else
      var slot := Slot(kids, segs[0]);
      var (below, leaf) := if |segs| == 1 then ([], next) else Add([], segs[1..], o, next + 1);
      (Inserted(kids, slot, Node(next, segs[0], o, UNUSED, below)), leaf)
  }

  // ---------------------------------------------------------------- lookup

  /** Whether a lookup of `seg` stops at this node: strncmp limited to the length of `seg`. */
  predicate Agrees(n: Node, seg: string, o: Origin) {
    seg <= n.segment && n.origin == o
  }

  /** urldb_match_path below a sibling list: on to the next sibling, or down and never back. */
  function Match(kids: seq<Node>, segs: seq<string>, o: Origin): Option<Node>
    requires segs != []
    decreases |segs|, |kids|
  {
    if kids == [] then None
    else if Agrees(kids[0], segs[0], o) then
      if |segs| == 1 then Some(kids[0]) else Match(kids[0].children, segs[1..], o)
    else Match(kids[1..], segs, o)
  }

  /** Reference: the node reached by whole segments. */
  function Exact(kids: seq<Node>, segs: seq<string>, o: Origin): Option<Node>
    requires segs != []
    decreases |segs|
  {
    var i := Position(kids, segs[0], o);
    if i == |kids| then None
    else if |segs| == 1 then Some(kids[i])
    else Exact(kids[i].children, segs[1..], o)
  }

  // ---------------------------------------------------------------- invariant

  /** Siblings are sorted, and no two agree in segment and origin. */
  predicate Siblings(kids: seq<Node>) {
    forall i, j :: 0 <= i < j < |kids| ==> Before(kids[i], kids[j])
  }

  predicate Before(m: Node, n: Node) {
    S.Compare(m.segment, n.segment) <= 0 && !(m.segment == n.segment && m.origin == n.origin)
  }

  /** The same at every level, with one origin from a top node down to its leaves and no
      separator inside a segment. */
  predicate Ok(kids: seq<Node>) {
    Siblings(kids) && forall i :: 0 <= i < |kids| ==> NodeOk(kids[i])
  }

  predicate NodeOk(n: Node) {
    && '/' !in n.segment
    && Siblings(n.children)
    && forall i :: 0 <= i < |n.children| ==> NodeOk(n.children[i]) && n.children[i].origin == n.origin
  }

  /** A new node fits between what its slot separates. */
  lemma SlotFits(kids: seq<Node>, n: Node, j: nat)
    requires Siblings(kids) && Position(kids, n.segment, n.origin) == |kids| && j < |kids|
    ensures j < Slot(kids, n.segment) ==> Before(kids[j], n)
    ensures j >= Slot(kids, n.segment) ==> Before(n, kids[j])
  {
    hide S.Compare;
    var k := Slot(kids, n.segment);
    if j >= k {
      S.CompareFlips(kids[k].segment, n.segment);
      if j > k {
        assert Before(kids[k], kids[j]);
        S.CompareTransitive(n.segment, kids[k].segment, kids[j].segment);
      }
    }
  }

  lemma SlotSorted(kids: seq<Node>, n: Node)
    requires Siblings(kids) && Position(kids, n.segment, n.origin) == |kids|
    ensures Siblings(Inserted(kids, Slot(kids, n.segment), n))
  {
    hide Before, Position, Slot, Inserted;
    var k := Slot(kids, n.segment);
    var all := Inserted(kids, k, n);
    InsertedAt(kids, k, n);
    forall i, j | 0 <= i < j < |all| ensures Before(all[i], all[j]) {
      if i == k {
        SlotFits(kids, n, j - 1);
      } else if j == k {
        SlotFits(kids, n, i);
      }
    }
  }

  lemma SiblingsReplaced(kids: seq<Node>, i: nat, n: Node)
    requires Siblings(kids) && i < |kids| && n.segment == kids[i].segment && n.origin == kids[i].origin
    ensures Siblings(kids[i := n])
  {
    var kids' := kids[i := n];
    forall a, b | 0 <= a < b < |kids| ensures Before(kids'[a], kids'[b]) {
      assert Before(kids[a], kids[b]);
    }
  }

  predicate AllOrigin(kids: seq<Node>, o: Origin) {
    forall i :: 0 <= i < |kids| ==> kids[i].origin == o
  }

  /** Additions keep the trees in order. */
  lemma {:induction false} AddOk(kids: seq<Node>, segs: seq<string>, o: Origin, next: nat)
    requires Ok(kids) && segs != [] && forall i :: 0 <= i < |segs| ==> '/' !in segs[i]
    ensures Ok(Add(kids, segs, o, next).0)
    ensures AllOrigin(kids, o) ==> AllOrigin(Add(kids, segs, o, next).0, o)
    decreases |segs|
  {
    hide Before, Position, Slot, Inserted, Siblings;
    var i := Position(kids, segs[0], o);
    if i < |kids| {
      if |segs| > 1 {
        var n := kids[i];
        assert NodeOk(n);
        AddOk(n.children, segs[1..], o, next);
        var below := Add(n.children, segs[1..], o, next).0;
        assert NodeOk(n.(children := below));
        SiblingsReplaced(kids, i, n.(children := below));
      }
    } else {
      NothingOk();
      if |segs| > 1 { AddOk([], segs[1..], o, next + 1); }
      var below := if |segs| == 1 then [] else Add([], segs[1..], o, next + 1).0;
      var n := Node(next, segs[0], o, UNUSED, below);
      assert NodeOk(n);
      SlotSorted(kids, n);
      InsertedAt(kids, Slot(kids, segs[0]), n);
    }
  }

  // ---------------------------------------------------------------- additions are found and stay

  lemma PositionIs(kids: seq<Node>, seg: string, o: Origin, i: nat)
    requires i < |kids| && kids[i].segment == seg && kids[i].origin == o
    requires forall j :: 0 <= j < i ==> !(kids[j].segment == seg && kids[j].origin == o)
    ensures Position(kids, seg, o) == i
  {
  }

  /** The added path leads to the leaf that the addition returned. */
  lemma {:induction false} AddReached(kids: seq<Node>, segs: seq<string>, o: Origin, next: nat)
    requires segs != []
    ensures var (kids', leaf) := Add(kids, segs, o, next);
            var r := Exact(kids', segs, o);
            r.Some? && r.value.id == leaf
    decreases |segs|
  {
    hide Slot;
    var i := Position(kids, segs[0], o);
    var kids' := Add(kids, segs, o, next).0;
    if i < |kids| {
      if |segs| > 1 {
        AddReached(kids[i].children, segs[1..], o, next);
        PositionIs(kids', segs[0], o, i);
      }
    } else {
      if |segs| > 1 { AddReached([], segs[1..], o, next + 1); }
      PositionIs(kids', segs[0], o, Slot(kids, segs[0]));
    }
  }

  /** A new sibling does not hide another. */
  lemma PositionStays(kids: seq<Node>, k: nat, n: Node, seg: string, o: Origin)
    requires k <= |kids| && !(n.segment == seg && n.origin == o)
    ensures var i := Position(kids, seg, o);
            Position(Inserted(kids, k, n), seg, o) == (if i < k then i else i + 1)
  {
    var i := Position(kids, seg, o);
    var all := Inserted(kids, k, n);
    var i' := if i < k then i else i + 1;
    forall j | 0 <= j < i' ensures !(all[j].segment == seg && all[j].origin == o) {
      if j > k { assert all[j] == kids[j - 1]; }
    }
    if i < |kids| { PositionIs(all, seg, o, i'); }
  }

  predicate SameLeaf(a: Option<Node>, b: Option<Node>) {
    a.Some? ==>
      && b.Some? && b.value.id == a.value.id
      && b.value.segment == a.value.segment && b.value.origin == a.value.origin
  }

  lemma ReachedThrough(kids: seq<Node>, path: seq<string>, po: Origin, kids': seq<Node>)
    requires path != []
    requires var p := Position(kids, path[0], po); var p' := Position(kids', path[0], po);
             p < |kids| ==>
               && p' < |kids'|
               && kids'[p'].id == kids[p].id
               && (|path| > 1 ==> SameLeaf(Exact(kids[p].children, path[1..], po),
                   Exact(kids'[p'].children, path[1..], po)))
    ensures SameLeaf(Exact(kids, path, po), Exact(kids', path, po))
  {
  }

  /** Whatever was reached stays reached through any other addition. */
  lemma {:induction false} ReachedStays(kids: seq<Node>, segs: seq<string>, o: Origin, next: nat, path: seq<string>,
      po: Origin)
    requires segs != [] && path != []
    ensures SameLeaf(Exact(kids, path, po), Exact(Add(kids, segs, o, next).0, path, po))
    decreases |segs|
  {
    hide Slot, Exact, Position, SameLeaf;
    var i, p := Position(kids, segs[0], o), Position(kids, path[0], po);
    var kids' := Add(kids, segs, o, next).0;
    if p < |kids| {
      if i == |kids| {
        var below := if |segs| == 1 then [] else Add([], segs[1..], o, next + 1).0;
        var k, n := Slot(kids, segs[0]), Node(next, segs[0], o, UNUSED, below);
        PositionStays(kids, k, n, path[0], po);
        InsertedAt(kids, k, n);
      } else if |segs| > 1 {
        PositionIs(kids', path[0], po, p);
        if p == i && |path| > 1 {
          ReachedStays(kids[i].children, segs[1..], o, next, path[1..], po);
        }
      }
    }
    SameLeafSelf();
    ReachedThrough(kids, path, po, kids');
  }

  lemma SameLeafSelf()
    ensures forall r: Option<Node> :: SameLeaf(r, r)
  {
  }

  /** Comparing prefixes is enough: in sorted siblings a whole segment comes first among all
      those it is a prefix of. */
  lemma {:induction false} FirstAgreeing(kids: seq<Node>, seg: string, o: Origin, j: nat)
    requires Siblings(kids) && j < Position(kids, seg, o) < |kids|
    ensures !Agrees(kids[j], seg, o)
  {
    hide S.Compare;
    var i := Position(kids, seg, o);
    assert Before(kids[j], kids[i]);
    if seg <= kids[j].segment {
      S.ComparePrefix(seg, kids[j].segment);
      S.CompareFlips(seg, kids[j].segment);
      S.CompareZero(seg, kids[j].segment);
    }
  }

  lemma {:induction false} MatchSkips(kids: seq<Node>, i: nat, segs: seq<string>, o: Origin)
    requires segs != [] && i <= |kids| && forall j :: 0 <= j < i ==> !Agrees(kids[j], segs[0], o)
    ensures Match(kids, segs, o) == Match(kids[i..], segs, o)
    decreases i
  {
    if i > 0 {
      MatchSkips(kids[1..], i - 1, segs, o);
      assert kids[1..][i - 1..] == kids[i..];
    }
  }

  /** Main result on lookups: a path that is in the tree is found, and exactly it. */
  lemma {:induction false} MatchIsExact(kids: seq<Node>, segs: seq<string>, o: Origin)
    requires Ok(kids) && segs != [] && Exact(kids, segs, o).Some?
    ensures Match(kids, segs, o) == Exact(kids, segs, o)
    decreases |segs|
  {
    var i := Position(kids, segs[0], o);
    forall j | 0 <= j < i ensures !Agrees(kids[j], segs[0], o) {
      FirstAgreeing(kids, segs[0], o, j);
    }
    MatchSkips(kids, i, segs, o);
    if |segs| > 1 {
      MatchIsExact(kids[i].children, segs[1..], o);
    }
  }

  // ---------------------------------------------------------------- whole runs

  datatype AnyRequest = Request(segs: seq<string>, origin: Origin)

  /** A path has at least one segment, and no separator in any. */
  type Request = r: AnyRequest | r.segs != [] && forall i :: 0 <= i < |r.segs| ==> '/' !in r.segs[i]
    witness Request([""], Origin("", 0))

  /** The path tree after adding `rs` in turn, and the next unused id. */
  function Run(rs: seq<Request>): (seq<Node>, nat)
  {
    if rs == [] then ([], 0)
    else
      var (kids, next) := Run(rs[..|rs| - 1]);
      var r := rs[|rs| - 1];
      (Add(kids, r.segs, r.origin, next).0, next + |r.segs|)
  }

  /** The leaf that the k-th addition returned. */
  function Leaf(rs: seq<Request>, k: nat): nat
    requires k < |rs|
  {
    var (kids, next) := Run(rs[..k]);
    Add(kids, rs[k].segs, rs[k].origin, next).1
  }

  lemma {:induction false} RunOk(rs: seq<Request>)
    ensures Ok(Run(rs).0)
  {
    hide Add, Ok;
    if rs == [] {
      assert Ok([]) by { NothingOk(); }
    } else {
      var n := |rs| - 1;
      RunOk(rs[..n]);
      AddOk(Run(rs[..n]).0, rs[n].segs, rs[n].origin, Run(rs[..n]).1);
    }
  }

  lemma NothingOk()
    ensures Ok([])
  {
  }

  lemma {:induction false} LeafReached(rs: seq<Request>, k: nat)
    requires k < |rs|
    ensures var r := Exact(Run(rs).0, rs[k].segs, rs[k].origin); r.Some? && r.value.id == Leaf(rs, k)
    decreases |rs|
  {
    hide Add, Exact;
    var n := |rs| - 1;
    var (kids, next) := Run(rs[..n]);
    if k == n {
      AddReached(kids, rs[n].segs, rs[n].origin, next);
    } else {
      assert rs[..n][..k] == rs[..k];
      LeafReached(rs[..n], k);
      ReachedStays(kids, rs[n].segs, rs[n].origin, next, rs[k].segs, rs[k].origin);
    }
  }

  /** Main result on runs: after an addition, and in every later state, the lookup of its
      path returns the very leaf that the addition returned. */
  lemma AddedIsMatched(rs: seq<Request>, k: nat)
    requires k < |rs|
    ensures var r := Match(Run(rs).0, rs[k].segs, rs[k].origin); r.Some? && r.value.id == Leaf(rs, k)
  {
    hide Add, Exact, Match, Ok;
    RunOk(rs);
    LeafReached(rs, k);
    MatchIsExact(Run(rs).0, rs[k].segs, rs[k].origin);
  }

  // ---------------------------------------------------------------- ids name nodes

  /** How many nodes carry the id `x`. */
  function Count(kids: seq<Node>, x: nat): nat {
    if kids == [] then 0
    else (if kids[0].id == x then 1 else 0) + Count(kids[0].children, x) + Count(kids[1..], x)
  }

  lemma {:induction false} CountAppend(a: seq<Node>, b: seq<Node>, x: nat)
    ensures Count(a + b, x) == Count(a, x) + Count(b, x)
  {
    if a == [] {
      assert a + b == b;
    } else {
      assert (a + b)[1..] == a[1..] + b;
      CountAppend(a[1..], b, x);
    }
  }

  lemma CountInserted(kids: seq<Node>, k: nat, n: Node, x: nat)
    requires k <= |kids|
    ensures Count(Inserted(kids, k, n), x) == Count(kids, x) + Count([n], x)
  {
    CountAppend(kids[..k] + [n], kids[k..], x);
    CountAppend(kids[..k], [n], x);
    CountAppend(kids[..k], kids[k..], x);
    assert kids[..k] + kids[k..] == kids;
  }

  lemma CountReplaced(kids: seq<Node>, i: nat, n: Node, x: nat)
    requires i < |kids|
    ensures Count(kids[i := n], x) + Count([kids[i]], x) == Count(kids, x) + Count([n], x)
  {
    var rest := kids[..i] + kids[i + 1..];
    CountInserted(rest, i, n, x);
    CountInserted(rest, i, kids[i], x);
    assert Inserted(rest, i, n) == kids[i := n] && Inserted(rest, i, kids[i]) == kids;
  }

  lemma CountOne(n: Node, x: nat)
    ensures Count([n], x) == (if n.id == x then 1 else 0) + Count(n.children, x) && Count([], x) == 0
  {
    assert [n][1..] == [];
  }

  /** An addition keeps every node and gives each new one an id of its own. */
  lemma {:induction false} AddCounts(kids: seq<Node>, segs: seq<string>, o: Origin, next: nat, x: nat)
    requires segs != []
    ensures var n := Count(Add(kids, segs, o, next).0, x);
            Count(kids, x) <= n <= Count(kids, x) + (if next <= x < next + |segs| then 1 else 0)
    decreases |segs|
  {
    hide Position, Slot, Count, Inserted;
    var i := Position(kids, segs[0], o);
    if i < |kids| {
      if |segs| > 1 {
        var n := kids[i].(children := Add(kids[i].children, segs[1..], o, next).0);
        AddCounts(kids[i].children, segs[1..], o, next, x);
        CountReplaced(kids, i, n, x);
        CountOne(kids[i], x);
        CountOne(n, x);
      }
    } else {
      if |segs| > 1 { AddCounts([], segs[1..], o, next + 1, x); }
      var n := Node(next, segs[0], o, UNUSED, if |segs| == 1 then [] else Add([], segs[1..], o, next + 1).0);
      CountInserted(kids, Slot(kids, segs[0]), n, x);
      CountOne(n, x);
    }
  }

  /** In every reachable tree an id names at most one node. */
  lemma {:induction false} IdsUnique(rs: seq<Request>, x: nat)
    ensures Count(Run(rs).0, x) <= (if x < Run(rs).1 then 1 else 0)
  {
    hide Add;
    if rs != [] {
      var n := |rs| - 1;
      IdsUnique(rs[..n], x);
      AddCounts(Run(rs[..n]).0, rs[n].segs, rs[n].origin, Run(rs[..n]).1, x);
    }
  }

  // ---------------------------------------------------------------- the lookup loop

  /** urldb_match_path on the path string itself. */
  method MatchPath(root: Node, path: string, o: Origin) returns (r: Option<Node>)
    requires path != [] && path[0] == '/'
    ensures r == Match(root.children, S.Split(path[1..], '/'), o)
  {
    hide S.Split, S.IndexOf;
    var p, at := root.children, 0;
    while p != []
      invariant 0 <= at < |path|
      invariant Match(p, S.Split(path[at + 1..], '/'), o) == Match(root.children, S.Split(path[1..], '/'), o)
      decreases |path| - at, |p|
    {
      var slash := S.IndexOf(path, '/', at + 1);
      S.SplitStep(path, '/', at + 1);
      if path[at + 1..slash] <= p[0].segment && p[0].origin == o {
        if slash == |path| { return Some(p[0]); }
        assert S.Split(path[at + 1..], '/')[1..] == S.Split(path[slash + 1..], '/');
        p, at := p[0].children, slash;
      } else {
        p := p[1..];
      }
    }
    r := None;
  }
}

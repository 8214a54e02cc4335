/** The search index of content/urldb.c: an AA tree of hosts. */
module SearchTree {
  import opened Options
  import opened HostOrder

  /** `Empty` is the sentinel, at level 0 with itself as both its children. */
  datatype Tree = Empty | Node(left: Tree, data: Host, level: nat, right: Tree)

  function Level(t: Tree): nat {
    if t.Empty? then 0 else t.level
  }

  function Right(t: Tree): Tree {
    if t.Empty? then Empty else t.right
  }

  // ---------------------------------------------------------------- operations

  /** urldb_search_skew: a left child of the same level is rotated above the root. */
  function Skew(t: Tree): Tree
    requires t.Node?
  {
    if Level(t.left) == t.level && t.left.Node? then
      Node(t.left.left, t.left.data, t.left.level, Node(t.left.right, t.data, t.level, t.right))
    else t
  }

  /** urldb_search_split: two right links of one level are rotated and lifted. */
  function Split(t: Tree): Tree
    requires t.Node?
  {
    if Level(Right(t.right)) == t.level && t.right.Node? then
      Node(Node(t.left, t.data, t.level, t.right.left), t.right.data, t.right.level + 1, t.right.right)
    else t
  }

  /** urldb_search_insert_internal. */
  function Insert(t: Tree, h: Host): Tree {
    if t.Empty? then
      Node(Empty, h, 1, Empty)
    else
      var c := Compare(t.data, h);
      if c > 0 then Split(Skew(t.(left := Insert(t.left, h))))
      else if c < 0 then Split(Skew(t.(right := Insert(t.right, h))))
      else t
  }

  // ---------------------------------------------------------------- level invariants

  /** The AA tree rules: left children one level down, right children on the same level
      or one down, never two right links of one level in a row. */
  predicate Balanced(t: Tree) {
    t.Node? ==> Balanced(t.left) && Balanced(t.right) && Rules(t)
  }

  predicate Rules(t: Tree)
    requires t.Node?
  {
    && Level(t.left) == t.level - 1
    && t.level - 1 <= Level(t.right) <= t.level
    && Level(Right(t.right)) < t.level
  }

  lemma Opened(t: Tree)
    requires t.Node? && Balanced(t)
    ensures Balanced(t.left) && Balanced(t.right) && Rules(t)
  {
  }

  lemma Closed(t: Tree)
    requires t.Node? && Balanced(t.left) && Balanced(t.right) && Rules(t)
    ensures Balanced(t)
  {
  }

  predicate Flat(t: Tree) {
    t.Node? && Level(t.right) == t.level
  }

  /** The step from a balanced tree to the same tree with one more host in it: lifted by at
      most one level, only if there was a right link on its own level, and then without one. */
  predicate Grown(t: Tree, t': Tree) {
    && Balanced(t')
    && Level(t) <= Level(t') <= Level(t) + 1
    && (Level(t') > Level(t) ==> (t.Empty? || Flat(t)) && !Flat(t'))
  }

  lemma GrowLeft(t: Tree, l: Tree)
    requires t.Node? && Balanced(t) && Grown(t.left, l)
    ensures Grown(t, Split(Skew(t.(left := l))))
  {
  }

  lemma GrowRight(t: Tree, r: Tree)
    requires t.Node? && Balanced(t) && Grown(t.right, r)
    ensures Grown(t, Split(Skew(t.(right := r))))
  {
    hide Balanced;
    Opened(t);
    if t.right.Node? { Opened(t.right); }
    if r.Node? { Opened(r); }
    var u := t.(right := r);
    assert Skew(u) == u;
    if Level(Right(r)) == t.level {
      var low := Node(t.left, t.data, t.level, r.left);
      if r.left.Node? { Opened(r.left); }
      if r.right.Node? { Opened(r.right); }
      Closed(low);
      Closed(Split(u));
    } else {
      Closed(u);
    }
  }

  lemma {:induction false} InsertBalanced(t: Tree, h: Host)
    requires Balanced(t)
    ensures Grown(t, Insert(t, h))
  {
    hide Compare, Skew, Split;
    if t.Node? {
      InsertBalanced(t.left, h);
      InsertBalanced(t.right, h);
      if Compare(t.data, h) > 0 {
        GrowLeft(t, Insert(t.left, h));
      } else if Compare(t.data, h) < 0 {
        GrowRight(t, Insert(t.right, h));
      }
    }
  }

  // ---------------------------------------------------------------- contents

  function InOrder(t: Tree): seq<Host> {
    if t.Empty? then [] else InOrder(t.left) + [t.data] + InOrder(t.right)
  }

  predicate Sorted(s: seq<Host>) {
    forall i, j :: 0 <= i < j < |s| ==> Compare(s[i], s[j]) < 0
  }

  /** Reference: insertion into a sorted list, a host already present leaving it alone. */
  function Placed(s: seq<Host>, h: Host): seq<Host> {
    if s == [] then [h]
    else if Compare(s[0], h) < 0 then [s[0]] + Placed(s[1..], h)
    else if Compare(s[0], h) > 0 then [h] + s
    else s
  }

  lemma SkewKeepsOrder(t: Tree)
    requires t.Node?
    ensures InOrder(Skew(t)) == InOrder(t)
  {
    if Level(t.left) == t.level && t.left.Node? {
      var l := t.left;
      calc {
        InOrder(Skew(t));
        InOrder(l.left) + [l.data] + (InOrder(l.right) + [t.data] + InOrder(t.right));
        (InOrder(l.left) + [l.data] + InOrder(l.right)) + [t.data] + InOrder(t.right);
        InOrder(t);
      }
    }
  }

  lemma SplitKeepsOrder(t: Tree)
    requires t.Node?
    ensures InOrder(Split(t)) == InOrder(t)
  {
    if Level(Right(t.right)) == t.level && t.right.Node? {
      var r := t.right;
      calc {
        InOrder(Split(t));
        (InOrder(t.left) + [t.data] + InOrder(r.left)) + [r.data] + InOrder(r.right);
        InOrder(t.left) + [t.data] + (InOrder(r.left) + [r.data] + InOrder(r.right));
        InOrder(t);
      }
    }
  }

  lemma SortedParts(a: seq<Host>, x: Host, b: seq<Host>)
    requires Sorted(a + [x] + b)
    ensures Sorted(a) && Sorted(b)
    ensures forall i :: 0 <= i < |a| ==> Compare(a[i], x) < 0
  {
    var s := a + [x] + b;
    assert s[|a|] == x;
    forall i | 0 <= i < |a| ensures s[i] == a[i] {}
    forall i | 0 <= i < |b| ensures s[|a| + 1 + i] == b[i] {}
  }

  /** Placement before `x` stays before it. */
  lemma {:induction false} PlacedBefore(a: seq<Host>, x: Host, b: seq<Host>, h: Host)
    requires Compare(x, h) > 0
    ensures Placed(a + [x] + b, h) == Placed(a, h) + [x] + b
  {
    hide Compare;
    var s := a + [x] + b;
    if a == [] {
      assert s == [x] + b;
    } else {
      assert s[1..] == a[1..] + [x] + b;
      PlacedBefore(a[1..], x, b, h);
      assert [a[0]] + (Placed(a[1..], h) + [x] + b) == [a[0]] + Placed(a[1..], h) + [x] + b;
      assert [h] + (a + [x] + b) == ([h] + a) + [x] + b;
    }
  }

  lemma PlacedStep(s: seq<Host>, h: Host)
    requires s != []
    ensures Compare(s[0], h) < 0 ==> Placed(s, h) == [s[0]] + Placed(s[1..], h)
    ensures Compare(s[0], h) == 0 ==> Placed(s, h) == s
  {
  }

  /** Placement not before `x` leaves the list up to `x` alone. */
  lemma {:induction false} PlacedAfter(a: seq<Host>, x: Host, b: seq<Host>, h: Host)
    requires Compare(x, h) <= 0 && forall i :: 0 <= i < |a| ==> Compare(a[i], x) < 0
    ensures Placed(a + [x] + b, h) == a + [x] + (if Compare(x, h) == 0 then b else Placed(b, h))
  {
    hide CompareLabels, Placed;
    var s := a + [x] + b;
    var tail := if Compare(x, h) == 0 then b else Placed(b, h);
    PlacedStep(s, h);
    if a == [] {
      assert s[1..] == b && s == [x] + b;
    } else {
      CompareTransitive(Labels(a[0]), Labels(x), Labels(h));
      assert s[1..] == a[1..] + [x] + b;
      PlacedAfter(a[1..], x, b, h);
      assert [a[0]] + (a[1..] + [x] + tail) == a + [x] + tail;
    }
  }

  lemma PlacedEmpty(h: Host)
    ensures Placed([], h) == [h]
  {
  }

  /** The tree's contents follow the reference list. */
  lemma {:induction false} InsertPlaces(t: Tree, h: Host)
    requires Sorted(InOrder(t))
    ensures InOrder(Insert(t, h)) == Placed(InOrder(t), h)
  {
    hide Compare, Skew, Split, Placed;
    if t.Empty? { PlacedEmpty(h); }
    if t.Node? {
      var c := Compare(t.data, h);
      SortedParts(InOrder(t.left), t.data, InOrder(t.right));
      if c > 0 {
        PlacedBefore(InOrder(t.left), t.data, InOrder(t.right), h);
        InsertPlaces(t.left, h);
        var u := t.(left := Insert(t.left, h));
        SkewKeepsOrder(u);
        SplitKeepsOrder(Skew(u));
      } else {
        PlacedAfter(InOrder(t.left), t.data, InOrder(t.right), h);
      }
      if c < 0 {
        InsertPlaces(t.right, h);
        var u := t.(right := Insert(t.right, h));
        SkewKeepsOrder(u);
        SplitKeepsOrder(Skew(u));
      }
    }
  }

  lemma CompareSelf(h: Host)
    ensures Compare(h, h) == 0
  {
    CompareZero(Labels(h), Labels(h));
  }

  /** Placement keeps the list sorted, adds at most `h`, loses nothing, and leaves a host
      equal to `h` in the list. */
  lemma {:induction false} PlacedSorted(s: seq<Host>, h: Host)
    requires Sorted(s)
    ensures Sorted(Placed(s, h))
    ensures forall x :: x in Placed(s, h) ==> x in s || x == h
    ensures forall x :: x in s ==> x in Placed(s, h)
    ensures exists x :: x in Placed(s, h) && Compare(x, h) == 0
  {
    hide CompareLabels;
    CompareSelf(h);
    if s == [] {
      assert Placed(s, h) == [h];
      assert h in Placed(s, h);
    } else {
      assert Sorted(s[1..]);
      PlacedSorted(s[1..], h);
      PlacedHead(s, h);
    }
  }

  lemma PlacedHead(s: seq<Host>, h: Host)
    requires s != [] && Sorted(s) && Sorted(s[1..]) && Sorted(Placed(s[1..], h))
    requires forall x :: x in Placed(s[1..], h) ==> x in s[1..] || x == h
    ensures Sorted(Placed(s, h))
  {
    hide CompareLabels;
    var r := Placed(s, h);
    if Compare(s[0], h) < 0 {
      forall j | 1 <= j < |r| ensures Compare(r[0], r[j]) < 0 {
        assert r[j] in Placed(s[1..], h);
      }
      assert r[1..] == Placed(s[1..], h);
      SortedCons(r);
    } else if Compare(s[0], h) > 0 {
      forall j | 1 <= j < |r| ensures Compare(h, r[j]) < 0 {
        assert r[j] == s[j - 1];
        CompareFlips(Labels(s[0]), Labels(h));
        if j > 1 { CompareTransitive(Labels(h), Labels(s[0]), Labels(s[j - 1])); }
      }
      assert r[1..] == s;
      SortedCons(r);
    }
  }

  lemma SortedCons(r: seq<Host>)
    requires r != [] && Sorted(r[1..]) && forall j :: 1 <= j < |r| ==> Compare(r[0], r[j]) < 0
    ensures Sorted(r)
  {
    hide Compare;
    forall i, j | 0 <= i < j < |r| ensures Compare(r[i], r[j]) < 0 {
      if i > 0 { assert r[i] == r[1..][i - 1] && r[j] == r[1..][j - 1]; }
    }
  }

  // ---------------------------------------------------------------- lookup

  /** What a lookup of the labels `key` must return over the sorted contents `s`. */
  predicate IsLookup(s: seq<Host>, key: seq<string>, r: Option<Host>) {
    match r
    case Some(h) => h in s && LowerLabels(Labels(h)) == LowerLabels(key)
    case None => forall h :: h in s ==> LowerLabels(Labels(h)) != LowerLabels(key)
  }

  lemma {:induction false} CompareLess(s: seq<Host>, i: nat, key: seq<string>)
    requires Sorted(s) && i < |s|
    ensures CompareLabels(Labels(s[i]), key) > 0 ==>
              forall j :: i <= j < |s| ==> CompareLabels(Labels(s[j]), key) > 0
    ensures CompareLabels(Labels(s[i]), key) < 0 ==>
              forall j :: 0 <= j <= i ==> CompareLabels(Labels(s[j]), key) < 0
  {
    hide CompareLabels;
    forall j | 0 <= j < |s| && j != i
      ensures i < j && CompareLabels(Labels(s[i]), key) > 0 ==> CompareLabels(Labels(s[j]), key) > 0
      ensures j < i && CompareLabels(Labels(s[i]), key) < 0 ==> CompareLabels(Labels(s[j]), key) < 0
    {
      if i < j && CompareLabels(Labels(s[i]), key) > 0 && CompareLabels(Labels(s[j]), key) <= 0 {
        CompareTransitive(Labels(s[i]), Labels(s[j]), key);
        assert false;
      }
      if j < i && CompareLabels(Labels(s[i]), key) < 0 {
        CompareTransitive(Labels(s[j]), Labels(s[i]), key);
      }
    }
  }

  /** The comparison result at the root settles one side of the tree. */
  lemma LookupDescends(l: seq<Host>, x: Host, r: seq<Host>, key: seq<string>, o: Option<Host>)
    requires Sorted(l + [x] + r)
    requires CompareLabels(Labels(x), key) > 0 ==> IsLookup(l, key, o)
    requires CompareLabels(Labels(x), key) < 0 ==> IsLookup(r, key, o)
    requires CompareLabels(Labels(x), key) == 0 ==> o == Some(x)
    ensures IsLookup(l + [x] + r, key, o)
  {
    hide CompareLabels, LowerLabels;
    var s := l + [x] + r;
    assert s[|l|] == x;
    CompareLess(s, |l|, key);
    CompareZero(Labels(x), key);
    if o.None? {
      forall j | 0 <= j < |s| ensures LowerLabels(Labels(s[j])) != LowerLabels(key) {
        CompareZero(Labels(s[j]), key);
        if j < |l| {
          assert s[j] == l[j] && l[j] in l;
        } else if j > |l| {
          assert s[j] == r[j - |l| - 1] && r[j - |l| - 1] in r;
        }
      }
    }
  }

  /** urldb_search_find, by the dotted-string comparator. */
  method Find(t: Tree, host: string, isIp: bool) returns (r: Option<Host>)
    requires Sorted(InOrder(t))
    requires forall h :: h in InOrder(t) ==> h.Part? && (isIp ==> h.parent.Root?)
    ensures IsLookup(InOrder(t), if isIp then [host] else HostOrder.Split(host), r)
  {
    hide CompareLabels, Sorted, IsLookup, LowerLabels, HostOrder.Split;
    ghost var key := if isIp then [host] else HostOrder.Split(host);
    if t.Empty? {
      NoLookup(key);
      return None;
    }
    InOrderParts(t);
    var c := MatchString(t.data, host, isIp);
    if isIp { SingleLabel(t.data, host); }
    if c > 0 {
      r := Find(t.left, host, isIp);
    } else if c < 0 {
      r := Find(t.right, host, isIp);
    } else {
      r := Some(t.data);
    }
    LookupDescends(InOrder(t.left), t.data, InOrder(t.right), key, r);
  }

  lemma NoLookup(key: seq<string>)
    ensures IsLookup([], key, None)
  {
  }

  lemma InOrderParts(t: Tree)
    requires t.Node? && Sorted(InOrder(t))
    ensures Sorted(InOrder(t.left)) && Sorted(InOrder(t.right)) && t.data in InOrder(t)
    ensures forall h :: h in InOrder(t.left) || h in InOrder(t.right) ==> h in InOrder(t)
  {
    SortedParts(InOrder(t.left), t.data, InOrder(t.right));
  }

  lemma SingleLabel(h: Host, s: string)
    requires h.Part? && h.parent.Root?
    ensures CompareLabels(Labels(h), [s]) == CaseCompare(h.part, s)
  {
    assert Labels(h) == [h.part];
  }

  // ---------------------------------------------------------------- whole runs

  function Depth(t: Tree): nat {
    if t.Empty? then 0
    else 1 + if Depth(t.left) > Depth(t.right) then Depth(t.left) else Depth(t.right)
  }

  function Pow2(n: nat): nat {
    if n == 0 then 1 else 2 * Pow2(n - 1)
  }

  lemma {:induction false} LevelBounds(t: Tree)
    requires Balanced(t)
    ensures Depth(t) <= 2 * Level(t) && (t.Node? && !Flat(t) ==> Depth(t) < 2 * Level(t))
    ensures Pow2(Level(t)) <= |InOrder(t)| + 1
  {
    if t.Node? {
      LevelBounds(t.left);
      LevelBounds(t.right);
      Pow2Monotone(t.level - 1, Level(t.right));
    }
  }

  lemma {:induction false} Pow2Monotone(a: nat, b: nat)
    requires a <= b
    ensures Pow2(a) <= Pow2(b)
  {
    if a < b { Pow2Monotone(a, b - 1); }
  }

  /** The tree after inserting `hs` in turn. */
  function Grow(hs: seq<Host>): Tree {
    if hs == [] then Empty else Insert(Grow(hs[..|hs| - 1]), hs[|hs| - 1])
  }

  lemma DepthLogarithmic(t: Tree)
    requires Balanced(t)
    ensures Pow2((Depth(t) + 1) / 2) <= |InOrder(t)| + 1
  {
    LevelBounds(t);
    Pow2Monotone((Depth(t) + 1) / 2, Level(t));
  }

  /** The sorted list `s` holds one host for each of `hs`, up to case, and nothing else. */
  predicate Reflects(hs: seq<Host>, s: seq<Host>) {
    && Sorted(s)
    && (forall x :: x in s ==> x in hs)
    && (forall h :: h in hs ==> exists x :: x in s && Compare(x, h) == 0)
  }

  lemma PlacedReflects(hs: seq<Host>, s: seq<Host>, h: Host)
    requires Reflects(hs, s)
    ensures Reflects(hs + [h], Placed(s, h))
  {
    hide Compare, Placed, Sorted;
    PlacedSorted(s, h);
    forall g | g in hs + [h] ensures exists x :: x in Placed(s, h) && Compare(x, g) == 0 {
      if g in hs {
        var x :| x in s && Compare(x, g) == 0;
        assert x in Placed(s, h);
      }
    }
  }

  /** Over every insertion sequence: the tree stays balanced, its contents reflect the
      hosts inserted, and its depth is at most 2 * log2(n + 1). */
  lemma {:induction false} GrowKeepsIndex(hs: seq<Host>)
    ensures Balanced(Grow(hs)) && Reflects(hs, InOrder(Grow(hs)))
    ensures Pow2((Depth(Grow(hs)) + 1) / 2) <= |InOrder(Grow(hs))| + 1
  {
    hide Insert, Placed, Sorted, Depth, Pow2;
    if hs == [] {
      assert Sorted([]) by { EmptySorted(); }
    } else {
      var n := |hs| - 1;
      GrowKeepsIndex(hs[..n]);
      var t := Grow(hs[..n]);
      InsertBalanced(t, hs[n]);
      InsertPlaces(t, hs[n]);
      PlacedReflects(hs[..n], InOrder(t), hs[n]);
      assert hs == hs[..n] + [hs[n]];
    }
    DepthLogarithmic(Grow(hs));
  }

  lemma EmptySorted()
    ensures Sorted([])
  {
  }
}

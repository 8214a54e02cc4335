/** The order in which the walks of content/urldb.c visit a path tree, and what they write.

    A walk holds one pointer and moves it to the first child, the next sibling or the
    parent.  Here a place in the tree is a cursor, the child indices that lead to it; the
    walks themselves, along the links of nodes, are in LinkedWalk.
 */
module PathWalk {
  import opened Options
  import S = Strings
  import opened PathTree

  type Cursor = seq<nat>

  predicate Valid(t: Node, p: Cursor) {
    p == [] || (p[0] < |t.children| && Valid(t.children[p[0]], p[1..]))
  }

  function At(t: Node, p: Cursor): Node
    requires Valid(t, p)
  {
    if p == [] then t else At(t.children[p[0]], p[1..])
  }

  function Parent(p: Cursor): Cursor
    requires p != []
  {
    p[..|p| - 1]
  }

  function Next(p: Cursor): Cursor
    requires p != []
  {
    p[..|p| - 1] + [p[|p| - 1] + 1]
  }

  predicate HasNext(t: Node, p: Cursor)
    requires p != [] && Valid(t, p)
  {
    ParentValid(t, p);
    p[|p| - 1] + 1 < |At(t, Parent(p)).children|
  }

  // ---------------------------------------------------------------- reference order

  /** A node with the path text that leads up to and through its segment. */
  datatype Item = Item(node: Node, text: string)

  /** All nodes, parents first and siblings in order. */
  function Preorder(t: Node, pre: string): (s: seq<Item>)
    ensures s != [] && s[0] == Item(t, pre + t.segment)
    decreases t, 1
  {
    [Item(t, pre + t.segment)] + PreorderAll(t.children, pre + t.segment + "/")
  }

  function PreorderAll(kids: seq<Node>, pre: string): seq<Item>
    decreases kids, 0
  {
    if kids == [] then [] else Preorder(kids[0], pre) + PreorderAll(kids[1..], pre)
  }

  /** The part of the order from the cursor on. */
  function From(t: Node, p: Cursor, pre: string): seq<Item>
    requires Valid(t, p)
    decreases p
  {
    if p == [] then Preorder(t, pre)
    else From(t.children[p[0]], p[1..], pre + t.segment + "/")
         + PreorderAll(t.children[p[0] + 1..], pre + t.segment + "/")
  }

  /** The part of the order after everything below the cursor. */
  function After(t: Node, p: Cursor, pre: string): seq<Item>
    requires Valid(t, p)
    decreases p
  {
    if p == [] then []
    else After(t.children[p[0]], p[1..], pre + t.segment + "/")
         + PreorderAll(t.children[p[0] + 1..], pre + t.segment + "/")
  }

  /** The text before the segment at the cursor. */
  function Prefix(t: Node, p: Cursor, pre: string): string
    requires Valid(t, p)
    decreases p
  {
    if p == [] then pre else Prefix(t.children[p[0]], p[1..], pre + t.segment + "/")
  }

  // ---------------------------------------------------------------- the moves

  lemma {:induction false} ParentValid(t: Node, p: Cursor)
    requires p != [] && Valid(t, p)
    ensures Valid(t, Parent(p)) && p[|p| - 1] < |At(t, Parent(p)).children|
    ensures At(t, p) == At(t, Parent(p)).children[p[|p| - 1]]
    decreases p
  {
    if |p| > 1 {
      ParentValid(t.children[p[0]], p[1..]);
      assert Parent(p)[1..] == Parent(p[1..]);
    }
  }

  /** Down to the first child. */
  lemma {:induction false} MoveDown(t: Node, p: Cursor, pre: string)
    requires Valid(t, p) && At(t, p).children != []
    ensures Valid(t, p + [0])
    ensures From(t, p, pre) == [Item(At(t, p), Prefix(t, p, pre) + At(t, p).segment)] + From(t, p + [0], pre)
    ensures Prefix(t, p + [0], pre) == Prefix(t, p, pre) + At(t, p).segment + "/"
    decreases p
  {
    var inner := pre + t.segment + "/";
    var q := p + [0];
    if p == [] {
      assert q[1..] == [];
      assert Valid(t.children[0], q[1..]);
      assert PreorderAll(t.children, inner) == Preorder(t.children[0], inner) + PreorderAll(t.children[1..], inner);
    } else {
      assert q[1..] == p[1..] + [0];
      MoveDown(t.children[p[0]], p[1..], inner);
    }
  }

  /** At a leaf there is nothing below. */
  lemma {:induction false} LeafHere(t: Node, p: Cursor, pre: string)
    requires Valid(t, p) && At(t, p).children == []
    ensures From(t, p, pre) == [Item(At(t, p), Prefix(t, p, pre) + At(t, p).segment)] + After(t, p, pre)
    decreases p
  {
    if p == [] {
      assert PreorderAll([], pre + t.segment + "/") == [];
    } else {
      var inner := pre + t.segment + "/";
      var kid, q := t.children[p[0]], p[1..];
      LeafHere(kid, q, inner);
      var rest := PreorderAll(t.children[p[0] + 1..], inner);
      var item := Item(At(kid, q), Prefix(kid, q, inner) + At(kid, q).segment);
      assert [item] + After(kid, q, inner) + rest == [item] + (After(kid, q, inner) + rest);
    }
  }

  /** Along to the next sibling. */
  lemma {:induction false} MoveNext(t: Node, p: Cursor, pre: string)
    requires p != [] && Valid(t, p) && HasNext(t, p)
    ensures Valid(t, Next(p)) && After(t, p, pre) == From(t, Next(p), pre)
    ensures Prefix(t, Next(p), pre) == Prefix(t, p, pre)
    decreases p
  {
    var inner := pre + t.segment + "/";
    var q := Next(p);
    if |p| == 1 {
      var kids := t.children[p[0] + 1..];
      assert q == [p[0] + 1] && q[1..] == [] && p[1..] == [];
      assert kids[0] == t.children[q[0]] && kids[1..] == t.children[q[0] + 1..];
    } else {
      assert q[1..] == Next(p[1..]);
      assert Parent(p)[1..] == Parent(p[1..]);
      MoveNext(t.children[p[0]], p[1..], inner);
    }
  }

  /** Up to the parent, when the last sibling is done. */
  lemma {:induction false} MoveUp(t: Node, p: Cursor, pre: string)
    requires p != [] && Valid(t, p)
    ensures Valid(t, Parent(p))
    ensures !HasNext(t, p) ==> After(t, p, pre) == After(t, Parent(p), pre)
    ensures Prefix(t, p, pre) == Prefix(t, Parent(p), pre) + At(t, Parent(p)).segment + "/"
    decreases p
  {
    ParentValid(t, p);
    if |p| == 1 {
      assert p[1..] == [];
      assert !HasNext(t, p) ==> t.children[p[0] + 1..] == [];
    } else {
      assert Parent(p)[1..] == Parent(p[1..]);
      MoveUp(t.children[p[0]], p[1..], pre + t.segment + "/");
    }
  }

  // ---------------------------------------------------------------- what is written

  /** A leaf is written if it is to persist, or was visited, and not too long ago. */
  predicate Wanted(n: Node, expiry: int) {
    n.children == [] && (n.use.persistent || (n.use.lastVisit > expiry && n.use.visits > 0))
  }

  function Written(s: seq<Item>, expiry: int): seq<Item> {
    if s == [] then []
    else (if Wanted(s[0].node, expiry) then [s[0]] else []) + Written(s[1..], expiry)
  }

  lemma {:induction false} WrittenAppend(a: seq<Item>, b: seq<Item>, expiry: int)
    ensures Written(a + b, expiry) == Written(a, expiry) + Written(b, expiry)
  {
    if a == [] {
      assert a + b == b;
    } else {
      assert (a + b)[1..] == a[1..] + b;
      WrittenAppend(a[1..], b, expiry);
    }
  }

  /** Of the nodes of a list those are written that are leaves and are to persist, or were visited
      and later than the expiry time; each as often as it is in the list. */
  lemma {:induction false} WrittenExactly(s: seq<Item>, expiry: int, x: Item)
    ensures multiset(Written(s, expiry))[x] ==
              if && x.node.children == []
                 && (x.node.use.persistent || (x.node.use.visits > 0 && expiry < x.node.use.lastVisit))
              then multiset(s)[x] else 0
  {
    if s != [] {
      WrittenExactly(s[1..], expiry, x);
      assert s == [s[0]] + s[1..];
    }
  }

  lemma WrittenOne(x: Item, s: seq<Item>, expiry: int)
    ensures Written([x] + s, expiry) == (if Wanted(x.node, expiry) then [x] else []) + Written(s, expiry)
  {
    assert ([x] + s)[1..] == s;
  }

  lemma WholeTree(root: Node)
    ensures From(root, [], "") == Preorder(root, "") && Prefix(root, [], "") == ""
  {
  }

  lemma BranchUnwanted(n: Node, expiry: int)
    requires n.children != []
    ensures !Wanted(n, expiry)
  {
  }

  lemma NothingAfter(root: Node, expiry: int)
    ensures After(root, [], "") == [] && Prefix(root, [], "") == "" && Written([], expiry) == []
  {
  }

  // ---------------------------------------------------------------- reading back

  /** The segments on the way to the cursor. */
  function Segments(t: Node, p: Cursor): seq<string>
    requires Valid(t, p)
    decreases p
  {
    if p == [] then [] else [t.children[p[0]].segment] + Segments(t.children[p[0]], p[1..])
  }

  /** The path text is the join of the segments. */
  lemma {:induction false} TextIsJoin(t: Node, p: Cursor, pre: string)
    requires p != [] && Valid(t, p)
    ensures Segments(t, p) != []
    ensures Prefix(t, p, pre) + At(t, p).segment == pre + t.segment + "/" + S.Join(Segments(t, p), '/')
    decreases p
  {
    var kid := t.children[p[0]];
    if |p| == 1 {
      assert Segments(t, p) == [kid.segment];
    } else {
      TextIsJoin(kid, p[1..], pre + t.segment + "/");
      assert Segments(t, p)[1..] == Segments(kid, p[1..]);
    }
  }

  /** Every node of the order stands at some cursor. */
  lemma {:induction false} ItemPlaced(t: Node, pre: string, x: Item) returns (p: Cursor)
    requires x in Preorder(t, pre)
    ensures Valid(t, p) && x == Item(At(t, p), Prefix(t, p, pre) + At(t, p).segment)
    decreases t, 1
  {
    if x == Item(t, pre + t.segment) {
      p := [];
    } else {
      var i, q := ItemPlacedAll(t.children, pre + t.segment + "/", x);
      p := [i] + q;
      assert p[1..] == q;
    }
  }

  lemma {:induction false} ItemPlacedAll(kids: seq<Node>, pre: string, x: Item) returns (i: nat, q: Cursor)
    requires x in PreorderAll(kids, pre)
    ensures i < |kids| && Valid(kids[i], q)
            && x == Item(At(kids[i], q), Prefix(kids[i], q, pre) + At(kids[i], q).segment)
    decreases kids, 0
  {
    if x in Preorder(kids[0], pre) {
      i := 0;
      q := ItemPlaced(kids[0], pre, x);
    } else {
      var j;
      j, q := ItemPlacedAll(kids[1..], pre, x);
      i := j + 1;
    }
  }

  /** In an orderly tree the segments lead back to the node, and their origin is the node's. */
  lemma {:induction false} SegmentsReach(kids: seq<Node>, i: nat, q: Cursor)
    requires Ok(kids) && i < |kids| && Valid(kids[i], q)
    ensures var n := At(kids[i], q);
            && n.origin == kids[i].origin
            && (forall k :: 0 <= k < |Segments(kids[i], q)| ==> '/' !in Segments(kids[i], q)[k])
            && Exact(kids, [kids[i].segment] + Segments(kids[i], q), n.origin) == Some(n)
    decreases q
  {
    var m := kids[i];
    forall j | 0 <= j < i ensures !(kids[j].segment == m.segment && kids[j].origin == m.origin) {
      assert Before(kids[j], kids[i]);
    }
    PositionIs(kids, m.segment, m.origin, i);
    assert NodeOk(m);
    if q != [] {
      var all := [m.segment] + Segments(m, q);
      SegmentsReach(m.children, q[0], q[1..]);
      assert all[1..] == Segments(m, q);
    }
  }

  /** Adding a path that is there changes nothing and returns its node. */
  lemma {:induction false} AddAgain(kids: seq<Node>, segs: seq<string>, o: Origin, next: nat)
    requires segs != [] && Exact(kids, segs, o).Some?
    ensures Add(kids, segs, o, next) == (kids, Exact(kids, segs, o).value.id)
    decreases |segs|
  {
    var i := Position(kids, segs[0], o);
    if |segs| > 1 {
      AddAgain(kids[i].children, segs[1..], o, next);
      assert kids[i := kids[i]] == kids;
    }
  }

  lemma {:induction false} WrittenFrom(s: seq<Item>, expiry: int, x: Item)
    requires x in Written(s, expiry)
    ensures x in s && Wanted(x.node, expiry)
  {
    if x !in (if Wanted(s[0].node, expiry) then [s[0]] else []) {
      WrittenFrom(s[1..], expiry, x);
    }
  }

  /** Every record written below an orderly root starts with the separator, and adding the
      path that it spells, under the record's origin, leads back to the very leaf. */
  lemma WrittenReadsBack(root: Node, expiry: int, x: Item, next: nat)
    requires Ok(root.children) && root.segment == "" && root.children != []
    requires x in Written(Preorder(root, ""), expiry)
    ensures x.text != [] && x.text[0] == '/'
    ensures Add(root.children, S.Split(x.text[1..], '/'), x.node.origin, next) == (root.children, x.node.id)
  {
    hide Written, Add, Exact, Ok, Preorder, S.Split;
    WrittenFrom(Preorder(root, ""), expiry, x);
    var p := ItemPlaced(root, "", x);
    if p == [] {
      BranchUnwanted(root, expiry);
      assert false;
    }
    var segs := Segments(root, p);
    TextIsJoin(root, p, "");
    assert x.text == "" + "" + "/" + S.Join(segs, '/');
    assert x.text[1..] == S.Join(segs, '/');
    SegmentsReach(root.children, p[0], p[1..]);
    SegmentOk(root.children, p[0]);
    S.SplitJoin(segs, '/');
    AddAgain(root.children, segs, x.node.origin, next);
  }

  lemma SegmentOk(kids: seq<Node>, i: nat)
    requires Ok(kids) && i < |kids|
    ensures '/' !in kids[i].segment
  {
    assert NodeOk(kids[i]);
  }
}

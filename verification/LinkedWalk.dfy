/** The walks of content/urldb.c over a linked path tree.  They hold one pointer, and find their
    way by the children, next and parent links alone; the cursor is for the proof only. */
module LinkedWalk {
  import opened PathTree
  import opened W = PathWalk
  import opened PathNodes
  import opened LinkedTree

  /** What is written of a leaf: scheme and port, its visits, and its path. */
  datatype Record = Record(id: nat, origin: Origin, use: Use, text: string)

  function Records(items: seq<Item>): (rs: seq<Record>)
    ensures |rs| == |items|
  {
    if items == [] then []
    else [Record(items[0].node.id, items[0].node.origin, items[0].node.use, items[0].text)] + Records(items[1..])
  }

  lemma {:induction false} RecordsAppend(a: seq<Item>, b: seq<Item>)
    ensures Records(a + b) == Records(a) + Records(b)
  {
    if a == [] {
      assert a + b == b;
    } else {
      assert (a + b)[1..] == a[1..] + b;
      RecordsAppend(a[1..], b);
    }
  }

  /** The records of the tree, and of what the walk has still to come to. */
  ghost function All(sh: Shape, expiry: int): seq<Record> {
    Records(Written(Preorder(Value(sh), ""), expiry))
  }

  ghost function Coming(sh: Shape, q: Cursor, expiry: int): seq<Record>
    requires Valid(Value(sh), q)
  {
    Records(Written(From(Value(sh), q, ""), expiry))
  }

  ghost function Later(sh: Shape, q: Cursor, expiry: int): seq<Record>
    requires Valid(Value(sh), q)
  {
    Records(Written(After(Value(sh), q, ""), expiry))
  }

  predicate Keep(use: Use, expiry: int) {
    use.persistent || (use.lastVisit > expiry && use.visits > 0)
  }

  lemma AtStart(sh: Shape, expiry: int)
    ensures Valid(Value(sh), []) && Coming(sh, [], expiry) == All(sh, expiry) && Later(sh, [], expiry) == []
    ensures Prefix(Value(sh), [], "") == "" && At(Value(sh), []) == Value(sh) && ShapeAt(sh, []) == sh
  {
    WholeTree(Value(sh));
    NothingAfter(Value(sh), expiry);
  }

  /** Down: nothing is written of a node with children. */
  lemma GoDown(sh: Shape, q: Cursor, expiry: int)
    requires Valid(Value(sh), q) && At(Value(sh), q).children != []
    ensures Valid(Value(sh), q + [0]) && Coming(sh, q, expiry) == Coming(sh, q + [0], expiry)
    ensures |From(Value(sh), q + [0], "")| < |From(Value(sh), q, "")|
    ensures Prefix(Value(sh), q + [0], "") == Prefix(Value(sh), q, "") + At(Value(sh), q).segment + "/"
  {
    hide Written, From, Prefix, Records, At;
    var t := Value(sh);
    MoveDown(t, q, "");
    WrittenOne(From(t, q, "")[0], From(t, q + [0], ""), expiry);
    BranchUnwanted(At(t, q), expiry);
    assert [] + Written(From(t, q + [0], ""), expiry) == Written(From(t, q + [0], ""), expiry);
  }

  /** A leaf is written if it is kept. */
  lemma AtLeaf(sh: Shape, q: Cursor, expiry: int)
    requires Valid(Value(sh), q) && At(Value(sh), q).children == []
    ensures var n := At(Value(sh), q);
            Coming(sh, q, expiry) == (if Keep(n.use, expiry)
                                      then [Record(n.id, n.origin, n.use, Prefix(Value(sh), q, "") + n.segment)]
                                      else [])
                                     + Later(sh, q, expiry)
    ensures |After(Value(sh), q, "")| < |From(Value(sh), q, "")|
  {
    hide Written, From, Prefix, After, At;
    var t := Value(sh);
    var n := At(t, q);
    LeafHere(t, q, "");
    var x := Item(n, Prefix(t, q, "") + n.segment);
    WrittenOne(x, After(t, q, ""), expiry);
    RecordsAppend(if Wanted(n, expiry) then [x] else [], Written(After(t, q, ""), expiry));
    assert Records([x]) == [Record(n.id, n.origin, n.use, x.text)] + Records([]) by { assert [x][1..] == []; }
  }

  /** On to the next sibling, or up. */
  lemma GoOn(sh: Shape, q: Cursor, expiry: int)
    requires q != [] && Valid(Value(sh), q)
    ensures Valid(Value(sh), Parent(q))
    ensures Prefix(Value(sh), q, "") == Prefix(Value(sh), Parent(q), "") + At(Value(sh), Parent(q)).segment + "/"
    ensures HasNext(Value(sh), q) ==>
              && Valid(Value(sh), Next(q)) && Later(sh, q, expiry) == Coming(sh, Next(q), expiry)
              && |After(Value(sh), q, "")| == |From(Value(sh), Next(q), "")|
              && Prefix(Value(sh), Next(q), "") == Prefix(Value(sh), q, "")
    ensures !HasNext(Value(sh), q) ==>
              && Later(sh, q, expiry) == Later(sh, Parent(q), expiry)
              && |After(Value(sh), q, "")| == |After(Value(sh), Parent(q), "")|
  {
    hide Written, From, Prefix, After, At, Records;
    var t := Value(sh);
    MoveUp(t, q, "");
    if HasNext(t, q) { MoveNext(t, q, ""); }
  }

  /** The loop that leaves a finished leaf: to the next sibling of it or of the nearest node
      above it that has one, or back to the root.  The buffer is cut accordingly. */
  method Leave(root: PathNode, leaf: PathNode, path: string, expiry: int, ghost sh: Shape, ghost at: Cursor)
      returns (p: PathNode, path': string, ghost q: Cursor)
    requires TreeLinked(sh) && sh.cell == root && Valid(Value(sh), at) && ShapeAt(sh, at).cell == leaf
    requires path == Prefix(Value(sh), at, "") + At(Value(sh), at).segment
    ensures Valid(Value(sh), q) && ShapeAt(sh, q).cell == p && (p == root <==> q == [])
    ensures p != root ==> Coming(sh, q, expiry) == Later(sh, at, expiry) && path' == Prefix(Value(sh), q, "")
                          && |From(Value(sh), q, "")| == |After(Value(sh), at, "")|
    ensures p == root ==> Later(sh, at, expiry) == [] && path' == root.segment
  {
    hide TreeLinked, Valid, At, Prefix, From, After, Coming, Later, HasNext, ShapeAt, Value;
    p, path', q := leaf, path, at;
    AtStart(sh, expiry);
    while p != root
      invariant Valid(Value(sh), q) && ShapeAt(sh, q).cell == p
      invariant path' == Prefix(Value(sh), q, "") + At(Value(sh), q).segment
      invariant Later(sh, q, expiry) == Later(sh, at, expiry) && |After(Value(sh), q, "")| == |After(Value(sh), at, "")|
      decreases |q|
    {
      LeadsDown(sh, q);
      LeadsOn(sh, q);
      GoOn(sh, q, expiry);
      path' := path'[..|path'| - |p.segment|];
      assert path' == Prefix(Value(sh), q, "");
      if p.next != null {
        p, q := p.next, Next(q);
        LeadsOn(sh, q);
        return;
      }
      path' := path'[..|path'| - 1];
      p, q := p.parent, Parent(q);
    }
    if q != [] { LeadsOn(sh, q); }
    assert "" + Value(sh).segment == Value(sh).segment;
    LeadsDown(sh, []);
  }

  /** urldb_write_paths: every leaf to be kept is written once, in sibling order, with the path
      that the growing buffer holds.  At the end the buffer holds the root's segment again. */
  method WritePaths(root: PathNode, expiry: int, ghost sh: Shape) returns (out: seq<Record>, path: string)
    requires TreeLinked(sh) && sh.cell == root
    ensures out == Records(Written(Preorder(Value(sh), ""), expiry)) && path == root.segment
  {
    hide TreeLinked, Valid, At, Prefix, From, After, Coming, Later, HasNext, ShapeAt, Value, Preorder, Written, Records;
    var p := root;
    ghost var q: Cursor := [];
    out, path := [], "";
    var going := true;
    AtStart(sh, expiry);
    while going
      invariant Valid(Value(sh), q) && ShapeAt(sh, q).cell == p
      invariant going ==> path == Prefix(Value(sh), q, "") && out + Coming(sh, q, expiry) == All(sh, expiry)
      invariant !going ==> path == root.segment && out == All(sh, expiry)
      decreases going, if going then |From(Value(sh), q, "")| else 0
    {
      LeadsDown(sh, q);
      path := path + p.segment;
      if p.children != null {
        GoDown(sh, q, expiry);
        path := path + "/";
        p, q := p.children, q + [0];
      } else {
        AtLeaf(sh, q, expiry);
        if p.use.persistent || (p.use.lastVisit > expiry && p.use.visits > 0) {
          out := out + [Record(p.id, p.origin, p.use, path)];
        }
        p, path, q := Leave(root, p, path, expiry, sh, q);
        going := p != root;
      }
    }
  }

  /** urldb_count_urls: the number of records that WritePaths writes. */
  method CountUrls(root: PathNode, expiry: int, ghost sh: Shape) returns (count: nat)
    requires TreeLinked(sh) && sh.cell == root
    ensures count == |Written(Preorder(Value(sh), ""), expiry)|
  {
    hide TreeLinked, Valid, At, Prefix, From, After, Coming, Later, HasNext, ShapeAt, Value, Preorder, Written;
    var p := root;
    ghost var q: Cursor := [];
    count := 0;
    var going := true;
    AtStart(sh, expiry);
    while going
      invariant Valid(Value(sh), q) && ShapeAt(sh, q).cell == p
      invariant going ==> count + |Coming(sh, q, expiry)| == |All(sh, expiry)|
      invariant !going ==> count == |All(sh, expiry)|
      decreases going, if going then |From(Value(sh), q, "")| else 0
    {
      LeadsDown(sh, q);
      if p.children != null {
        GoDown(sh, q, expiry);
        p, q := p.children, q + [0];
      } else {
        AtLeaf(sh, q, expiry);
        ghost var at := q;
        if p.use.persistent || (p.use.lastVisit > expiry && p.use.visits > 0) { count := count + 1; }
        going := false;
        while p != root
          invariant Valid(Value(sh), q) && ShapeAt(sh, q).cell == p && !going
          invariant count + |Later(sh, q, expiry)| == |All(sh, expiry)|
          invariant |After(Value(sh), q, "")| == |After(Value(sh), at, "")|
          decreases |q|
        {
          LeadsOn(sh, q);
          GoOn(sh, q, expiry);
          if p.next != null {
            p, q := p.next, Next(q);
            going := true;
            break;
          }
          p, q := p.parent, Parent(q);
        }
        if !going && q != [] { LeadsOn(sh, q); }
      }
    }
  }
}

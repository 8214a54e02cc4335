/** urldb_add_path on a linked path tree (content/urldb.c): the loop goes down one node for each
    segment, and leaves the tree that the recursive addition of PathTree computes. */
module LinkedPaths {
  import S = Strings
  import opened PathTree
  import W = PathWalk
  import opened PathNodes
  import opened LinkedTree
  import opened LinkedAdd

  /** A tree with other children at one place. */
  function Replant(t: Node, q: W.Cursor, kids: seq<Node>): Node
    requires W.Valid(t, q)
    decreases q
  {
    if q == [] then t.(children := kids)
    else t.(children := t.children[q[0] := Replant(t.children[q[0]], q[1..], kids)])
  }

  lemma {:induction false} ReplantAt(t: Node, q: W.Cursor, kids: seq<Node>)
    requires W.Valid(t, q)
    ensures W.Valid(Replant(t, q, kids), q) && W.At(Replant(t, q, kids), q) == W.At(t, q).(children := kids)
    ensures kids == W.At(t, q).children ==> Replant(t, q, kids) == t
    decreases q
  {
    if q != [] {
      ReplantAt(t.children[q[0]], q[1..], kids);
      assert t.children[q[0] := t.children[q[0]]] == t.children;
    }
  }

  /** Other children below one of the other children. */
  lemma {:induction false} ReplantBelow(t: Node, q: W.Cursor, a: seq<Node>, i: nat, b: seq<Node>)
    requires W.Valid(t, q) && i < |a|
    ensures var u := Replant(t, q, a);
            W.Valid(u, q + [i]) && Replant(u, q + [i], b) == Replant(t, q, a[i := a[i].(children := b)])
    decreases q
  {
    var r := q + [i];
    if q == [] {
      assert r[1..] == [];
      assert W.Valid(a[i], r[1..]);
    } else {
      assert r[1..] == q[1..] + [i];
      ReplantBelow(t.children[q[0]], q[1..], a, i, b);
    }
  }

  lemma {:induction false} ValuesInserted(kids: seq<Shape>, k: nat, x: Shape)
    requires k <= |kids|
    ensures Values(Inserted(kids, k, x)) == Inserted(Values(kids), k, Value(x))
  {
    var all := Inserted(kids, k, x);
    forall i | 0 <= i < |all| ensures Values(all)[i] == Inserted(Values(kids), k, Value(x))[i] {
      ValuesAt(all, i);
      if i < k { ValuesAt(kids, i); } else if i > k { ValuesAt(kids, i - 1); }
    }
  }

  lemma ValuesReplaced(kids: seq<Shape>, k: nat, x: Shape)
    requires k < |kids|
    ensures Values(kids[k := x]) == Values(kids)[k := Value(x)]
  {
    var all := kids[k := x];
    forall i | 0 <= i < |all| ensures Values(all)[i] == Values(kids)[k := Value(x)][i] {
      ValuesAt(all, i);
      ValuesAt(kids, i);
    }
  }

  /** The value of a tree with one more leaf. */
  lemma {:induction false} GrownValue(sh: Shape, q: W.Cursor, k: nat, leaf: Shape)
    requires W.Valid(Value(sh), q) && k <= |ShapeAt(sh, q).kids|
    ensures Value(Grown(sh, q, k, leaf)) == Replant(Value(sh), q, Inserted(Values(ShapeAt(sh, q).kids), k, Value(leaf)))
    decreases q
  {
    if q == [] {
      ValuesInserted(sh.kids, k, leaf);
    } else {
      ValuesAt(sh.kids, q[0]);
      GrownValue(sh.kids[q[0]], q[1..], k, leaf);
      ValuesReplaced(sh.kids, q[0], Grown(sh.kids[q[0]], q[1..], k, leaf));
    }
  }

  lemma {:induction false} GrownAt(sh: Shape, q: W.Cursor, k: nat, leaf: Shape)
    requires W.Valid(Value(sh), q) && k <= |ShapeAt(sh, q).kids|
    ensures var sh' := Grown(sh, q, k, leaf);
            W.Valid(Value(sh'), q) && ShapeAt(sh', q).kids == Inserted(ShapeAt(sh, q).kids, k, leaf)
    decreases q
  {
    if q != [] {
      ValuesAt(sh.kids, q[0]);
      GrownAt(sh.kids[q[0]], q[1..], k, leaf);
      ValuesAt(Grown(sh, q, k, leaf).kids, q[0]);
    }
  }

  /** The tree, and the leaf, once the rest of a path is added at a place. */
  ghost function Finished(sh: Shape, q: W.Cursor, segs: seq<string>, o: Origin, next: nat): (Node, nat)
    requires W.Valid(Value(sh), q) && segs != []
  {
    var (kids, leaf) := Add(W.At(Value(sh), q).children, segs, o, next);
    (Replant(Value(sh), q, kids), leaf)
  }

  /** A segment that is there: on to its node, or done. */
  lemma StepDown(sh: Shape, q: W.Cursor, segs: seq<string>, o: Origin, next: nat, i: nat)
    requires W.Valid(Value(sh), q) && segs != [] && i == Position(Values(ShapeAt(sh, q).kids), segs[0], o)
    requires i < |ShapeAt(sh, q).kids|
    ensures W.Valid(Value(sh), q + [i]) && ShapeAt(sh, q + [i]) == ShapeAt(sh, q).kids[i]
    ensures |segs| == 1 ==> Finished(sh, q, segs, o, next) == (Value(sh), ShapeAt(sh, q).kids[i].cell.id)
    ensures |segs| > 1 ==> Finished(sh, q, segs, o, next) == Finished(sh, q + [i], segs[1..], o, next)
  {
    hide Position, Slot, W.Valid, W.At;
    var t, kids := Value(sh), Values(ShapeAt(sh, q).kids);
    ShapeValue(sh, q);
    KidAt(sh, q, i);
    ShapeValue(sh, q + [i]);
    ValuesAt(ShapeAt(sh, q).kids, i);
    ReplantAt(t, q, kids);
    if |segs| > 1 {
      ReplantBelow(t, q, kids, i, Add(kids[i].children, segs[1..], o, next).0);
    }
  }

  /** A segment that is not there: its node is new. */
  lemma StepNew(sh: Shape, q: W.Cursor, segs: seq<string>, o: Origin, next: nat, d: PathNode)
    requires W.Valid(Value(sh), q) && segs != [] && d.id == next && d.segment == segs[0] && d.origin == o
    requires Position(Values(ShapeAt(sh, q).kids), segs[0], o) == |ShapeAt(sh, q).kids|
    ensures var k := Slot(Values(ShapeAt(sh, q).kids), segs[0]);
            var sh' := Grown(sh, q, k, Shape(d, UNUSED, []));
            && W.Valid(Value(sh'), q + [k]) && ShapeAt(sh', q + [k]).cell == d
            && (|segs| == 1 ==> Finished(sh, q, segs, o, next) == (Value(sh'), next))
            && (|segs| > 1 ==> Finished(sh, q, segs, o, next) == Finished(sh', q + [k], segs[1..], o, next + 1))
  {
    hide Position, Slot, W.Valid, W.At, Grown, ShapeAt, Inserted;
    var t, x := Value(sh), ShapeAt(sh, q);
    var k, leaf := Slot(Values(x.kids), segs[0]), Shape(d, UNUSED, []);
    var sh' := Grown(sh, q, k, leaf);
    var n := Node(next, segs[0], o, UNUSED, []);
    ShapeValue(sh, q);
    assert Value(leaf) == n;
    GrownValue(sh, q, k, leaf);
    GrownAt(sh, q, k, leaf);
    PlacedAt(x.kids, k, leaf);
    PlacedAt(Values(x.kids), k, n);
    KidAt(sh', q, k);
    ShapeValue(sh', q + [k]);
    if |segs| > 1 {
      var below := Add([], segs[1..], o, next + 1).0;
      ReplantBelow(t, q, Inserted(Values(x.kids), k, n), k, below);
      PlacedOver(Values(x.kids), k, n, n.(children := below));
    }
  }

  lemma PlacedAt<T>(s: seq<T>, k: nat, x: T)
    requires k <= |s|
    ensures |Inserted(s, k, x)| == |s| + 1 && Inserted(s, k, x)[k] == x
  {
  }

  lemma PlacedOver<T>(s: seq<T>, k: nat, x: T, y: T)
    requires k <= |s|
    ensures |Inserted(s, k, x)| == |s| + 1 && Inserted(s, k, x)[k := y] == Inserted(s, k, y)
  {
  }

  lemma FinishedStart(sh: Shape, segs: seq<string>, o: Origin, next: nat)
    requires segs != []
    ensures W.Valid(Value(sh), []) && ShapeAt(sh, []) == sh
    ensures var (kids, leaf) := Add(Value(sh).children, segs, o, next);
            Finished(sh, [], segs, o, next) == (Value(sh).(children := kids), leaf)
  {
  }

  lemma HeldAt(sh: Shape, q: W.Cursor)
    requires TreeLinked(sh) && W.Valid(Value(sh), q)
    ensures var x := ShapeAt(sh, q); Linked(x.cell, Cells(x.kids))
    ensures var x := ShapeAt(sh, q); x.cell in Body(sh) && forall c :: c in Cells(x.kids) ==> c in Body(sh)
  {
    hide W.Valid, Families, Body, Apart;
    FamilyAt(sh, q);
    FamilyBody(sh);
    assert Held(FamilyOf(ShapeAt(sh, q)));
  }

  /** One turn of the loop: the node of a segment below `d`, linked in if it is not there. */
  method Enter(d: PathNode, segment: string, o: Origin, next: nat, ghost sh: Shape, ghost q: W.Cursor,
      ghost segs: seq<string>)
      returns (e: PathNode, next': nat, ghost sh': Shape, ghost q': W.Cursor)
    requires TreeLinked(sh) && W.Valid(Value(sh), q) && ShapeAt(sh, q).cell == d
    requires segs != [] && segs[0] == segment && forall c :: c in Body(sh) ==> allocated(c)
    modifies Body(sh)
    ensures TreeLinked(sh') && sh'.cell == sh.cell
    ensures forall c :: c in Body(sh') ==> allocated(c) && (c in Body(sh) || fresh(c))
    ensures W.Valid(Value(sh'), q') && ShapeAt(sh', q').cell == e
    ensures |segs| == 1 ==> Finished(sh, q, segs, o, next) == (Value(sh'), e.id)
    ensures |segs| > 1 ==> Finished(sh, q, segs, o, next) == Finished(sh', q', segs[1..], o, next')
  {
    hide TreeLinked, W.Valid, Value, Values, ShapeAt, Body, Finished, Position, Slot, Grown, Shown;
    ghost var x := ShapeAt(sh, q);
    HeldAt(sh, q);
    PositionShown(x.kids, segment, o);
    var found := FindSame(d, segment, o, Cells(x.kids));
    ghost var i := Position(Values(x.kids), segment, o);
    if found != null {
      e, next', sh', q' := found, next, sh, q + [i];
      StepDown(sh, q, segs, o, next, i);
    } else {
      q' := q + [Slot(Values(x.kids), segment)];
      e, sh' := AddLinked(d, next, segment, o, sh, q);
      next' := next + 1;
      StepNew(sh, q, segs, o, next, e);
      GrownRoot(sh, q, Slot(Values(x.kids), segment), Shape(e, UNUSED, []));
    }
  }

  lemma GrownRoot(sh: Shape, q: W.Cursor, k: nat, leaf: Shape)
    requires W.Valid(Value(sh), q) && k <= |ShapeAt(sh, q).kids|
    ensures Grown(sh, q, k, leaf).cell == sh.cell
  {
  }

  /** The segments of a path, of which a leading separator is no part. */
  function SegmentsOf(path: string): (segs: seq<string>)
    ensures segs != []
  {
    S.Split(if path != [] && path[0] == '/' then path[1..] else path, '/')
  }

  /** urldb_add_path: the linked tree afterwards holds the tree with the path added, and the node
      returned is its leaf. */
  method AddPath(root: PathNode, path: string, o: Origin, next: nat, ghost sh: Shape)
      returns (d: PathNode, ghost sh': Shape)
    requires TreeLinked(sh) && sh.cell == root && forall c :: c in Body(sh) ==> allocated(c)
    modifies Body(sh)
    ensures TreeLinked(sh') && sh'.cell == root && forall c :: c in Body(sh') ==> allocated(c)
    ensures var (kids, leaf) := Add(Value(sh).children, SegmentsOf(path), o, next);
            Value(sh') == Value(sh).(children := kids) && d.id == leaf
  {
    hide TreeLinked, W.Valid, Value, ShapeAt, Body, Finished, Add, S.Split, S.IndexOf;
    var from := if path != [] && path[0] == '/' then 1 else 0;
    assert path[0..] == path;
    ghost var segs := S.Split(path[from..], '/');
    FinishedStart(sh, segs, o, next);
    ghost var q: W.Cursor := [];
    var id := next;
    d, sh' := root, sh;
    while true
      invariant from <= |path| && TreeLinked(sh') && sh'.cell == root && W.Valid(Value(sh'), q)
              && ShapeAt(sh', q).cell == d
      invariant forall c :: c in Body(sh') ==> allocated(c) && (c in Body(sh) || fresh(c))
      invariant Finished(sh', q, S.Split(path[from..], '/'), o, id) == Finished(sh, [], segs, o, next)
      decreases |path| - from
    {
      var slash := S.IndexOf(path, '/', from);
      S.SplitStep(path, '/', from);
      ghost var rest := S.Split(path[from..], '/');
      d, id, sh', q := Enter(d, path[from..slash], o, id, sh', q, rest);
      if slash == |path| { return; }
      assert rest[1..] == S.Split(path[slash + 1..], '/');
      from := slash + 1;
    }
  }
}

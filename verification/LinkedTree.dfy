/** A whole path tree of linked nodes (content/urldb.c): the tree value that the nodes hold, and
    what the links of every node say about it. */
module LinkedTree {
  import opened PathTree
  import W = PathWalk
  import opened PathNodes

  /** The tree together with the nodes that hold it. */
  datatype Shape = Shape(cell: PathNode, use: Use, kids: seq<Shape>)

  ghost function Cells(kids: seq<Shape>): (cs: seq<PathNode>)
    ensures |cs| == |kids| && forall i :: 0 <= i < |kids| ==> cs[i] == kids[i].cell
  {
    seq(|kids|, i requires 0 <= i < |kids| => kids[i].cell)
  }

  ghost function Value(sh: Shape): Node
    decreases sh, 1
  {
    Node(sh.cell.id, sh.cell.segment, sh.cell.origin, sh.use, Values(sh.kids))
  }

  ghost function Values(kids: seq<Shape>): (vs: seq<Node>)
    ensures |vs| == |kids|
    decreases kids, 0
  {
    if kids == [] then [] else [Value(kids[0])] + Values(kids[1..])
  }

  lemma {:induction false} ValuesAt(kids: seq<Shape>, i: nat)
    requires i < |kids|
    ensures Values(kids)[i] == Value(kids[i])
  {
    if i > 0 { ValuesAt(kids[1..], i - 1); }
  }

  /** A node with its visits and its children. */
  datatype Family = Family(cell: PathNode, use: Use, kids: seq<PathNode>)

  ghost function FamilyOf(sh: Shape): Family {
    Family(sh.cell, sh.use, Cells(sh.kids))
  }

  ghost function Families(sh: Shape): set<Family>
    decreases sh, 1
  {
    {FamilyOf(sh)} + FamiliesAll(sh.kids)
  }

  ghost function FamiliesAll(kids: seq<Shape>): set<Family>
    decreases kids, 0
  {
    if kids == [] then {} else Families(kids[0]) + FamiliesAll(kids[1..])
  }

  /** The node is linked to its children, and they to it and to each other. */
  ghost predicate Held(f: Family)
    reads f.cell, f.kids
  {
    Linked(f.cell, f.kids) && f.cell.use == f.use
  }

  ghost predicate AllHeld(fs: set<Family>)
    reads *
  {
    forall f :: f in fs ==> Held(f)
  }

  /** The nodes of a tree. */
  ghost function Body(sh: Shape): set<PathNode>
    decreases sh, 1
  {
    {sh.cell} + Bodies(sh.kids)
  }

  ghost function Bodies(kids: seq<Shape>): set<PathNode>
    decreases kids, 0
  {
    if kids == [] then {} else Body(kids[0]) + Bodies(kids[1..])
  }

  /** No node stands in the tree twice. */
  ghost predicate Tidy(sh: Shape)
    decreases sh, 1
  {
    sh.cell !in Bodies(sh.kids) && TidyAll(sh.kids)
  }

  ghost predicate TidyAll(kids: seq<Shape>)
    decreases kids, 0
  {
    kids == [] || (Tidy(kids[0]) && TidyAll(kids[1..]) && Body(kids[0]) !! Bodies(kids[1..]))
  }

  /** Every node of the tree is linked as the tree says, and stands in it once. */
  ghost predicate TreeLinked(sh: Shape)
    reads *
  {
    AllHeld(Families(sh)) && Tidy(sh) && sh.cell.parent == null
  }

  // ---------------------------------------------------------------- places in the tree

  ghost function ShapeAt(sh: Shape, q: W.Cursor): Shape
    requires W.Valid(Value(sh), q)
    decreases q
  {
    if q == [] then sh
    else
      ValuesAt(sh.kids, q[0]);
      ShapeAt(sh.kids[q[0]], q[1..])
  }

  lemma {:induction false} ShapeValue(sh: Shape, q: W.Cursor)
    requires W.Valid(Value(sh), q)
    ensures Value(ShapeAt(sh, q)) == W.At(Value(sh), q)
    decreases q
  {
    if q != [] {
      ValuesAt(sh.kids, q[0]);
      ShapeValue(sh.kids[q[0]], q[1..]);
    }
  }

  lemma {:induction false} KidFamilies(kids: seq<Shape>, i: nat)
    requires i < |kids|
    ensures Families(kids[i]) <= FamiliesAll(kids)
  {
    if i > 0 { KidFamilies(kids[1..], i - 1); }
  }

  lemma {:induction false} FamilyAt(sh: Shape, q: W.Cursor)
    requires W.Valid(Value(sh), q)
    ensures FamilyOf(ShapeAt(sh, q)) in Families(sh)
    decreases q
  {
    if q != [] {
      ValuesAt(sh.kids, q[0]);
      FamilyAt(sh.kids[q[0]], q[1..]);
      KidFamilies(sh.kids, q[0]);
    }
  }

  lemma {:induction false} KidAt(sh: Shape, q: W.Cursor, i: nat)
    requires W.Valid(Value(sh), q) && i < |ShapeAt(sh, q).kids|
    ensures W.Valid(Value(sh), q + [i]) && ShapeAt(sh, q + [i]) == ShapeAt(sh, q).kids[i]
    decreases q
  {
    var r := q + [i];
    if q == [] {
      ValuesAt(sh.kids, i);
      assert r[1..] == [];
      assert W.Valid(Value(sh.kids[i]), r[1..]);
    } else {
      ValuesAt(sh.kids, q[0]);
      assert r[1..] == q[1..] + [i];
      KidAt(sh.kids[q[0]], q[1..], i);
    }
  }

  // ---------------------------------------------------------------- what the links lead to

  /** The first child. */
  lemma LeadsDown(sh: Shape, q: W.Cursor)
    requires TreeLinked(sh) && W.Valid(Value(sh), q)
    ensures var x, n := ShapeAt(sh, q), W.At(Value(sh), q);
            && x.cell.id == n.id && x.cell.segment == n.segment && x.cell.origin == n.origin && x.cell.use == n.use
            && (x.cell.children == null <==> n.children == [])
            && (n.children != [] ==> W.Valid(Value(sh), q + [0]) && x.cell.children == ShapeAt(sh, q + [0]).cell)
  {
    hide Families, W.Valid, W.At, Apart;
    FamilyAt(sh, q);
    ShapeValue(sh, q);
    var x := ShapeAt(sh, q);
    assert Held(FamilyOf(x));
    if x.kids != [] { KidAt(sh, q, 0); }
  }

  /** The parent and the next sibling; only the root has no parent. */
  lemma LeadsOn(sh: Shape, q: W.Cursor)
    requires TreeLinked(sh) && q != [] && W.Valid(Value(sh), q)
    ensures W.Valid(Value(sh), W.Parent(q)) && ShapeAt(sh, q).cell.parent == ShapeAt(sh, W.Parent(q)).cell
    ensures ShapeAt(sh, q).cell != sh.cell
    ensures var next := ShapeAt(sh, q).cell.next;
            if W.HasNext(Value(sh), q) then W.Valid(Value(sh), W.Next(q)) && next == ShapeAt(sh, W.Next(q)).cell
            else next == null
  {
    hide Families, W.Valid, W.At, Apart;
    W.ParentValid(Value(sh), q);
    var p, i := W.Parent(q), q[|q| - 1];
    FamilyAt(sh, p);
    ShapeValue(sh, p);
    var x := ShapeAt(sh, p);
    assert Held(FamilyOf(x));
    assert Link(x.cell, Cells(x.kids), i);
    assert p + [i] == q;
    KidAt(sh, p, i);
    if i + 1 < |x.kids| {
      KidAt(sh, p, i + 1);
      assert p + [i + 1] == W.Next(q);
    }
  }
}

/** Additions to a linked path tree (content/urldb.c): a new node is linked into one list of
    siblings, and the whole tree stays linked. */
module LinkedAdd {
  import S = Strings
  import opened PathTree
  import W = PathWalk
  import opened PathNodes
  import opened LinkedTree

  // ---------------------------------------------------------------- a tree with one more node

  /** The tree with a leaf put in among the children at a place. */
  ghost function Grown(sh: Shape, q: W.Cursor, k: nat, leaf: Shape): Shape
    requires W.Valid(Value(sh), q) && k <= |ShapeAt(sh, q).kids|
    decreases q
  {
    if q == [] then sh.(kids := Inserted(sh.kids, k, leaf))
    else
      ValuesAt(sh.kids, q[0]);
      sh.(kids := sh.kids[q[0] := Grown(sh.kids[q[0]], q[1..], k, leaf)])
  }

  lemma {:induction false} BodiesSplit(a: seq<Shape>, b: seq<Shape>)
    ensures Bodies(a + b) == Bodies(a) + Bodies(b) && FamiliesAll(a + b) == FamiliesAll(a) + FamiliesAll(b)
    ensures TidyAll(a + b) <==> TidyAll(a) && TidyAll(b) && Bodies(a) !! Bodies(b)
  {
    if a == [] {
      assert a + b == b;
    } else {
      BodiesSplit(a[1..], b);
      assert (a + b)[1..] == a[1..] + b;
    }
  }

  lemma OneShape(x: Shape)
    ensures Bodies([x]) == Body(x) && FamiliesAll([x]) == Families(x) && (TidyAll([x]) <==> Tidy(x))
  {
    assert [x][1..] == [];
  }

  /** The parts before, at and after a place. */
  lemma ThreeParts(a: seq<Shape>, x: Shape, b: seq<Shape>)
    ensures Bodies(a + [x] + b) == Bodies(a) + Body(x) + Bodies(b)
    ensures FamiliesAll(a + [x] + b) == FamiliesAll(a) + Families(x) + FamiliesAll(b)
    ensures TidyAll(a + [x] + b) <==>
              && TidyAll(a) && Tidy(x) && TidyAll(b)
              && Bodies(a) !! Body(x) && Bodies(a) !! Bodies(b) && Body(x) !! Bodies(b)
  {
    hide Bodies, FamiliesAll, TidyAll;
    BodiesSplit(a + [x], b);
    BodiesSplit(a, [x]);
    OneShape(x);
  }

  lemma {:induction false} FamilyInBody(sh: Shape)
    ensures forall f :: f in Families(sh) ==> f.cell in Body(sh)
  {
    FamiliesInBodies(sh.kids);
  }

  lemma {:induction false} FamiliesInBodies(kids: seq<Shape>)
    ensures forall f :: f in FamiliesAll(kids) ==> f.cell in Bodies(kids)
  {
    if kids != [] {
      FamilyInBody(kids[0]);
      FamiliesInBodies(kids[1..]);
    }
  }

  /** What the new tree is made of: the node that has a new child, the leaf, and for the rest
      families that were there and are not that node's. */
  ghost predicate Grew(sh: Shape, x: Shape, k: nat, leaf: Shape, sh': Shape)
    requires k <= |x.kids|
  {
    && sh'.cell == sh.cell && sh'.use == sh.use && Tidy(sh') && Body(sh') == Body(sh) + {leaf.cell}
    && forall f :: f in Families(sh') ==>
         || f == Family(x.cell, x.use, Inserted(Cells(x.kids), k, leaf.cell))
         || f == FamilyOf(leaf)
         || (f in Families(sh) && f.cell != x.cell)
  }

  lemma GrownHere(sh: Shape, k: nat, leaf: Shape)
    requires Tidy(sh) && k <= |sh.kids| && leaf.kids == [] && leaf.cell !in Body(sh)
    ensures Grew(sh, sh, k, leaf, sh.(kids := Inserted(sh.kids, k, leaf)))
  {
    hide Bodies, FamiliesAll, TidyAll;
    var a, b := sh.kids[..k], sh.kids[k..];
    var sh' := sh.(kids := Inserted(sh.kids, k, leaf));
    assert a + b == sh.kids;
    BodiesSplit(a, b);
    ThreeParts(a, leaf, b);
    assert Bodies(leaf.kids) == {} && FamiliesAll(leaf.kids) == {} && TidyAll(leaf.kids) by { NoKids(); }
    assert Cells(sh'.kids) == Inserted(Cells(sh.kids), k, leaf.cell);
    FamiliesInBodies(sh.kids);
  }

  lemma NoKids()
    ensures Bodies([]) == {} && FamiliesAll([]) == {} && TidyAll([])
  {
  }

  lemma GrownBelow(sh: Shape, i: nat, x: Shape, k: nat, leaf: Shape, kid': Shape)
    requires Tidy(sh) && i < |sh.kids| && leaf.cell !in Body(sh) && k <= |x.kids|
    requires x.cell in Body(sh.kids[i]) && Grew(sh.kids[i], x, k, leaf, kid')
    ensures Grew(sh, x, k, leaf, sh.(kids := sh.kids[i := kid']))
  {
    hide Bodies, FamiliesAll, TidyAll, Body, Families, Tidy;
    var a, kid, b := sh.kids[..i], sh.kids[i], sh.kids[i + 1..];
    var sh' := sh.(kids := sh.kids[i := kid']);
    assert sh.kids == a + [kid] + b && sh'.kids == a + [kid'] + b;
    ThreeParts(a, kid, b);
    ThreeParts(a, kid', b);
    Unfold(sh);
    Unfold(sh');
    assert Cells(sh'.kids) == Cells(sh.kids);
    FamiliesInBodies(a);
    FamiliesInBodies(b);
  }

  lemma Unfold(sh: Shape)
    ensures Body(sh) == {sh.cell} + Bodies(sh.kids) && Families(sh) == {FamilyOf(sh)} + FamiliesAll(sh.kids)
    ensures Tidy(sh) <==> sh.cell !in Bodies(sh.kids) && TidyAll(sh.kids)
  {
  }

  lemma {:induction false} KidBody(kids: seq<Shape>, i: nat)
    requires i < |kids|
    ensures Body(kids[i]) <= Bodies(kids) && (TidyAll(kids) ==> Tidy(kids[i]))
  {
    if i > 0 { KidBody(kids[1..], i - 1); }
  }

  lemma {:induction false} GrownIs(sh: Shape, q: W.Cursor, k: nat, leaf: Shape)
    requires W.Valid(Value(sh), q) && k <= |ShapeAt(sh, q).kids|
    requires Tidy(sh) && leaf.kids == [] && leaf.cell !in Body(sh)
    ensures ShapeAt(sh, q).cell in Body(sh) && Grew(sh, ShapeAt(sh, q), k, leaf, Grown(sh, q, k, leaf))
    decreases q
  {
    hide Grew, Bodies, TidyAll, W.Valid;
    assert W.Valid(Value(sh), q) && (q != [] ==> q[0] < |sh.kids| && W.Valid(Values(sh.kids)[q[0]], q[1..]))
        by { ValidStep(sh, q); }
    if q == [] {
      GrownHere(sh, k, leaf);
    } else {
      ValuesAt(sh.kids, q[0]);
      KidBody(sh.kids, q[0]);
      GrownIs(sh.kids[q[0]], q[1..], k, leaf);
      GrownBelow(sh, q[0], ShapeAt(sh, q), k, leaf, Grown(sh.kids[q[0]], q[1..], k, leaf));
    }
  }

  lemma ValidStep(sh: Shape, q: W.Cursor)
    requires W.Valid(Value(sh), q)
    ensures q != [] ==> q[0] < |sh.kids| && W.Valid(Values(sh.kids)[q[0]], q[1..])
  {
  }

  // ---------------------------------------------------------------- one node added in place

  lemma {:induction false} FamilyBody(sh: Shape)
    ensures forall f :: f in Families(sh) ==> f.cell in Body(sh) && forall c :: c in f.kids ==> c in Body(sh)
  {
    FamiliesBodies(sh.kids);
    forall c | c in Cells(sh.kids) ensures c in Bodies(sh.kids) {
      var i :| 0 <= i < |sh.kids| && Cells(sh.kids)[i] == c;
      KidBody(sh.kids, i);
    }
  }

  lemma {:induction false} FamiliesBodies(kids: seq<Shape>)
    ensures forall f :: f in FamiliesAll(kids) ==>
              f.cell in Bodies(kids) && forall c :: c in f.kids ==> c in Bodies(kids)
  {
    if kids != [] {
      FamilyBody(kids[0]);
      FamiliesBodies(kids[1..]);
    }
  }

  lemma SlotShown(kids: seq<Shape>, seg: string)
    ensures Slot(Shown(Cells(kids)), seg) == Slot(Values(kids), seg)
  {
    hide S.Compare, Slot;
    forall i | 0 <= i < |kids| ensures Values(kids)[i].segment == Shown(Cells(kids))[i].segment {
      ValuesAt(kids, i);
    }
    SlotIs(Shown(Cells(kids)), seg, Slot(Values(kids), seg));
  }

  lemma PositionShown(kids: seq<Shape>, seg: string, o: Origin)
    ensures Position(Shown(Cells(kids)), seg, o) == Position(Values(kids), seg, o)
  {
    hide Position;
    forall i | 0 <= i < |kids|
      ensures Values(kids)[i].segment == Shown(Cells(kids))[i].segment
              && Values(kids)[i].origin == Shown(Cells(kids))[i].origin
    {
      ValuesAt(kids, i);
    }
    var i, j := Position(Shown(Cells(kids)), seg, o), Position(Values(kids), seg, o);
    assert i == j;
  }

  /** The fields of a node, as they are at one time. */
  datatype Links =
    Links(next: PathNode?, prev: PathNode?, parent: PathNode?, children: PathNode?, last: PathNode?, use: Use)

  ghost function LinksOf(c: PathNode): Links
    reads c
  {
    Links(c.next, c.prev, c.parent, c.children, c.last, c.use)
  }

  ghost function Snapshot(cs: set<PathNode>): (h: map<PathNode, Links>)
    reads cs
    ensures h.Keys == cs && forall c :: c in cs ==> h[c] == LinksOf(c)
  {
    map c | c in cs :: LinksOf(c)
  }

  /** Link and Held, of the fields at one time. */
  ghost predicate LinkIn(h: map<PathNode, Links>, f: Family, i: nat)
    requires i < |f.kids| && f.kids[i] in h
  {
    var l := h[f.kids[i]];
    l.parent == f.cell && l.next == Nth(f.kids, i + 1) && l.prev == Nth(f.kids, i - 1)
  }

  ghost predicate HeldIn(h: map<PathNode, Links>, f: Family) {
    && Apart(f.cell, f.kids) && f.cell in h
    && h[f.cell].children == Nth(f.kids, 0) && (f.kids != [] ==> h[f.cell].last == f.kids[|f.kids| - 1])
    && h[f.cell].use == f.use
    && forall i :: 0 <= i < |f.kids| ==> f.kids[i] in h && LinkIn(h, f, i)
  }

  lemma HeldThen(cs: set<PathNode>, f: Family)
    requires f.cell in cs && forall c :: c in f.kids ==> c in cs
    ensures HeldIn(Snapshot(cs), f) <==> Held(f)
  {
    hide Apart, Nth;
    var h := Snapshot(cs);
    forall i | 0 <= i < |f.kids| ensures f.kids[i] in h && (LinkIn(h, f, i) <==> Link(f.cell, f.kids, i)) {
      assert f.kids[i] in f.kids;
    }
    hide Link, LinkIn;
  }

  /** Only `p` may have another first or last child, and only its children other siblings. */
  ghost predicate Nearby(h: map<PathNode, Links>, h': map<PathNode, Links>, p: PathNode, list: seq<PathNode>) {
    forall c :: c in h ==>
      && c in h' && h'[c].parent == h[c].parent && h'[c].use == h[c].use
      && (c != p ==> h'[c].children == h[c].children && h'[c].last == h[c].last)
      && (c !in list ==> h'[c].next == h[c].next && h'[c].prev == h[c].prev)
  }

  lemma HeldStill(h: map<PathNode, Links>, h': map<PathNode, Links>, p: PathNode, list: seq<PathNode>, f: Family)
    requires HeldIn(h, f) && Nearby(h, h', p, list) && f.cell != p && forall c :: c in f.kids ==> c !in list
    ensures HeldIn(h', f)
  {
    hide Apart;
    forall i | 0 <= i < |f.kids| ensures f.kids[i] in h' && LinkIn(h', f, i) {
      assert f.kids[i] in f.kids && LinkIn(h, f, i);
    }
  }

  lemma NoneApart(d: PathNode)
    ensures Apart(d, [])
  {
  }

  /** The whole tree after one list of siblings has a new node. */
  lemma StaysLinked(sh: Shape, x: Shape, k: nat, leaf: Shape, sh': Shape, h: map<PathNode, Links>)
    requires Tidy(sh) && k <= |x.kids| && Grew(sh, x, k, leaf, sh') && FamilyOf(x) in Families(sh)
    requires forall f :: f in Families(sh) ==> HeldIn(h, f)
    requires Nearby(h, Snapshot(Body(sh')), x.cell, Cells(x.kids)) && sh.cell in h && h[sh.cell].parent == null
    requires Linked(x.cell, Inserted(Cells(x.kids), k, leaf.cell)) && x.cell.use == x.use
    requires leaf.kids == [] && leaf.cell.children == null && leaf.cell.use == leaf.use
    ensures TreeLinked(sh')
  {
    hide Apart, Families, Body, Tidy, HeldIn, Nearby, Inserted;
    var h' := Snapshot(Body(sh'));
    FamilyBody(sh');
    forall f | f in Families(sh') ensures Held(f) {
      if f in Families(sh) && f.cell != x.cell {
        OthersApart(h, f, FamilyOf(x));
        HeldStill(h, h', x.cell, Cells(x.kids), f);
        HeldThen(Body(sh'), f);
      } else if f == FamilyOf(leaf) {
        NoneApart(leaf.cell);
      }
    }
    RootStill(h, h', x.cell, Cells(x.kids), sh.cell);
  }

  lemma OthersApart(h: map<PathNode, Links>, f: Family, g: Family)
    requires HeldIn(h, f) && HeldIn(h, g) && f.cell != g.cell
    ensures forall c :: c in f.kids ==> c !in g.kids
  {
    hide Apart;
    forall i, j | 0 <= i < |f.kids| && 0 <= j < |g.kids| ensures f.kids[i] != g.kids[j] {
      assert LinkIn(h, f, i) && LinkIn(h, g, j);
    }
  }

  lemma RootStill(h: map<PathNode, Links>, h': map<PathNode, Links>, p: PathNode, list: seq<PathNode>, root: PathNode)
    requires Nearby(h, h', p, list) && root in h && h[root].parent == null
    ensures root in h' && h'[root].parent == null
  {
  }

  /** urldb_add_path_node in the whole tree: all of it stays linked. */
  method AddLinked(p: PathNode, id: nat, segment: string, origin: Origin, ghost sh: Shape, ghost q: W.Cursor)
      returns (d: PathNode, ghost sh': Shape)
    requires TreeLinked(sh) && W.Valid(Value(sh), q) && ShapeAt(sh, q).cell == p
    requires forall c :: c in Body(sh) ==> allocated(c)
    modifies Body(sh)
    ensures fresh(d) && d.id == id && d.segment == segment && d.origin == origin
    ensures var k := Slot(Values(ShapeAt(sh, q).kids), segment);
            sh' == Grown(sh, q, k, Shape(d, UNUSED, [])) && Body(sh') == Body(sh) + {d}
    ensures TreeLinked(sh')
  {
    hide Slot, Families, Body, Tidy, W.Valid, ShapeAt, Value, Values, Grown, Shown, Apart, HeldIn, Inserted;
    ghost var x := ShapeAt(sh, q);
    ghost var list := Cells(x.kids);
    FamilyAt(sh, q);
    FamilyBody(sh);
    assert Held(FamilyOf(x));
    ghost var h := Snapshot(Body(sh));
    forall f | f in Families(sh) ensures HeldIn(h, f) {
      HeldThen(Body(sh), f);
    }
    assert sh.cell in Body(sh) by { Unfold(sh); }
    SlotShown(x.kids, segment);
    d := AddPathNode(p, id, segment, origin, list);
    ghost var k := Slot(Values(x.kids), segment);
    ghost var leaf := Shape(d, UNUSED, []);
    sh' := Grown(sh, q, k, leaf);
    GrownIs(sh, q, k, leaf);
    StaysLinked(sh, x, k, leaf, sh', h);
  }
}

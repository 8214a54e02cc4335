/** Sibling lists of path nodes as content/urldb.c links them: next and previous siblings, and
    in the parent the first and the last child. */
module PathNodes {
  import S = Strings
  import opened PathTree

  /** A node of a path tree; `id` stands for its address. */
  class PathNode {
    const id: nat
    const segment: string
    const origin: Origin
    var use: Use
    var next: PathNode?
    var prev: PathNode?
    var parent: PathNode?
    var children: PathNode?
    var last: PathNode?

    constructor (id: nat, segment: string, origin: Origin)
      ensures this.id == id && this.segment == segment && this.origin == origin && use == UNUSED
      ensures next == null && prev == null && parent == null && children == null && last == null
    {
      this.id, this.segment, this.origin, use := id, segment, origin, UNUSED;
      next, prev, parent, children, last := null, null, null, null, null;
    }
  }

  /** The node at a place of a list, or none outside it. */
  function Nth(list: seq<PathNode>, i: int): PathNode? {
    if 0 <= i < |list| then list[i] else null
  }

  /** The links of one node of a list. */
  ghost predicate Link(p: PathNode, list: seq<PathNode>, i: nat)
    requires i < |list|
    reads list
  {
    list[i].parent == p && list[i].next == Nth(list, i + 1) && list[i].prev == Nth(list, i - 1)
  }

  ghost predicate Apart(p: PathNode, list: seq<PathNode>) {
    p !in list && forall i, j :: 0 <= i < j < |list| ==> list[i] != list[j]
  }

  /** The children of `p` are linked as this list, in both directions. */
  ghost predicate Linked(p: PathNode, list: seq<PathNode>)
    reads p, list
  {
    && Apart(p, list)
    && p.children == Nth(list, 0)
    && (list != [] ==> p.last == list[|list| - 1])
    && forall i :: 0 <= i < |list| ==> Link(p, list, i)
  }

  /** The list as PathTree sees it, without what is below. */
  ghost function Shown(list: seq<PathNode>): (kids: seq<Node>)
    ensures |kids| == |list| && forall i :: 0 <= i < |list| ==>
        kids[i].segment == list[i].segment && kids[i].origin == list[i].origin
  {
    seq(|list|, i requires 0 <= i < |list| => Node(i, list[i].segment, list[i].origin, UNUSED, []))
  }

  lemma SlotIs(kids: seq<Node>, seg: string, k: nat)
    requires k <= |kids| && (k < |kids| ==> S.Compare(kids[k].segment, seg) > 0)
    requires forall j :: 0 <= j < k ==> S.Compare(kids[j].segment, seg) <= 0
    ensures Slot(kids, seg) == k
  {
  }

  /** The loop that looks for an existing entry. */
  method FindSame(p: PathNode, segment: string, origin: Origin, ghost list: seq<PathNode>) returns (e: PathNode?)
    requires Linked(p, list)
    ensures e == Nth(list, Position(Shown(list), segment, origin))
  {
    hide S.Compare, Position, Apart;
    e := p.children;
    ghost var i := 0;
    ghost var kids := Shown(list);
    while e != null && !(e.segment == segment && e.origin == origin)
      invariant 0 <= i <= |list| && e == Nth(list, i)
      invariant forall j :: 0 <= j < i ==> !(kids[j].segment == segment && kids[j].origin == origin)
      decreases |list| - i
    {
      assert Link(p, list, i);
      e := e.next;
      i := i + 1;
    }
    assert i == Position(kids, segment, origin);
  }

  /** The loop of urldb_add_path_node: the first sibling that compares greater. */
  method FindGreater(p: PathNode, segment: string, ghost list: seq<PathNode>) returns (e: PathNode?)
    requires Linked(p, list)
    ensures e == Nth(list, Slot(Shown(list), segment))
  {
    hide Slot, Apart;
    e := p.children;
    ghost var i := 0;
    ghost var kids := Shown(list);
    while e != null && S.Compare(e.segment, segment) <= 0
      invariant 0 <= i <= |list| && e == Nth(list, i)
      invariant forall j :: 0 <= j < i ==> S.Compare(kids[j].segment, segment) <= 0
      decreases |list| - i
    {
      assert Link(p, list, i);
      e := e.next;
      i := i + 1;
    }
    SlotIs(kids, segment, i);
  }

  /** The new node before another. */
  method LinkBefore(p: PathNode, e: PathNode, d: PathNode, ghost list: seq<PathNode>, ghost k: nat)
    requires Linked(p, list) && k < |list| && e == list[k] && d !in list && d != p
    modifies p`children, list`next, list`prev, d
    ensures Linked(p, Inserted(list, k, d)) && d.children == old(d.children) && d.use == old(d.use) && d.parent == p
  {
    hide Apart;
    ApartInserted(p, list, k, d);
    assert Link(p, list, k) && (k > 0 ==> Link(p, list, k - 1));
    Elsewhere(p, list, k);
    d.prev := e.prev;
    d.next := e;
    if e.prev != null { e.prev.next := d; } else { p.children := d; }
    e.prev := d;
    d.parent := p;
    forall i | 0 <= i < |list| + 1 ensures Link(p, Inserted(list, k, d), i) {
      if i < k {
        assert old(Link(p, list, i));
      } else if i > k {
        assert old(Link(p, list, i - 1));
      }
    }
  }

  /** The new node after all others. */
  method LinkLast(p: PathNode, d: PathNode, ghost list: seq<PathNode>)
    requires Linked(p, list) && d !in list && d != p && d.next == null && d.prev == null
    modifies p`children, p`last, list`next, d
    ensures Linked(p, Inserted(list, |list|, d)) && d.children == old(d.children) && d.use == old(d.use)
            && d.parent == p
  {
    hide Apart;
    ApartInserted(p, list, |list|, d);
    assert list != [] ==> Link(p, list, |list| - 1);
    if list != [] { Elsewhere(p, list, |list| - 1); }
    if p.children == null {
      p.children := d;
      p.last := d;
    } else {
      d.next := null;
      d.prev := p.last;
      p.last.next := d;
      p.last := d;
    }
    d.parent := p;
    forall i | 0 <= i < |list| + 1 ensures Link(p, Inserted(list, |list|, d), i) {
      assert i < |list| ==> old(Link(p, list, i));
    }
  }

  lemma Elsewhere(p: PathNode, list: seq<PathNode>, k: nat)
    requires Apart(p, list) && k < |list|
    ensures forall i :: 0 <= i < |list| && i != k ==> list[i] != list[k]
    ensures k > 0 ==> forall i :: 0 <= i < |list| && i != k - 1 ==> list[i] != list[k - 1]
    ensures p !in list
  {
  }

  /** urldb_add_path_node: the new node is linked in before the first sibling that compares
      greater, or at the end, and only the links around it change. */
  method AddPathNode(p: PathNode, id: nat, segment: string, origin: Origin, ghost list: seq<PathNode>)
      returns (d: PathNode)
    requires Linked(p, list) && forall n :: n in list ==> allocated(n)
    modifies p`children, p`last, list`next, list`prev
    ensures fresh(d) && d.id == id && d.segment == segment && d.origin == origin && d.use == UNUSED
            && d.children == null
    ensures Linked(p, Inserted(list, Slot(Shown(list), segment), d)) && d.parent == p
  {
    hide Slot, S.Compare, Shown, Apart, Inserted;
    var e := FindGreater(p, segment, list);
    d := new PathNode(id, segment, origin);
    if e != null {
      LinkBefore(p, e, d, list, Slot(Shown(list), segment));
    } else {
      LinkLast(p, d, list);
    }
  }

  lemma ApartInserted(p: PathNode, list: seq<PathNode>, k: nat, d: PathNode)
    requires Apart(p, list) && k <= |list| && d !in list && d != p
    ensures Apart(p, Inserted(list, k, d))
  {
  }
}

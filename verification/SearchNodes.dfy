/** The search index of content/urldb.c as the linked, rotated-in-place nodes of the source.

    Each operation on nodes is proved to leave exactly the tree that the corresponding
    function of SearchTree computes; the nodes outside the tree are not touched.
 */
module SearchNodes {
  import opened HostOrder
  import opened SearchTree

  class Cell {
    const data: Host
    var level: nat
    var left: Cell
    var right: Cell

    /** The node that stands for every missing child: level 0, its own left and right. */
    constructor Sentinel()
      ensures IsSentinel()
    {
      data, level, left, right := Root, 0, this, this;
    }

    constructor (data: Host, empty: Cell)
      ensures this.data == data && level == 1 && left == empty && right == empty
    {
      this.data, level, left, right := data, 1, empty, empty;
    }

    ghost predicate IsSentinel()
      reads this
    {
      level == 0 && left == this && right == this
    }
  }

  /** The tree value together with the nodes that hold it. */
  datatype Shape = Nil | At(cell: Cell, left: Shape, data: Host, level: nat, right: Shape)

  ghost function Cells(sh: Shape): set<Cell> {
    if sh.Nil? then {} else {sh.cell} + Cells(sh.left) + Cells(sh.right)
  }

  ghost function Value(sh: Shape): Tree {
    if sh.Nil? then Empty else Node(Value(sh.left), sh.data, sh.level, Value(sh.right))
  }

  /** The nodes from `n` on hold the tree, none of them twice, with `empty` at its ends. */
  ghost predicate Linked(sh: Shape, n: Cell, empty: Cell)
    reads Cells(sh)
    decreases sh
  {
    if sh.Nil? then n == empty
    else
      && n == sh.cell && n != empty
      && n !in Cells(sh.left) && n !in Cells(sh.right) && Cells(sh.left) !! Cells(sh.right)
      && n.data == sh.data && n.level == sh.level
      && Linked(sh.left, n.left, empty) && Linked(sh.right, n.right, empty)
  }

  lemma {:induction false} SentinelOutside(sh: Shape, n: Cell, empty: Cell)
    requires Linked(sh, n, empty)
    ensures empty !in Cells(sh)
  {
    if sh.At? {
      SentinelOutside(sh.left, n.left, empty);
      SentinelOutside(sh.right, n.right, empty);
    }
  }

  lemma LevelHeld(sh: Shape, n: Cell, empty: Cell)
    requires empty.IsSentinel() && Linked(sh, n, empty)
    ensures n.level == Level(Value(sh))
  {
  }

  /** urldb_search_skew. */
  method SkewCells(root: Cell, empty: Cell, ghost sh: Shape) returns (r: Cell, ghost sh': Shape)
    requires empty.IsSentinel() && sh.At? && sh.level > 0 && Linked(sh, root, empty)
    modifies Cells(sh)
    ensures empty.IsSentinel() && Linked(sh', r, empty)
    ensures Value(sh') == Skew(Value(sh)) && Cells(sh') == Cells(sh)
  {
    SentinelOutside(sh, root, empty);
    r, sh' := root, sh;
    if root.left.level == root.level {
      ghost var l := sh.left;
      assert l.At?;
      r := root.left;
      root.left := r.right;
      r.right := root;
      sh' := At(r, l.left, l.data, l.level, At(root, l.right, sh.data, sh.level, sh.right));
    }
  }

  /** urldb_search_split. */
  method SplitCells(root: Cell, empty: Cell, ghost sh: Shape) returns (r: Cell, ghost sh': Shape)
    requires empty.IsSentinel() && sh.At? && sh.level > 0 && Linked(sh, root, empty)
    modifies Cells(sh)
    ensures empty.IsSentinel() && Linked(sh', r, empty)
    ensures Value(sh') == SearchTree.Split(Value(sh)) && Cells(sh') == Cells(sh)
  {
    SentinelOutside(sh, root, empty);
    r, sh' := root, sh;
    if sh.right.At? {
      assert root.right.right.level == Level(Value(sh.right.right)) by {
        LevelHeld(sh.right.right, root.right.right, empty);
      }
    }
    if root.right.right.level == root.level {
      ghost var q := sh.right;
      assert q.At?;
      r := root.right;
      root.right := r.left;
      r.left := root;
      r.level := r.level + 1;
      sh' := At(r, At(root, sh.left, sh.data, sh.level, q.left), q.data, q.level + 1, q.right);
    }
  }

  method Rebalance(root: Cell, empty: Cell, ghost sh: Shape) returns (r: Cell, ghost sh': Shape)
    requires empty.IsSentinel() && sh.At? && sh.level > 0 && Linked(sh, root, empty)
    modifies Cells(sh)
    ensures empty.IsSentinel() && Linked(sh', r, empty)
    ensures Value(sh') == SearchTree.Split(Skew(Value(sh))) && Cells(sh') == Cells(sh)
  {
    hide Skew, SearchTree.Split;
    SkewLevel(Value(sh));
    r, sh' := SkewCells(root, empty, sh);
    r, sh' := SplitCells(r, empty, sh');
  }

  /** urldb_search_insert_internal: `n` is a new node at level 1. */
  method InsertCell(root: Cell, n: Cell, empty: Cell, ghost sh: Shape) returns (r: Cell, ghost sh': Shape)
    requires empty.IsSentinel() && Linked(sh, root, empty) && Balanced(Value(sh))
    requires forall c :: c in Cells(sh) ==> allocated(c)
    requires n != empty && n !in Cells(sh) && n.level == 1 && n.left == empty && n.right == empty
    modifies Cells(sh), n
    ensures empty.IsSentinel() && Linked(sh', r, empty)
    ensures Value(sh') == Insert(Value(sh), n.data)
    ensures Cells(sh') <= Cells(sh) + {n}
    decreases sh, 1
  {
    hide Compare, Skew, SearchTree.Split, Balanced;
    SentinelOutside(sh, root, empty);
    r, sh' := root, sh;
    if root == empty {
      r, sh' := n, At(n, Nil, n.data, 1, Nil);
    } else {
      var c := MatchHost(root.data, n.data);
      if c > 0 {
        r, sh' := InsertLeft(root, n, empty, sh);
      } else if c < 0 {
        r, sh' := InsertRight(root, n, empty, sh);
      }
    }
  }

  method InsertLeft(root: Cell, n: Cell, empty: Cell, ghost sh: Shape) returns (r: Cell, ghost sh': Shape)
    requires empty.IsSentinel() && Linked(sh, root, empty) && Balanced(Value(sh)) && sh.At?
    requires forall c :: c in Cells(sh) ==> allocated(c)
    requires n != empty && n !in Cells(sh) && n.level == 1 && n.left == empty && n.right == empty
    modifies Cells(sh), n
    ensures empty.IsSentinel() && Linked(sh', r, empty)
    ensures var t := Value(sh);
            Value(sh') == SearchTree.Split(Skew(t.(left := Insert(t.left, n.data))))
    ensures Cells(sh') <= Cells(sh) + {n}
    decreases sh, 0
  {
    hide Compare, Skew, SearchTree.Split, Balanced, Insert;
    SentinelOutside(sh, root, empty);
    Opened(Value(sh));
    ghost var l;
    var left;
    left, l := InsertCell(root.left, n, empty, sh.left);
    root.left := left;
    r, sh' := Rebalance(root, empty, At(root, l, sh.data, sh.level, sh.right));
  }

  method InsertRight(root: Cell, n: Cell, empty: Cell, ghost sh: Shape) returns (r: Cell, ghost sh': Shape)
    requires empty.IsSentinel() && Linked(sh, root, empty) && Balanced(Value(sh)) && sh.At?
    requires forall c :: c in Cells(sh) ==> allocated(c)
    requires n != empty && n !in Cells(sh) && n.level == 1 && n.left == empty && n.right == empty
    modifies Cells(sh), n
    ensures empty.IsSentinel() && Linked(sh', r, empty)
    ensures var t := Value(sh);
            Value(sh') == SearchTree.Split(Skew(t.(right := Insert(t.right, n.data))))
    ensures Cells(sh') <= Cells(sh) + {n}
    decreases sh, 0
  {
    hide Compare, Skew, SearchTree.Split, Balanced, Insert;
    SentinelOutside(sh, root, empty);
    Opened(Value(sh));
    ghost var q;
    var right;
    right, q := InsertCell(root.right, n, empty, sh.right);
    root.right := right;
    r, sh' := Rebalance(root, empty, At(root, sh.left, sh.data, sh.level, q));
  }

  lemma SkewLevel(t: Tree)
    requires t.Node?
    ensures Skew(t).Node? && Skew(t).level == t.level
  {
  }

  /** urldb_search_insert. */
  method InsertHost(root: Cell, h: Host, empty: Cell, ghost sh: Shape) returns (r: Cell, ghost sh': Shape)
    requires empty.IsSentinel() && Linked(sh, root, empty) && Balanced(Value(sh))
    requires forall c :: c in Cells(sh) ==> allocated(c)
    modifies Cells(sh)
    ensures empty.IsSentinel() && Linked(sh', r, empty)
    ensures Value(sh') == Insert(Value(sh), h) && Balanced(Value(sh'))
    ensures fresh(Cells(sh') - Cells(sh)) && forall c :: c in Cells(sh') ==> allocated(c)
  {
    var n := new Cell(h, empty);
    r, sh' := InsertCell(root, n, empty, sh);
    InsertBalanced(Value(sh), h);
  }
}

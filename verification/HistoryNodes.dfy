/** The layout and the search as they work on linked history entries
    (desktop/browser_history.c and desktop/local_history.c). */
module HistoryNodes {
  import opened Options
  import opened HistoryLayout
  import opened HistoryShape

  /** An entry, with its first child and its next sibling.  Layout and search do not relink. */
  class HistoryEntry {
    var x: int
    var y: int
    const forward: HistoryEntry?
    const next: HistoryEntry?

    constructor (forward: HistoryEntry?, next: HistoryEntry?)
      ensures this.forward == forward && this.next == next
    {
      x, y, this.forward, this.next := 0, 0, forward, next;
    }
  }

  class History {
    var width: int
    var height: int
    const start: HistoryEntry?

    constructor (start: HistoryEntry?)
      ensures this.start == start
    {
      width, height, this.start := 0, 0, start;
    }
  }

  ghost function Nodes(t: Tree<HistoryEntry>): set<HistoryEntry>
    decreases t, 1
  {
    {t.e} + NodesAll(t.kids)
  }

  ghost function NodesAll(ts: seq<Tree<HistoryEntry>>): set<HistoryEntry>
    decreases ts, 0
  {
    if ts == [] then {} else Nodes(ts[0]) + NodesAll(ts[1..])
  }

  /** The entries are linked as the tree says, and none occurs twice. */
  ghost predicate Linked(t: Tree<HistoryEntry>)
    decreases t, 1
  {
    t.e !in NodesAll(t.kids) && LinkedAll(t.kids, t.e.forward)
  }

  /** From `first` on the next links lead from one to the other. */
  ghost predicate LinkedAll(ts: seq<Tree<HistoryEntry>>, first: HistoryEntry?)
    decreases ts, 0
  {
    if ts == [] then first == null
    else
      && first == ts[0].e && Linked(ts[0]) && Nodes(ts[0]) !! NodesAll(ts[1..])
      && LinkedAll(ts[1..], ts[0].e.next)
  }

  /** The entry at a place, or none at the end. */
  ghost function Nth(ts: seq<Tree<HistoryEntry>>, i: nat): HistoryEntry? {
    if i < |ts| then ts[i].e else null
  }

  /** The positions as the entries hold them. */
  ghost function Read(t: Tree<HistoryEntry>): Placed<HistoryEntry>
    reads Nodes(t)
    decreases t, 1
  {
    Placed(t.e, t.e.x, t.e.y, ReadAll(t.kids))
  }

  ghost function ReadAll(ts: seq<Tree<HistoryEntry>>): seq<Placed<HistoryEntry>>
    reads NodesAll(ts)
    decreases ts, 0
  {
    if ts == [] then [] else [Read(ts[0])] + ReadAll(ts[1..])
  }

  lemma {:induction false} NodesSplit(ts: seq<Tree<HistoryEntry>>, first: HistoryEntry?, i: nat)
    requires LinkedAll(ts, first) && i < |ts|
    ensures Linked(ts[i]) && ts[i].e.next == Nth(ts, i + 1)
    ensures Nodes(ts[i]) <= NodesAll(ts) && NodesAll(ts[..i]) <= NodesAll(ts) && Nodes(ts[i]) !! NodesAll(ts[..i])
  {
    if i > 0 {
      NodesSplit(ts[1..], ts[0].e.next, i - 1);
      assert ts[..i][1..] == ts[1..][..i - 1];
    }
  }

  lemma {:induction false} ReadAppend(ts: seq<Tree<HistoryEntry>>, i: nat)
    requires i < |ts|
    ensures ReadAll(ts[..i + 1]) == ReadAll(ts[..i]) + [Read(ts[i])]
  {
    if i > 0 {
      ReadAppend(ts[1..], i - 1);
      assert ts[..i + 1][1..] == ts[1..][..i] && ts[..i][1..] == ts[1..][..i - 1];
    } else {
      assert ts[..1][1..] == [] && ts[..0] == [];
    }
  }

  lemma LinkedParts(t: Tree<HistoryEntry>)
    requires Linked(t)
    ensures t.e !in NodesAll(t.kids) && LinkedAll(t.kids, t.e.forward) && t.e.forward == Nth(t.kids, 0)
    ensures Nodes(t) == {t.e} + NodesAll(t.kids)
  {
  }

  lemma LayoutFirst<E>(m: Metrics, ts: seq<Tree<E>>, x: int, y: int, width: int)
    requires ts != []
    ensures var r := Layout(m, ts[0], x, y, width);
            var rest := LayoutAll(m, ts[1..], x, if |ts| > 1 then r.y1 + m.bottom else r.y1, r.width);
            LayoutAll(m, ts, x, y, width) == Results([r.p] + rest.ps, rest.y1, rest.width)
    ensures LayoutAll(m, ts[..0], x, y, width) == Results([], y, width)
  {
  }

  /** The loop over the children of an entry. */
  method LayoutChildren(history: History, m: Metrics, entry: HistoryEntry, x: int, y: int, ghost t: Tree<HistoryEntry>)
      returns (y1: int)
    requires Linked(t) && entry == t.e && t.kids != [] && forall n :: n in Nodes(t) ==> allocated(n)
    modifies NodesAll(t.kids), history`width
    ensures Results(ReadAll(t.kids), y1, history.width) == LayoutAll(m, t.kids, x, y, old(history.width))
    decreases t, 0
  {
    hide Layout, LayoutAll, Linked, Nodes, NodesAll, LinkedAll, Read, Flat, Spans, AllInPlace;
    LinkedParts(t);
    y1 := y;
    ghost var total := LayoutAll(m, t.kids, x, y, history.width);
    assert t.kids[0..] == t.kids && t.kids[..0] == [];
    var child := entry.forward;
    ghost var i := 0;
    while child != null
      invariant 0 <= i <= |t.kids| && child == Nth(t.kids, i)
      invariant var rest := LayoutAll(m, t.kids[i..], x, y1, history.width);
                rest.y1 == total.y1 && rest.width == total.width && ReadAll(t.kids[..i]) + rest.ps == total.ps
      decreases |t.kids| - i
    {
      NodesSplit(t.kids, entry.forward, i);
      LayoutFirst(m, t.kids[i..], x, y1, history.width);
      assert t.kids[i..][0] == t.kids[i] && t.kids[i..][1..] == t.kids[i + 1..];
      ghost var done := ReadAll(t.kids[..i]);
      y1 := LayoutSubtree(history, m, child, x, y1, t.kids[i]);
      assert ReadAll(t.kids[..i]) == done;
      ReadAppend(t.kids, i);
      if child.next != null { y1 := y1 + m.bottom; }
      child := child.next;
      i := i + 1;
    }
    assert t.kids[..i] == t.kids && t.kids[i..] == t.kids[..0];
    LayoutFirst(m, t.kids, x, y1, history.width);
  }

  method LayoutSubtree(history: History, m: Metrics, entry: HistoryEntry, x: int, y: int, ghost t: Tree<HistoryEntry>)
      returns (y1: int)
    requires Linked(t) && entry == t.e && forall n :: n in Nodes(t) ==> allocated(n)
    modifies Nodes(t), history`width
    ensures Result(Read(t), y1, history.width) == Layout(m, t, x, y, old(history.width))
    ensures Positive(m) && y >= 0 ==>
              Read(t).x == x && Spans(m, Flat(Read(t)), y, y1) && AllInPlace(m, Flat(Read(t)))
    decreases t, 1
  {
    hide LayoutAll, ReadAll, NodesAll, LinkedAll, Flat, Spans, AllInPlace;
    if Positive(m) && y >= 0 { LayoutShape(m, t, x, y, history.width); }
    LinkedParts(t);
    if history.width < x + m.w { history.width := x + m.w; }
    if entry.forward == null {
      entry.x, entry.y := x, y;
      assert ReadAll(t.kids) == [] by { ReadNone(); }
      return y + m.h;
    }
    y1 := LayoutChildren(history, m, entry, x + m.w + m.right, y, t);
    entry.x, entry.y := x, (y + y1) / 2 - m.h / 2;
  }

  lemma ReadNone()
    ensures ReadAll([]) == []
  {
  }

  /** The tree below an entry, or none below no entry. */
  ghost predicate Holds(entry: HistoryEntry?, t: Option<Tree<HistoryEntry>>)
    reads if t.Some? then Nodes(t.value) else {}
  {
    match t
    case None => entry == null
    case Some(t) => entry == t.e && Linked(t)
  }

  /** browser_window_history__layout; a history without entries has no more than margins. */
  method LayoutWhole(history: History, m: Metrics, ghost t: Option<Tree<HistoryEntry>>)
    requires Holds(history.start, t)
    requires t.Some? ==> forall n :: n in Nodes(t.value) ==> allocated(n)
    modifies if t.Some? then Nodes(t.value) else {}, history
    ensures t.Some? ==> (Read(t.value), history.width, history.height) == LayoutHistory(m, t.value)
    ensures t.Some? && Positive(m) ==>
              Bare(Read(t.value)) == t.value && WellPlaced(m, Read(t.value), history.width, history.height)
    ensures t.None? ==> history.width == m.right / 2 && history.height == m.bottom / 2
  {
    hide WellPlaced, Bare, Flat, Spans, AllInPlace;
    if t.Some? && Positive(m) { LayoutPlaces(m, t.value); }
    history.width := 0;
    var height := 0;
    if history.start != null {
      height := LayoutSubtree(history, m, history.start, m.right / 2, m.bottom / 2, t.value);
    }
    history.height := height + m.bottom / 2;
    history.width := history.width + m.right / 2;
  }

  /** find_entry_position, which is also asked of no entry. */
  method FindPosition(m: Metrics, entry: HistoryEntry?, x: int, y: int, ghost t: Option<Tree<HistoryEntry>>)
      returns (found: HistoryEntry?)
    requires Holds(entry, t)
    requires t.Some? ==> forall n :: n in Nodes(t.value) ==> allocated(n)
    ensures t.None? ==> found == null
    ensures t.Some? ==> match Find(m, Read(t.value), x, y) case None => found == null case Some(p) => found == p.e
  {
    if entry == null { return null; }
    found := FindEntry(m, entry, x, y, t.value);
  }

  /** find_entry_position on the entries themselves. */
  method FindEntry(m: Metrics, entry: HistoryEntry, x: int, y: int, ghost t: Tree<HistoryEntry>)
      returns (found: HistoryEntry?)
    requires Linked(t) && entry == t.e && forall n :: n in Nodes(t) ==> allocated(n)
    ensures match Find(m, Read(t), x, y) case None => found == null case Some(p) => found == p.e
    decreases t
  {
    hide FindAll, Nodes, NodesAll, Linked, LinkedAll, ReadAll;
    LinkedParts(t);
    if entry.x <= x <= entry.x + m.w && entry.y <= y <= entry.y + m.h { return entry; }
    assert t.kids[0..] == t.kids;
    var child := entry.forward;
    ghost var i := 0;
    while child != null
      invariant 0 <= i <= |t.kids| && child == Nth(t.kids, i)
      invariant FindAll(m, ReadAll(t.kids[i..]), x, y) == FindAll(m, ReadAll(t.kids), x, y)
      decreases |t.kids| - i
    {
      NodesSplit(t.kids, entry.forward, i);
      NodesTail(t.kids, i);
      FindHead(m, t.kids[i..], x, y);
      assert t.kids[i..][0] == t.kids[i] && t.kids[i..][1..] == t.kids[i + 1..];
      found := FindEntry(m, child, x, y, t.kids[i]);
      if found != null { return; }
      child := child.next;
      i := i + 1;
    }
    FindHead(m, t.kids[i..], x, y);
    found := null;
  }

  lemma {:induction false} NodesTail(ts: seq<Tree<HistoryEntry>>, i: nat)
    requires i < |ts|
    ensures NodesAll(ts[i + 1..]) <= NodesAll(ts)
  {
    if i > 0 {
      NodesTail(ts[1..], i - 1);
      assert ts[1..][i..] == ts[i + 1..];
    }
  }

  lemma FindHead(m: Metrics, ts: seq<Tree<HistoryEntry>>, x: int, y: int)
    ensures FindAll(m, ReadAll(ts), x, y) ==
              if ts == [] then None
              else if Find(m, Read(ts[0]), x, y).Some? then Find(m, Read(ts[0]), x, y)
              else FindAll(m, ReadAll(ts[1..]), x, y)
  {
    if ts != [] { assert ReadAll(ts)[1..] == ReadAll(ts[1..]); }
  }
}

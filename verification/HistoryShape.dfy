/** Where the layout of the local history puts each entry (desktop/browser_history.c): columns by
    depth, parents midway beside what is below them, siblings one gap apart, nothing to spare. */
module HistoryShape {
  import opened HistoryLayout

  /** `top` is the least y of some entries, and `bottom` the greatest lower edge. */
  ghost predicate Spans<E>(m: Metrics, s: seq<Placed<E>>, top: int, bottom: int) {
    && (exists i :: 0 <= i < |s| && s[i].y == top) && (exists i :: 0 <= i < |s| && s[i].y + m.h == bottom)
    && forall i :: 0 <= i < |s| ==> top <= s[i].y && s[i].y + m.h <= bottom
  }

  /** The span of some entries is theirs alone. */
  lemma SpanUnique<E>(m: Metrics, s: seq<Placed<E>>, top: int, bottom: int, top': int, bottom': int)
    requires Spans(m, s, top, bottom) && Spans(m, s, top', bottom')
    ensures top == top' && bottom == bottom'
  {
  }

  /** The middle of the entry is the middle of what is below it. */
  ghost predicate Midway<E>(m: Metrics, p: Placed<E>) {
    exists top, bottom :: Spans(m, FlatAll(p.kids), top, bottom) && p.y + m.h / 2 == (top + bottom) / 2
  }

  /** What is below each child but the first, the child included, starts one gap under what is below
      the one before. */
  ghost predicate Stacked<E>(m: Metrics, ps: seq<Placed<E>>) {
    forall i :: 0 <= i < |ps| - 1 ==> Under(m, ps[i], ps[i + 1])
  }

  ghost predicate Under<E>(m: Metrics, p: Placed<E>, q: Placed<E>) {
    exists top, mid, from, bottom ::
      Spans(m, Flat(p), top, mid) && Spans(m, Flat(q), from, bottom) && from == mid + m.bottom
  }

  /** Some entries start at this height. */
  ghost predicate StartsAt<E>(m: Metrics, s: seq<Placed<E>>, top: int) {
    exists bottom :: Spans(m, s, top, bottom)
  }

  predicate Column<E>(m: Metrics, p: Placed<E>) {
    forall i :: 0 <= i < |p.kids| ==> p.kids[i].x == p.x + m.w + m.right
  }

  /** An entry is in place beside its children. */
  ghost predicate InPlace<E>(m: Metrics, p: Placed<E>) {
    Column(m, p) && Stacked(m, p.kids) && (p.kids != [] ==> Midway(m, p))
  }

  ghost predicate AllInPlace<E>(m: Metrics, s: seq<Placed<E>>) {
    forall i :: 0 <= i < |s| ==> InPlace(m, s[i])
  }

  /** The history that was laid out. */
  function Bare<E>(p: Placed<E>): Tree<E>
    decreases p, 1
  {
    Tree(p.e, BareAll(p.kids))
  }

  function BareAll<E>(ps: seq<Placed<E>>): seq<Tree<E>>
    decreases ps, 0
  {
    if ps == [] then [] else [Bare(ps[0])] + BareAll(ps[1..])
  }

  lemma {:induction false} LayoutBare<E>(m: Metrics, t: Tree<E>, x: int, y: int, width: int)
    ensures Bare(Layout(m, t, x, y, width).p) == t
    decreases t, 1
  {
    if t.kids != [] { LayoutAllBare(m, t.kids, x + m.w + m.right, y, Widen(m, x, width)); }
  }

  lemma {:induction false} LayoutAllBare<E>(m: Metrics, ts: seq<Tree<E>>, x: int, y: int, width: int)
    ensures BareAll(LayoutAll(m, ts, x, y, width).ps) == ts
    decreases ts, 0
  {
    if ts != [] {
      var r := Layout(m, ts[0], x, y, width);
      var gap := if |ts| > 1 then r.y1 + m.bottom else r.y1;
      LayoutBare(m, ts[0], x, y, width);
      LayoutAllBare(m, ts[1..], x, gap, r.width);
      var all := LayoutAll(m, ts, x, y, width).ps;
      assert all[0] == r.p && all[1..] == LayoutAll(m, ts[1..], x, gap, r.width).ps;
    }
  }

  // ---------------------------------------------------------------- spans

  lemma SpanJoin<E>(m: Metrics, a: seq<Placed<E>>, b: seq<Placed<E>>, top: int, mid: int, from: int, bottom: int)
    requires Spans(m, a, top, mid) && Spans(m, b, from, bottom) && top <= from && mid <= bottom
    ensures Spans(m, a + b, top, bottom)
  {
    var s := a + b;
    var i :| 0 <= i < |a| && a[i].y == top;
    assert s[i].y == top;
    var j :| 0 <= j < |b| && b[j].y + m.h == bottom;
    assert s[|a| + j].y + m.h == bottom;
  }

  /** An entry within the span of those below it changes nothing. */
  lemma SpanWithin<E>(m: Metrics, p: Placed<E>, b: seq<Placed<E>>, top: int, bottom: int)
    requires Spans(m, b, top, bottom) && top <= p.y && p.y + m.h <= bottom
    ensures Spans(m, [p] + b, top, bottom)
  {
    var s := [p] + b;
    var i :| 0 <= i < |b| && b[i].y == top;
    assert s[1 + i].y == top;
    var j :| 0 <= j < |b| && b[j].y + m.h == bottom;
    assert s[1 + j].y + m.h == bottom;
  }

  lemma SpanOne<E>(m: Metrics, p: Placed<E>)
    ensures Spans(m, [p], p.y, p.y + m.h)
  {
    assert [p][0] == p;
  }

  lemma InPlaceJoin<E>(m: Metrics, a: seq<Placed<E>>, b: seq<Placed<E>>)
    requires AllInPlace(m, a) && AllInPlace(m, b)
    ensures AllInPlace(m, a + b)
  {
    hide InPlace;
  }

  lemma FlatSplit<E>(p: Placed<E>, rest: seq<Placed<E>>)
    ensures FlatAll([p] + rest) == Flat(p) + FlatAll(rest)
  {
    assert ([p] + rest)[1..] == rest;
  }

  // ---------------------------------------------------------------- layout

  /** A subtree fills its band from top to bottom, starts at its column, and its entries are in
      place. */
  lemma {:induction false} LayoutShape<E>(m: Metrics, t: Tree<E>, x: int, y: int, width: int)
    requires Positive(m) && y >= 0
    ensures var r := Layout(m, t, x, y, width);
            r.p.x == x && y + m.h <= r.y1 && Spans(m, Flat(r.p), y, r.y1) && AllInPlace(m, Flat(r.p))
    decreases t, 1
  {
    var r := Layout(m, t, x, y, width);
    if t.kids == [] {
      assert FlatAll(r.p.kids) == [] && Flat(r.p) == [r.p];
      SpanOne(m, r.p);
    } else {
      hide Spans, InPlace;
      LayoutAllShape(m, t.kids, x + m.w + m.right, y, Widen(m, x, width));
      Middle(y, r.y1, m.h);
      SpanWithin(m, r.p, FlatAll(r.p.kids), y, r.y1);
      ParentInPlace(m, r.p, y, r.y1);
      InPlaceJoin(m, [r.p], FlatAll(r.p.kids));
    }
  }

  lemma ParentInPlace<E>(m: Metrics, p: Placed<E>, top: int, bottom: int)
    requires Spans(m, FlatAll(p.kids), top, bottom) && p.y == (top + bottom) / 2 - m.h / 2
    requires Column(m, p) && Stacked(m, p.kids)
    ensures InPlace(m, p)
  {
    hide Spans, Stacked;
    assert p.y + m.h / 2 == (top + bottom) / 2;
  }

  /** Siblings of one column that fill their band. */
  ghost predicate Row<E>(m: Metrics, ps: seq<Placed<E>>, x: int, y: int, y1: int) {
    && (forall i :: 0 <= i < |ps| ==> ps[i].x == x)
    && Stacked(m, ps) && AllInPlace(m, FlatAll(ps))
    && (ps != [] ==> y + m.h <= y1 && Spans(m, FlatAll(ps), y, y1) && StartsAt(m, Flat(ps[0]), y))
  }

  lemma RowJoin<E>(m: Metrics, p: Placed<E>, rest: seq<Placed<E>>, x: int, y: int, y1: int, gap: int, y2: int)
    requires Positive(m) && p.x == x && y + m.h <= y1 && Spans(m, Flat(p), y, y1) && AllInPlace(m, Flat(p))
    requires Row(m, rest, x, gap, y2) && if rest == [] then y2 == y1 else gap == y1 + m.bottom
    ensures Row(m, [p] + rest, x, y, y2)
  {
    hide Spans, AllInPlace, Stacked, Flat;
    FlatSplit(p, rest);
    InPlaceJoin(m, Flat(p), FlatAll(rest));
    StackFirst(m, p, rest, y, y1);
    assert StartsAt(m, Flat(p), y);
    if rest == [] {
      assert Flat(p) + [] == Flat(p);
    } else {
      SpanJoin(m, Flat(p), FlatAll(rest), y, y1, gap, y2);
    }
  }

  lemma {:induction false} LayoutAllShape<E>(m: Metrics, ts: seq<Tree<E>>, x: int, y: int, width: int)
    requires Positive(m) && y >= 0
    ensures var r := LayoutAll(m, ts, x, y, width); |r.ps| == |ts| && Row(m, r.ps, x, y, r.y1)
    decreases ts, 0
  {
    if ts != [] {
      hide Spans, AllInPlace, Layout, Row, Flat;
      var a := Layout(m, ts[0], x, y, width);
      LayoutShape(m, ts[0], x, y, width);
      var gap := if |ts| > 1 then a.y1 + m.bottom else a.y1;
      LayoutAllShape(m, ts[1..], x, gap, a.width);
      var rest := LayoutAll(m, ts[1..], x, gap, a.width);
      RowJoin(m, a.p, rest.ps, x, y, a.y1, gap, rest.y1);
    }
  }

  lemma StackFirst<E>(m: Metrics, p: Placed<E>, rest: seq<Placed<E>>, top: int, mid: int)
    requires Stacked(m, rest) && Spans(m, Flat(p), top, mid)
    requires rest != [] ==> StartsAt(m, Flat(rest[0]), mid + m.bottom)
    ensures Stacked(m, [p] + rest)
  {
    hide Spans;
    var ps := [p] + rest;
    forall i | 0 <= i < |ps| - 1 ensures Under(m, ps[i], ps[i + 1]) {
      if i > 0 { assert Under(m, rest[i - 1], rest[i]); }
    }
  }

  // ---------------------------------------------------------------- the whole history

  /** `right` is the greatest right edge. */
  ghost predicate Reaches<E>(m: Metrics, s: seq<Placed<E>>, right: int) {
    (exists i :: 0 <= i < |s| && s[i].x + m.w == right) && forall i :: 0 <= i < |s| ==> s[i].x + m.w <= right
  }

  /** The width is that of some entry, unless there was that much before. */
  lemma {:induction false} LayoutWidth<E>(m: Metrics, t: Tree<E>, x: int, y: int, width: int)
    ensures var r := Layout(m, t, x, y, width);
            r.width == width || exists i :: 0 <= i < |Flat(r.p)| && Flat(r.p)[i].x + m.w == r.width
    decreases t, 1
  {
    var r := Layout(m, t, x, y, width);
    if t.kids == [] {
      assert Flat(r.p)[0].x == x;
    } else {
      var w := Widen(m, x, width);
      LayoutAllWidth(m, t.kids, x + m.w + m.right, y, w);
      var below := FlatAll(r.p.kids);
      if r.width == w {
        assert Flat(r.p)[0].x == x;
      } else {
        var i :| 0 <= i < |below| && below[i].x + m.w == r.width;
        assert Flat(r.p)[1 + i] == below[i];
      }
    }
  }

  lemma {:induction false} LayoutAllWidth<E>(m: Metrics, ts: seq<Tree<E>>, x: int, y: int, width: int)
    ensures var r := LayoutAll(m, ts, x, y, width);
            r.width == width || exists i :: 0 <= i < |FlatAll(r.ps)| && FlatAll(r.ps)[i].x + m.w == r.width
    decreases ts, 0
  {
    if ts != [] {
      hide Layout;
      var a := Layout(m, ts[0], x, y, width);
      var gap := if |ts| > 1 then a.y1 + m.bottom else a.y1;
      LayoutWidth(m, ts[0], x, y, width);
      LayoutAllWidth(m, ts[1..], x, gap, a.width);
      var rest := LayoutAll(m, ts[1..], x, gap, a.width);
      FlatSplit(a.p, rest.ps);
      var all := Flat(a.p) + FlatAll(rest.ps);
      if rest.width != a.width {
        var i :| 0 <= i < |FlatAll(rest.ps)| && FlatAll(rest.ps)[i].x + m.w == rest.width;
        assert all[|Flat(a.p)| + i] == FlatAll(rest.ps)[i];
      } else if rest.width != width {
        var i :| 0 <= i < |Flat(a.p)| && Flat(a.p)[i].x + m.w == rest.width;
        assert all[i] == Flat(a.p)[i];
      }
    }
  }

  /** A placed history with its root at the left margin, its top at the upper one, and every entry
      in place, in an area that leaves half a gap on each side and no more. */
  ghost predicate WellPlaced<E>(m: Metrics, p: Placed<E>, width: int, height: int) {
    && p.x == m.right / 2 && AllInPlace(m, Flat(p))
    && Spans(m, Flat(p), m.bottom / 2, height - m.bottom / 2)
    && Reaches(m, Flat(p), width - m.right / 2)
  }

  /** Main result on shape: the history is laid out as it is, and well placed. */
  lemma LayoutPlaces<E>(m: Metrics, t: Tree<E>)
    requires Positive(m)
    ensures var (p, width, height) := LayoutHistory(m, t); Bare(p) == t && WellPlaced(m, p, width, height)
  {
    hide Layout, AllInPlace, Flat;
    var x, y := m.right / 2, m.bottom / 2;
    LayoutBare(m, t, x, y, 0);
    LayoutShape(m, t, x, y, 0);
    LayoutOk(m, t, x, y, 0);
    LayoutWidth(m, t, x, y, 0);
    var r := Layout(m, t, x, y, 0);
    forall i | 0 <= i < |Flat(r.p)| ensures Flat(r.p)[i].x + m.w <= r.width {
      assert Inside(m, Flat(r.p)[i], x, r.width, y, r.y1);
    }
  }

  // ---------------------------------------------------------------- no other layout will do

  lemma {:induction false} HasSpan<E>(m: Metrics, s: seq<Placed<E>>) returns (top: int, bottom: int)
    requires s != []
    ensures Spans(m, s, top, bottom)
  {
    var n := |s| - 1;
    if n == 0 {
      assert s == [s[0]];
      SpanOne(m, s[0]);
      top, bottom := s[0].y, s[0].y + m.h;
    } else {
      top, bottom := HasSpan(m, s[..n]);
      var i :| 0 <= i < n && s[..n][i].y == top;
      var j :| 0 <= j < n && s[..n][j].y + m.h == bottom;
      assert s[i].y == top && s[j].y + m.h == bottom;
      assert forall k :: 0 <= k < n ==> s[k] == s[..n][k];
      if s[n].y < top { top := s[n].y; }
      if s[n].y + m.h > bottom { bottom := s[n].y + m.h; }
    }
  }

  /** Stacked siblings start where the first of them does. */
  lemma {:induction false} StackStarts<E>(m: Metrics, ps: seq<Placed<E>>) returns (top: int, bottom: int)
    requires Positive(m) && ps != [] && Stacked(m, ps)
    ensures Spans(m, FlatAll(ps), top, bottom) && StartsAt(m, Flat(ps[0]), top) && top + m.h <= bottom
    decreases ps
  {
    assert ps == [ps[0]] + ps[1..];
    FlatSplit(ps[0], ps[1..]);
    if |ps| == 1 {
      top, bottom := HasSpan(m, Flat(ps[0]));
      assert Flat(ps[0]) + [] == Flat(ps[0]);
    } else {
      var rest := ps[1..];
      forall i | 0 <= i < |rest| - 1 ensures Under(m, rest[i], rest[i + 1]) {
        assert Under(m, ps[i + 1], ps[i + 2]);
      }
      var t2, b2 := StackStarts(m, rest);
      assert Under(m, ps[0], ps[1]);
      var mid, from, end;
      top, mid, from, end :| Spans(m, Flat(ps[0]), top, mid) && Spans(m, Flat(ps[1]), from, end)
        && from == mid + m.bottom;
      var other :| Spans(m, Flat(rest[0]), t2, other);
      SpanUnique(m, Flat(ps[1]), from, end, t2, other);
      SpanJoin(m, Flat(ps[0]), FlatAll(rest), top, mid, t2, b2);
      bottom := b2;
    }
  }

  /** An entry above others in place starts where they do. */
  lemma ParentStarts<E>(m: Metrics, p: Placed<E>, top: int) returns (bottom: int)
    requires Positive(m) && InPlace(m, p) && p.kids != [] && StartsAt(m, Flat(p), top)
    ensures Spans(m, FlatAll(p.kids), top, bottom) && p.y + m.h / 2 == (top + bottom) / 2
    ensures StartsAt(m, Flat(p.kids[0]), top)
  {
    var below := FlatAll(p.kids);
    var t, b := StackStarts(m, p.kids);
    var t2, b2 :| Spans(m, below, t2, b2) && p.y + m.h / 2 == (t2 + b2) / 2;
    SpanUnique(m, below, t, b, t2, b2);
    assert t <= p.y && p.y + m.h <= b;
    SpanWithin(m, p, below, t, b);
    var end :| Spans(m, Flat(p), top, end);
    SpanUnique(m, Flat(p), t, b, top, end);
    bottom := b;
  }

  lemma InPlaceParts<E>(m: Metrics, a: seq<Placed<E>>, b: seq<Placed<E>>)
    requires AllInPlace(m, a + b)
    ensures AllInPlace(m, a) && AllInPlace(m, b)
  {
    hide InPlace;
    var s := a + b;
    assert forall i :: 0 <= i < |a| ==> a[i] == s[i];
    assert forall i :: 0 <= i < |b| ==> b[i] == s[|a| + i];
  }

  lemma FlatInPlace<E>(m: Metrics, p: Placed<E>)
    requires AllInPlace(m, Flat(p))
    ensures InPlace(m, p) && AllInPlace(m, FlatAll(p.kids))
  {
    hide InPlace;
    assert Flat(p)[0] == p;
    InPlaceParts(m, [p], FlatAll(p.kids));
  }

  lemma FlatAllInPlace<E>(m: Metrics, ps: seq<Placed<E>>)
    requires ps != [] && AllInPlace(m, FlatAll(ps))
    ensures AllInPlace(m, Flat(ps[0])) && AllInPlace(m, FlatAll(ps[1..]))
  {
    hide AllInPlace, Flat;
    InPlaceParts(m, Flat(ps[0]), FlatAll(ps[1..]));
  }

  /** One tree, one corner to start at: one placement. */
  lemma {:induction false} ShapeUnique<E>(m: Metrics, p: Placed<E>, q: Placed<E>, top: int)
    requires Positive(m) && Bare(p) == Bare(q) && p.x == q.x
    requires AllInPlace(m, Flat(p)) && AllInPlace(m, Flat(q))
    requires StartsAt(m, Flat(p), top) && StartsAt(m, Flat(q), top)
    ensures p == q
    decreases p, 1
  {
    hide Spans, AllInPlace, StartsAt, Stacked, Midway;
    FlatInPlace(m, p);
    FlatInPlace(m, q);
    assert BareAll(p.kids) == BareAll(q.kids);
    BareLength(p.kids, q.kids);
    if p.kids == [] {
      assert Flat(p) == [p] && Flat(q) == [q];
      LeafStarts(m, p, top);
      LeafStarts(m, q, top);
    } else {
      hide AllInPlace, Spans, Bare, Flat, FlatAll, StartsAt, Stacked, Midway;
      var b := ParentStarts(m, p, top);
      var c := ParentStarts(m, q, top);
      RowUnique(m, p.kids, q.kids, top, p.x + m.w + m.right);
      SpanUnique(m, FlatAll(p.kids), top, b, top, c);
    }
  }

  lemma LeafStarts<E>(m: Metrics, p: Placed<E>, top: int)
    requires StartsAt(m, [p], top)
    ensures p.y == top
  {
  }

  lemma BareLength<E>(ps: seq<Placed<E>>, qs: seq<Placed<E>>)
    requires BareAll(ps) == BareAll(qs)
    ensures ps == [] <==> qs == []
    ensures ps != [] ==> Bare(ps[0]) == Bare(qs[0]) && BareAll(ps[1..]) == BareAll(qs[1..])
  {
    if ps != [] && qs != [] {
      assert BareAll(ps)[0] == Bare(ps[0]) && BareAll(ps)[1..] == BareAll(ps[1..]);
      assert BareAll(qs)[0] == Bare(qs[0]) && BareAll(qs)[1..] == BareAll(qs[1..]);
    }
  }

  lemma {:induction false} RowUnique<E>(m: Metrics, ps: seq<Placed<E>>, qs: seq<Placed<E>>, top: int, x: int)
    requires Positive(m) && BareAll(ps) == BareAll(qs)
    requires (forall i :: 0 <= i < |ps| ==> ps[i].x == x) && (forall i :: 0 <= i < |qs| ==> qs[i].x == x)
    requires Stacked(m, ps) && Stacked(m, qs) && AllInPlace(m, FlatAll(ps)) && AllInPlace(m, FlatAll(qs))
    requires ps != [] && qs != [] ==> StartsAt(m, Flat(ps[0]), top) && StartsAt(m, Flat(qs[0]), top)
    ensures ps == qs
    decreases ps, 0
  {
    hide AllInPlace, Spans, InPlace, BareAll, Bare, Flat, FlatAll, StartsAt, EndsAt, Stacked, Under, Positive;
    BareLength(ps, qs);
    if ps != [] {
      FlatAllInPlace(m, ps);
      FlatAllInPlace(m, qs);
      ShapeUnique(m, ps[0], qs[0], top);
      BareLength(ps[1..], qs[1..]);
      var next := NextTogether(m, ps, qs);
      RowUnique(m, ps[1..], qs[1..], next, x);
      FirstAndRest(ps, qs);
    }
  }

  lemma FirstAndRest<T>(a: seq<T>, b: seq<T>)
    requires a != [] && b != [] && a[0] == b[0] && a[1..] == b[1..]
    ensures a == b
  {
    assert a == [a[0]] + a[1..] && b == [b[0]] + b[1..];
  }

  /** Under equal entries start equal heights. */
  lemma NextTogether<E>(m: Metrics, ps: seq<Placed<E>>, qs: seq<Placed<E>>) returns (next: int)
    requires ps != [] && qs != [] && ps[0] == qs[0] && Stacked(m, ps) && Stacked(m, qs)
    ensures Stacked(m, ps[1..]) && Stacked(m, qs[1..])
    ensures ps[1..] != [] && qs[1..] != [] ==>
              StartsAt(m, Flat(ps[1..][0]), next) && StartsAt(m, Flat(qs[1..][0]), next)
  {
    hide Spans, Flat, StartsAt, EndsAt, Stacked, Under;
    StackedTail(m, ps);
    StackedTail(m, qs);
    next := 0;
    if |ps| > 1 && |qs| > 1 {
      next := NextStart(m, ps[0], ps[1]);
      var same := NextStart(m, qs[0], qs[1]);
      EndUnique(m, Flat(ps[0]), next - m.bottom, same - m.bottom);
    }
  }

  ghost predicate EndsAt<E>(m: Metrics, s: seq<Placed<E>>, bottom: int) {
    exists top :: Spans(m, s, top, bottom)
  }

  lemma EndUnique<E>(m: Metrics, s: seq<Placed<E>>, a: int, b: int)
    requires EndsAt(m, s, a) && EndsAt(m, s, b)
    ensures a == b
  {
    var i :| Spans(m, s, i, a);
    var j :| Spans(m, s, j, b);
    SpanUnique(m, s, i, a, j, b);
  }

  lemma NextStart<E>(m: Metrics, p: Placed<E>, q: Placed<E>) returns (from: int)
    requires Under(m, p, q)
    ensures EndsAt(m, Flat(p), from - m.bottom) && StartsAt(m, Flat(q), from)
  {
    hide Spans;
    var top, mid, bottom;
    top, mid, from, bottom :| Spans(m, Flat(p), top, mid) && Spans(m, Flat(q), from, bottom) && from == mid + m.bottom;
  }

  lemma StackedTail<E>(m: Metrics, ps: seq<Placed<E>>)
    requires ps != [] && Stacked(m, ps)
    ensures Stacked(m, ps[1..]) && (|ps| > 1 ==> Under(m, ps[0], ps[1]))
  {
    hide Under;
    forall i | 0 <= i < |ps[1..]| - 1 ensures Under(m, ps[1..][i], ps[1..][i + 1]) {
      assert Under(m, ps[i + 1], ps[i + 2]);
    }
  }

  /** Main result: a history has one well placed layout, the one that it is given, with that width
      and height. */
  lemma LayoutUnique<E>(m: Metrics, t: Tree<E>, q: Placed<E>, width: int, height: int)
    requires Positive(m)
    ensures (q, width, height) == LayoutHistory(m, t) <==> Bare(q) == t && WellPlaced(m, q, width, height)
  {
    hide AllInPlace, Spans, Layout, Bare;
    LayoutPlaces(m, t);
    if Bare(q) == t && WellPlaced(m, q, width, height) {
      var (p, w, h) := LayoutHistory(m, t);
      ShapeUnique(m, p, q, m.bottom / 2);
      SpanUnique(m, Flat(p), m.bottom / 2, h - m.bottom / 2, m.bottom / 2, height - m.bottom / 2);
    }
  }
}

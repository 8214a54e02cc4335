/** The layout of the local history tree (desktop/browser_history.c) and the search for the
    entry at a position (desktop/local_history.c). */
module HistoryLayout {
  import opened Options

  /** Sizes of an entry and of the gaps to the right of it and below it. */
  datatype Metrics = Metrics(w: int, h: int, right: int, bottom: int)

  predicate Positive(m: Metrics) {
    m.w > 0 && m.h > 0 && m.right > 0 && m.bottom > 0
  }

  /** A history entry with its forward entries in order; `E` stands for its identity. */
  datatype Tree<E> = Tree(e: E, kids: seq<Tree<E>>)

  /** The same tree with the positions filled in. */
  datatype Placed<E> = Placed(e: E, x: int, y: int, kids: seq<Placed<E>>)

  // ---------------------------------------------------------------- layout

  /** Placement of a subtree: the placed tree, the greatest y that it uses, and the width of
      the history so far. */
  datatype Result<E> = Result(p: Placed<E>, y1: int, width: int)
  datatype Results<E> = Results(ps: seq<Placed<E>>, y1: int, width: int)

  function Widen(m: Metrics, x: int, width: int): int {
    if width < x + m.w then x + m.w else width
  }

  /** browser_window_history__layout_subtree. */
  function Layout<E>(m: Metrics, t: Tree<E>, x: int, y: int, width: int): Result<E>
    decreases t, 1
  {
    var w := Widen(m, x, width);
    if t.kids == [] then Result(Placed(t.e, x, y, []), y + m.h, w)
    else
      var r := LayoutAll(m, t.kids, x + m.w + m.right, y, w);
      Result(Placed(t.e, x, (y + r.y1) / 2 - m.h / 2, r.ps), r.y1, r.width)
  }

  /** The loop over the children, each below the one before. */
  function LayoutAll<E>(m: Metrics, ts: seq<Tree<E>>, x: int, y: int, width: int): Results<E>
    decreases ts, 0
  {
    if ts == [] then Results([], y, width)
    else
      var r := Layout(m, ts[0], x, y, width);
      var rest := LayoutAll(m, ts[1..], x, if |ts| > 1 then r.y1 + m.bottom else r.y1, r.width);
      Results([r.p] + rest.ps, rest.y1, rest.width)
  }

  // ---------------------------------------------------------------- geometry

  /** All placed entries, a parent before its children. */
  function Flat<E>(p: Placed<E>): (s: seq<Placed<E>>)
    ensures s != [] && s[0] == p
    decreases p, 1
  {
    [p] + FlatAll(p.kids)
  }

  function FlatAll<E>(ps: seq<Placed<E>>): seq<Placed<E>>
    decreases ps, 0
  {
    if ps == [] then [] else Flat(ps[0]) + FlatAll(ps[1..])
  }

  /** The point lies in the entry's rectangle, edges included. */
  predicate Covers<E>(m: Metrics, p: Placed<E>, x: int, y: int) {
    p.x <= x <= p.x + m.w && p.y <= y <= p.y + m.h
  }

  /** The entry lies in a column from `left` to `right` and in a band from `top` to `bottom`. */
  predicate Inside<E>(m: Metrics, p: Placed<E>, left: int, right: int, top: int, bottom: int) {
    left <= p.x && p.x + m.w <= right && top <= p.y && p.y + m.h <= bottom
  }

  /** The rectangles have no point in common. */
  predicate Apart<E>(m: Metrics, p: Placed<E>, q: Placed<E>) {
    p.x + m.w < q.x || q.x + m.w < p.x || p.y + m.h < q.y || q.y + m.h < p.y
  }

  ghost predicate AllInside<E>(m: Metrics, s: seq<Placed<E>>, left: int, right: int, top: int, bottom: int) {
    forall i :: 0 <= i < |s| ==> Inside(m, s[i], left, right, top, bottom)
  }

  ghost predicate AllApart<E>(m: Metrics, s: seq<Placed<E>>) {
    forall i, j :: 0 <= i < j < |s| ==> Apart(m, s[i], s[j])
  }

  lemma ApartJoin<E>(m: Metrics, a: seq<Placed<E>>, b: seq<Placed<E>>)
    requires AllApart(m, a) && AllApart(m, b)
    requires forall i, j :: 0 <= i < |a| && 0 <= j < |b| ==> Apart(m, a[i], b[j])
    ensures AllApart(m, a + b)
  {
    var s := a + b;
    forall i, j | 0 <= i < j < |s| ensures Apart(m, s[i], s[j]) {
      if i < |a| <= j { assert Apart(m, a[i], b[j - |a|]); }
    }
  }

  /** Halving keeps an entry between the ends of the band that its children use. */
  lemma Middle(y: int, y1: int, h: int)
    requires h > 0 && y + h <= y1 && y >= 0
    ensures y <= (y + y1) / 2 - h / 2 && (y + y1) / 2 - h / 2 + h <= y1
  {
  }

  /** A subtree stays in its band, right of `x`, within the width, and keeps its entries apart. */
  lemma {:induction false} LayoutOk<E>(m: Metrics, t: Tree<E>, x: int, y: int, width: int)
    requires Positive(m) && y >= 0
    ensures var r := Layout(m, t, x, y, width);
            && y + m.h <= r.y1 && width <= r.width && x + m.w <= r.width
            && AllInside(m, Flat(r.p), x, r.width, y, r.y1) && AllApart(m, Flat(r.p))
    decreases t, 1
  {
    var w := Widen(m, x, width);
    var r := Layout(m, t, x, y, width);
    if t.kids == [] {
      assert FlatAll(r.p.kids) == [];
      assert Flat(r.p) == [r.p];
    } else {
      LayoutAllOk(m, t.kids, x + m.w + m.right, y, w);
      Middle(y, r.y1, m.h);
      var below := FlatAll(r.p.kids);
      assert AllInside(m, below, x + m.w + m.right, r.width, y, r.y1);
      assert AllApart(m, [r.p]);
      forall j | 0 <= j < |below| ensures Apart(m, [r.p][0], below[j]) {
        assert Inside(m, below[j], x + m.w + m.right, r.width, y, r.y1);
      }
      ApartJoin(m, [r.p], below);
      forall j | 0 <= j < |Flat(r.p)| ensures Inside(m, Flat(r.p)[j], x, r.width, y, r.y1) {
        if j > 0 { assert Flat(r.p)[j] == below[j - 1]; }
      }
    }
  }

  lemma {:induction false} LayoutAllOk<E>(m: Metrics, ts: seq<Tree<E>>, x: int, y: int, width: int)
    requires Positive(m) && y >= 0
    ensures var r := LayoutAll(m, ts, x, y, width);
            && (ts != [] ==> y + m.h <= r.y1) && y <= r.y1 && width <= r.width && |r.ps| == |ts|
            && AllInside(m, FlatAll(r.ps), x, r.width, y, r.y1) && AllApart(m, FlatAll(r.ps))
    decreases ts, 0
  {
    if ts != [] {
      var a := Layout(m, ts[0], x, y, width);
      var gap := if |ts| > 1 then a.y1 + m.bottom else a.y1;
      LayoutOk(m, ts[0], x, y, width);
      LayoutAllOk(m, ts[1..], x, gap, a.width);
      var rest := LayoutAll(m, ts[1..], x, gap, a.width);
      var r := LayoutAll(m, ts, x, y, width);
      assert r.ps[0] == a.p && r.ps[1..] == rest.ps;
      JoinBands(m, Flat(a.p), FlatAll(rest.ps), x, a.width, rest.width, y, a.y1, gap, rest.y1, |ts| > 1);
      if |ts| == 1 { assert rest.ps == [] && FlatAll(rest.ps) == []; }
    }
  }

  /** Two bands with a gap between them, or an empty second one. */
  lemma JoinBands<E>(m: Metrics, a: seq<Placed<E>>, b: seq<Placed<E>>, x: int, w: int, w': int,
                     y: int, y1: int, gap: int, y2: int, two: bool)
    requires AllInside(m, a, x, w, y, y1) && AllApart(m, a) && AllInside(m, b, x, w', gap, y2) && AllApart(m, b)
    requires w <= w' && y <= y1 <= gap <= y2 && (if two then y1 < gap else b == [])
    ensures AllInside(m, a + b, x, w', y, y2) && AllApart(m, a + b)
  {
    forall i, j | 0 <= i < |a| && 0 <= j < |b| ensures Apart(m, a[i], b[j]) {
      assert Inside(m, a[i], x, w, y, y1) && Inside(m, b[j], x, w', gap, y2);
    }
    ApartJoin(m, a, b);
    var s := a + b;
    forall i | 0 <= i < |s| ensures Inside(m, s[i], x, w', y, y2) {
      if i < |a| {
        assert Inside(m, a[i], x, w, y, y1);
      } else {
        assert Inside(m, b[i - |a|], x, w', gap, y2);
      }
    }
  }

  /** browser_window_history__layout: the placed tree, the width and the height. */
  function LayoutHistory<E>(m: Metrics, t: Tree<E>): (Placed<E>, int, int) {
    var r := Layout(m, t, m.right / 2, m.bottom / 2, 0);
    (r.p, r.width + m.right / 2, r.y1 + m.bottom / 2)
  }

  /** Main result on layout: for every tree all rectangles lie in the reported area, and no
      two of them touch. */
  lemma LayoutFits<E>(m: Metrics, t: Tree<E>)
    requires Positive(m)
    ensures var (p, width, height) := LayoutHistory(m, t);
            AllInside(m, Flat(p), 0, width, 0, height) && AllApart(m, Flat(p))
  {
    LayoutOk(m, t, m.right / 2, m.bottom / 2, 0);
    var r := Layout(m, t, m.right / 2, m.bottom / 2, 0);
    forall i | 0 <= i < |Flat(r.p)|
      ensures Inside(m, Flat(r.p)[i], 0, r.width + m.right / 2, 0, r.y1 + m.bottom / 2)
    {
      assert Inside(m, Flat(r.p)[i], m.right / 2, r.width, m.bottom / 2, r.y1);
    }
  }

  // ---------------------------------------------------------------- hit test

  /** find_entry_position. */
  function Find<E>(m: Metrics, p: Placed<E>, x: int, y: int): Option<Placed<E>>
    decreases p, 1
  {
    if Covers(m, p, x, y) then Some(p) else FindAll(m, p.kids, x, y)
  }

  function FindAll<E>(m: Metrics, ps: seq<Placed<E>>, x: int, y: int): Option<Placed<E>>
    decreases ps, 0
  {
    if ps == [] then None
    else
      var found := Find(m, ps[0], x, y);
      if found.Some? then found else FindAll(m, ps[1..], x, y)
  }

  /** The first entry of the list that covers the point. */
  predicate FirstCover<E(==)>(m: Metrics, s: seq<Placed<E>>, x: int, y: int, o: Option<Placed<E>>) {
    match o
    case None => forall i :: 0 <= i < |s| ==> !Covers(m, s[i], x, y)
    case Some(p) => exists i :: 0 <= i < |s| && s[i] == p && Covers(m, s[i], x, y) &&
                                forall j :: 0 <= j < i ==> !Covers(m, s[j], x, y)
  }

  lemma CoverJoin<E>(m: Metrics, a: seq<Placed<E>>, b: seq<Placed<E>>, x: int, y: int, o: Option<Placed<E>>,
      o': Option<Placed<E>>)
    requires FirstCover(m, a, x, y, o) && FirstCover(m, b, x, y, o')
    ensures FirstCover(m, a + b, x, y, if o.Some? then o else o')
  {
    var s := a + b;
    if o.Some? {
      var i :| 0 <= i < |a| && a[i] == o.value && Covers(m, a[i], x, y)
        && forall j :: 0 <= j < i ==> !Covers(m, a[j], x, y);
      assert s[i] == a[i];
    } else if o'.Some? {
      var i :| 0 <= i < |b| && b[i] == o'.value && Covers(m, b[i], x, y)
        && forall j :: 0 <= j < i ==> !Covers(m, b[j], x, y);
      assert s[|a| + i] == b[i];
    }
  }

  lemma {:induction false} FindsFirst<E>(m: Metrics, p: Placed<E>, x: int, y: int)
    ensures FirstCover(m, Flat(p), x, y, Find(m, p, x, y))
    decreases p, 1
  {
    var here := if Covers(m, p, x, y) then Some(p) else None;
    assert FirstCover(m, [p], x, y, here) by { assert [p][0] == p; }
    FindsFirstAll(m, p.kids, x, y);
    CoverJoin(m, [p], FlatAll(p.kids), x, y, here, FindAll(m, p.kids, x, y));
  }

  lemma {:induction false} FindsFirstAll<E>(m: Metrics, ps: seq<Placed<E>>, x: int, y: int)
    ensures FirstCover(m, FlatAll(ps), x, y, FindAll(m, ps, x, y))
    decreases ps, 0
  {
    if ps != [] {
      FindsFirst(m, ps[0], x, y);
      FindsFirstAll(m, ps[1..], x, y);
      CoverJoin(m, Flat(ps[0]), FlatAll(ps[1..]), x, y, Find(m, ps[0], x, y), FindAll(m, ps[1..], x, y));
    }
  }

  predicate Uncovered<E>(m: Metrics, s: seq<Placed<E>>, x: int, y: int) {
    forall i :: 0 <= i < |s| ==> !Covers(m, s[i], x, y)
  }

  /** The k-th entry covers the point, and no other does. */
  predicate OnlyCover<E>(m: Metrics, s: seq<Placed<E>>, x: int, y: int, k: nat) {
    k < |s| && Covers(m, s[k], x, y) && forall j :: 0 <= j < |s| && j != k ==> !Covers(m, s[j], x, y)
  }

  /** Main result on the search: in a laid out history it returns the one entry that covers
      the point, and none exactly if no entry does. */
  lemma HitIsUnique<E>(m: Metrics, t: Tree<E>, x: int, y: int)
    requires Positive(m)
    ensures var s := Flat(LayoutHistory(m, t).0); var o := Find(m, LayoutHistory(m, t).0, x, y);
            && (o.None? <==> Uncovered(m, s, x, y))
            && (o.Some? ==> exists k: nat :: OnlyCover(m, s, x, y, k) && s[k] == o.value)
  {
    LayoutFits(m, t);
    var p := LayoutHistory(m, t).0;
    var s, o := Flat(p), Find(m, p, x, y);
    FindsFirst(m, p, x, y);
    if o.Some? {
      var i :| 0 <= i < |s| && s[i] == o.value && Covers(m, s[i], x, y)
        && forall j :: 0 <= j < i ==> !Covers(m, s[j], x, y);
      forall j | 0 <= j < |s| && j != i ensures !Covers(m, s[j], x, y) {
        if i < j { assert Apart(m, s[i], s[j]); }
      }
      assert OnlyCover(m, s, x, y, i) && !Uncovered(m, s, x, y);
    }
  }
}

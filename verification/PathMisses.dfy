/** What the path lookup of content/urldb.c answers for paths that were never added: comparing
    prefixes, it can stop at a neighbour at any level of the tree. */
module PathMisses {
  import opened Options
  import opened PathTree

  lemma PrefixStep(path: seq<string>, segs: seq<string>)
    requires path != [] && segs != []
    ensures path <= segs <==> path[0] == segs[0] && path[1..] <= segs[1..]
  {
    if path[0] == segs[0] && path[1..] <= segs[1..] {
      assert forall i :: 0 < i < |path| ==> path[i] == path[1..][i - 1] == segs[1..][i - 1] == segs[i];
    }
  }

  lemma ExactStep(kids: seq<Node>, path: seq<string>, o: Origin)
    requires path != []
    ensures var p := Position(kids, path[0], o);
            Exact(kids, path, o).Some? <==> p < |kids| && (|path| == 1 || Exact(kids[p].children, path[1..], o).Some?)
  {
  }

  /** An addition puts its path and the beginnings of that path in the tree, and no other. */
  lemma {:induction false} AddExact(kids: seq<Node>, segs: seq<string>, o: Origin, next: nat, path: seq<string>,
      po: Origin)
    requires segs != [] && path != []
    ensures Exact(Add(kids, segs, o, next).0, path, po).Some?
            <==> Exact(kids, path, po).Some? || (po == o && path <= segs)
    decreases |segs|
  {
    hide Slot, Position, Exact;
    var i, p := Position(kids, segs[0], o), Position(kids, path[0], po);
    var kids' := Add(kids, segs, o, next).0;
    PrefixStep(path, segs);
    ExactStep(kids, path, po);
    ExactStep(kids', path, po);
    if i == |kids| {
      var below := if |segs| == 1 then [] else Add([], segs[1..], o, next + 1).0;
      var k, n := Slot(kids, segs[0]), Node(next, segs[0], o, UNUSED, below);
      InsertedAt(kids, k, n);
      if path[0] == segs[0] && po == o {
        PositionIs(kids', path[0], po, k);
        if |path| > 1 {
          NothingExact(path[1..], po);
          if |segs| > 1 { AddExact([], segs[1..], o, next + 1, path[1..], po); }
        }
      } else {
        PositionStays(kids, k, n, path[0], po);
      }
    } else if |segs| > 1 {
      if p < |kids| { PositionIs(kids', path[0], po, p); }
      if p == i && |path| > 1 { AddExact(kids[i].children, segs[1..], o, next, path[1..], po); }
    }
  }

  /** After any additions the paths in the tree are those added and their beginnings. */
  lemma {:induction false} ExactReflectsRun(rs: seq<Request>, path: seq<string>, o: Origin)
    requires path != []
    ensures Exact(Run(rs).0, path, o).Some? <==> exists k :: 0 <= k < |rs| && rs[k].origin == o && path <= rs[k].segs
  {
    hide Add, Exact;
    if rs == [] {
      NothingExact(path, o);
    } else {
      var n := |rs| - 1;
      var (kids, next) := Run(rs[..n]);
      ExactReflectsRun(rs[..n], path, o);
      AddExact(kids, rs[n].segs, rs[n].origin, next, path, o);
      assert forall k :: 0 <= k < n ==> rs[..n][k] == rs[k];
    }
  }

  lemma NothingExact(path: seq<string>, o: Origin)
    requires path != []
    ensures Exact([], path, o) == None
  {
  }

  /** The first child at which a lookup of `seg` stops, or the number of children. */
  function FirstStop(kids: seq<Node>, seg: string, o: Origin): (i: nat)
    ensures i <= |kids|
    ensures i < |kids| ==> kids[i].origin == o && seg <= kids[i].segment
    ensures forall j :: 0 <= j < i ==> !Agrees(kids[j], seg, o)
  {
    if kids == [] || Agrees(kids[0], seg, o) then 0 else 1 + FirstStop(kids[1..], seg, o)
  }

  /** Following whole segments, one is missing; a child of that origin begins with it, and
      below the first such child the rest of the path, if any, is answered. */
  predicate Overshoots(kids: seq<Node>, segs: seq<string>, o: Origin)
    requires segs != []
    decreases |segs|
  {
    var i := Position(kids, segs[0], o);
    if i < |kids| then |segs| > 1 && Overshoots(kids[i].children, segs[1..], o)
    else
      var f := FirstStop(kids, segs[0], o);
      f < |kids| && (|segs| == 1 || Match(kids[f].children, segs[1..], o).Some?)
  }

  lemma MatchStops(kids: seq<Node>, segs: seq<string>, o: Origin)
    requires segs != []
    ensures var f := FirstStop(kids, segs[0], o);
            Match(kids, segs, o) ==
              if f == |kids| then None
              else if |segs| == 1 then Some(kids[f]) else Match(kids[f].children, segs[1..], o)
  {
    hide FirstStop;
    var f := FirstStop(kids, segs[0], o);
    MatchSkips(kids, f, segs, o);
  }

  /** A lookup answers a path that is not in the tree exactly if it overshoots at some level
      of the descent. */
  lemma {:induction false} MatchOvershoots(kids: seq<Node>, segs: seq<string>, o: Origin)
    requires Ok(kids) && segs != []
    ensures Match(kids, segs, o).Some? && Exact(kids, segs, o).None? <==> Overshoots(kids, segs, o)
    decreases |segs|
  {
    hide FirstStop, Position, Match;
    MatchStops(kids, segs, o);
    var i := Position(kids, segs[0], o);
    if i < |kids| {
      forall j | 0 <= j < i ensures !Agrees(kids[j], segs[0], o) {
        FirstAgreeing(kids, segs[0], o, j);
      }
      assert FirstStop(kids, segs[0], o) == i;
      if |segs| > 1 { MatchOvershoots(kids[i].children, segs[1..], o); }
    }
  }

  /** Main result on paths never added: after any additions, a path that begins no added path
      of its origin is answered exactly if its lookup overshoots. */
  lemma LookupReflectsRun(rs: seq<Request>, path: seq<string>, o: Origin)
    requires path != []
    ensures Match(Run(rs).0, path, o).Some? <==>
              || (exists k :: 0 <= k < |rs| && rs[k].origin == o && path <= rs[k].segs)
              || Overshoots(Run(rs).0, path, o)
  {
    hide Match, Exact, Overshoots, Ok, Run;
    var kids := Run(rs).0;
    RunOk(rs);
    ExactReflectsRun(rs, path, o);
    MatchOvershoots(kids, path, o);
    if Exact(kids, path, o).Some? { MatchIsExact(kids, path, o); }
  }

  /** So a path that was never added can be answered with a neighbour's leaf. */
  lemma NeighbourReturned(o: Origin)
    ensures var r: Request := Request(["index.html"], o);
            && Exact(Run([r]).0, ["index"], o).None?
            && Match(Run([r]).0, ["index"], o) == Some(Node(0, "index.html", o, UNUSED, []))
  {
    var r: Request := Request(["index.html"], o);
    assert Run([r][..0]) == ([], 0);
    assert Run([r]).0 == [Node(0, "index.html", o, UNUSED, [])];
  }

  /** Also through a segment in the middle, with the last one whole. */
  lemma NeighbourEntered(o: Origin)
    ensures var r: Request := Request(["index", "a"], o);
            && Exact(Run([r]).0, ["in", "a"], o).None?
            && Match(Run([r]).0, ["in", "a"], o) == Some(Node(1, "a", o, UNUSED, []))
  {
    var r: Request := Request(["index", "a"], o);
    var leaf := Node(1, "a", o, UNUSED, []);
    var kids := [Node(0, "index", o, UNUSED, [leaf])];
    assert Run([r][..0]) == ([], 0);
    assert r.segs[1..] == ["a"];
    assert Inserted([], 0, leaf) == [leaf];
    assert Add([], ["a"], o, 1) == ([leaf], 1);
    assert Run([r]).0 == kids;
    assert ["in", "a"][1..] == ["a"];
    MatchStops(kids, ["in", "a"], o);
    MatchStops([leaf], ["a"], o);
    assert "in" <= "index";
  }
}

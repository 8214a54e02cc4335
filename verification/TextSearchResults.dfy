/** What the wildcard matcher reports: always a real match, and while its contexts suffice the
    leftmost one, because nothing that it gives up holds a match. */
module TextSearchResults {
  import opened TextSearch

  /** Some stretch of the text from `s` on matches the pattern from `p` on. */
  predicate Can(q: Query, p: nat, s: nat)
    requires p <= |q.pattern| && s <= |q.text|
    decreases |q.pattern| - p, |q.text| - s
  {
    if p == |q.pattern| then true
    else if q.pattern[p] == '*' then Can(q, p + 1, s) || (s < |q.text| && Can(q, p, s + 1))
    else s < |q.text| && Accepts(q.caseSens, q.pattern[p], q.text[s]) && Can(q, p + 1, s + 1)
  }

  lemma {:induction false} CanFromMatch(q: Query, p: nat, s: nat, e: nat)
    requires p <= |q.pattern| && s <= e <= |q.text|
    requires Matches(q.caseSens, q.pattern[p..], q.text[s..e])
    ensures Can(q, p, s)
    decreases |q.pattern| - p, |q.text| - s
  {
    if p < |q.pattern| {
      assert q.pattern[p..][1..] == q.pattern[p + 1..];
      if s < e { assert q.text[s..e][1..] == q.text[s + 1..e]; }
      if q.pattern[p] != '*' {
        CanFromMatch(q, p + 1, s + 1, e);
      } else if Matches(q.caseSens, q.pattern[p + 1..], q.text[s..e]) {
        CanFromMatch(q, p + 1, s, e);
      } else {
        CanFromMatch(q, p, s + 1, e);
      }
    }
  }

  /** A star run passed over to `p'` can stop at some `s'`. */
  lemma {:induction false} StarStops(q: Query, p: nat, p': nat, s: nat) returns (s': nat)
    requires p <= p' <= |q.pattern| && s <= |q.text|
    requires forall i :: p <= i < p' ==> q.pattern[i] == '*'
    requires Can(q, p, s)
    ensures s <= s' <= |q.text| && Can(q, p', s')
    decreases |q.pattern| - p, |q.text| - s
  {
    if p == p' {
      s' := s;
    } else if Can(q, p + 1, s) {
      s' := StarStops(q, p + 1, p', s);
    } else {
      s' := StarStops(q, p, p', s + 1);
    }
  }

  lemma {:induction false} StarGrows(q: Query, p: nat, s: nat, s': nat)
    requires p < |q.pattern| && q.pattern[p] == '*' && s <= s' <= |q.text|
    requires Can(q, p + 1, s')
    ensures Can(q, p, s)
    decreases s' - s
  {
    if s < s' { StarGrows(q, p, s + 1, s'); }
  }

  /** What a stacked star still has to offer after its first stop. */
  lemma StarSplits(q: Query, p: nat, p': nat, s: nat)
    requires AtStar(q, p) && s <= |q.text|
    requires p' == SkipStars(q.pattern, p + 1) < |q.pattern|
    requires Can(q, p, s)
    ensures var r := Scan(q, q.pattern[p'], s);
            r < |q.text| && (Can(q, p' + 1, r + 1) || Can(q, p' - 1, r + 1))
  {
    StarsSkipped(q.pattern, p + 1);
    Scanned(q, q.pattern[p'], s);
    var s' := StarStops(q, p, p', s);
    var r := Scan(q, q.pattern[p'], s);
    if s' > r { StarGrows(q, p' - 1, r + 1, s'); }
  }

  predicate NoneBefore(q: Query, b: nat) {
    forall i :: 0 <= i < b && i <= |q.text| ==> !Can(q, Lead(q), i)
  }

  predicate StarFrame(q: Query, ss: nat, i: nat, f: Frame) {
    && FrameOk(q, f) && !f.first && f.ss == ss && Lead(q) <= f.p
    && i <= 1 + Groups(q.pattern, Lead(q), f.p)
  }

  predicate FrameCan(q: Query, f: Frame) {
    0 <= f.p <= |q.pattern| && f.s <= |q.text| && Can(q, f.p, f.s)
  }

  predicate StackCan(q: Query, stack: seq<Frame>) {
    exists i :: 1 <= i < |stack| && FrameCan(q, stack[i])
  }

  /** Nothing that the matcher has given up holds a match: not the starts it has passed,
      and from the present start only what it and its stacked stars still stand for. */
  predicate Covers(q: Query, st: State) {
    && Ok(q, st)
    && if st.first then
         st.stack == [] && Fresh(q, st.p) && NoneBefore(q, st.s)
       else
         && st.stack != [] && st.stack[0].first && st.stack[0].s == st.ss + 1 && Fresh(q, st.stack[0].p)
         && (forall i :: 1 <= i < |st.stack| ==> StarFrame(q, st.ss, i, st.stack[i]))
         && Lead(q) <= st.p
         && |st.stack| <= 1 + Groups(q.pattern, Lead(q), st.p)
         && NoneBefore(q, st.ss)
         && (Can(q, Lead(q), st.ss) ==> Can(q, st.p, st.s) || StackCan(q, st.stack))
  }

  lemma {:induction false} GroupsMonotone(pat: seq<char>, lo: nat, a: nat, b: nat)
    requires a <= b
    ensures Groups(pat, lo, a) <= Groups(pat, lo, b)
  {
    if a < b { GroupsMonotone(pat, lo, a, b - 1); }
  }

  lemma BacktrackCovers(q: Query, st: State)
    requires Covers(q, st) && !st.first && !Can(q, st.p, st.s)
    ensures Backtrack(st).Running? && Covers(q, Backtrack(st).st)
  {
    var n := |st.stack| - 1;
    var st' := Backtrack(st).st;
    if n == 0 {
      assert !StackCan(q, st.stack);
    } else {
      assert StarFrame(q, st.ss, n, st.stack[n]);
      if Can(q, Lead(q), st.ss) {
        var i :| 1 <= i < |st.stack| && FrameCan(q, st.stack[i]);
        assert i < n ==> st'.stack[i] == st.stack[i];
      }
    }
  }

  lemma FirstStarCovers(q: Query, st: State)
    requires Covers(q, st) && st.first && HasSolid(q)
    ensures match Step(q, st)
            case Running(st') => Covers(q, st')
            case NotFound => NoneBefore(q, |q.text| + 1)
            case Found(_, _) => false
  {
    FreshSkips(q, st.p);
    var k := Lead(q);
    var r := Scan(q, q.pattern[k], st.s);
    StarsSkipped(q.pattern, 0);
    Scanned(q, q.pattern[k], st.s);
    forall i | 0 <= i < r ensures !Can(q, k, i) {
    }
    GroupsMonotone(q.pattern, k, k, k + 1);
  }

  /** There is room for every interior star, and the pushed frame keeps what it gives up. */
  lemma PushCovers(q: Query, st: State, p: nat, r: nat)
    requires Covers(q, st) && !st.first && InteriorGroups(q) < CONTEXTS
    requires AtStar(q, st.p) && p == SkipStars(q.pattern, st.p + 1) < |q.pattern|
    requires st.s <= r < |q.text|
    ensures var f := Frame(st.ss, r + 1, p - 1, false);
            && Push(st.stack, f) == st.stack + [f]
            && StarFrame(q, st.ss, |st.stack|, f)
            && |st.stack| + 1 <= 1 + Groups(q.pattern, Lead(q), p + 1)
  {
    var k := Lead(q);
    GroupsMonotone(q.pattern, k, st.p, p - 1);
    GroupsMonotone(q.pattern, k, p, p + 1);
    GroupsMonotone(q.pattern, k, p, |q.pattern|);
    StarsSkipped(q.pattern, st.p + 1);
    assert GroupEnd(q.pattern, p - 1);
  }

  lemma StackCanGrows(q: Query, stack: seq<Frame>, f: Frame)
    requires stack != []
    ensures StackCan(q, stack + [f]) <==> StackCan(q, stack) || FrameCan(q, f)
  {
    var stack' := stack + [f];
    assert stack'[|stack|] == f;
    forall i | 0 <= i < |stack| ensures stack'[i] == stack[i] {
    }
  }

  lemma StarCovers(q: Query, st: State)
    requires Covers(q, st) && !st.first && HasSolid(q) && InteriorGroups(q) < CONTEXTS
    requires st.p < |q.pattern| && AtStar(q, st.p) && StarStep(q, st).Running?
    ensures Covers(q, StarStep(q, st).st)
  {
    hide Matches, Can, Groups;
    var p := SkipStars(q.pattern, st.p + 1);
    var r := Scan(q, q.pattern[p], st.s);
    if Can(q, st.p, st.s) { StarSplits(q, st.p, p, st.s); }
    if r == |q.text| {
      BacktrackCovers(q, st);
    } else {
      PushCovers(q, st, p, r);
      StackCanGrows(q, st.stack, Frame(st.ss, r + 1, p - 1, false));
    }
  }

  lemma SolidCovers(q: Query, st: State)
    requires Covers(q, st) && !st.first
    requires st.p < |q.pattern| && !AtStar(q, st.p) && SolidStep(q, st).Running?
    ensures Covers(q, SolidStep(q, st).st)
  {
    if st.s < |q.text| && Accepts(q.caseSens, q.pattern[st.p], q.text[st.s]) {
      GroupsMonotone(q.pattern, Lead(q), st.p, st.p + 1);
    } else {
      BacktrackCovers(q, st);
    }
  }

  lemma {:induction false} SearchComplete(q: Query, st: State)
    requires Covers(q, st) && HasSolid(q) && InteriorGroups(q) < CONTEXTS
    ensures match Search(q, st)
            case Found(b, _) => NoneBefore(q, b)
            case _ => NoneBefore(q, |q.text| + 1)
    decreases Rank(q, st, CONTEXTS), |q.pattern| - st.p
  {
    hide Can, Rank, Groups;
    SearchStep(q, st);
    var o := Step(q, st);
    if st.first {
      FirstStarCovers(q, st);
    } else if o.Running? {
      if AtStar(q, st.p) { StarCovers(q, st); } else { SolidCovers(q, st); }
    }
    if o.Running? {
      StepDecreases(q, st);
      SearchComplete(q, o.st);
    }
  }

  // ---------------------------------------------------------------- main results

  /** Soundness: a reported start and length delimit a real match, for every pattern with
      a solid character and every text. */
  lemma FindIsSound(q: Query)
    requires HasSolid(q)
    ensures var o := Find(q); o.Found? ==> Occurs(q, o.start, o.start + o.len)
  {
    SearchSound(q, START);
  }

  /** Without a solid character the matcher always reports (0, 1): a real match exactly
      for a non-empty run of stars on a non-empty text. */
  lemma FindWithoutSolid(q: Query)
    requires !HasSolid(q)
    ensures Find(q) == Found(0, 1)
    ensures (1 <= |q.text| && Matches(q.caseSens, q.pattern, q.text[0..1])) <==> (q.pattern != [] && q.text != [])
  {
    StarsSkipped(q.pattern, 0);
    SearchStep(q, START);
    if q.pattern != [] && q.text != [] {
      StarsMatch(q.caseSens, q.pattern, q.text[0..1]);
    }
  }

  /** Completeness: with at most 15 interior star groups the leftmost start is reported,
      and no match is reported exactly when there is none. */
  lemma FindIsLeftmost(q: Query)
    requires HasSolid(q) && InteriorGroups(q) < CONTEXTS
    ensures var o := Find(q);
            && (o.Found? ==> forall b, e :: 0 <= b < o.start && b <= e ==> !Occurs(q, b, e))
            && (o.NotFound? <==> forall b: nat, e: nat :: !Occurs(q, b, e))
  {
    var o := Find(q);
    SearchSound(q, START);
    SearchComplete(q, START);
    forall b: nat, e: nat | Occurs(q, b, e) ensures o.Found? && o.start <= b {
      CanFromMatch(q, Lead(q), b, e);
    }
  }
}

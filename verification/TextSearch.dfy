/** The free-text wildcard matcher of content/textsearch.c.

    In a pattern '#' stands for any one character and a run of '*' for any run of
    characters; a virtual '*' sits before the pattern.  `Matches` is the reference
    relation.  `Step` is one turn of the matcher's loop, and `Search` iterates it; the
    loop itself, with its 16-entry context array, is in TextMatcher.
 */
module TextSearch {

  /** Entries of the backtracking context array. */
  const CONTEXTS: nat := 16

  datatype Query = Query(text: seq<char>, pattern: seq<char>, caseSens: bool)

  /** Where to resume: the star at `p` is next tried against text from `s` on. */
  datatype Frame = Frame(ss: nat, s: nat, p: int, first: bool)

  datatype State = State(p: int, s: nat, ss: nat, first: bool, stack: seq<Frame>)

  datatype Outcome = Running(st: State) | Found(start: nat, len: nat) | NotFound

  // ---------------------------------------------------------------- characters

  function Upper(c: char): char {
    if 'a' <= c <= 'z' then (c as int - 32) as char else c
  }

  predicate Accepts(caseSens: bool, pc: char, sc: char) {
    pc == '#' || (if caseSens then sc == pc else Upper(sc) == Upper(pc))
  }

  // ---------------------------------------------------------------- reference relation

  /** The whole of `pat` matches the whole of `text`. */
  predicate Matches(caseSens: bool, pat: seq<char>, text: seq<char>)
    decreases |pat| + |text|
  {
    if pat == [] then
      text == []
    else if pat[0] == '*' then
      Matches(caseSens, pat[1..], text) || (text != [] && Matches(caseSens, pat, text[1..]))
    else
      text != [] && Accepts(caseSens, pat[0], text[0]) && Matches(caseSens, pat[1..], text[1..])
  }

  /** The pattern without its leading stars, which only repeat the virtual one. */
  function Lead(q: Query): (k: nat)
    ensures k <= |q.pattern|
  {
    SkipStars(q.pattern, 0)
  }

  predicate HasSolid(q: Query) {
    Lead(q) < |q.pattern|
  }

  /** A match of the pattern, leading stars aside, lies exactly on text[b..e]. */
  predicate Occurs(q: Query, b: nat, e: nat) {
    b <= e <= |q.text| && Matches(q.caseSens, q.pattern[Lead(q)..], q.text[b..e])
  }

  /** The star groups with a solid character on both sides end at these indices. */
  predicate GroupEnd(pat: seq<char>, i: nat) {
    i + 1 < |pat| && pat[i] == '*' && pat[i + 1] != '*'
  }

  /** Number of star groups ending in pat[lo..hi]. */
  function Groups(pat: seq<char>, lo: nat, hi: nat): nat
    decreases hi
  {
    if hi <= lo then 0
    else Groups(pat, lo, hi - 1) + (if GroupEnd(pat, hi - 1) then 1 else 0)
  }

  function InteriorGroups(q: Query): nat {
    Groups(q.pattern, Lead(q), |q.pattern|)
  }

  // ---------------------------------------------------------------- the loop body

  predicate AtStar(q: Query, p: int) {
    p == -1 || (0 <= p < |q.pattern| && q.pattern[p] == '*')
  }

  function SkipStars(pat: seq<char>, p: nat): (r: nat)
    requires p <= |pat|
    ensures p <= r <= |pat|
    decreases |pat| - p
  {
    if p < |pat| && pat[p] == '*' then SkipStars(pat, p + 1) else p
  }

  /** First position from `s` on that accepts `pc`, or the end of the text. */
  function Scan(q: Query, pc: char, s: nat): (r: nat)
    requires s <= |q.text|
    ensures s <= r <= |q.text|
    decreases |q.text| - s
  {
    if s < |q.text| && !Accepts(q.caseSens, pc, q.text[s]) then Scan(q, pc, s + 1) else s
  }

  lemma {:induction false} StarsSkipped(pat: seq<char>, p: nat)
    requires p <= |pat|
    ensures var r := SkipStars(pat, p);
            (forall i :: p <= i < r ==> pat[i] == '*') && (r < |pat| ==> pat[r] != '*')
    decreases |pat| - p
  {
    if p < |pat| && pat[p] == '*' { StarsSkipped(pat, p + 1); }
  }

  lemma {:induction false} Scanned(q: Query, pc: char, s: nat)
    requires s <= |q.text|
    ensures var r := Scan(q, pc, s);
            && (forall i :: s <= i < r ==> !Accepts(q.caseSens, pc, q.text[i]))
            && (r < |q.text| ==> Accepts(q.caseSens, pc, q.text[r]))
    decreases |q.text| - s
  {
    if s < |q.text| && !Accepts(q.caseSens, pc, q.text[s]) { Scanned(q, pc, s + 1); }
  }

  predicate FrameOk(q: Query, f: Frame) {
    && AtStar(q, f.p)
    && f.ss <= f.s <= |q.text|
  }

  predicate Ok(q: Query, st: State) {
    && -1 <= st.p <= |q.pattern|
    && st.ss <= st.s <= |q.text|
    && |st.stack| <= CONTEXTS
    && forall i :: 0 <= i < |st.stack| ==> FrameOk(q, st.stack[i])
  }

  function Report(ss: nat, s: nat): Outcome
    requires ss <= s
  {
    Found(ss, if s - ss > 1 then s - ss else 1)
  }

  function Backtrack(st: State): Outcome {
    if st.stack == [] then NotFound
    else
      var n := |st.stack| - 1;
      var f := st.stack[n];
      Running(State(f.p, f.s, f.ss, f.first, st.stack[..n]))
  }

  function Advance(st: State, p: nat, s: nat, stack: seq<Frame>): Outcome {
    Running(State(p + 1, s + 1, if st.first then s else st.ss, false, stack))
  }

  function Push(stack: seq<Frame>, f: Frame): seq<Frame> {
    if |stack| < CONTEXTS then stack + [f] else stack
  }

  /** The turn of a state on a star: stop it on the next character that can follow. */
  function StarStep(q: Query, st: State): (o: Outcome)
    requires Ok(q, st) && st.p < |q.pattern| && AtStar(q, st.p)
    ensures o.Running? ==> Ok(q, o.st)
  {
    var p := SkipStars(q.pattern, st.p + 1);
    StarsSkipped(q.pattern, st.p + 1);
    if p == |q.pattern| then
      Report(st.ss, st.s)
    else
      var s := Scan(q, q.pattern[p], st.s);
      if s < |q.text| then
        Advance(st, p, s, Push(st.stack, Frame(st.ss, s + 1, p - 1, st.first)))
      else
        Backtrack(st)
  }

  function SolidStep(q: Query, st: State): (o: Outcome)
    requires Ok(q, st) && 0 <= st.p < |q.pattern|
    ensures o.Running? ==> Ok(q, o.st)
  {
    if st.s < |q.text| && Accepts(q.caseSens, q.pattern[st.p], q.text[st.s]) then
      Advance(st, st.p, st.s, st.stack)
    else
      Backtrack(st)
  }

  function Step(q: Query, st: State): (o: Outcome)
    requires Ok(q, st)
    ensures o.Running? ==> Ok(q, o.st)
  {
    if st.p == |q.pattern| then Report(st.ss, st.s)
    else if AtStar(q, st.p) then StarStep(q, st)
    else SolidStep(q, st)
  }

  // ---------------------------------------------------------------- termination

  /** Text still open to the star of stack level `i`; a level not in use counts most. */
  function Level(q: Query, st: State, i: nat): (v: nat)
    requires Ok(q, st)
    ensures v <= 2 * |q.text| + 3
  {
    if i < |st.stack| then 2 * (|q.text| - st.stack[i].s) + 2
    else if i == |st.stack| && AtStar(q, st.p) then 2 * (|q.text| - st.s) + 1
    else 2 * |q.text| + 3
  }

  function Digit(x: nat, base: nat, d: nat): nat {
    x * base + d
  }

  /** The first `n` levels as the digits of one number. */
  function Rank(q: Query, st: State, n: nat): nat
    requires Ok(q, st)
  {
    if n == 0 then 0
    else Digit(Rank(q, st, n - 1), 2 * |q.text| + 4, Level(q, st, n - 1))
  }

  lemma DigitLess(x: nat, y: nat, base: nat, u: nat, v: nat)
    requires x < y && u < base
    ensures Digit(x, base, u) < Digit(y, base, v)
  {
    var d := y - x - 1;
    assert y * base == x * base + d * base + base;
    assert d * base >= 0;
  }

  lemma {:induction false} RankSame(q: Query, a: State, b: State, n: nat)
    requires Ok(q, a) && Ok(q, b)
    requires forall i :: 0 <= i < n ==> Level(q, a, i) == Level(q, b, i)
    ensures Rank(q, a, n) == Rank(q, b, n)
  {
    if n > 0 { RankSame(q, a, b, n - 1); }
  }

  /** The levels compare lexicographically. */
  lemma {:induction false} RankLess(q: Query, a: State, b: State, j: nat, n: nat)
    requires Ok(q, a) && Ok(q, b) && j < n
    requires forall i :: 0 <= i < j ==> Level(q, a, i) == Level(q, b, i)
    requires Level(q, a, j) < Level(q, b, j)
    ensures Rank(q, a, n) < Rank(q, b, n)
  {
    if n == j + 1 {
      RankSame(q, a, b, j);
    } else {
      RankLess(q, a, b, j, n - 1);
      DigitLess(Rank(q, a, n - 1), Rank(q, b, n - 1), 2 * |q.text| + 4,
                Level(q, a, n - 1), Level(q, b, n - 1));
    }
  }

  /** Every turn of the loop that goes on lowers the stacked levels or, at equal
      levels, the pattern left to match, also when the context array is full. */
  lemma StepDecreases(q: Query, st: State)
    requires Ok(q, st) && Step(q, st).Running?
    ensures var st' := Step(q, st).st;
            || Rank(q, st', CONTEXTS) < Rank(q, st, CONTEXTS)
            || (Rank(q, st', CONTEXTS) == Rank(q, st, CONTEXTS) && st.p < st'.p)
  {
    hide Rank, SkipStars, Scan;
    var st' := Step(q, st).st;
    var t := |st.stack|;
    if st'.p > st.p && |st'.stack| == t {
      if Level(q, st', t) < Level(q, st, t) && t < CONTEXTS {
        RankLess(q, st', st, t, CONTEXTS);
      } else {
        RankSame(q, st', st, CONTEXTS);
      }
    } else if |st'.stack| == t + 1 {
      RankLess(q, st', st, t, CONTEXTS);
    } else {
      RankLess(q, st', st, t - 1, CONTEXTS);
    }
  }

  /** Iterates `Step` to its end. */
  function Search(q: Query, st: State): (o: Outcome)
    requires Ok(q, st)
    ensures !o.Running?
    decreases Rank(q, st, CONTEXTS), |q.pattern| - st.p
  {
    match Step(q, st)
    case Running(st') =>
      StepDecreases(q, st);
      Search(q, st')
    case done => done
  }

  const START: State := State(-1, 0, 0, true, [])

  function Find(q: Query): Outcome {
    Search(q, START)
  }

  // ---------------------------------------------------------------- soundness

  lemma {:induction false} MatchesAppend(cs: bool, p: seq<char>, t: seq<char>, p': seq<char>, t': seq<char>)
    requires Matches(cs, p, t) && Matches(cs, p', t')
    ensures Matches(cs, p + p', t + t')
    decreases |p| + |t|
  {
    if p == [] {
      assert p + p' == p' && t + t' == t';
    } else {
      assert (p + p')[1..] == p[1..] + p';
      if t != [] { assert (t + t')[1..] == t[1..] + t'; }
      if p[0] == '*' && Matches(cs, p[1..], t) {
        MatchesAppend(cs, p[1..], t, p', t');
      } else if p[0] == '*' {
        MatchesAppend(cs, p, t[1..], p', t');
      } else {
        MatchesAppend(cs, p[1..], t[1..], p', t');
      }
    }
  }

  /** A run of stars matches every text. */
  lemma {:induction false} StarsMatch(cs: bool, p: seq<char>, t: seq<char>)
    requires forall i :: 0 <= i < |p| ==> p[i] == '*'
    requires p == [] ==> t == []
    ensures Matches(cs, p, t)
    decreases |p| + |t|
  {
    if p == [] {
    } else if t == [] {
      StarsMatch(cs, p[1..], t);
    } else {
      StarsMatch(cs, p, t[1..]);
    }
  }

  /** Text that the solid part of the pattern has consumed before index `p`, the star
      at `p` (if there is one) included. */
  predicate Consumed(q: Query, p: int, ss: nat, s: nat) {
    var k := Lead(q);
    && k <= p <= |q.pattern|
    && ss <= s <= |q.text|
    && Matches(q.caseSens, q.pattern[k..if AtStar(q, p) then p + 1 else p], q.text[ss..s])
  }

  /** Before the first solid character the matcher stands on the virtual or leading stars. */
  predicate Fresh(q: Query, p: int) {
    AtStar(q, p) && p < Lead(q)
  }

  predicate Sound(q: Query, p: int, ss: nat, s: nat, first: bool) {
    if first then Fresh(q, p) else Consumed(q, p, ss, s) && ss < s
  }

  predicate SoundFrame(q: Query, f: Frame) {
    Sound(q, f.p, f.ss, f.s, f.first)
  }

  predicate SoundState(q: Query, st: State) {
    && Ok(q, st)
    && Sound(q, st.p, st.ss, st.s, st.first)
    && forall i :: 0 <= i < |st.stack| ==> SoundFrame(q, st.stack[i])
  }

  lemma FreshSkips(q: Query, p: int)
    requires Fresh(q, p)
    ensures SkipStars(q.pattern, p + 1) == Lead(q)
  {
    StarsSkipped(q.pattern, 0);
    StarsSkipped(q.pattern, p + 1);
  }

  /** Consuming stars up to `p'` and then text up to `s'`. */
  lemma ConsumeStars(q: Query, p: nat, p': nat, ss: nat, s: nat, s': nat)
    requires Consumed(q, p, ss, s) && AtStar(q, p) && s <= s' <= |q.text|
    requires p < p' <= |q.pattern| && forall i :: p <= i < p' ==> q.pattern[i] == '*'
    ensures Matches(q.caseSens, q.pattern[Lead(q)..p'], q.text[ss..s'])
  {
    hide Matches, Lead;
    var k := Lead(q);
    if p + 1 == p' {
      StarTail(q.caseSens, q.pattern[k..p + 1], q.text[ss..s], q.text[s..s']);
      assert q.text[ss..s] + q.text[s..s'] == q.text[ss..s'];
    } else {
      StarsMatch(q.caseSens, q.pattern[p + 1..p'], q.text[s..s']);
      MatchesAppend(q.caseSens, q.pattern[k..p + 1], q.text[ss..s], q.pattern[p + 1..p'], q.text[s..s']);
      assert q.pattern[k..p + 1] + q.pattern[p + 1..p'] == q.pattern[k..p'];
      assert q.text[ss..s] + q.text[s..s'] == q.text[ss..s'];
    }
  }

  /** A pattern that ends in a star goes on matching as the text grows. */
  lemma {:induction false} StarTail(cs: bool, p: seq<char>, t: seq<char>, more: seq<char>)
    requires p != [] && p[|p| - 1] == '*' && Matches(cs, p, t)
    ensures Matches(cs, p, t + more)
    decreases |p| + |t|
  {
    if |p| == 1 {
      StarsMatch(cs, p, t + more);
    } else {
      if t != [] { assert (t + more)[1..] == t[1..] + more; }
      if p[0] == '*' && Matches(cs, p[1..], t) {
        StarTail(cs, p[1..], t, more);
      } else if p[0] == '*' {
        StarTail(cs, p, t[1..], more);
      } else {
        StarTail(cs, p[1..], t[1..], more);
      }
    }
  }

  lemma SolidMatches(cs: bool, pc: char, c: char)
    requires pc != '*' && Accepts(cs, pc, c)
    ensures Matches(cs, [pc], [c])
  {
    assert [pc][1..] == [] && [c][1..] == [];
  }

  /** Consuming one solid character, and with it the star that may come next. */
  lemma ConsumeSolid(q: Query, p: nat, ss: nat, s: nat)
    requires Lead(q) <= p < |q.pattern| && q.pattern[p] != '*'
    requires ss <= s < |q.text| && Accepts(q.caseSens, q.pattern[p], q.text[s])
    requires Matches(q.caseSens, q.pattern[Lead(q)..p], q.text[ss..s])
    ensures Consumed(q, p + 1, ss, s + 1)
  {
    hide Matches, Lead;
    var k, cs := Lead(q), q.caseSens;
    SolidMatches(cs, q.pattern[p], q.text[s]);
    MatchesAppend(cs, q.pattern[k..p], q.text[ss..s], [q.pattern[p]], [q.text[s]]);
    assert q.pattern[k..p] + [q.pattern[p]] == q.pattern[k..p + 1];
    assert q.text[ss..s] + [q.text[s]] == q.text[ss..s + 1];
    if AtStar(q, p + 1) {
      StarsMatch(cs, ['*'], []);
      MatchesAppend(cs, q.pattern[k..p + 1], q.text[ss..s + 1], ['*'], []);
      assert q.pattern[k..p + 1] + ['*'] == q.pattern[k..p + 2];
      assert q.text[ss..s + 1] + [] == q.text[ss..s + 1];
    }
  }

  /** Stopping the star at `p` on the text position `s`, and what that leaves to resume. */
  lemma StarSound(q: Query, st: State, p: nat, s: nat)
    requires SoundState(q, st) && AtStar(q, st.p) && st.p < |q.pattern|
    requires p == SkipStars(q.pattern, st.p + 1) < |q.pattern|
    requires st.s <= s < |q.text| && Accepts(q.caseSens, q.pattern[p], q.text[s])
    ensures Sound(q, p + 1, if st.first then s else st.ss, s + 1, false)
    ensures SoundFrame(q, Frame(st.ss, s + 1, p - 1, st.first))
  {
    hide Matches;
    var k := Lead(q);
    StarsSkipped(q.pattern, st.p + 1);
    if st.first {
      FreshSkips(q, st.p);
      StarsMatch(q.caseSens, [], []);
      assert q.pattern[k..k] == [] && q.text[s..s] == [];
      ConsumeSolid(q, p, s, s);
    } else {
      ConsumeStars(q, st.p, p, st.ss, st.s, s);
      ConsumeSolid(q, p, st.ss, s);
      ConsumeStars(q, st.p, p, st.ss, st.s, s + 1);
    }
  }

  lemma StarStepSound(q: Query, st: State)
    requires SoundState(q, st) && st.p < |q.pattern| && AtStar(q, st.p) && StarStep(q, st).Running?
    ensures SoundState(q, StarStep(q, st).st)
  {
    hide Matches;
    var p := SkipStars(q.pattern, st.p + 1);
    var s := Scan(q, q.pattern[p], st.s);
    Scanned(q, q.pattern[p], st.s);
    if s < |q.text| { StarSound(q, st, p, s); }
  }

  lemma SolidStepSound(q: Query, st: State)
    requires SoundState(q, st) && st.p < |q.pattern| && !AtStar(q, st.p) && SolidStep(q, st).Running?
    ensures SoundState(q, SolidStep(q, st).st)
  {
    hide Matches;
    if st.s < |q.text| && Accepts(q.caseSens, q.pattern[st.p], q.text[st.s]) {
      ConsumeSolid(q, st.p, st.ss, st.s);
    }
  }

  lemma StepSound(q: Query, st: State)
    requires SoundState(q, st) && Step(q, st).Running?
    ensures SoundState(q, Step(q, st).st)
  {
    hide Matches;
    if AtStar(q, st.p) { StarStepSound(q, st); } else { SolidStepSound(q, st); }
  }

  lemma StepReports(q: Query, st: State)
    requires SoundState(q, st) && HasSolid(q) && Step(q, st).Found?
    ensures var o := Step(q, st); Occurs(q, o.start, o.start + o.len) && o.start == st.ss && !st.first
  {
    hide Matches;
    if st.first {
      FreshSkips(q, st.p);
    } else if st.p < |q.pattern| {
      StarsSkipped(q.pattern, st.p + 1);
      ConsumeStars(q, st.p, |q.pattern|, st.ss, st.s, st.s);
    }
    assert q.pattern[Lead(q)..|q.pattern|] == q.pattern[Lead(q)..];
  }

  /** One turn of the loop leaves the result alone. */
  lemma SearchStep(q: Query, st: State)
    requires Ok(q, st)
    ensures var o := Step(q, st); Search(q, st) == if o.Running? then Search(q, o.st) else o
  {
  }

  lemma {:induction false} SearchSound(q: Query, st: State)
    requires SoundState(q, st) && HasSolid(q)
    ensures var o := Search(q, st); o.Found? ==> Occurs(q, o.start, o.start + o.len)
    decreases Rank(q, st, CONTEXTS), |q.pattern| - st.p
  {
    hide Matches, Rank;
    SearchStep(q, st);
    var o := Step(q, st);
    if o.Running? {
      StepDecreases(q, st);
      StepSound(q, st);
      SearchSound(q, o.st);
    } else if o.Found? {
      StepReports(q, st);
    }
  }
}

/** The loop of the wildcard matcher as content/textsearch.c has it. */
module TextMatcher {
  import opened TextSearch

  /** The loop that passes over further asterisks. */
  method PassStars(pat: seq<char>, from: nat) returns (p: nat)
    requires from <= |pat|
    ensures p == SkipStars(pat, from)
  {
    p := from;
    while p < |pat| && pat[p] == '*'
      invariant p <= |pat| && SkipStars(pat, p) == SkipStars(pat, from)
    {
      p := p + 1;
    }
  }

  /** The loop that scans forwards for a character. */
  method ScanForward(q: Query, pc: char, from: nat) returns (s: nat)
    requires from <= |q.text|
    ensures s == Scan(q, pc, from)
  {
    s := from;
    if pc != '#' {
      var ch := if q.caseSens then pc else Upper(pc);
      while s < |q.text|
        invariant s <= |q.text| && Scan(q, pc, s) == Scan(q, pc, from)
      {
        if q.caseSens {
          if q.text[s] == ch { break; }
        } else if Upper(q.text[s]) == ch {
          break;
        }
        s := s + 1;
      }
    }
  }

  /** The loop of the source, on its fixed array of contexts; NotFound is the NULL return. */
  method FindPattern(q: Query) returns (o: Outcome)
    ensures o == Find(q)
  {
    hide Search, Rank, SkipStars, Scan, Accepts, FrameOk;
    var context := new Frame[CONTEXTS](_ => Frame(0, 0, 0, false));
    var es, ep := |q.text|, |q.pattern|;
    var p, first, top := -1, true, 0;
    var s: nat, ss: nat := 0, 0;
    ghost var st := START;
    while p < ep
      invariant top <= CONTEXTS
      invariant st == State(p, s, ss, first, context[..top])
      invariant Ok(q, st) && Search(q, st) == Find(q)
      decreases Rank(q, st, CONTEXTS), ep - p
    {
      SearchStep(q, st);
      if Step(q, st).Running? { StepDecreases(q, st); }
      var matches: bool;
      if p < 0 || q.pattern[p] == '*' {
        p := PassStars(q.pattern, p + 1);
        if p >= ep { break; }
        s := ScanForward(q, q.pattern[p], s);
        if s < es {
          if top < CONTEXTS {
            context[top] := Frame(ss, s + 1, p - 1, first);
            top := top + 1;
          }
          if first { ss, first := s, false; }
          matches := true;
        } else {
          matches := false;
        }
      } else if s < es {
        matches := Accepts(q.caseSens, q.pattern[p], q.text[s]);
        if matches && first { ss, first := s, false; }
      } else {
        matches := false;
      }
      if matches {
        p, s := p + 1, s + 1;
      } else {
        if top == 0 { return NotFound; }
        top := top - 1;
        ss, s, p, first := context[top].ss, context[top].s, context[top].p, context[top].first;
      }
      st := Step(q, st).st;
      assert context[..top] == st.stack;
    }
    SearchStep(q, st);
    o := Found(ss, if s - ss > 1 then s - ss else 1);
  }
}

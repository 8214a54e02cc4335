/** With more interior star groups than there is room for, the matcher can miss a match: for
    every number of groups from 16 on there is a pattern and a text on which it does. */
module TextSearchLimit {
  import opened TextSearch
  import opened TextSearchResults

  function Letter(i: nat): char
    requires i < 26
  {
    (97 + i) as char
  }

  /** "a*b*c*d*e*f*g*h*i*j*k*l*m*n*o*p*qr" on "abcdefghijklmnopqxqr", with `m` further groups
      "*#" in the pattern and as many further characters in the text. */
  function Deep(m: nat): Query {
    Query(seq(20 + m, i => if 0 <= i <= 16 then Letter(i) else if i == 17 then 'x' else if i == 18 then 'q'
                           else if i == 19 then 'r' else 'y'),
          seq(34 + 2 * m, i => if i == 33 then 'r' else if i % 2 == 0 && 0 <= i < 33 then Letter(i / 2)
                               else if i < 34 || i % 2 == 0 then '*' else '#'),
          true)
  }

  function DeepStack(n: nat): seq<Frame> {
    seq(n, i requires 0 <= i => Frame(0, i + 1, 2 * i - 1, i == 0))
  }

  /** The state with `n` letters placed. */
  function DeepForward(n: nat): State {
    State(2 * n - 1, n, 0, false, DeepStack(n))
  }

  /** The state that resumes the star before letter `n`. */
  function DeepBack(n: nat): State {
    State(2 * n - 1, n + 1, 0, n == 0, DeepStack(n))
  }

  lemma DeepSolid(m: nat, n: nat)
    requires n <= 16
    ensures SkipStars(Deep(m).pattern, 2 * n) == 2 * n && Deep(m).pattern[2 * n] == Letter(n)
    ensures n > 0 ==> AtStar(Deep(m), 2 * n - 1)
  {
  }

  lemma DeepStackOk(m: nat, n: nat)
    requires n <= 16
    ensures forall i :: 0 <= i < n ==> FrameOk(Deep(m), DeepStack(n)[i])
  {
    forall i | 0 <= i < n ensures FrameOk(Deep(m), DeepStack(n)[i]) {
      DeepSolid(m, i);
    }
  }

  lemma DeepForwardStep(m: nat, n: nat)
    requires 1 <= n <= 15
    ensures Ok(Deep(m), DeepForward(n)) && Step(Deep(m), DeepForward(n)) == Running(DeepForward(n + 1))
  {
    hide SkipStars, FrameOk;
    DeepSolid(m, n);
    DeepStackOk(m, n);
    assert Scan(Deep(m), Deep(m).pattern[2 * n], n) == n;
    assert DeepStack(n) + [Frame(0, n + 1, 2 * n - 1, false)] == DeepStack(n + 1);
  }

  lemma {:induction false} DeepForwardRun(m: nat, n: nat)
    requires 1 <= n <= 16
    ensures Ok(Deep(m), DeepForward(n)) && SoundState(Deep(m), DeepForward(n))
    ensures Find(Deep(m)) == Search(Deep(m), DeepForward(n))
  {
    if n == 1 {
      assert Scan(Deep(m), Deep(m).pattern[0], 0) == 0;
      assert DeepStack(1) == [Frame(0, 1, -1, true)];
      assert Step(Deep(m), START) == Running(DeepForward(1));
      StepSound(Deep(m), START);
      SearchStep(Deep(m), START);
    } else {
      DeepForwardRun(m, n - 1);
      DeepForwardStep(m, n - 1);
      StepSound(Deep(m), DeepForward(n - 1));
      SearchStep(Deep(m), DeepForward(n - 1));
    }
  }

  lemma DeepBackStep(m: nat, n: nat)
    requires n <= 15
    ensures Ok(Deep(m), DeepBack(n))
    ensures Step(Deep(m), DeepBack(n)) == if n == 0 then NotFound else Running(DeepBack(n - 1))
  {
    hide SkipStars, FrameOk;
    DeepSolid(m, n);
    DeepStackOk(m, n);
    Scanned(Deep(m), Deep(m).pattern[2 * n], n + 1);
    assert Scan(Deep(m), Deep(m).pattern[2 * n], n + 1) == 20 + m;
    if n > 0 { assert DeepStack(n)[..n - 1] == DeepStack(n - 1); }
  }

  lemma {:induction false} DeepBackRun(m: nat, n: nat)
    requires n <= 15
    ensures Ok(Deep(m), DeepBack(n)) && Search(Deep(m), DeepBack(n)) == NotFound
  {
    DeepBackStep(m, n);
    SearchStep(Deep(m), DeepBack(n));
    if n > 0 { DeepBackRun(m, n - 1); }
  }

  lemma {:induction false} DeepGroups(m: nat, n: nat)
    requires n <= 16
    ensures Groups(Deep(m).pattern, 0, 2 * n) == n
  {
    if n > 0 {
      DeepGroups(m, n - 1);
      assert GroupEnd(Deep(m).pattern, 2 * n - 1) && !GroupEnd(Deep(m).pattern, 2 * n - 2);
      assert Groups(Deep(m).pattern, 0, 2 * n) == Groups(Deep(m).pattern, 0, 2 * n - 1) + 1;
    }
  }

  /** The further groups. */
  lemma {:induction false} TailGroups(m: nat, k: nat)
    requires k <= m
    ensures Groups(Deep(m).pattern, 0, 34 + 2 * k) == 16 + k
  {
    var pat := Deep(m).pattern;
    if k == 0 {
      DeepGroups(m, 16);
      assert !GroupEnd(pat, 32) && !GroupEnd(pat, 33);
      assert Groups(pat, 0, 34) == Groups(pat, 0, 33) == Groups(pat, 0, 32);
    } else {
      TailGroups(m, k - 1);
      assert GroupEnd(pat, 32 + 2 * k) && !GroupEnd(pat, 33 + 2 * k);
      assert Groups(pat, 0, 34 + 2 * k) == Groups(pat, 0, 33 + 2 * k);
    }
  }

  /** They match the further characters. */
  lemma {:induction false} TailMatches(m: nat, k: nat)
    requires k <= m
    ensures Matches(true, Deep(m).pattern[34 + 2 * k..], Deep(m).text[20 + k..])
    decreases m - k
  {
    hide Matches;
    var q := Deep(m);
    var p, t := q.pattern[34 + 2 * k..], q.text[20 + k..];
    if k < m {
      TailMatches(m, k + 1);
      var p', t' := q.pattern[34 + 2 * (k + 1)..], q.text[20 + (k + 1)..];
      StarsMatch(true, ['*'], []);
      SolidMatches(true, '#', t[0]);
      MatchesAppend(true, ['*'], [], ['#'], [t[0]]);
      MatchesAppend(true, ['*'] + ['#'], [] + [t[0]], p', t');
      assert p == ['*'] + ['#'] + p' && t == [] + [t[0]] + t';
    } else {
      assert p == [] && t == [];
      StarsMatch(true, [], []);
    }
  }

  lemma DeepOccurs(m: nat)
    ensures Occurs(Deep(m), 0, 20 + m)
  {
    hide Matches;
    var q := Deep(m);
    DeepForwardRun(m, 16);
    ConsumeStars(q, 31, 32, 0, 16, 18);
    ConsumeSolid(q, 32, 0, 18);
    SolidMatches(true, 'r', 'r');
    MatchesAppend(true, q.pattern[0..33], q.text[0..19], ['r'], ['r']);
    assert q.pattern[0..33] + ['r'] == q.pattern[0..34] && q.text[0..19] + ['r'] == q.text[0..20];
    TailMatches(m, 0);
    MatchesAppend(true, q.pattern[0..34], q.text[0..20], q.pattern[34..], q.text[20..]);
    assert q.pattern[0..34] + q.pattern[34..] == q.pattern[0..] && q.text[0..20] + q.text[20..] == q.text[0..20 + m];
  }

  lemma DeepNotFound(m: nat)
    ensures Find(Deep(m)) == NotFound
  {
    hide Search, Rank, Matches;
    var q := Deep(m);
    DeepForwardRun(m, 16);
    DeepSolid(m, 16);
    assert Scan(q, q.pattern[32], 16) == 16;
    var full := State(33, 17, 0, false, DeepStack(16));
    SearchStep(q, DeepForward(16));
    SearchStep(q, full);
    assert DeepStack(16)[..15] == DeepStack(15);
    DeepBackRun(m, 15);
  }

  /** A sixteenth interior star group is one too many, and so is any further one: its context is
      dropped, and a text with a match is reported to have none. */
  lemma ContextLimitIsTight(m: nat)
    ensures HasSolid(Deep(m)) && InteriorGroups(Deep(m)) == CONTEXTS + m
    ensures Find(Deep(m)) == NotFound && Occurs(Deep(m), 0, 20 + m)
  {
    hide Search, Matches;
    DeepOccurs(m);
    DeepNotFound(m);
    TailGroups(m, m);
  }

  /** The answer is the leftmost match, or none exactly if there is none. */
  ghost predicate Leftmost(q: Query) {
    var o := Find(q);
    && (o.Found? ==>
          Occurs(q, o.start, o.start + o.len) && forall b, e :: 0 <= b < o.start && b <= e ==> !Occurs(q, b, e))
    && (o.NotFound? <==> forall b: nat, e: nat :: !Occurs(q, b, e))
  }

  /** All queries with `n` interior groups are answered rightly exactly if there are at most 15. */
  lemma ContextLimitExact(n: nat)
    ensures (forall q :: HasSolid(q) && InteriorGroups(q) == n ==> Leftmost(q)) <==> n < CONTEXTS
  {
    hide Find, Occurs, InteriorGroups, HasSolid;
    if n < CONTEXTS {
      forall q | HasSolid(q) && InteriorGroups(q) == n ensures Leftmost(q) {
        FindIsSound(q);
        FindIsLeftmost(q);
      }
    } else {
      var m := n - CONTEXTS;
      ContextLimitIsTight(m);
      assert !Leftmost(Deep(m));
    }
  }
}

/** What it means for a text to match a pattern, told without the recursion of `Matches`. */
module TextMeaning {
  import opened TextSearch

  /** Equal, or, where case does not matter, forms of one ASCII letter. */
  predicate Alike(caseSens: bool, a: char, b: char) {
    || a == b
    || (!caseSens && (('a' <= a <= 'z' && b as int == a as int - 32) || ('a' <= b <= 'z' && a as int == b as int - 32)))
  }

  lemma AcceptsAlike(caseSens: bool, pc: char, sc: char)
    ensures Accepts(caseSens, pc, sc) <==> pc == '#' || Alike(caseSens, pc, sc)
  {
  }

  /** A pattern without stars matches exactly the texts of its length that are like it wherever it
      has no '#'; in particular, with case, one of plain characters matches itself alone. */
  lemma {:induction false} PlainMatches(caseSens: bool, pat: seq<char>, text: seq<char>)
    requires '*' !in pat
    ensures Matches(caseSens, pat, text) <==>
              |text| == |pat| && forall i :: 0 <= i < |pat| ==> pat[i] == '#' || Alike(caseSens, pat[i], text[i])
    ensures caseSens && '#' !in pat ==> (Matches(caseSens, pat, text) <==> text == pat)
    decreases |pat|
  {
    if pat != [] && text != [] {
      PlainMatches(caseSens, pat[1..], text[1..]);
      AcceptsAlike(caseSens, pat[0], text[0]);
      assert forall i :: 1 <= i < |pat| ==> pat[i] == pat[1..][i - 1];
      assert forall i :: 1 <= i < |text| ==> text[i] == text[1..][i - 1];
    }
  }

  lemma {:induction false} StarTail(caseSens: bool, b: seq<char>, text: seq<char>)
    ensures Matches(caseSens, ['*'] + b, text) <==> exists j :: 0 <= j <= |text| && Matches(caseSens, b, text[j..])
    decreases |text|
  {
    assert (['*'] + b)[1..] == b && text[0..] == text;
    if text != [] {
      StarTail(caseSens, b, text[1..]);
      assert forall j :: 0 <= j < |text| ==> text[1..][j..] == text[j + 1..];
      if j :| 1 <= j <= |text| && Matches(caseSens, b, text[j..]) {
        assert text[1..][j - 1..] == text[j..];
      }
    }
  }

  /** `a` lies at the beginning, `b` at the end, and they do not overlap. */
  predicate Flanked(caseSens: bool, a: seq<char>, b: seq<char>, text: seq<char>, i: int, j: int) {
    0 <= i <= j <= |text| && Matches(caseSens, a, text[..i]) && Matches(caseSens, b, text[j..])
  }

  /** A star matches any stretch: what stands before it matches a beginning of the text, and what
      comes after it an end that does not overlap. */
  lemma {:induction false} StarMatches(caseSens: bool, a: seq<char>, b: seq<char>, text: seq<char>)
    requires '*' !in a
    ensures Matches(caseSens, a + ['*'] + b, text) <==> exists i, j :: Flanked(caseSens, a, b, text, i, j)
    decreases |a|
  {
    var pat := a + ['*'] + b;
    if a == [] {
      assert pat == ['*'] + b;
      StarTail(caseSens, b, text);
      if j :| 0 <= j <= |text| && Matches(caseSens, b, text[j..]) {
        assert text[..0] == [] && Flanked(caseSens, a, b, text, 0, j);
      }
    } else {
      assert pat[0] == a[0] && pat[1..] == a[1..] + ['*'] + b;
      if text != [] {
        StarMatches(caseSens, a[1..], b, text[1..]);
        if i, j :| Flanked(caseSens, a[1..], b, text[1..], i, j) {
          assert text[..i + 1][1..] == text[1..][..i] && text[1..][j..] == text[j + 1..];
          assert Accepts(caseSens, a[0], text[0]) ==> Flanked(caseSens, a, b, text, i + 1, j + 1);
        }
        if i, j :| Flanked(caseSens, a, b, text, i, j) {
          assert text[..i][1..] == text[1..][..i - 1] && text[1..][j - 1..] == text[j..];
          assert Flanked(caseSens, a[1..], b, text[1..], i - 1, j - 1);
        }
      }
    }
  }
}

/** The C string functions that the URL database relies on. */
module Strings {

  function Sign(c: int): int {
    if c < 0 then -1 else if c > 0 then 1 else 0
  }

  /** strcmp: the difference of the first characters that differ, the end counting least. */
  function Compare(a: string, b: string): int {
    if a == [] then (if b == [] then 0 else -1)
    else if b == [] then 1
    else if a[0] == b[0] then Compare(a[1..], b[1..])
    else a[0] as int - b[0] as int
  }

  lemma {:induction false} CompareZero(a: string, b: string)
    ensures Compare(a, b) == 0 <==> a == b
  {
    if a != [] && b != [] {
      CompareZero(a[1..], b[1..]);
      assert a == [a[0]] + a[1..] && b == [b[0]] + b[1..];
    }
  }

  lemma {:induction false} CompareFlips(a: string, b: string)
    ensures Sign(Compare(a, b)) == -Sign(Compare(b, a))
  {
    if a != [] && b != [] { CompareFlips(a[1..], b[1..]); }
  }

  lemma {:induction false} CompareTransitive(a: string, b: string, c: string)
    requires Compare(a, b) <= 0 && Compare(b, c) <= 0
    ensures Compare(a, c) <= 0
    ensures Compare(a, c) == 0 ==> Compare(a, b) == 0 && Compare(b, c) == 0
  {
    if a != [] && b != [] && c != [] && a[0] == b[0] == c[0] {
      CompareTransitive(a[1..], b[1..], c[1..]);
    }
  }

  /** A string comes before its proper extensions. */
  lemma {:induction false} ComparePrefix(a: string, b: string)
    requires a <= b
    ensures Compare(a, b) <= 0
  {
    if a != [] { ComparePrefix(a[1..], b[1..]); }
  }

  /** Index of the first `c` from `from` on, or the length: strchr. */
  function IndexOf(s: string, c: char, from: nat): (i: nat)
    requires from <= |s|
    ensures from <= i <= |s|
    ensures i < |s| ==> s[i] == c
    ensures c !in s[from..i]
    decreases |s| - from
  {
    if from == |s| || s[from] == c then from
    else
      var i := IndexOf(s, c, from + 1);
      assert s[from..i] == [s[from]] + s[from + 1..i];
      i
  }

  lemma {:induction false} IndexOfIs(s: string, c: char, from: nat, j: nat)
    requires from <= j <= |s| && (forall k :: from <= k < j ==> s[k] != c) && (j < |s| ==> s[j] == c)
    ensures IndexOf(s, c, from) == j
    decreases |s| - from
  {
    if from < j { IndexOfIs(s, c, from + 1, j); }
  }

  lemma {:induction false} IndexOfShifts(s: string, c: char, from: nat, k: nat)
    requires from + k <= |s|
    ensures IndexOf(s, c, from + k) == from + IndexOf(s[from..], c, k)
    decreases |s| - k
  {
    if from + k < |s| && s[from + k] != c { IndexOfShifts(s, c, from, k + 1); }
  }

  /** The pieces of `s` between separators, first piece first; there is always one. */
  function Split(s: string, c: char): (ls: seq<string>)
    ensures ls != [] && forall i :: 0 <= i < |ls| ==> c !in ls[i]
    decreases |s|
  {
    var i := IndexOf(s, c, 0);
    assert s[0..i] == s[..i];
    if i == |s| then [s] else [s[..i]] + Split(s[i + 1..], c)
  }

  function Join(ls: seq<string>, c: char): string
    requires ls != []
  {
    if |ls| == 1 then ls[0] else ls[0] + [c] + Join(ls[1..], c)
  }

  lemma {:induction false} JoinSplit(s: string, c: char)
    ensures Join(Split(s, c), c) == s
    decreases |s|
  {
    var i := IndexOf(s, c, 0);
    if i < |s| {
      JoinSplit(s[i + 1..], c);
      assert Split(s, c)[1..] == Split(s[i + 1..], c);
      assert s == s[..i] + [c] + s[i + 1..];
    }
  }

  lemma {:induction false} SplitJoin(ls: seq<string>, c: char)
    requires ls != [] && forall i :: 0 <= i < |ls| ==> c !in ls[i]
    ensures Split(Join(ls, c), c) == ls
  {
    var s := Join(ls, c);
    IndexOfIs(s, c, 0, |ls[0]|);
    if |ls| > 1 {
      SplitJoin(ls[1..], c);
      assert s[..|ls[0]|] == ls[0] && s[|ls[0]| + 1..] == Join(ls[1..], c);
    } else {
      assert ls == [ls[0]];
    }
  }

  lemma SplitOnce(s: string, c: char)
    ensures var i := IndexOf(s, c, 0);
            Split(s, c) == [s[..i]] + (if i == |s| then [] else Split(s[i + 1..], c))
  {
    assert s[..|s|] == s;
  }

  lemma SplitStep(s: string, c: char, from: nat)
    requires from <= |s|
    ensures var i := IndexOf(s, c, from);
            Split(s[from..], c) == [s[from..i]] + (if i == |s| then [] else Split(s[i + 1..], c))
  {
    hide Split, IndexOf;
    var t := s[from..];
    var i := IndexOf(s, c, from);
    IndexOfShifts(s, c, from, 0);
    SplitOnce(t, c);
    assert t[..i - from] == s[from..i];
    if i < |s| { assert t[i - from + 1..] == s[i + 1..]; }
  }
}

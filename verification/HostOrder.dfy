/** Host names of content/urldb.c and the two comparators of the search index.

    A host lives in the host tree as a chain of parts, leaf label first
    ("www" -> "example" -> "com" -> root).  The index inserts by comparing two chains
    and looks up by comparing a chain with a dotted string; both compute the
    case-insensitive label-by-label order `CompareLabels`.
 */
module HostOrder {
  import S = Strings

  /** A node of the host tree, known by its label and its parent. */
  datatype Host = Root | Part(part: string, parent: Host)

  /** Labels of a host, leaf first. */
  function Labels(h: Host): seq<string> {
    if h.Root? then [] else [h.part] + Labels(h.parent)
  }

  function Lower(c: char): char {
    if 'A' <= c <= 'Z' then (c as int + 32) as char else c
  }

  function LowerAll(s: string): string {
    if s == [] then [] else [Lower(s[0])] + LowerAll(s[1..])
  }

  /** Equal, or one the small and the other the capital form of an ASCII letter. */
  predicate SameLetter(a: char, b: char) {
    a == b || ('A' <= a <= 'Z' && b as int == a as int + 32) || ('A' <= b <= 'Z' && a as int == b as int + 32)
  }

  /** Two strings agree up to case exactly if they have the same length and differ in nothing but
      the case of ASCII letters. */
  lemma {:induction false} CaseAlone(a: string, b: string)
    ensures LowerAll(a) == LowerAll(b) <==> |a| == |b| && forall i :: 0 <= i < |a| ==> SameLetter(a[i], b[i])
  {
    if a != [] && b != [] {
      CaseAlone(a[1..], b[1..]);
      LowerSame(a[0], b[0]);
      assert LowerAll(a)[1..] == LowerAll(a[1..]) && LowerAll(b)[1..] == LowerAll(b[1..]);
      assert LowerAll(a)[0] == Lower(a[0]) && LowerAll(b)[0] == Lower(b[0]);
      assert forall i :: 1 <= i < |a| ==> a[i] == a[1..][i - 1];
      assert forall i :: 1 <= i < |b| ==> b[i] == b[1..][i - 1];
    }
  }

  lemma LowerSame(a: char, b: char)
    ensures Lower(a) == Lower(b) <==> SameLetter(a, b)
  {
  }

  function LowerLabels(ls: seq<string>): seq<string> {
    if ls == [] then [] else [LowerAll(ls[0])] + LowerLabels(ls[1..])
  }

  predicate NoDot(s: string) {
    '.' !in s
  }

  // ---------------------------------------------------------------- order

  /** strcasecmp. */
  function CaseCompare(a: string, b: string): int {
    S.Compare(LowerAll(a), LowerAll(b))
  }

  function CompareLabels(a: seq<string>, b: seq<string>): int {
    if a == [] then (if b == [] then 0 else -1)
    else if b == [] then 1
    else
      var c := CaseCompare(a[0], b[0]);
      if c != 0 then c else CompareLabels(a[1..], b[1..])
  }

  function Compare(a: Host, b: Host): int {
    CompareLabels(Labels(a), Labels(b))
  }

  predicate Same(a: Host, b: Host) {
    LowerLabels(Labels(a)) == LowerLabels(Labels(b))
  }

  lemma {:induction false} CompareZero(a: seq<string>, b: seq<string>)
    ensures CompareLabels(a, b) == 0 <==> LowerLabels(a) == LowerLabels(b)
  {
    if a != [] && b != [] {
      S.CompareZero(LowerAll(a[0]), LowerAll(b[0]));
      CompareZero(a[1..], b[1..]);
      assert LowerLabels(a)[1..] == LowerLabels(a[1..]) && LowerLabels(b)[1..] == LowerLabels(b[1..]);
    }
  }

  lemma {:induction false} CompareFlips(a: seq<string>, b: seq<string>)
    ensures S.Sign(CompareLabels(a, b)) == -S.Sign(CompareLabels(b, a))
  {
    if a != [] && b != [] {
      S.CompareFlips(LowerAll(a[0]), LowerAll(b[0]));
      CompareFlips(a[1..], b[1..]);
    }
  }

  /** The order is total: with CompareFlips and CompareZero, a strict order on hosts up to case. */
  lemma {:induction false} CompareTransitive(a: seq<string>, b: seq<string>, c: seq<string>)
    requires CompareLabels(a, b) <= 0 && CompareLabels(b, c) <= 0
    ensures CompareLabels(a, c) <= 0
    ensures CompareLabels(a, c) == 0 ==> CompareLabels(a, b) == 0 && CompareLabels(b, c) == 0
  {
    if a != [] && b != [] && c != [] {
      S.CompareTransitive(LowerAll(a[0]), LowerAll(b[0]), LowerAll(c[0]));
      if CaseCompare(a[0], c[0]) == 0 {
        CompareTransitive(a[1..], b[1..], c[1..]);
      }
    }
  }

  /** The labels of a dotted name, first label first. */
  function Split(s: string): (ls: seq<string>)
    ensures ls != []
  {
    S.Split(s, '.')
  }

  // ---------------------------------------------------------------- the comparators

  /** strncasecmp of `a` with the `n` characters of `b` from `from` on, none of them NUL. */
  function CaseCompareN(a: string, b: string, from: nat, n: nat): int
    requires from + n <= |b|
    decreases n
  {
    if n == 0 then 0
    else if a == [] then -1
    else if Lower(a[0]) == Lower(b[from]) then CaseCompareN(a[1..], b, from + 1, n - 1)
    else Lower(a[0]) as int - Lower(b[from]) as int
  }

  /** The length-limited comparison followed by the length check is the full comparison. */
  lemma {:induction false} CompareWithLimit(a: string, b: string, from: nat, n: nat)
    requires from + n <= |b|
    ensures var c := CaseCompareN(a, b, from, n);
            S.Sign(CaseCompare(a, b[from..from + n])) ==
              (if c != 0 then S.Sign(c) else if |a| > n then 1 else if |a| < n then -1 else 0)
    decreases n
  {
    var l := LowerAll(b[from..from + n]);
    if n > 0 && a != [] {
      CompareWithLimit(a[1..], b, from + 1, n - 1);
      assert b[from..from + n][1..] == b[from + 1..from + n];
      assert l[1..] == LowerAll(b[from + 1..from + n]) && LowerAll(a)[1..] == LowerAll(a[1..]);
    }
  }

  /** urldb_search_match_host: walk both chains up to the root. */
  method MatchHost(a: Host, b: Host) returns (c: int)
    ensures c == Compare(a, b)
  {
    var x, y := a, b;
    while x.Part? && y.Part?
      invariant CompareLabels(Labels(x), Labels(y)) == Compare(a, b)
      decreases x
    {
      var ret := CaseCompare(x.part, y.part);
      if ret != 0 { return ret; }
      assert Labels(x)[1..] == Labels(x.parent) && Labels(y)[1..] == Labels(y.parent);
      x, y := x.parent, y.parent;
    }
    if x.Part? {
      c := 1;
    } else if y.Part? {
      c := -1;
    } else {
      c := 0;
    }
  }

  /** What is left of a dotted string from `from` on; one past its end nothing is left. */
  function Rest(b: string, from: nat): (ls: seq<string>)
    requires from <= |b| + 1
    ensures ls == [] <==> from == |b| + 1
  {
    if from == |b| + 1 then [] else Split(b[from..])
  }

  lemma RestWhole(b: string)
    ensures Rest(b, 0) == Split(b) && Rest(b, |b| + 1) == []
  {
    assert b[0..] == b;
  }

  lemma RestStep(b: string, from: nat)
    requires from <= |b|
    ensures var dot := S.IndexOf(b, '.', from);
            Rest(b, from) == [b[from..dot]] + Rest(b, dot + 1)
  {
    S.SplitStep(b, '.', from);
  }

  /** urldb_search_match_string: compare a chain with a dotted string, label by label.
      An IP address is compared whole with the leaf part. */
  method MatchString(a: Host, b: string, isIp: bool) returns (c: int)
    requires a.Part?
    ensures isIp ==> c == CaseCompare(a.part, b)
    ensures !isIp ==> S.Sign(c) == S.Sign(CompareLabels(Labels(a), Split(b)))
  {
    hide Split, CaseCompare, CaseCompareN, S.IndexOf, Rest;
    if isIp { return CaseCompare(a.part, b); }
    var x: Host, from: nat := a, 0;
    RestWhole(b);
    while from < |b| + 1 && x.Part?
      invariant from <= |b| + 1
      invariant S.Sign(CompareLabels(Labels(x), Rest(b, from))) == S.Sign(CompareLabels(Labels(a), Split(b)))
      decreases x
    {
      var dot := S.IndexOf(b, '.', from);
      RestStep(b, from);
      assert Labels(x)[1..] == Labels(x.parent);
      assert Rest(b, from)[1..] == Rest(b, dot + 1);
      CompareWithLimit(x.part, b, from, dot - from);
      var ret := CaseCompareN(x.part, b, from, dot - from);
      if ret != 0 { return ret; }
      var plen := |x.part|;
      if plen > dot - from { return 1; }
      if plen < dot - from { return -1; }
      from, x := dot + 1, x.parent;
    }
    if x.Part? {
      c := 1;
    } else if from < |b| + 1 {
      c := -1;
    } else {
      c := 0;
    }
  }
}

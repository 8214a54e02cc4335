/** Response headers (content/llcache.c): a line is split into a name and a value, and the
    headers of an object are gathered from its lines. */
module Headers {
  import opened Strings

  const NUL: char := 0 as char

  predicate Blank(c: char) {
    c == ' ' || c == '\t' || c == '\r' || c == '\n'
  }

  predicate AllBlank(s: string) {
    forall i :: 0 <= i < |s| ==> Blank(s[i])
  }

  /** No whitespace at either end. */
  predicate Trimmed(s: string) {
    s == "" || (!Blank(s[0]) && !Blank(s[|s| - 1]))
  }

  datatype Header = Header(name: string, value: string)

  // ---------------------------------------------------------------- splitting a line

  /** How many blanks `s` starts with. */
  function Lead(s: string): (k: nat)
    ensures k <= |s| && (forall i :: 0 <= i < k ==> Blank(s[i])) && (k < |s| ==> !Blank(s[k]))
  {
    if s == "" || !Blank(s[0]) then 0 else 1 + Lead(s[1..])
  }

  /** Where `s` ends once the blanks at its end are dropped. */
  function End(s: string): (k: nat)
    ensures k <= |s| && (forall i :: k <= i < |s| ==> Blank(s[i])) && (k > 0 ==> !Blank(s[k - 1]))
  {
    if s == "" || !Blank(s[|s| - 1]) then |s| else End(s[..|s| - 1])
  }

  /** The name as found before the colon and the value after it. */
  function Parts(indented: bool, name: string, rest: string): Header {
    var value := rest[Lead(rest)..];
    Header(name[..End(name)], if indented then value else value[..End(value)])
  }

  /** llcache_fetch_split_header once past the blanks at the start. */
  function SplitFlush(indented: bool, t: string): Header {
    var c := IndexOf(t, ':', 0);
    if c == |t| then Header(t[..End(t)], "") else Parts(indented, t[..c], t[c + 1..])
  }

  /** llcache_fetch_split_header. With blanks before the name the scan for trailing blanks
      starts past the terminator, which is not blank, so then the value keeps them. */
  function Split(line: string): Header {
    var k := Lead(line);
    SplitFlush(k > 0, line[k..])
  }

  /** A header that could be the field of a message: a name without colon, both parts trimmed. */
  predicate Clean(h: Header) {
    h.name != "" && ':' !in h.name && Trimmed(h.name) && Trimmed(h.value)
  }

  function Line(h: Header): string {
    h.name + ":" + h.value
  }

  lemma LeadIs(s: string, k: nat)
    requires k <= |s| && (forall i :: 0 <= i < k ==> Blank(s[i])) && (k < |s| ==> !Blank(s[k]))
    ensures Lead(s) == k
  {
    hide Blank;
  }

  lemma EndIs(s: string, k: nat)
    requires k <= |s| && (forall i :: k <= i < |s| ==> Blank(s[i])) && (k > 0 ==> !Blank(s[k - 1]))
    ensures End(s) == k
  {
    hide Blank;
  }

  /** Trimming a padded string gives the string back. */
  lemma TrimIs(pre: string, s: string, post: string)
    requires AllBlank(pre) && AllBlank(post) && Trimmed(s) && (s == "" ==> post == "")
    ensures var t := pre + s + post;
            && Lead(t) == |pre| && t[|pre|..] == s + post && End(s + post) == |s| && (s + post)[..|s|] == s
  {
    hide Blank, Lead, End;
    var t := pre + s + post;
    assert t[|pre|..] == s + post;
    LeadIs(t, |pre|);
    EndIs(s + post, |s|);
  }

  lemma SplitIndented(lead: string, t: string)
    requires AllBlank(lead) && (t != "" ==> !Blank(t[0]))
    ensures Split(lead + t) == SplitFlush(lead != "", t)
  {
    hide Lead, SplitFlush;
    assert (lead + t)[|lead|..] == t;
    LeadIs(lead + t, |lead|);
  }

  lemma SplitParts(indented: bool, name: string, rest: string)
    requires ':' !in name
    ensures SplitFlush(indented, name + [':'] + rest) == Parts(indented, name, rest)
  {
    hide Parts, End, IndexOf;
    var t := name + [':'] + rest;
    assert forall k :: 0 <= k < |name| ==> t[k] == name[k];
    IndexOfIs(t, ':', 0, |name|);
    assert t[..|name|] == name && t[|name| + 1..] == rest;
  }

  /** A field in the sense of section 3.2 of RFC 7230, with blanks allowed around the name. */
  function Field(lead: string, name: string, a: string, b: string, value: string, c: string): string {
    lead + ((name + a) + [':'] + (b + (value + c)))
  }

  /** The parts of a field are found whatever the blanks between them. Only with blanks before
      the name does the value keep those after it. */
  lemma SplitFinds(lead: string, name: string, a: string, b: string, value: string, c: string)
    requires AllBlank(lead) && AllBlank(a) && AllBlank(b) && AllBlank(c)
    requires name != "" && ':' !in name && Trimmed(name) && Trimmed(value) && (value == "" ==> c == "")
    ensures Split(Field(lead, name, a, b, value, c)) == Header(name, if lead == "" then value else value + c)
  {
    hide Lead, End, Split, SplitFlush;
    var t := (name + a) + [':'] + (b + (value + c));
    assert t[0] == name[0];
    SplitIndented(lead, t);
    SplitParts(lead != "", name + a, b + (value + c));
    assert b + value + c == b + (value + c);
    TrimIs("", name, a);
    assert "" + name + a == name + a;
    TrimIs(b, value, c);
  }

  lemma PartsTrimmed(n: string, rest: string)
    requires n == "" || !Blank(n[0])
    ensures Trimmed(Parts(false, n, rest).name) && Trimmed(Parts(false, n, rest).value)
  {
    hide Lead, End, Blank;
  }

  /** A string is what trimming leaves and the blanks that it took. */
  lemma TrimMade(s: string)
    ensures AllBlank(s[..Lead(s)]) && s == s[..Lead(s)] + s[Lead(s)..]
    ensures AllBlank(s[End(s)..]) && s == s[..End(s)] + s[End(s)..]
  {
    hide Lead, End, Blank;
  }

  lemma PartsMade(n: string, rest: string) returns (a: string, b: string, c: string)
    ensures var h := Parts(false, n, rest);
            && AllBlank(a) && AllBlank(b) && AllBlank(c) && n == h.name + a && rest == b + (h.value + c)
  {
    hide Lead, End, AllBlank;
    var v := rest[Lead(rest)..];
    a, b, c := n[End(n)..], rest[..Lead(rest)], v[End(v)..];
    TrimMade(n);
    TrimMade(rest);
    TrimMade(v);
  }

  /** And every line with a colon and no blank at its start is such a field. */
  lemma SplitMade(line: string) returns (a: string, b: string, c: string)
    requires ':' in line && !Blank(line[0])
    ensures var h := Split(line);
            && Trimmed(h.name) && ':' !in h.name && Trimmed(h.value)
            && AllBlank(a) && AllBlank(b) && AllBlank(c) && line == Field("", h.name, a, b, h.value, c)
  {
    hide Lead, End, IndexOf, Split, SplitFlush, Parts, Trimmed, Blank;
    var i := IndexOf(line, ':', 0);
    var n := line[..i];
    assert line[0..i] == n;
    assert i == |line| ==> n == line;
    var rest := line[i + 1..];
    assert line == n + [':'] + rest;
    SplitIndented("", line);
    assert "" + line == line;
    SplitParts(false, n, rest);
    assert n == "" || n[0] == line[0];
    PartsTrimmed(n, rest);
    a, b, c := PartsMade(n, rest);
  }

  /** A line without colon is a name without value. */
  lemma SplitBare(line: string)
    requires ':' !in line && (line != "" ==> !Blank(line[0]))
    ensures var h := Split(line);
            Trimmed(h.name) && ':' !in h.name && h.value == "" && AllBlank(line[|h.name|..]) && h.name <= line
  {
    hide Lead, End, IndexOf, Parts;
    LeadIs(line, 0);
    assert line[0..] == line;
    IndexOfIs(line, ':', 0, |line|);
  }

  /** A line that does not start with a blank has a clean header, or none. */
  lemma SplitClean(line: string)
    requires line != "" ==> !Blank(line[0])
    ensures Split(line).name == "" || Clean(Split(line))
  {
    hide Split;
    if ':' in line { var a, b, c := SplitMade(line); } else { SplitBare(line); }
  }

  /** What a name is, blanks before it or not. */
  lemma SplitName(line: string)
    ensures var n := Split(line).name; ':' !in n && Trimmed(n)
  {
    hide Lead, End, IndexOf;
    var t := line[Lead(line)..];
    var c := IndexOf(t, ':', 0);
    assert t[0..c] == t[..c];
    assert t[..|t|] == t;
  }

  /** Writing a header as a line and splitting that is exact on clean headers, and only there. */
  lemma SplitLine(h: Header)
    ensures Split(Line(h)) == h && h.name != "" <==> Clean(h)
  {
    hide Lead, End, IndexOf, Split;
    if Clean(h) {
      SplitFinds("", h.name, "", "", h.value, "");
      assert Field("", h.name, "", "", h.value, "") == Line(h);
    }
    if Split(Line(h)) == h && h.name != "" {
      SplitName(Line(h));
      assert Line(h)[0] == h.name[0];
      SplitClean(Line(h));
    }
  }

  // ---------------------------------------------------------------- splitting in memory

  method SkipBlanks(mem: string, from: nat, stop: nat) returns (i: nat)
    requires from <= stop < |mem| && !Blank(mem[stop])
    ensures from <= i <= stop && !Blank(mem[i]) && forall k :: from <= k < i ==> Blank(mem[k])
  {
    i := from;
    while Blank(mem[i])
      invariant from <= i <= stop && forall k :: from <= k < i ==> Blank(mem[k])
      decreases stop - i
    {
      i := i + 1;
    }
  }

  method StripBack(mem: string, lo: nat, hi: nat) returns (i: nat)
    requires lo <= hi <= |mem|
    ensures lo <= i <= hi && (forall k :: i <= k < hi ==> Blank(mem[k])) && (i > lo ==> !Blank(mem[i - 1]))
  {
    i := hi;
    while i > lo && Blank(mem[i - 1])
      invariant lo <= i <= hi && forall k :: i <= k < hi ==> Blank(mem[k])
    {
      i := i - 1;
    }
  }

  /** strchr for the colon: where it is, or where the string ends. */
  method FindColon(mem: string, from: nat, stop: nat) returns (i: nat)
    requires from <= stop < |mem| && mem[stop] == NUL && NUL !in mem[from..stop]
    ensures i == from + IndexOf(mem[from..stop], ':', 0)
  {
    var t := mem[from..stop];
    i := from;
    while mem[i] != ':' && mem[i] != NUL
      invariant from <= i <= stop && forall k :: from <= k < i ==> mem[k] != ':'
      decreases stop - i
    {
      assert i < stop;
      i := i + 1;
    }
    assert i < stop ==> t[i - from] == mem[i];
    IndexOfIs(t, ':', 0, i - from);
  }

  /** strndup: up to the terminator, and at most `n` characters; a negative count has wrapped
      round and is no limit. */
  method Duplicate(mem: string, from: nat, stop: nat, n: int) returns (s: string)
    requires from <= stop < |mem| && mem[stop] == NUL && NUL !in mem[from..stop]
    ensures s == mem[from..if 0 <= n < stop - from then from + n else stop]
  {
    var i := from;
    s := "";
    while mem[i] != NUL && i - from != n
      invariant from <= i <= stop && s == mem[from..i] && (n >= 0 ==> i - from <= n)
      decreases stop - i
    {
      assert i < stop;
      s := s + [mem[i]];
      i := i + 1;
    }
    assert i < stop ==> mem[i] == mem[from..stop][i - from];
  }

  /** The value after a colon, `from` being where the scan back from its end starts. */
  method ReadValue(mem: string, data: nat, colon: nat, stop: nat, from: nat) returns (v: string)
    requires data <= colon < stop <= from <= |mem| && stop < |mem| && mem[stop] == NUL && NUL !in mem[data..stop]
    ensures v == Parts(from > stop, mem[data..colon], mem[colon + 1..stop]).value
  {
    hide Lead, End, Blank;
    NulNotBlank();
    var start := SkipBlanks(mem, colon + 1, stop);
    ghost var rest := mem[colon + 1..stop];
    LeadIs(rest, start - colon - 1);
    assert rest[start - colon - 1..] == mem[start..stop];
    var end := StripBack(mem, data, from);
    assert forall k :: start <= k < stop ==> mem[k] == mem[data..stop][k - data];
    v := Duplicate(mem, start, stop, end - start);
    ValueIs(mem, data, start, stop, from, end);
  }

  /** The name before a colon, or before the end. */
  method ReadName(mem: string, data: nat, colon: nat, stop: nat) returns (n: string)
    requires data <= colon <= stop < |mem| && mem[stop] == NUL && NUL !in mem[data..stop]
    ensures n == mem[data..colon][..End(mem[data..colon])]
  {
    hide End, Blank;
    var stem := StripBack(mem, data, colon);
    EndIs(mem[data..colon], stem - data);
    n := Duplicate(mem, data, stop, stem - data);
  }

  /** A header whose name starts at `data`. */
  method SplitFrom(mem: string, data: nat, stop: nat, from: nat) returns (h: Header)
    requires data <= stop <= from <= |mem| && stop < |mem| && mem[stop] == NUL && NUL !in mem[data..stop]
    ensures h == SplitFlush(from > stop, mem[data..stop])
  {
    hide End, Blank, Parts, SplitFlush, Lead;
    ghost var t := mem[data..stop];
    var colon := FindColon(mem, data, stop);
    var name := ReadName(mem, data, colon, stop);
    SplitColon(from > stop, t);
    assert t[..colon - data] == mem[data..colon];
    if mem[colon] == NUL {
      h := Header(name, "");
    } else {
      var v := ReadValue(mem, data, colon, stop, from);
      assert t[colon - data + 1..] == mem[colon + 1..stop];
      PartsAre(from > stop, mem[data..colon], mem[colon + 1..stop]);
      h := Header(name, v);
    }
  }

  /** llcache_fetch_split_header on the string of length `len` at `at`. The scan back from the
      end of the value starts as far past the terminator as there were blanks at the start, so
      that much memory must be readable. */
  method SplitHeader(mem: string, at: nat, len: nat) returns (h: Header)
    requires at + len < |mem| && mem[at + len] == NUL && NUL !in mem[at..at + len]
    requires at + len + Lead(mem[at..at + len]) <= |mem|
    ensures h == Split(mem[at..at + len])
  {
    hide Lead, Blank, SplitFlush;
    NulNotBlank();
    ghost var line := mem[at..at + len];
    var data := SkipBlanks(mem, at, at + len);
    LeadIs(line, data - at);
    assert line[data - at..] == mem[data..at + len];
    h := SplitFrom(mem, data, at + len, data + len);
  }

  lemma SplitColon(indented: bool, t: string)
    ensures var c := IndexOf(t, ':', 0);
            SplitFlush(indented, t) == if c == |t| then Header(t[..c][..End(t[..c])], "")
                else Parts(indented, t[..c], t[c + 1..])
  {
    hide IndexOf, End, Parts;
    assert t[..|t|] == t;
  }

  lemma PartsAre(indented: bool, name: string, rest: string)
    ensures var v := rest[Lead(rest)..];
            Parts(indented, name, rest) == Header(name[..End(name)], if indented then v else v[..End(v)])
  {
  }

  /** The end that was found for the value is its own end, or past the terminator. */
  lemma ValueIs(mem: string, data: nat, start: nat, stop: nat, from: nat, end: nat)
    requires data <= start <= stop < |mem| && mem[stop] == NUL && !Blank(mem[start])
    requires stop <= from <= |mem| && data <= end <= from
    requires (forall k :: end <= k < from ==> Blank(mem[k])) && (end > data ==> !Blank(mem[end - 1]))
    ensures from > stop ==> end > stop
    ensures from == stop ==> mem[start..if 0 <= end - start < stop - start then end else stop]
                             == mem[start..stop][..End(mem[start..stop])]
  {
    hide End, Blank;
    var v := mem[start..stop];
    if from == stop {
      assert start < stop ==> end > start;
      EndIs(v, if end < start then 0 else end - start);
    } else {
      assert !Blank(NUL) by { NulNotBlank(); }
    }
  }

  lemma NulNotBlank()
    ensures !Blank(NUL)
  {
  }

  // ---------------------------------------------------------------- the headers of an object

  /** The start of a response. */
  predicate Starts(line: string) {
    "HTTP/" <= line
  }

  /** llcache_fetch_process_header: a response start drops what was read before, and a line
      without name is ignored. */
  function AddLine(hs: seq<Header>, line: string): seq<Header> {
    var base := if Starts(line) then [] else hs;
    if Split(line).name == "" then base else base + [Split(line)]
  }

  function Gather(hs: seq<Header>, lines: seq<string>): seq<Header>
    decreases lines
  {
    if lines == [] then hs else Gather(AddLine(hs, lines[0]), lines[1..])
  }

  /** Clean headers of which only the first may start a response. */
  predicate Proper(hs: seq<Header>) {
    forall i :: 0 <= i < |hs| ==> Clean(hs[i]) && (i > 0 ==> !Starts(hs[i].name))
  }

  predicate Flush(line: string) {
    line == "" || !Blank(line[0])
  }

  lemma AddProper(hs: seq<Header>, line: string)
    requires Proper(hs) && Flush(line)
    ensures Proper(AddLine(hs, line))
  {
    hide Split;
    SplitClean(line);
    var h := Split(line);
    if Starts(h.name) && h.name != "" {
      NameStarts(line);
    }
  }

  /** On a line that starts flush, the name is a prefix. */
  lemma NameStarts(line: string)
    requires Flush(line)
    ensures Split(line).name <= line
  {
    hide Lead, End, IndexOf;
    LeadIs(line, 0);
    assert line[0..] == line;
  }

  /** The headers of every response whose lines start flush are proper. */
  lemma {:induction false} GatherProper(hs: seq<Header>, lines: seq<string>)
    requires Proper(hs) && forall i :: 0 <= i < |lines| ==> Flush(lines[i])
    ensures Proper(Gather(hs, lines))
    decreases lines
  {
    if lines != [] {
      hide Proper, AddLine;
      AddProper(hs, lines[0]);
      GatherProper(AddLine(hs, lines[0]), lines[1..]);
    }
  }

  function LinesOf(hs: seq<Header>): (ls: seq<string>)
    ensures |ls| == |hs|
  {
    if hs == [] then [] else [Line(hs[0])] + LinesOf(hs[1..])
  }

  /** A response start is seen in a line exactly when it is in the name. */
  lemma StartsLine(h: Header)
    requires ':' !in h.name
    ensures Starts(Line(h)) <==> Starts(h.name)
  {
    var l := Line(h);
    assert forall k :: 0 <= k < |h.name| ==> l[k] == h.name[k];
    assert l[|h.name|] == ':';
  }

  /** Headers never grow by more than one per line. */
  lemma {:induction false} GatherBound(hs: seq<Header>, lines: seq<string>)
    ensures |Gather(hs, lines)| <= |hs| + |lines|
    decreases lines
  {
    if lines != [] { GatherBound(AddLine(hs, lines[0]), lines[1..]); }
  }

  /** If as many headers as lines were gathered, those there before were kept, */
  lemma {:induction false} GatherKeeps(hs: seq<Header>, lines: seq<string>)
    requires |Gather(hs, lines)| == |hs| + |lines|
    ensures hs <= Gather(hs, lines)
    decreases lines
  {
    if lines != [] {
      hide Split, Starts, Gather;
      GatherStep(hs, lines);
      GatherBound(AddLine(hs, lines[0]), lines[1..]);
      GatherKeeps(AddLine(hs, lines[0]), lines[1..]);
    }
  }

  /** and each line gave one and dropped none. */
  lemma {:induction false} GatherFull(hs: seq<Header>, lines: seq<string>, i: nat)
    requires |Gather(hs, lines)| == |hs| + |lines| && i < |lines|
    ensures Gather(hs, lines)[|hs| + i] == Split(lines[i]) && Split(lines[i]).name != ""
    ensures Starts(lines[i]) ==> hs == [] && i == 0
    decreases lines
  {
    hide Split, Starts, Gather;
    var hs' := AddLine(hs, lines[0]);
    GatherStep(hs, lines);
    GatherBound(hs', lines[1..]);
    GatherKeeps(hs', lines[1..]);
    assert hs' == hs + [Split(lines[0])];
    if i > 0 { GatherFull(hs', lines[1..], i - 1); }
  }

  lemma GatherStep(hs: seq<Header>, lines: seq<string>)
    requires lines != []
    ensures Gather(hs, lines) == Gather(AddLine(hs, lines[0]), lines[1..])
  {
  }

  lemma {:induction false} LinesAre(hs: seq<Header>, i: nat)
    requires i < |hs|
    ensures LinesOf(hs)[i] == Line(hs[i])
  {
    if i > 0 { LinesAre(hs[1..], i - 1); }
  }

  lemma {:induction false} GatherLines(done: seq<Header>, hs: seq<Header>)
    requires Proper(done + hs)
    ensures Gather(done, LinesOf(hs)) == done + hs
    decreases hs
  {
    hide Split, Proper;
    if hs != [] {
      assert (done + hs)[|done|] == hs[0];
      assert Clean(hs[0]) && (|done| > 0 ==> !Starts(hs[0].name)) by { ProperAt(done + hs, |done|); }
      SplitLine(hs[0]);
      StartsLine(hs[0]);
      assert AddLine(done, Line(hs[0])) == done + [hs[0]];
      assert done + [hs[0]] + hs[1..] == done + hs;
      GatherLines(done + [hs[0]], hs[1..]);
      assert LinesOf(hs)[1..] == LinesOf(hs[1..]);
    }
  }

  lemma ProperAt(hs: seq<Header>, i: nat)
    requires Proper(hs) && i < |hs|
    ensures Clean(hs[i]) && (i > 0 ==> !Starts(hs[i].name))
  {
  }

  /** Written as lines and gathered again, headers come back exactly when they are proper. */
  lemma GatherRoundTrip(hs: seq<Header>)
    ensures Gather([], LinesOf(hs)) == hs <==> Proper(hs)
  {
    hide Split, Gather;
    if Proper(hs) {
      assert [] + hs == hs;
      GatherLines([], hs);
    }
    if Gather([], LinesOf(hs)) == hs {
      var ls := LinesOf(hs);
      forall i | 0 <= i < |hs| ensures Clean(hs[i]) && (i > 0 ==> !Starts(hs[i].name)) {
        LinesAre(hs, i);
        GatherFull([], ls, i);
        SplitLine(hs[i]);
        StartsLine(hs[i]);
      }
    }
  }

  /** A blank before the name: the value keeps the blank after it, and so is read back changed. */
  lemma IndentedLineChanges()
    ensures Gather([], [" a: b "]) == [Header("a", "b ")]
    ensures Gather([], LinesOf([Header("a", "b ")])) == [Header("a", "b")]
  {
    hide Split, Gather;
    SplitFinds(" ", "a", "", " ", "b", " ");
    assert Field(" ", "a", "", " ", "b", " ") == " a: b ";
    assert "b" + " " == "b ";
    OneLine(" a: b ");
    SplitFinds("", "a", "", "", "b", " ");
    assert Field("", "a", "", "", "b", " ") == Line(Header("a", "b "));
    OneLine(Line(Header("a", "b ")));
    assert LinesOf([Header("a", "b ")]) == [Line(Header("a", "b "))];
  }

  lemma OneLine(line: string)
    requires Split(line).name != ""
    ensures Gather([], [line]) == [Split(line)]
  {
    hide Split;
    assert [line][1..] == [];
    assert Gather(AddLine([], line), []) == AddLine([], line);
  }
}

/** What a failed parse of metadata leaves behind (content/llcache.c): the headers are gathered
    into the object as they are read, so a bad line after them comes too late. */
module MetadataFailure {
  import opened Options
  import opened Headers
  import opened Metadata

  lemma {:induction false} GatherSome(hs: seq<Header>, lines: seq<string>)
    requires hs != []
    ensures Gather(hs, lines) != []
    decreases lines
  {
    hide Split;
    if lines != [] {
      if Starts(lines[0]) { StartNamed(lines[0]); }
      GatherSome(AddLine(hs, lines[0]), lines[1..]);
    }
  }

  /** A response start has a name. */
  lemma StartNamed(line: string)
    requires Starts(line)
    ensures Split(line).name != ""
  {
    assert line[0] == 'H' && !Blank(line[0]);
    if ':' in line {
      var a, b, c := SplitMade(line);
    } else {
      SplitBare(line);
    }
  }

  /** Nothing is gathered exactly if no line has a name. */
  lemma {:induction false} GatherNothing(lines: seq<string>)
    ensures Gather([], lines) == [] <==> forall i :: 0 <= i < |lines| ==> Split(lines[i]).name == ""
  {
    hide Split;
    if lines != [] {
      var h := AddLine([], lines[0]);
      if h != [] {
        GatherSome(h, lines[1..]);
      } else {
        GatherNothing(lines[1..]);
        assert forall i :: 0 < i < |lines| ==> lines[i] == lines[1..][i - 1];
      }
    }
  }

  /** A new object that fails to parse is left without headers exactly if one of the first six
      lines is at fault, or no line gathered has a name; and a parse that succeeds leaves the
      headers that it returns. */
  lemma LeftExact(url: string, read: UrlReader, lines: seq<string>)
    ensures Gather([], Gathered(url, read, lines)) == []
            <==> forall i :: 0 <= i < |Gathered(url, read, lines)| ==> Split(Gathered(url, read, lines)[i]).name == ""
    ensures var r := Parse(url, read, [], lines); r.Ok? ==> r.value.headers == Gather([], Gathered(url, read, lines))
  {
    hide Split;
    GatherNothing(Gathered(url, read, lines));
  }

  /** The line at a place holds this number. */
  predicate Holds(lines: seq<string>, i: nat, n: nat) {
    i < |lines| && Scan(lines[i]) == Some(n)
  }

  /** What a parse accepts, and what it makes of it: the first line is the very URL of the object
      and has at least seven characters, the next five hold the length, the three times and the
      number of headers, so many lines of headers follow, and then nothing, or a line that tells
      of no certificates. */
  lemma ParseExact(url: string, read: UrlReader, lines: seq<string>, m: Meta)
    ensures Parse(url, read, [], lines) == Ok(m) <==>
              exists n: nat ::
                && Holds(lines, 5, n) && 6 + n <= |lines|
                && m.url == url && |lines[0]| >= 7 && read(lines[0]) == Some(url)
                && Holds(lines, 1, m.length) && Holds(lines, 2, m.request)
                && Holds(lines, 3, m.response) && Holds(lines, 4, m.completion)
                && m.headers == Gather([], lines[6..6 + n])
                && (6 + n == |lines| || Holds(lines, 6 + n, 0))
  {
    hide Scan, Gather;
    if Parse(url, read, [], lines).Ok? { assert Holds(lines, 5, Number(lines, 5).value); }
  }

  /** Metadata of another URL, as after a collision in the store, is refused as such. */
  lemma OtherUrlRefused(url: string, read: UrlReader, lines: seq<string>)
    requires lines != [] && |lines[0]| >= 7 && read(lines[0]).Some? && read(lines[0]) != Some(url)
    ensures Parse(url, read, [], lines) == Err(BadUrl) && Gathered(url, read, lines) == []
  {
  }

  /** A bad line after the headers: the parse fails and the header stays. */
  lemma FailureLeavesHeader(read: UrlReader)
    requires read("http://a/") == Some("http://a/")
    ensures var lines := ["http://a/", Decimal(1), Decimal(1), Decimal(1), Decimal(1), Decimal(1), "a:b", "x"];
            Parse("http://a/", read, [], lines) == Err(Invalid)
                && Gather([], Gathered("http://a/", read, lines)) == [Header("a", "b")]
  {
    hide Decimal, Scan, Split;
    var lines := ["http://a/", Decimal(1), Decimal(1), Decimal(1), Decimal(1), Decimal(1), "a:b", "x"];
    ScanDecimal(1);
    assert Scan("x") == None by { NoDigits(); }
    assert lines[6..7] == ["a:b"];
    assert Split("a:b") == Header("a", "b") by { SplitLine(Header("a", "b")); assert Line(Header("a", "b")) == "a:b"; }
    OneLine("a:b");
  }

  lemma NoDigits()
    ensures Scan("x") == None
  {
    LeadIs("x", 0);
    assert "x"[0..] == "x";
  }
}

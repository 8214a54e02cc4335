/** The metadata of a cached object as kept in the backing store (content/llcache.c): a buffer
    of NUL-terminated lines, its printer and its parser. */
module Metadata {
  import opened Options
  import opened Strings
  import opened Headers

  // ---------------------------------------------------------------- decimal numbers

  predicate Digit(c: char) {
    '0' <= c <= '9'
  }

  function DigitOf(n: nat): (c: char)
    requires n < 10
    ensures Digit(c) && c as int - '0' as int == n
  {
    '0' + n as char
  }

  /** A number as printf writes it. */
  function Decimal(n: nat): (s: string)
    ensures s != "" && forall i :: 0 <= i < |s| ==> Digit(s[i])
  {
    if n < 10 then [DigitOf(n)] else Decimal(n / 10) + [DigitOf(n % 10)]
  }

  /** The digits that `s` starts with. */
  function Digits(s: string): (k: nat)
    ensures k <= |s| && (forall i :: 0 <= i < k ==> Digit(s[i])) && (k < |s| ==> !Digit(s[k]))
  {
    if s == "" || !Digit(s[0]) then 0 else 1 + Digits(s[1..])
  }

  function Value(s: string): nat
    requires forall i :: 0 <= i < |s| ==> Digit(s[i])
  {
    if s == "" then 0
    else
      var d := s[|s| - 1];
      assert Digit(d);
      10 * Value(s[..|s| - 1]) + (d as int - '0' as int)
  }

  /** What scanf reads: blanks are skipped, then come digits, and what follows is left. */
  function Scan(s: string): (r: Option<nat>) {
    var t := s[Lead(s)..];
    if Digits(t) == 0 then None else Some(Value(t[..Digits(t)]))
  }

  lemma {:induction false} ValueDecimal(n: nat)
    ensures Value(Decimal(n)) == n
  {
    if n >= 10 {
      ValueDecimal(n / 10);
      assert Decimal(n)[..|Decimal(n)| - 1] == Decimal(n / 10);
    } else {
      assert Decimal(n)[..0] == "";
    }
  }

  lemma ScanDecimal(n: nat)
    ensures Scan(Decimal(n)) == Some(n)
  {
    hide Value, Decimal;
    var s := Decimal(n);
    assert Digit(s[0]) && !Blank(s[0]);
    LeadIs(s, 0);
    assert s[0..] == s && s[..|s|] == s;
    ValueDecimal(n);
  }

  function Power(k: nat): nat {
    if k == 0 then 1 else 10 * Power(k - 1)
  }

  /** A number has at most `k` digits exactly when it is below the k-th power of ten. */
  lemma {:induction false} DecimalLength(n: nat, k: nat)
    requires k > 0
    ensures |Decimal(n)| <= k <==> n < Power(k)
  {
    if k == 1 {
      assert Power(1) == 10 * Power(0);
    } else if n >= 10 {
      DecimalLength(n / 10, k - 1);
    } else {
      PowerGrows(k);
    }
  }

  lemma {:induction false} PowerGrows(k: nat)
    ensures k > 0 ==> Power(k) >= 10
  {
    if k > 1 { PowerGrows(k - 1); } else if k == 1 { assert Power(1) == 10 * Power(0); }
  }

  // ---------------------------------------------------------------- the printed form

  /** What is kept of an object without certificates. */
  datatype Meta = Meta(url: string, length: nat, request: nat, response: nat, completion: nat, headers: seq<Header>)

  predicate NulFree(m: Meta) {
    NUL !in m.url && forall i :: 0 <= i < |m.headers| ==> NUL !in Line(m.headers[i])
  }

  function Lines(m: Meta): seq<string> {
    [m.url, Decimal(m.length), Decimal(m.request), Decimal(m.response), Decimal(m.completion), Decimal(|m.headers|)]
    + LinesOf(m.headers) + [Decimal(0)]
  }

  /** Lines as they are kept: each followed by a NUL. */
  function Pack(lines: seq<string>): string {
    if lines == [] then "" else lines[0] + [NUL] + Pack(lines[1..])
  }

  function Text(m: Meta): string {
    Pack(Lines(m))
  }

  function HeaderSpace(hs: seq<Header>): nat {
    if hs == [] then 0 else |hs[0].name| + 1 + |hs[0].value| + 1 + HeaderSpace(hs[1..])
  }

  /** The size that llcache_serialise_metadata allocates. */
  function Space(m: Meta): nat {
    5 * 11 + HeaderSpace(m.headers) + |m.url| + 1 + 11
  }

  lemma PackFirst(l: string, ls: seq<string>)
    ensures Pack([l] + ls) == (l + [NUL]) + Pack(ls)
  {
    assert ([l] + ls)[1..] == ls;
  }

  lemma {:induction false} PackSplit(a: seq<string>, b: seq<string>)
    ensures Pack(a + b) == Pack(a) + Pack(b)
  {
    if a == [] {
      assert a + b == b;
    } else {
      PackSplit(a[1..], b);
      assert (a + b)[1..] == a[1..] + b;
      Associative(a[0] + [NUL], Pack(a[1..]), Pack(b));
    }
  }

  lemma Associative(a: string, b: string, c: string)
    ensures a + (b + c) == a + b + c
  {
  }

  lemma PackOne(l: string)
    ensures Pack([l]) == l + [NUL]
  {
    assert [l][1..] == [];
  }

  lemma {:induction false} PackHeaders(hs: seq<Header>)
    ensures |Pack(LinesOf(hs))| == HeaderSpace(hs)
  {
    if hs != [] {
      PackHeaders(hs[1..]);
      assert LinesOf(hs)[1..] == LinesOf(hs[1..]);
    }
  }

  function NumberSpace(m: Meta): nat {
    |Decimal(m.length)| + |Decimal(m.request)| + |Decimal(m.response)| + |Decimal(m.completion)|
    + |Decimal(|m.headers|)|
  }

  lemma TextLength(m: Meta)
    ensures |Text(m)| == |m.url| + 1 + NumberSpace(m) + 5 + HeaderSpace(m.headers) + 2
  {
    hide Pack, LinesOf;
    var a := [m.url, Decimal(m.length), Decimal(m.request), Decimal(m.response), Decimal(m.completion),
        Decimal(|m.headers|)];
    PackSplit(a + LinesOf(m.headers), [Decimal(0)]);
    PackSplit(a, LinesOf(m.headers));
    PackHeaders(m.headers);
    PackOne(Decimal(0));
    PackSix(m.url, Decimal(m.length), Decimal(m.request), Decimal(m.response), Decimal(m.completion),
        Decimal(|m.headers|));
  }

  lemma PackSix(a: string, b: string, c: string, d: string, e: string, f: string)
    ensures |Pack([a, b, c, d, e, f])| == |a| + |b| + |c| + |d| + |e| + |f| + 6
  {
    hide Pack;
    PackFirst(a, [b, c, d, e, f]);
    PackFirst(b, [c, d, e, f]);
    PackFirst(c, [d, e, f]);
    PackFirst(d, [e, f]);
    PackFirst(e, [f]);
    assert [a] + [b, c, d, e, f] == [a, b, c, d, e, f];
    assert [b] + [c, d, e, f] == [b, c, d, e, f];
    assert [c] + [d, e, f] == [c, d, e, f];
    assert [d] + [e, f] == [d, e, f];
    assert [e] + [f] == [e, f];
    PackOne(f);
  }

  /** What is allocated suffices exactly when the five numbers have at most 59 digits between
      them, so in particular when each has at most ten. */
  lemma SpaceSuffices(m: Meta)
    ensures |Text(m)| <= Space(m) <==> NumberSpace(m) <= 59
  {
    hide Text;
    TextLength(m);
  }

  /** A page of ten bytes with one header, requested, answered and completed at 1, 2 and 3. */
  const SAMPLE: Meta := Meta("http://a/", 10, 1, 2, 3, [Header("A", "b")])

  /** How that is printed, each line ending in a NUL: URL, length, the three times, the number of
      headers, the header, and no certificates. */
  lemma SamplePrinted()
    ensures Lines(SAMPLE) == ["http://a/", "10", "1", "2", "3", "1", "A:b", "0"]
    ensures Pack(["A:b", "0"]) == "A:b\0" + "0\0"
  {
    assert Decimal(10) == "10" && Decimal(1) == "1" && Decimal(2) == "2" && Decimal(3) == "3" && Decimal(0) == "0";
    assert SAMPLE.headers[1..] == [];
    assert LinesOf(SAMPLE.headers) == [Line(Header("A", "b"))] && Line(Header("A", "b")) == "A:b";
    hide Pack;
    PackFirst("A:b", ["0"]);
    PackOne("0");
    assert ["A:b"] + ["0"] == ["A:b", "0"];
  }

  // ---------------------------------------------------------------- the parser

  datatype Failure = Invalid | BadUrl | Overrun | Certificates

  datatype Result<T> = Ok(value: T) | Err(error: Failure)
  {
    predicate IsFailure() {
      Err?
    }

    function PropagateFailure<U>(): Result<U>
      requires Err?
    {
      Err(error)
    }

    function Extract(): T
      requires Ok?
    {
      value
    }
  }

  /** The lines of a buffer, up to its last NUL. */
  function Unpack(s: string): seq<string>
    decreases |s|
  {
    var i := IndexOf(s, NUL, 0);
    if i == |s| then [] else [s[..i]] + Unpack(s[i + 1..])
  }

  /** A line that holds a number. Running off the lines is reading outside the buffer. */
  function Number(lines: seq<string>, i: nat): Result<nat> {
    if i >= |lines| then Err(Overrun)
    else if Scan(lines[i]).None? then Err(Invalid)
    else Ok(Scan(lines[i]).value)
  }

  /** How a URL is read from its text, if it can be. */
  type UrlReader = string -> Option<string>

  function UrlLine(url: string, read: UrlReader, lines: seq<string>): Result<string> {
    if lines == [] then Err(Overrun)
    else if |lines[0]| < 7 || read(lines[0]).None? then Err(Invalid)
    else if read(lines[0]) != Some(url) then Err(BadUrl)
    else Ok(url)
  }

  /** The line after the headers: with no line left, there are no certificates. */
  function CertLine(lines: seq<string>, i: nat): Result<nat> {
    if i == |lines| then Ok(0)
    else
      var count :- Number(lines, i);
      if count == 0 then Ok(0) else if count > 10 then Err(Invalid) else Err(Certificates)
  }

  /** llcache_process_metadata for the object at `url` that has headers `hs`. */
  function Parse(url: string, read: UrlReader, hs: seq<Header>, lines: seq<string>): Result<Meta> {
    var _ :- UrlLine(url, read, lines);
    var length :- Number(lines, 1);
    var request :- Number(lines, 2);
    var response :- Number(lines, 3);
    var completion :- Number(lines, 4);
    var count :- Number(lines, 5);
    if 6 + count > |lines| then Err(Overrun)
    else
      var _ :- CertLine(lines, 6 + count);
      Ok(Meta(url, length, request, response, completion, Gather(hs, lines[6..6 + count])))
  }

  /** Whether the parser gets as far as the headers, and how many lines it gathers then. */
  function Announced(url: string, read: UrlReader, lines: seq<string>): Result<nat> {
    var _ :- UrlLine(url, read, lines);
    var _ :- Number(lines, 1);
    var _ :- Number(lines, 2);
    var _ :- Number(lines, 3);
    var _ :- Number(lines, 4);
    Number(lines, 5)
  }

  /** The lines that the parser gathers, whether it succeeds or not. */
  function Gathered(url: string, read: UrlReader, lines: seq<string>): seq<string> {
    var count := Announced(url, read, lines);
    if count.Err? || |lines| < 6 then []
    else lines[6..if 6 + count.value <= |lines| then 6 + count.value else |lines|]
  }

  lemma UnpackFirst(l: string, rest: string)
    requires NUL !in l
    ensures Unpack(l + [NUL] + rest) == [l] + Unpack(rest)
  {
    hide IndexOf;
    var s := l + [NUL] + rest;
    assert forall k :: 0 <= k < |l| ==> s[k] == l[k];
    IndexOfIs(s, NUL, 0, |l|);
    assert s[..|l|] == l && s[|l| + 1..] == rest;
  }

  lemma {:induction false} UnpackPack(lines: seq<string>)
    requires forall i :: 0 <= i < |lines| ==> NUL !in lines[i]
    ensures Unpack(Pack(lines)) == lines
  {
    if lines != [] {
      hide Unpack;
      assert NUL !in lines[0];
      UnpackPack(lines[1..]);
      UnpackFirst(lines[0], Pack(lines[1..]));
    }
  }

  lemma LinesNulFree(m: Meta)
    requires NulFree(m)
    ensures forall i :: 0 <= i < |Lines(m)| ==> NUL !in Lines(m)[i]
  {
    hide Decimal, Line, LinesOf;
    forall n: nat ensures NUL !in Decimal(n) {
      assert forall i :: 0 <= i < |Decimal(n)| ==> Digit(Decimal(n)[i]);
    }
    forall i | 0 <= i < |m.headers| ensures NUL !in LinesOf(m.headers)[i] {
      LinesAre(m.headers, i);
    }
  }

  lemma NumberLine(m: Meta, i: nat, n: nat)
    requires i < |Lines(m)| && Lines(m)[i] == Decimal(n)
    ensures Number(Lines(m), i) == Ok(n)
  {
    hide Lines, Scan, Decimal;
    ScanDecimal(n);
  }

  /** Main result: what was printed is read back, whatever the numbers, exactly when the URL
      has at least seven characters and the headers are proper. */
  lemma RoundTrip(m: Meta, read: UrlReader)
    requires NulFree(m) && read(m.url) == Some(m.url)
    ensures Parse(m.url, read, [], Unpack(Text(m))) == Ok(m) <==> |m.url| >= 7 && Proper(m.headers)
  {
    hide Gather, Proper, Decimal, Number, Pack, Unpack, LinesOf, NulFree;
    var lines := Lines(m);
    LinesNulFree(m);
    UnpackPack(lines);
    NumberLine(m, 1, m.length);
    NumberLine(m, 2, m.request);
    NumberLine(m, 3, m.response);
    NumberLine(m, 4, m.completion);
    NumberLine(m, 5, |m.headers|);
    NumberLine(m, 6 + |m.headers|, 0);
    assert lines[6..6 + |m.headers|] == LinesOf(m.headers);
    GatherRoundTrip(m.headers);
  }

  /** So the metadata of an object whose headers came in lines without blanks at their start
      survives storage. */
  lemma FetchedRoundTrip(m: Meta, read: UrlReader, received: seq<string>)
    requires NulFree(m) && read(m.url) == Some(m.url) && |m.url| >= 7
    requires (forall i :: 0 <= i < |received| ==> Flush(received[i])) && m.headers == Gather([], received)
    ensures Parse(m.url, read, [], Unpack(Text(m))) == Ok(m)
  {
    hide Gather, Parse, Text, Unpack;
    GatherProper([], received);
    RoundTrip(m, read);
  }

  // ---------------------------------------------------------------- printing into a buffer

  lemma {:induction false} PackPrefix(a: seq<string>, b: seq<string>)
    requires a <= b
    ensures |Pack(a)| <= |Pack(b)|
  {
    assert b == a + b[|a|..];
    PackSplit(a, b[|a|..]);
  }

  /** snprintf of a line at `op`: the line and its NUL, if there is room. */
  method Put(data: array<char>, op: nat, text: string) returns (ok: bool, next: nat)
    requires op <= data.Length
    modifies data
    ensures ok <==> op + |text| + 1 <= data.Length
    ensures ok ==> next == op + |text| + 1 && data[..next] == old(data[..op]) + text + [NUL]
    ensures !ok ==> next == op
  {
    ok, next := op + |text| + 1 <= data.Length, op;
    if ok {
      ghost var before := data[..op];
      forall i | 0 <= i < |text| { data[op + i] := text[i]; }
      next := op + |text|;
      assert data[..next] == before + text;
      data[next] := NUL;
      next := next + 1;
    }
  }

  /** Lines in turn, until one does not fit. */
  method PutAll(data: array<char>, op: nat, lines: seq<string>, ghost done: seq<string>) returns (ok: bool, next: nat)
    requires op <= data.Length && data[..op] == Pack(done)
    modifies data
    ensures ok <==> |Pack(done + lines)| <= data.Length
    ensures ok ==> next <= data.Length && data[..next] == Pack(done + lines)
  {
    hide Pack;
    ok, next := true, op;
    var i := 0;
    assert done + lines[..0] == done;
    while i < |lines|
      invariant i <= |lines| && ok && next <= data.Length && data[..next] == Pack(done + lines[..i])
    {
      assert done + lines[..i + 1] == (done + lines[..i]) + [lines[i]];
      PackSplit(done + lines[..i], [lines[i]]);
      PackOne(lines[i]);
      PackPrefix(done + lines[..i + 1], done + lines);
      ok, next := Put(data, next, lines[i]);
      if !ok { return; }
      i := i + 1;
    }
    assert lines[..i] == lines;
  }

  /** llcache_serialise_metadata: the size is worked out, then the buffer filled. */
  method Serialise(m: Meta) returns (r: Option<string>)
    ensures r == if NumberSpace(m) <= 59 then Some(Text(m)) else None
  {
    hide Pack, NumberSpace;
    var size := 5 * 11;
    var i := 0;
    assert m.headers[0..] == m.headers;
    while i < |m.headers|
      invariant i <= |m.headers| && size + HeaderSpace(m.headers[i..]) == 5 * 11 + HeaderSpace(m.headers)
    {
      size := size + |m.headers[i].name| + 1 + |m.headers[i].value| + 1;
      assert m.headers[i..][1..] == m.headers[i + 1..];
      i := i + 1;
    }
    size := size + |m.url| + 1 + 11;
    SpaceSuffices(m);
    var data := new char[size];
    r := Fill(m, data);
  }

  method Fill(m: Meta, data: array<char>) returns (r: Option<string>)
    modifies data
    ensures r == if |Text(m)| <= data.Length then Some(Text(m)) else None
  {
    hide Pack;
    var fields :=
      [m.url, Decimal(m.length), Decimal(m.request), Decimal(m.response), Decimal(m.completion), Decimal(|m.headers|)];
    var hs := LinesOf(m.headers);
    assert data[..0] == Pack([]) by { PackNone(); }
    assert [] + fields == fields;
    assert Lines(m) == fields + hs + [Decimal(0)];
    PackPrefix(fields, Lines(m));
    PackPrefix(fields + hs, Lines(m));
    var ok, op := PutAll(data, 0, fields, []);
    if !ok { return None; }
    ok, op := PutAll(data, op, hs, fields);
    if !ok { return None; }
    ok, op := PutAll(data, op, [Decimal(0)], fields + hs);
    if !ok { return None; }
    return Some(data[..op]);
  }

  lemma PackNone()
    ensures Pack([]) == ""
  {
  }
}

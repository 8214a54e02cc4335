/** Reading metadata into a cache object (content/llcache.c): a cursor passes over the lines of
    a buffer, and the object is updated. */
module MetadataReader {
  import opened Options
  import opened Strings
  import opened Headers
  import opened Metadata

  /** A buffer of `size` bytes that ends in a NUL, with readable memory after it. */
  predicate Buffer(mem: string, size: nat) {
    0 < size && 2 * size <= |mem| && mem[size - 1] == NUL
  }

  /** The lines from an offset on. */
  ghost function From(mem: string, size: nat, at: nat): seq<string>
    requires at <= size <= |mem|
  {
    Unpack(mem[at..size])
  }

  /** The cursor is past `i` of the lines. */
  ghost predicate Reached(mem: string, size: nat, at: nat, lines: seq<string>, i: nat) {
    at <= size <= |mem| && i <= |lines| && From(mem, size, at) == lines[i..] && (at == size <==> i == |lines|)
  }

  lemma ReachedEnd(mem: string, size: nat, at: nat)
    requires Buffer(mem, size) && at <= size
    ensures at == size <==> From(mem, size, at) == []
  {
    hide IndexOf;
    var s := mem[at..size];
    var i := IndexOf(s, NUL, 0);
    assert s[0..i] == s[..i] && s[..|s|] == s;
    assert at < size ==> s[|s| - 1] == NUL;
  }

  lemma ReachedStart(mem: string, size: nat)
    requires Buffer(mem, size)
    ensures Reached(mem, size, 0, Unpack(mem[..size]), 0)
  {
    hide Unpack;
    ReachedEnd(mem, size, 0);
    assert mem[0..size] == mem[..size];
  }

  /** strlen at the cursor. */
  method LineLength(mem: string, size: nat, at: nat, ghost lines: seq<string>, ghost i: nat) returns (len: nat)
    requires Buffer(mem, size) && Reached(mem, size, at, lines, i) && at < size
    ensures at + len < size && mem[at + len] == NUL && mem[at..at + len] == lines[i] && NUL !in lines[i]
    ensures Reached(mem, size, at + len + 1, lines, i + 1)
  {
    hide Unpack;
    len := 0;
    while mem[at + len] != NUL
      invariant at + len < size && forall k :: at <= k < at + len ==> mem[k] != NUL
      decreases size - len
    {
      len := len + 1;
    }
    ghost var s := mem[at..size];
    IndexOfIs(s, NUL, 0, len);
    UnpackStep(s);
    assert s[..len] == mem[at..at + len] && s[len + 1..] == mem[at + len + 1..size];
    assert lines[i] == lines[i..][0] && lines[i + 1..] == lines[i..][1..];
    ReachedEnd(mem, size, at + len + 1);
  }

  lemma UnpackStep(s: string)
    ensures var i := IndexOf(s, NUL, 0); i < |s| ==> Unpack(s) == [s[..i]] + Unpack(s[i + 1..])
  {
  }

  /** A number and the cursor after it. */
  method ReadNumber(mem: string, size: nat, at: nat, ghost lines: seq<string>, ghost i: nat)
    returns (r: Result<nat>, next: nat)
    requires Buffer(mem, size) && Reached(mem, size, at, lines, i)
    ensures r == Number(lines, i)
    ensures r.Ok? ==> Reached(mem, size, next, lines, i + 1)
  {
    hide From, Scan;
    next := at;
    if at == size { return Err(Overrun), at; }
    var len := LineLength(mem, size, at, lines, i);
    next := at + len + 1;
    var n := Scan(mem[at..at + len]);
    r := if n.None? then Err(Invalid) else Ok(n.value);
  }

  class CacheRecord {
    const url: string
    var length: nat
    var request: nat
    var response: nat
    var completion: nat
    var headers: seq<Header>

    constructor (url: string)
      ensures this.url == url && headers == []
    {
      this.url := url;
      length, request, response, completion, headers := 0, 0, 0, 0, [];
    }

    function View(): Meta
      reads this
    {
      Meta(url, length, request, response, completion, headers)
    }

    /** llcache_fetch_process_header. */
    method ProcessHeader(mem: string, at: nat, len: nat)
      requires at + len < |mem| && mem[at + len] == NUL && NUL !in mem[at..at + len]
      requires at + len + Lead(mem[at..at + len]) <= |mem|
      modifies this`headers
      ensures headers == AddLine(old(headers), mem[at..at + len])
    {
      if Starts(mem[at..at + len]) { headers := []; }
      var h := SplitHeader(mem, at, len);
      if h.name != "" { headers := headers + [h]; }
    }

    /** The header lines. Running out of lines is reading outside the buffer. */
    method ReadHeaders(mem: string, size: nat, at: nat, count: nat, ghost lines: seq<string>)
      returns (ok: bool, next: nat)
      requires Buffer(mem, size) && |lines| >= 6 && Reached(mem, size, at, lines, 6)
      modifies this`headers
      ensures ok <==> 6 + count <= |lines|
      ensures ok ==> Reached(mem, size, next, lines, 6 + count)
      ensures headers == Gather(old(headers), lines[6..if ok then 6 + count else |lines|])
    {
      hide From, AddLine, Lead, Gather;
      ok, next := true, at;
      var i := 0;
      GatherNone(headers);
      assert lines[6..6] == [];
      while i < count
        invariant i <= count && ok && Reached(mem, size, next, lines, 6 + i)
        invariant headers == Gather(old(headers), lines[6..6 + i])
      {
        if next == size { return false, next; }
        var len := LineLength(mem, size, next, lines, 6 + i);
        ProcessHeader(mem, next, len);
        GatherLast(old(headers), lines[6..6 + i], lines[6 + i]);
        assert lines[6..6 + i] + [lines[6 + i]] == lines[6..6 + (i + 1)];
        next := next + len + 1;
        i := i + 1;
      }
    }

    /** llcache_process_metadata. The headers are gathered as they are read; the rest of the
        object changes only on success. */
    method ProcessMetadata(mem: string, size: nat, read: UrlReader) returns (r: Result<Meta>)
      requires Buffer(mem, size)
      modifies this
      ensures r == Parse(url, read, old(headers), Unpack(mem[..size]))
      ensures r.Ok? ==> View() == r.value
      ensures r.Err? ==> View() == old(View()).(headers := headers)
      ensures headers == Gather(old(headers), Gathered(url, read, Unpack(mem[..size])))
    {
      hide From, Unpack, Gather, Number;
      ghost var lines := Unpack(mem[..size]);
      ReachedStart(mem, size);
      GatherNone(headers);
      var len := LineLength(mem, size, 0, lines, 0);
      var given := read(mem[..len]);
      assert mem[0..len] == mem[..len];
      if len < 7 || given.None? { return Err(Invalid); }
      if given.value != url { return Err(BadUrl); }
      var sourceLength, a :- ReadNumber(mem, size, len + 1, lines, 1);
      var requestTime, b :- ReadNumber(mem, size, a, lines, 2);
      var responseTime, c :- ReadNumber(mem, size, b, lines, 3);
      var completionTime, d :- ReadNumber(mem, size, c, lines, 4);
      var count, e :- ReadNumber(mem, size, d, lines, 5);
      var ok, f := ReadHeaders(mem, size, e, count, lines);
      assert Gathered(url, read, lines) == lines[6..if ok then 6 + count else |lines|];
      if !ok { return Err(Overrun); }
      if f < size {
        var certs, g :- ReadNumber(mem, size, f, lines, 6 + count);
        if certs > 10 { return Err(Invalid); }
        if certs > 0 { return Err(Certificates); }
      }
      length, request, response, completion := sourceLength, requestTime, responseTime, completionTime;
      r := Ok(View());
    }
  }

  lemma GatherNone(hs: seq<Header>)
    ensures Gather(hs, []) == hs
  {
  }

  lemma {:induction false} GatherLast(hs: seq<Header>, lines: seq<string>, l: string)
    ensures Gather(hs, lines + [l]) == AddLine(Gather(hs, lines), l)
    decreases lines
  {
    hide AddLine;
    if lines == [] {
      assert [] + [l] == [l] && [l][1..] == [];
      GatherNone(AddLine(hs, l));
    } else {
      GatherLast(AddLine(hs, lines[0]), lines[1..], l);
      assert (lines + [l])[1..] == lines[1..] + [l];
    }
  }
}

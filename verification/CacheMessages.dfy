/** What becomes of an object as its fetch goes on, ends, or is given up by its client
    (the message handlers and llcache_handle_abort of content/llcache.c). */
module CacheMessages {
  import opened Options
  import opened FetchStates
  import opened CacheState
  import opened ObjectCache
  import opened CacheRetrieval
  import L = CacheLifetime
  import CacheService
  import opened CacheCleaning

  // ---------------------------------------------------------------- a fetch that succeeds

  function Total(ns: seq<nat>): nat {
    if ns == [] then 0 else Total(ns[..|ns| - 1]) + ns[|ns| - 1]
  }

  /** Cacheable data, in chunks of these lengths. */
  function Chunks(id: Id, ns: seq<nat>): (ops: seq<Op>)
    ensures |ops| == |ns|
  {
    if ns == [] then [] else Chunks(id, ns[..|ns| - 1]) + [Got(id, Data(ns[|ns| - 1], false))]
  }

  /** The cache with one record changed. */
  function With(s: Cache, id: Id, o: Obj): Cache {
    s.(objects := s.objects[id := o])
  }

  lemma StepsMore(s: Cache, cfg: Config, ops: seq<Op>, op: Op)
    ensures Steps(s, cfg, ops + [op]) == Step(Steps(s, cfg, ops), cfg, op)
  {
    hide Step;
    assert (ops + [op])[..|ops|] == ops;
  }

  lemma HeaderReceived(s: Cache, cfg: Config, id: Id)
    requires id in s.objects && s.objects[id].fetching
    ensures Step(s, cfg, Got(id, Header)) == With(s, id, s.objects[id].(state := HEADERS))
  {
  }

  lemma ChunkReceived(s: Cache, cfg: Config, id: Id, n: nat)
    requires id in s.objects && s.objects[id].fetching && s.objects[id].candidate == None
    ensures var o := s.objects[id];
            Step(s, cfg, Got(id, Data(n, false))) == With(s, id, o.(state := DATA, len := o.len + n, data := true))
  {
  }

  lemma EndReceived(s: Cache, cfg: Config, id: Id)
    requires id in s.objects && s.objects[id].fetching
    ensures var o := s.objects[id];
            Step(s, cfg, Got(id, Finished)) ==
              With(s, id, o.(state := COMPLETE, fetching := false, data := o.data && o.len > 0))
  {
  }

  /** The record of an object after some chunks. */
  function Grown(o: Obj, ns: seq<nat>): Obj {
    if ns == [] then o else o.(state := DATA, len := o.len + Total(ns), data := true)
  }

  lemma {:induction false} ChunksReceived(s: Cache, cfg: Config, id: Id, ns: seq<nat>)
    requires id in s.objects && s.objects[id].fetching && s.objects[id].candidate == None
    ensures Steps(s, cfg, Chunks(id, ns)) == With(s, id, Grown(s.objects[id], ns))
  {
    if ns == [] {
      assert s.objects[id := s.objects[id]] == s.objects;
    } else {
      hide Step, Steps, Total, Chunks, Grown, With;
      var n, o := |ns| - 1, s.objects[id];
      var before := ns[..n];
      ChunksReceived(s, cfg, id, before);
      ChunksMore(id, ns);
      StepsMore(s, cfg, Chunks(id, before), Got(id, Data(ns[n], false)));
      GrownMore(o, ns);
      WithHas(s, id, Grown(o, before));
      ChunkReceived(With(s, id, Grown(o, before)), cfg, id, ns[n]);
      WithTwice(s, id, Grown(o, before), Grown(o, ns));
    }
  }

  lemma ChunksMore(id: Id, ns: seq<nat>)
    requires ns != []
    ensures var n := |ns| - 1; Chunks(id, ns) == Chunks(id, ns[..n]) + [Got(id, Data(ns[n], false))]
  {
  }

  lemma GrownMore(o: Obj, ns: seq<nat>)
    requires ns != []
    ensures var g := Grown(o, ns[..|ns| - 1]);
            && g.fetching == o.fetching && g.candidate == o.candidate
            && Grown(o, ns) == g.(state := DATA, len := g.len + ns[|ns| - 1], data := true)
  {
    var before := ns[..|ns| - 1];
    assert Total(ns) == Total(before) + ns[|ns| - 1];
    if before == [] { assert Total(before) == 0; }
  }

  lemma WithHas(s: Cache, id: Id, o: Obj)
    ensures id in With(s, id, o).objects && With(s, id, o).objects[id] == o
  {
  }

  lemma WithTwice(s: Cache, id: Id, a: Obj, b: Obj)
    ensures With(With(s, id, a), id, b) == With(s, id, b)
  {
  }

  /** Main result on a fetch: after the headers, any number of chunks and the end the object is
      complete, as long as all chunks together, and in memory unless it is empty; nothing else
      has changed. */
  lemma BodyReceived(s: Cache, cfg: Config, id: Id, ns: seq<nat>)
    requires id in s.objects && s.objects[id].fetching && s.objects[id].candidate == None
    requires s.objects[id].len == 0 && !s.objects[id].data
    ensures var ops := Chunks(id, ns) + [Got(id, Finished)];
            Steps(Step(s, cfg, Got(id, Header)), cfg, ops) ==
              With(s, id, s.objects[id].(state := COMPLETE, fetching := false, len := Total(ns), data := Total(ns) > 0))
  {
    hide Chunks, Step, Steps, With;
    var o := s.objects[id];
    var h := o.(state := HEADERS);
    HeaderReceived(s, cfg, id);
    WithHas(s, id, h);
    var s1 := With(s, id, h);
    ChunksReceived(s1, cfg, id, ns);
    WithTwice(s, id, h, Grown(h, ns));
    StepsMore(s1, cfg, Chunks(id, ns), Got(id, Finished));
    WithHas(s, id, Grown(h, ns));
    EndReceived(With(s, id, Grown(h, ns)), cfg, id);
    WithTwice(s, id, Grown(h, ns),
              o.(state := COMPLETE, fetching := false, len := Total(ns), data := Total(ns) > 0));
  }

  /** The first data of a new version: the object drops its candidate, which counts one less, and
      keeps its users; everything else stays. */
  lemma NewVersion(s: Cache, cfg: Config, id: Id, n: nat, uncacheable: bool, c: Id)
    requires id in s.objects && c in s.objects && c != id
    requires s.objects[id].fetching && s.objects[id].state != DATA && s.objects[id].candidate == Some(c)
    ensures var s', o := Receive(s, cfg, id, Data(n, uncacheable)), s.objects[id];
            && s' == s.(objects := s'.objects) && s'.objects.Keys == s.objects.Keys
            && s'.objects[c] == s.objects[c].(count := s.objects[c].count - 1)
            && s'.objects[id].candidate == None && s'.objects[id].fetching && s'.objects[id].state == DATA
            && s'.objects[id].len == o.len + n && s'.objects[id].data && s'.objects[id].url == o.url
            && s'.objects[id].time == (if uncacheable then 0 else o.time)
            && forall x :: x in s.objects && x != id && x != c ==> s'.objects[x] == s.objects[x]
  {
    hide With;
    var o, b := s.objects[id], s.objects[c];
    assert Unpoint(s, id).objects == s.objects[id := o.(candidate := None)][c := b.(count := b.count - 1)];
  }

  // ---------------------------------------------------------------- what is found afterwards

  /** After a 304 for the latest request the candidate is what the next search finds. */
  lemma ValidatedIsFound(s: Cache, id: Id)
    requires L.Inv(s) && id in s.objects && s.objects[id].candidate.Some? && s.objects[id].candidate.value in s.cached
    requires var o, c := s.objects[id], s.objects[id].candidate.value;
             && c in s.objects && s.objects[c].url == o.url && 0 < o.time
             && forall x :: x in s.cached && x in s.objects && x != id && s.objects[x].url == o.url ==>
                  s.objects[x].time < o.time
    ensures var s' := StillFresh(s, id);
            s'.cached == s.cached && IsNewest(s', s.objects[id].url, |s.cached|, s.objects[id].candidate)
  {
    hide L.Inv;
    CacheService.CandidateDiffers(s, id);
    var o, c := s.objects[id], s.objects[id].candidate.value;
    CacheService.StillFreshObjects(s, id, c);
    var s' := StillFresh(s, id);
    hide StillFresh;
    assert s'.cached == s.cached by { StillFreshLists(s, id); }
    var k := FirstPlace(s.cached, c);
    assert Beats(s', o.url, |s.cached|, c, k);
  }

  lemma StillFreshLists(s: Cache, id: Id)
    requires id in s.objects
    ensures StillFresh(s, id).cached == s.cached
  {
  }

  lemma {:induction false} FirstPlace(list: seq<Id>, c: Id) returns (k: nat)
    requires c in list
    ensures k < |list| && list[k] == c && forall i :: 0 <= i < k ==> list[i] != c
  {
    if list[0] == c { k := 0; } else { k := FirstPlace(list[1..], c); k := k + 1; }
  }

  /** A message after which the fetch is given up: a failure, a timeout with no retry left, a
      demand for credentials that are not known or were tried, or a TLS failure where the
      downgrade is barred or was tried. */
  predicate GivesUp(o: Obj, m: Message) {
    match m
    case Failed => true
    case TimedOut(_, _) => o.retries <= 1
    case Auth(known, _, _) => !known || o.triedAuth
    case SslError(_, _) => o.hsts || o.triedTls
    case _ => false
  }

  /** An object whose fetch is given up is complete as it is and keeps its users; other objects
      keep their times. */
  lemma GivenUp(s: Cache, cfg: Config, id: Id, m: Message)
    requires id in s.objects && GivesUp(s.objects[id], m)
    ensures var s', o := Receive(s, cfg, id, m), s.objects[id];
            && s'.objects.Keys == s.objects.Keys && s'.users == s.users && s'.cached == s.cached
            && s'.objects[id].state == COMPLETE && !s'.objects[id].fetching && s'.objects[id].time == 0
            && s'.objects[id].url == o.url && s'.objects[id].len == o.len && s'.objects[id].data == o.data
            && s'.objects[id].fetches == o.fetches
            && forall x :: x in s.objects && x != id ==>
                 s'.objects[x].time == s.objects[x].time && s'.objects[x].url == s.objects[x].url
  {
    hide Unpoint, Receive;
    CacheService.UnpointAlive(s, id);
    UnpointLists(s, id);
    EndsIn(s, cfg, id, m);
  }

  lemma EndsIn(s: Cache, cfg: Config, id: Id, m: Message)
    requires id in s.objects && GivesUp(s.objects[id], m) && id in Unpoint(s, id).objects
    requires Unpoint(s, id).objects[id].triedAuth == s.objects[id].triedAuth
    requires Unpoint(s, id).objects[id].triedTls == s.objects[id].triedTls
    requires Unpoint(s, id).objects[id].hsts == s.objects[id].hsts
    ensures var t := Unpoint(s, id); var o := Complete(t.objects[id]);
            Receive(s, cfg, id, m) == Put(t, id, if m.Auth? then o.(triedAuth := false) else o)
  {
    hide Unpoint, StillFresh, Redirected, GotData, Retry, Refetch, Complete;
  }

  /** And it does not stand before any other that was requested at some time. */
  lemma FailedGivesWay(s: Cache, cfg: Config, id: Id, m: Message, x: Id)
    requires id in s.objects && GivesUp(s.objects[id], m)
    requires x in s.objects && x in s.cached && x != id && s.objects[x].url == s.objects[id].url
    requires s.objects[x].time > 0
    ensures var s' := Receive(s, cfg, id, m); !IsNewest(s', s.objects[id].url, |s'.cached|, Some(id))
  {
    hide Receive;
    GivenUp(s, cfg, id, m);
    var j :| 0 <= j < |s.cached| && s.cached[j] == x;
    assert Receive(s, cfg, id, m).cached[j] == x;
  }

  lemma UnpointLists(s: Cache, id: Id)
    requires id in s.objects
    ensures Unpoint(s, id).cached == s.cached && Unpoint(s, id).next == s.next
  {
  }

  /** A redirect that is not allowed, or one too many, is not followed: nothing is retrieved, the
      object is complete, and it keeps its users. */
  lemma RedirectRefused(s: Cache, cfg: Config, id: Id, allowed: bool, url: string, env: Env)
    requires id in s.objects && (!allowed || s.objects[id].redirects > cfg.limit)
    ensures var s' := Redirected(s, cfg, id, allowed, url, env);
            && s'.objects.Keys == s.objects.Keys && s'.users == s.users && s'.hops == s.hops && s'.next == s.next
            && s'.objects[id].state == COMPLETE && !s'.objects[id].fetching
            && s'.objects[id].url == s.objects[id].url && s'.cached == s.cached
  {
    hide Retrieve, Unpoint;
    CacheService.UnpointAlive(s, id);
    UnpointLists(s, id);
  }

  // ---------------------------------------------------------------- clients that give up

  /** A client that aborts while others use its object gets a copy of what there is so far, which
      nobody else will find; the object and its fetch go on for the others. */
  lemma AbortCopies(s: Cache, u: UserId)
    requires u in s.users && s.users[u] in s.objects && !Alone(s, u) && s.next !in s.objects
    ensures var s', o := Aborted(s, u), s.objects[s.users[u]];
            && s'.users == s.users[u := s.next] && s'.objects.Keys == s.objects.Keys + {s.next}
            && (forall id :: id in s.objects ==> s'.objects[id] == s.objects[id])
            && s'.cached == s.cached && s'.uncached == [s.next] + s.uncached
            && var copy := s'.objects[s.next];
               && copy.url == o.url && copy.len == o.len && copy.data == (o.len > 0)
               && copy.state == COMPLETE && !copy.fetching && copy.candidate == None && copy.count == 0 && !copy.disc
  {
  }

  /** A client that aborts alone stops the fetch of its object and keeps the object. */
  lemma AbortStops(s: Cache, u: UserId)
    requires u in s.users && s.users[u] in s.objects && Alone(s, u)
    ensures var s', id := Aborted(s, u), s.users[u];
            && s' == s.(objects := s.objects[id := s'.objects[id]])
            && s'.objects[id] == s.objects[id].(state := COMPLETE, fetching := false, time := 0)
  {
  }

  /** An object that its only client streams is found by no search any more; one with other
      clients stays as it is. */
  lemma StreamedIsHidden(s: Cache, u: UserId, url: string)
    requires u in s.users
    ensures var s', id := Streamed(s, u), s.users[u];
            && s'.objects == s.objects && s'.users == s.users
            && (if Alone(s, u) then id !in s'.cached && !IsNewest(s', url, |s'.cached|, Some(id)) else s' == s)
            && (id in s.cached || id in s.uncached ==> id in s'.cached || id in s'.uncached)
  {
    hide Without, Alone;
    InWithout(s.cached, {s.users[u]}, s.users[u]);
  }
}

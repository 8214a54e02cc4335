/** The fetch that a cache object records while llcache_fetch_callback handles a message
    (content/llcache.c): whether it is running, has ended, or is forgotten.

    CacheState keeps of this only whether a fetch is under way.  Here the handlers and the error
    handling at the end of the callback are followed step by step, and agree with it. */
module FetchPointer {
  import opened CacheState
  import S = CacheService

  datatype Ref = Null | Running | Ended

  /** What the object records when the message comes: these end the fetch before it is sent. */
  function OnMessage(m: Message): Ref {
    if m.Finished? || m.TimedOut? || m.SslError? || m.Failed? then Ended else Running
  }

  /** llcache_object_refetch: only a fetch that starts is recorded. */
  function Refetched(ref: Ref, starts: bool): (Ref, bool) {
    if starts then (Running, false) else (ref, true)
  }

  /** The handler of the message, and whether it fails.  `refused` is the answer of the clients
      to the event that the handler sends them, if it sends one. */
  function Handle(o: Obj, m: Message, refused: bool): (Ref, bool) {
    var ref := OnMessage(m);
    match m
    case Header => (ref, false)
    case Data(_, _) => (ref, false)
    case Finished => (Null, false)
    case Redirect(_, _, _) => (Null, refused)
    case NotModified => (Null, false)
    case TimedOut(starts, _) => if o.retries > 1 then Refetched(ref, starts) else (Null, refused)
    case Auth(known, starts, _) => if known && !o.triedAuth then Refetched(Null, starts) else (Null, refused)
    case SslError(starts, _) => if !o.hsts && !o.triedTls then Refetched(Null, starts) else (Null, refused)
    case Failed => (Null, refused)
  }

  /** The error handling at the end: what is still recorded is aborted and forgotten. */
  function Wrapped(ref: Ref, failed: bool): (Ref, Ref) {
    if failed then (Null, ref) else (ref, Null)
  }

  /** What is recorded after the callback, and what its error handling aborted. */
  function After(o: Obj, m: Message, refused: bool): (Ref, Ref) {
    var (ref, failed) := Handle(o, m, refused);
    Wrapped(ref, failed)
  }

  /** A fetch that has ended is aborted exactly when an object times out with a retry left, and
      the retry does not start; no other message, and no answer of a client, does that. */
  lemma EndedAborted(o: Obj, m: Message, refused: bool)
    ensures After(o, m, refused).1 == Ended <==> m.TimedOut? && o.retries > 1 && !m.starts
    ensures After(o, m, refused).0 != Ended
  {
  }

  lemma RetrieveKeepsFetching(s: Cache, cfg: Config, url: string, env: Env, redirects: nat, origin: nat, id: Id)
    requires id in s.objects && id < s.next
    ensures var s' := Retrieve(s, cfg, url, env, redirects, origin).0;
            id in s'.objects ==> s'.objects[id].fetching == s.objects[id].fetching
  {
    hide Newest, Without;
  }

  /** The protocol says that a fetch is under way exactly when one is recorded, which is never
      one that has ended. */
  lemma FetchingIsRunning(s: Cache, cfg: Config, id: Id, m: Message, refused: bool)
    requires id in s.objects && id < s.next && s.objects[id].fetching
    ensures var s' := Receive(s, cfg, id, m);
            id in s'.objects ==> (s'.objects[id].fetching <==> After(s.objects[id], m, refused).0 == Running)
  {
    hide Receive;
    if m.TimedOut? || m.Auth? || m.SslError? || m.Failed? {
      FetchingAgain(s, cfg, id, m, refused);
    } else {
      FetchingOn(s, cfg, id, m, refused);
    }
  }

  lemma FetchingOn(s: Cache, cfg: Config, id: Id, m: Message, refused: bool)
    requires id in s.objects && id < s.next && s.objects[id].fetching
    requires !m.TimedOut? && !m.Auth? && !m.SslError? && !m.Failed?
    ensures var s' := Receive(s, cfg, id, m);
            id in s'.objects ==> (s'.objects[id].fetching <==> After(s.objects[id], m, refused).0 == Running)
  {
    hide Retrieve, StillFresh, Redirected, GotData;
    match m
    case Redirect(allowed, url, env) => RedirectStops(s, cfg, id, allowed, url, env);
    case NotModified => NotModifiedStops(s, id);
    case Data(n, uncacheable) => DataRuns(s, id, n, uncacheable);
    case Header =>
    case Finished =>
  }

  lemma FetchingAgain(s: Cache, cfg: Config, id: Id, m: Message, refused: bool)
    requires id in s.objects && s.objects[id].fetching
    requires m.TimedOut? || m.Auth? || m.SslError? || m.Failed?
    ensures var s' := Receive(s, cfg, id, m);
            id in s'.objects ==> (s'.objects[id].fetching <==> After(s.objects[id], m, refused).0 == Running)
  {
    hide Unpoint, Put, StillFresh, Redirected, GotData;
    var o := s.objects[id];
    ReleasedHas(s, id);
    if m.TimedOut? && o.retries > 1 { PutHas(s, id, Retry(o, m.starts, m.now)); }
  }

  lemma PutHas(s: Cache, id: Id, o: Obj)
    ensures id in Put(s, id, o).objects && Put(s, id, o).objects[id] == o
  {
  }

  /** The object after its candidate was released, and after any change that follows. */
  lemma ReleasedHas(s: Cache, id: Id)
    requires id in s.objects
    ensures var t := Unpoint(s, id);
            && id in t.objects
            && t.objects[id] == s.objects[id].(candidate := t.objects[id].candidate, count := t.objects[id].count)
            && forall o: Obj :: id in Put(t, id, o).objects && Put(t, id, o).objects[id] == o
  {
    hide Unpoint;
    S.UnpointAlive(s, id);
  }

  lemma DataRuns(s: Cache, id: Id, n: nat, uncacheable: bool)
    requires id in s.objects
    ensures var s' := GotData(s, id, n, uncacheable);
            id in s'.objects && s'.objects[id].fetching == s.objects[id].fetching
  {
    hide Unpoint;
    S.UnpointAlive(s, id);
  }

  lemma NotModifiedStops(s: Cache, id: Id)
    requires id in s.objects
    ensures id in StillFresh(s, id).objects && !StillFresh(s, id).objects[id].fetching
  {
  }

  lemma RedirectStops(s: Cache, cfg: Config, id: Id, allowed: bool, url: string, env: Env)
    requires id in s.objects && id < s.next
    ensures var s' := Redirected(s, cfg, id, allowed, url, env); id in s'.objects ==> !s'.objects[id].fetching
  {
    hide Unpoint, Retrieve;
    S.UnpointAlive(s, id);
    var t := Unpoint(s, id);
    var o := t.objects[id];
    var s1 := Put(t, id, Complete(o));
    if !(o.redirects > cfg.limit || !allowed || o.origin >= |s.hops|) {
      var s2 := s1.(hops := s1.hops[o.origin := s1.hops[o.origin] + 1]);
      UnpointNext(s, id);
      RetrieveKeepsFetching(s2, cfg, url, env, o.redirects + 1, o.origin, id);
    }
  }

  lemma UnpointNext(s: Cache, id: Id)
    requires id in s.objects
    ensures Unpoint(s, id).next == s.next
  {
  }
}

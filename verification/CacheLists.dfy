/** The two lists of cache objects (content/llcache.c), and how an object that others validate
    against can come to be on the list of those that are not to be cached. */
module CacheLists {
  import opened Options
  import opened FetchStates
  import opened CacheState
  import opened CacheLimits
  import L = CacheLifetime

  /** No object is on both lists, and no number on them is yet to come. */
  predicate Apart(s: Cache) {
    && (forall id :: id in s.cached ==> id < s.next && id !in s.uncached)
    && (forall id :: id in s.uncached ==> id < s.next)
  }

  /** What llcache_clean says of uncached objects: none of them is counted as a candidate. */
  predicate Uncounted(s: Cache) {
    forall id :: id in s.uncached && id in s.objects ==> s.objects[id].count <= 0
  }

  predicate Fine(s: Cache) {
    Apart(s) && Uncounted(s)
  }

  /** The only user of a counted object on the cached list has it streamed. */
  predicate StreamsCounted(s: Cache, op: Op) {
    && op.Stream? && op.u in s.users && Alone(s, op.u)
    && s.users[op.u] in s.cached && s.users[op.u] in s.objects && s.objects[s.users[op.u]].count > 0
  }

  // ---------------------------------------------------------------- one change at a time

  lemma PutFine(s: Cache, id: Id, o: Obj)
    requires Fine(s) && id in s.objects && (o.count <= s.objects[id].count || id !in s.uncached)
    ensures Fine(Put(s, id, o))
  {
  }

  lemma UnpointFine(s: Cache, id: Id)
    requires Fine(s) && id in s.objects
    ensures Fine(Unpoint(s, id)) && id in Unpoint(s, id).objects
    ensures id in s.objects && Unpoint(s, id).objects[id].count <= s.objects[id].count
    ensures Unpoint(s, id).hops == s.hops && Unpoint(s, id).uncached == s.uncached
  {
    hide Fine;
    var o := s.objects[id];
    if o.candidate.Some? && o.candidate.value in s.objects {
      var s1 := Put(s, id, o.(candidate := None));
      var c := o.candidate.value;
      PutFine(s, id, o.(candidate := None));
      PutFine(s1, c, s1.objects[c].(count := s1.objects[c].count - 1));
    }
  }

  lemma AddFine(s: Cache, o: Obj, cached: bool)
    requires Fine(s) && o.count <= 0
    ensures Fine(Add(s, o, cached))
  {
  }

  lemma DestroyFine(s: Cache, dead: set<Id>)
    requires Fine(s)
    ensures Fine(Destroy(s, dead))
  {
    L.WithoutIs(s.cached, dead);
    L.WithoutIs(s.uncached, dead);
  }

  /** The same lists and counts. */
  lemma SameFine(s: Cache, t: Cache)
    requires Fine(s) && t.cached == s.cached && t.uncached == s.uncached && t.next == s.next
    requires forall id :: id in t.objects ==> id in s.objects && t.objects[id].count == s.objects[id].count
    ensures Fine(t)
  {
  }

  // ---------------------------------------------------------------- retrieval and messages

  lemma {:induction false} NewestCached(s: Cache, url: string, n: nat)
    requires n <= |s.cached|
    ensures Newest(s, url, n).Some? ==> Newest(s, url, n).value in s.cached
  {
    if n > 0 { NewestCached(s, url, n - 1); }
  }

  lemma ReuseFine(s: Cache, cfg: Config, id: Id, env: Env, redirects: nat, origin: nat)
    requires Fine(s) && id in s.objects && id in s.cached
    ensures Fine(Reuse(s, cfg, id, env, redirects, origin).0)
  {
    hide Uncounted, Destroy;
    var o := s.objects[id];
    if o.disc && !o.data && !env.restored {
      DestroyFine(s, {id});
      AddFine(Destroy(s, {id}), Fetching(cfg, o.url, None, env, redirects, origin), true);
    } else {
      var o1 := if o.disc then o.(data := true) else o;
      PutFine(s, id, o1);
      var s1 := Put(s, id, o1);
      PutFine(s1, id, o1.(count := o1.count + 1));
      AddFine(Put(s1, id, o1.(count := o1.count + 1)), Fetching(cfg, o.url, Some(id), env, redirects, origin), true);
    }
  }

  lemma RetrieveFine(s: Cache, cfg: Config, url: string, env: Env, redirects: nat, origin: nat)
    requires Fine(s)
    ensures Fine(Retrieve(s, cfg, url, env, redirects, origin).0)
  {
    hide Newest, Reuse, Fine;
    AddFine(s, Fetching(cfg, url, None, env, redirects, origin), env.cacheable);
    NewestCached(s, url, |s.cached|);
    var found := Newest(s, url, |s.cached|);
    if found.Some? {
      ReuseFine(s, cfg, found.value, env, redirects, origin);
    } else if env.stored.Some? {
      var o := Restored(url, env, redirects, origin);
      AddFine(s, o, true);
      ReuseFine(Add(s, o, true), cfg, s.next, env, redirects, origin);
    }
  }

  lemma RedirectedFine(s: Cache, cfg: Config, id: Id, allowed: bool, url: string, env: Env)
    requires Fine(s) && id in s.objects
    ensures Fine(Redirected(s, cfg, id, allowed, url, env))
  {
    hide Fine, Unpoint, Retrieve, Put;
    UnpointFine(s, id);
    var t := Unpoint(s, id);
    var o := t.objects[id];
    PutFine(t, id, Complete(o));
    var s1 := Put(t, id, Complete(o));
    PutHops(t, id, Complete(o));
    if !(o.redirects > cfg.limit || !allowed || o.origin >= |s.hops|) {
      var s2 := s1.(hops := s1.hops[o.origin := s1.hops[o.origin] + 1]);
      SameFine(s1, s2);
      RetrieveFine(s2, cfg, url, env, o.redirects + 1, o.origin);
      var (s3, dest) := Retrieve(s2, cfg, url, env, o.redirects + 1, o.origin);
      if dest.Some? { SameFine(s3, MoveUsers(s3, id, dest.value)); }
    }
  }

  lemma PutHops(s: Cache, id: Id, o: Obj)
    ensures Put(s, id, o).hops == s.hops
  {
  }

  lemma StillFreshFine(s: Cache, id: Id)
    requires Fine(s) && id in s.objects
    ensures Fine(StillFresh(s, id))
  {
    hide Fine, Unpoint;
    var o := s.objects[id];
    if o.candidate.Some? && o.candidate.value in s.objects {
      var c := o.candidate.value;
      var m := MoveUsers(s, id, c);
      SameFine(s, m);
      UnpointFine(m, id);
      assert c in Unpoint(m, id).objects by { UnpointKeys(m, id); }
      var t := Unpoint(m, id);
      PutFine(t, c, t.objects[c].(time := o.time));
      var t1 := Put(t, c, t.objects[c].(time := o.time));
      PutFine(t1, id, Complete(t1.objects[id]));
    } else {
      PutFine(s, id, Complete(o));
    }
  }

  lemma UnpointKeys(s: Cache, id: Id)
    requires id in s.objects
    ensures Unpoint(s, id).objects.Keys == s.objects.Keys
  {
  }

  lemma ReceiveFine(s: Cache, cfg: Config, id: Id, m: Message)
    requires Fine(s) && id in s.objects
    ensures Fine(Receive(s, cfg, id, m))
  {
    hide Fine, Unpoint, Redirected, StillFresh, Put;
    UnpointFine(s, id);
    var o, u := s.objects[id], Unpoint(s, id);
    var t := u.objects[id];
    match m
    case Redirect(allowed, url, env) => RedirectedFine(s, cfg, id, allowed, url, env);
    case NotModified => StillFreshFine(s, id);
    case Header => PutFine(s, id, o.(state := HEADERS));
    case Finished => PutFine(s, id, o.(state := COMPLETE, fetching := false, data := o.data && o.len > 0));
    case Data(n, uncacheable) => DataFine(s, id, n, uncacheable);
    case TimedOut(starts, now) =>
      if o.retries > 1 { PutFine(s, id, Retry(o, starts, now)); } else { PutFine(u, id, Complete(t)); }
    case Auth(known, starts, now) => PutFine(u, id, AuthNeeded(t, known, starts, now));
    case SslError(starts, now) => PutFine(u, id, SslFailed(t, starts, now));
    case Failed => PutFine(u, id, Complete(t));
  }

  lemma DataFine(s: Cache, id: Id, n: nat, uncacheable: bool)
    requires Fine(s) && id in s.objects
    ensures Fine(GotData(s, id, n, uncacheable))
  {
    hide Fine, Unpoint;
    UnpointFine(s, id);
    var t := if s.objects[id].state != DATA then Unpoint(s, id) else s;
    PutFine(t, id, GotData(s, id, n, uncacheable).objects[id]);
  }

  lemma CleanFine(s: Cache, c: Cleaning)
    requires Fine(s)
    ensures Fine(Clean(s, c))
  {
    hide Fine, Destroy, Uncacheable, Stale, Backed, Unbacked;
    var s1 := Destroy(s, Uncacheable(s));
    DestroyFine(s, Uncacheable(s));
    var s2 := Destroy(s1, Stale(s1, c.stale));
    DestroyFine(s1, Stale(s1, c.stale));
    var s3 := if c.full then Persist(s2, c.written) else s2;
    SameFine(s2, s3);
    var s4 := DropData(s3, c.third);
    SameFine(s3, s4);
    var s5 := Destroy(s4, Backed(s4, c.fourth));
    DestroyFine(s4, Backed(s4, c.fourth));
    DestroyFine(s5, Unbacked(s5, c.fifth));
  }

  // ---------------------------------------------------------------- every step

  lemma StreamFine(s: Cache, u: UserId)
    requires Fine(s) && u in s.users
    ensures Apart(Streamed(s, u)) && (Uncounted(Streamed(s, u)) <==> !StreamsCounted(s, Stream(u)))
  {
    var id := s.users[u];
    var s' := Streamed(s, u);
    L.WithoutIs(s.cached, {id});
    if StreamsCounted(s, Stream(u)) { assert id in s'.uncached; }
  }

  lemma QuitFine(s: Cache, u: UserId)
    requires Fine(s) && u in s.users && s.users[u] in s.objects
    ensures Fine(Aborted(s, u))
  {
    hide Fine;
    var id := s.users[u];
    PutFine(s, id, Complete(s.objects[id]));
    AddFine(s, Snapshot(s.objects[id]), false);
    var t := Add(s, Snapshot(s.objects[id]), false);
    SameFine(t, t.(users := s.users[u := s.next]));
  }

  lemma OpenFine(s: Cache, cfg: Config, u: UserId, url: string, env: Env)
    requires Fine(s)
    ensures Fine(Step(s, cfg, Open(u, url, env)))
  {
    hide Fine, Retrieve;
    var t := s.(hops := s.hops + [0]);
    SameFine(s, t);
    RetrieveFine(t, cfg, url, env, 0, |s.hops|);
    var (s1, r) := Retrieve(t, cfg, url, env, 0, |s.hops|);
    if r.Some? { SameFine(s1, s1.(users := s1.users[u := r.value])); }
  }

  /** From a state in which no uncached object is counted, a step leads to one with such an
      object exactly if it is a forced stream of a counted object on the cached list. */
  lemma StepUncounted(s: Cache, cfg: Config, op: Op)
    requires Fine(s)
    ensures Apart(Step(s, cfg, op)) && (Uncounted(Step(s, cfg, op)) <==> !StreamsCounted(s, op))
  {
    hide Receive, Clean, Retrieve, Aborted, Apart, Uncounted, Streamed, Persists;
    var s' := Step(s, cfg, op);
    match op
    case Stream(u) => if u in s.users { StreamFine(s, u); }
    case Open(u, url, env) => OpenFine(s, cfg, u, url, env);
    case Got(id, m) => if id in s.objects { ReceiveFine(s, cfg, id, m); }
    case Quit(u) => if u in s.users && s.users[u] in s.objects { QuitFine(s, u); }
    case Tidy(c) => CleanFine(s, c);
    case Write(_) => SameFine(s, s');
    case Close(_) => SameFine(s, s');
    case Clone(_, _) => SameFine(s, s');
    case Drained(_) => SameFine(s, s');
    case Broken(_) => SameFine(s, s');
  }

  /** So the comment holds in every run without such a step. */
  lemma {:induction false} RunUncounted(cfg: Config, ops: seq<Op>)
    requires forall i :: 0 <= i < |ops| ==> !StreamsCounted(Run(cfg, ops[..i]), ops[i])
    ensures Fine(Run(cfg, ops))
  {
    hide Step, StreamsCounted;
    if ops != [] {
      hide Fine;
      var n := |ops| - 1;
      forall i | 0 <= i < n ensures !StreamsCounted(Run(cfg, ops[..n][..i]), ops[..n][i]) {
        assert ops[..n][..i] == ops[..i];
        assert !StreamsCounted(Run(cfg, ops[..i]), ops[i]);
      }
      RunUncounted(cfg, ops[..n]);
      StepFine(Run(cfg, ops[..n]), cfg, ops[n]);
    }
  }

  lemma StepFine(s: Cache, cfg: Config, op: Op)
    requires Fine(s) && !StreamsCounted(s, op)
    ensures Fine(Step(s, cfg, op))
  {
    hide Step, Apart, Uncounted;
    StepUncounted(s, cfg, op);
  }

  /** A stale object is validated, and its own client then has it streamed. */
  const Streaming: seq<Op> :=
    [Open(0, "u", Request(true))] + [Got(0, Header)] + [Got(0, Data(1, false))] + [Got(0, Finished)]
    + [Open(1, "u", Request(false))] + [Stream(0)]

  /** It is then on the uncached list, and the object that validates it counts on it. */
  lemma CountedUncached()
    ensures var s := Run(Cfg, Streaming); s.uncached == [0] && 0 in s.objects && s.objects[0].count == 1
  {
    var a := [Open(0, "u", Request(true))] + [Got(0, Header)] + [Got(0, Data(1, false))] + [Got(0, Finished)];
    var o := First().(state := COMPLETE, len := 1, data := true, fetching := false);
    FetchedOnce();
    RunStep(Cfg, a, Open(1, "u", Request(false)));
    Validates(Cache(map[0 := o], [0], [], map[0 := 0], 1, [0]), o);
    RunStep(Cfg, a + [Open(1, "u", Request(false))], Stream(0));
    Streams(o);
  }

  lemma Streams(o: Obj)
    ensures var s := Step(Validating(o), Cfg, Stream(0)); s.uncached == [0] && 0 in s.objects && s.objects[0].count == 1
  {
    var s := Validating(o);
    assert Alone(s, 0);
    assert [0] + s.uncached == [0];
  }
}

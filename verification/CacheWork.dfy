/** How much work a request can cause: fetches of one object, and retrievals through redirects. */
module CacheWork {
  import opened Options
  import opened FetchStates
  import opened CacheState

  function Max(a: nat, b: nat): nat {
    if a > b then a else b
  }

  /** The most fetches that one object can get. */
  function Bound(cfg: Config): nat {
    Max(cfg.attempts, 1) + 2
  }

  /** One object: every fetch it got has used up a retry, the credentials or the downgrade. */
  predicate Frugal(cfg: Config, o: Obj) {
    && o.redirects <= cfg.limit + 1
    && o.fetches <= Bound(cfg)
    && (o.fetching ==> o.fetches + Max(o.retries, 1)
                       <= Max(cfg.attempts, 1) + 1 + (if o.triedAuth then 1 else 0) + (if o.triedTls then 1 else 0))
  }

  /** A fetch under way is the only one for its client retrieval, and knows its hops. */
  ghost predicate Chained(s: Cache) {
    && (forall id :: id in s.objects && s.objects[id].fetching ==>
          s.objects[id].origin < |s.hops| && s.objects[id].redirects == s.hops[s.objects[id].origin])
    && (forall a, b | a in s.objects && b in s.objects ::
          s.objects[a].fetching && s.objects[b].fetching && s.objects[a].origin == s.objects[b].origin ==> a == b)
  }

  ghost predicate Inv(cfg: Config, s: Cache) {
    && (forall id :: id in s.objects ==> Frugal(cfg, s.objects[id]))
    && Chained(s)
    && (forall g :: 0 <= g < |s.hops| ==> s.hops[g] <= cfg.limit + 1)
  }

  /** No fetch is under way for a client retrieval. */
  ghost predicate Quiet(s: Cache, origin: nat) {
    forall id :: id in s.objects && s.objects[id].fetching ==> s.objects[id].origin != origin
  }

  // ---------------------------------------------------------------- one change at a time

  /** An object changed so that it does not fetch anew. */
  lemma PutOk(cfg: Config, s: Cache, id: Id, o: Obj)
    requires Inv(cfg, s) && id in s.objects && Frugal(cfg, o)
    requires o.fetching ==>
        s.objects[id].fetching && o.origin == s.objects[id].origin && o.redirects == s.objects[id].redirects
    ensures Inv(cfg, Put(s, id, o))
  {
    hide Frugal;
  }

  lemma UnpointOk(cfg: Config, s: Cache, id: Id)
    requires Inv(cfg, s) && id in s.objects
    ensures var t := Unpoint(s, id);
            && Inv(cfg, t) && t.objects.Keys == s.objects.Keys && t.hops == s.hops
            && t.objects[id] == s.objects[id].(candidate := t.objects[id].candidate, count := t.objects[id].count)
  {
    hide Inv, Frugal;
    var o := s.objects[id];
    if o.candidate.Some? && o.candidate.value in s.objects {
      var c := o.candidate.value;
      var o1 := o.(candidate := None);
      var s1 := Put(s, id, o1);
      Facts(cfg, s, id);
      Alike(cfg, o, o1);
      PutOk(cfg, s, id, o1);
      var b := s1.objects[c];
      var o2 := b.(count := b.count - 1);
      Facts(cfg, s1, c);
      Alike(cfg, b, o2);
      PutOk(cfg, s1, c, o2);
      assert Unpoint(s, id) == Put(s1, c, o2);
    }
  }

  lemma Facts(cfg: Config, s: Cache, id: Id)
    requires Inv(cfg, s) && id in s.objects
    ensures Frugal(cfg, s.objects[id])
    ensures s.objects[id].fetching ==>
        s.objects[id].origin < |s.hops| && s.objects[id].redirects == s.hops[s.objects[id].origin]
  {
    hide Frugal;
  }

  /** A new object: if it fetches, no other fetch is under way for the same client retrieval. */
  lemma AddOk(cfg: Config, s: Cache, o: Obj, cached: bool)
    requires Inv(cfg, s) && Frugal(cfg, o)
    requires o.fetching ==> Quiet(s, o.origin) && o.origin < |s.hops| && o.redirects == s.hops[o.origin]
    ensures Inv(cfg, Add(s, o, cached))
  {
    hide Frugal;
  }

  lemma FewerOk(cfg: Config, s: Cache, s': Cache)
    requires Inv(cfg, s) && s'.hops == s.hops && s'.objects.Keys <= s.objects.Keys
    requires forall id :: id in s'.objects ==> s'.objects[id] == s.objects[id].(
               candidate := s'.objects[id].candidate, count := s'.objects[id].count,
               disc := s'.objects[id].disc, data := s'.objects[id].data)
    ensures Inv(cfg, s')
  {
    forall id | id in s'.objects ensures Frugal(cfg, s'.objects[id]) {
      assert Frugal(cfg, s.objects[id]);
    }
  }

  // ---------------------------------------------------------------- retrieval

  lemma FetchOk(cfg: Config, s: Cache, url: string, env: Env, origin: nat, cached: bool)
    requires Inv(cfg, s) && origin < |s.hops| && Quiet(s, origin)
    ensures Inv(cfg, Fetch(s, cfg, url, env, s.hops[origin], origin, cached).0)
  {
    hide Inv, Quiet;
    assert s.hops[origin] <= cfg.limit + 1 by { HopsBound(cfg, s, origin); }
    AddOk(cfg, s, Fetching(cfg, url, None, env, s.hops[origin], origin), cached);
  }

  lemma HopsBound(cfg: Config, s: Cache, origin: nat)
    requires Inv(cfg, s) && origin < |s.hops|
    ensures s.hops[origin] <= cfg.limit + 1
  {
    hide Frugal;
  }

  lemma ReuseOk(cfg: Config, s: Cache, id: Id, env: Env, origin: nat)
    requires Inv(cfg, s) && id in s.objects && origin < |s.hops| && Quiet(s, origin)
    ensures Inv(cfg, Reuse(s, cfg, id, env, s.hops[origin], origin).0)
  {
    hide Inv, Frugal, Fetch;
    var o := s.objects[id];
    Facts(cfg, s, id);
    HopsBound(cfg, s, origin);
    if o.disc && !o.data && !env.restored {
      FewerOk(cfg, s, Destroy(s, {id}));
      FetchOk(cfg, Destroy(s, {id}), o.url, env, origin, true);
    } else {
      var o1 := if o.disc then o.(data := true) else o;
      var s1 := Put(s, id, o1);
      Alike(cfg, o, o1);
      PutOk(cfg, s, id, o1);
      if !env.isFresh && env.starts {
        var o2 := o1.(count := o1.count + 1);
        Alike(cfg, o, o2);
        PutOk(cfg, s1, id, o2);
        var n := Fetching(cfg, o.url, Some(id), env, s.hops[origin], origin);
        StartFrugal(cfg, o.url, Some(id), env, s.hops[origin], origin);
        AddOk(cfg, Put(s1, id, o2), n, true);
      }
    }
  }

  lemma Alike(cfg: Config, o: Obj, o': Obj)
    requires Frugal(cfg, o) && o' == o.(candidate := o'.candidate, count := o'.count, disc := o'.disc, data := o'.data)
    ensures Frugal(cfg, o')
  {
  }

  lemma StartFrugal(cfg: Config, url: string, candidate: Option<Id>, env: Env, redirects: nat, origin: nat)
    requires redirects <= cfg.limit + 1
    ensures Frugal(cfg, Fetching(cfg, url, candidate, env, redirects, origin))
  {
  }

  /** A retrieval for a client retrieval with no other fetch under way starts at most one. */
  lemma RetrieveOk(cfg: Config, s: Cache, url: string, env: Env, origin: nat)
    requires Inv(cfg, s) && origin < |s.hops| && Quiet(s, origin)
    ensures Inv(cfg, Retrieve(s, cfg, url, env, s.hops[origin], origin).0)
  {
    hide Inv, Reuse, Fetch, Newest;
    FetchOk(cfg, s, url, env, origin, env.cacheable);
    HopsBound(cfg, s, origin);
    var found := Newest(s, url, |s.cached|);
    if found.Some? {
      ReuseOk(cfg, s, found.value, env, origin);
    } else if env.stored.Some? {
      var o := Restored(url, env, s.hops[origin], origin);
      AddOk(cfg, s, o, true);
      ReuseOk(cfg, Add(s, o, true), s.next, env, origin);
    }
  }

  // ---------------------------------------------------------------- messages

  lemma RefetchFrugal(cfg: Config, o: Obj, starts: bool, now: int)
    requires Frugal(cfg, o) && o.fetching
    ensures o.retries > 1 ==> Frugal(cfg, Retry(o, starts, now))
    ensures !o.triedAuth ==> Frugal(cfg, Refetch(o.(triedAuth := true), starts, now))
    ensures !o.triedTls ==> Frugal(cfg, Refetch(o.(triedTls := true), starts, now))
  {
  }

  lemma CompleteFrugal(cfg: Config, o: Obj)
    requires Frugal(cfg, o)
    ensures Frugal(cfg, Complete(o)) && Frugal(cfg, Complete(o).(triedAuth := false))
  {
  }

  lemma DataOk(cfg: Config, s: Cache, id: Id, n: nat, uncacheable: bool)
    requires Inv(cfg, s) && id in s.objects
    ensures Inv(cfg, GotData(s, id, n, uncacheable))
  {
    hide Inv, Unpoint;
    UnpointOk(cfg, s, id);
    var t := if s.objects[id].state != DATA then Unpoint(s, id) else s;
    Facts(cfg, t, id);
    PutOk(cfg, t, id, GotData(s, id, n, uncacheable).objects[id]);
  }

  lemma StillFreshOk(cfg: Config, s: Cache, id: Id)
    requires Inv(cfg, s) && id in s.objects
    ensures Inv(cfg, StillFresh(s, id))
  {
    hide Inv, Unpoint, Frugal;
    var o := s.objects[id];
    var s1 := s;
    if o.candidate.Some? && o.candidate.value in s.objects {
      var c := o.candidate.value;
      var m := MoveUsers(s, id, c);
      FewerOk(cfg, s, m);
      UnpointOk(cfg, m, id);
      var t := Unpoint(m, id);
      Facts(cfg, t, c);
      s1 := Put(t, c, t.objects[c].(time := o.time));
      Timed(cfg, t.objects[c], o.time);
      PutOk(cfg, t, c, t.objects[c].(time := o.time));
    }
    Facts(cfg, s1, id);
    CompleteFrugal(cfg, s1.objects[id]);
    PutOk(cfg, s1, id, Complete(s1.objects[id]));
  }

  lemma Timed(cfg: Config, o: Obj, time: int)
    requires Frugal(cfg, o)
    ensures Frugal(cfg, o.(time := time))
  {
  }

  /** A redirect ends the object's fetch, so the one that it starts is the only one again, and
      it is one hop further on. */
  lemma RedirectedOk(cfg: Config, s: Cache, id: Id, allowed: bool, url: string, env: Env)
    requires Inv(cfg, s) && id in s.objects && s.objects[id].fetching
    ensures Inv(cfg, Redirected(s, cfg, id, allowed, url, env))
  {
    hide Inv, Unpoint, Retrieve, Frugal;
    Facts(cfg, s, id);
    UnpointOk(cfg, s, id);
    var t := Unpoint(s, id);
    var o := t.objects[id];
    Facts(cfg, t, id);
    CompleteFrugal(cfg, o);
    PutOk(cfg, t, id, Complete(o));
    var s1 := Put(t, id, Complete(o));
    Stops(cfg, t, id);
    if o.redirects <= cfg.limit && allowed {
      var s2 := s1.(hops := s1.hops[o.origin := s1.hops[o.origin] + 1]);
      HopOn(cfg, s1, o.origin);
      RetrieveOk(cfg, s2, url, env, o.origin);
      var (s3, dest) := Retrieve(s2, cfg, url, env, o.redirects + 1, o.origin);
      if dest.Some? { FewerOk(cfg, s3, MoveUsers(s3, id, dest.value)); }
    }
  }

  lemma Stops(cfg: Config, s: Cache, id: Id)
    requires Inv(cfg, s) && id in s.objects && s.objects[id].fetching
    ensures Quiet(Put(s, id, Complete(s.objects[id])), s.objects[id].origin)
  {
    hide Frugal;
  }

  lemma HopOn(cfg: Config, s: Cache, origin: nat)
    requires Inv(cfg, s) && origin < |s.hops| && Quiet(s, origin) && s.hops[origin] <= cfg.limit
    ensures var s' := s.(hops := s.hops[origin := s.hops[origin] + 1]); Inv(cfg, s') && Quiet(s', origin)
  {
    hide Frugal;
  }

  lemma ReceiveOk(cfg: Config, s: Cache, id: Id, m: Message)
    requires Inv(cfg, s) && id in s.objects && s.objects[id].fetching
    ensures Inv(cfg, Receive(s, cfg, id, m))
  {
    hide Inv, Unpoint, Redirected, StillFresh, GotData, Put;
    Facts(cfg, s, id);
    UnpointOk(cfg, s, id);
    var o, t := s.objects[id], Unpoint(s, id).objects[id];
    Facts(cfg, Unpoint(s, id), id);
    CompleteFrugal(cfg, t);
    match m
    case Header => PutOk(cfg, s, id, o.(state := HEADERS));
    case Data(n, uncacheable) => DataOk(cfg, s, id, n, uncacheable);
    case Finished => PutOk(cfg, s, id, o.(state := COMPLETE, fetching := false, data := o.data && o.len > 0));
    case Redirect(allowed, url, env) => RedirectedOk(cfg, s, id, allowed, url, env);
    case NotModified => StillFreshOk(cfg, s, id);
    case TimedOut(starts, now) =>
      RefetchFrugal(cfg, o, starts, now);
      if o.retries > 1 {
        PutOk(cfg, s, id, Retry(o, starts, now));
      } else {
        PutOk(cfg, Unpoint(s, id), id, Complete(t));
      }
    case Auth(known, starts, now) =>
      RefetchFrugal(cfg, t, starts, now);
      PutOk(cfg, Unpoint(s, id), id, AuthNeeded(t, known, starts, now));
    case SslError(starts, now) =>
      RefetchFrugal(cfg, t, starts, now);
      PutOk(cfg, Unpoint(s, id), id, SslFailed(t, starts, now));
    case Failed => PutOk(cfg, Unpoint(s, id), id, Complete(t));
  }

  // ---------------------------------------------------------------- whole runs

  lemma DestroyFewer(cfg: Config, s: Cache, dead: set<Id>)
    requires Inv(cfg, s)
    ensures Inv(cfg, Destroy(s, dead))
  {
    hide Inv;
    FewerOk(cfg, s, Destroy(s, dead));
  }

  lemma DropFewer(cfg: Config, s: Cache, n: nat)
    requires Inv(cfg, s)
    ensures Inv(cfg, DropData(s, n))
  {
    hide Inv;
    FewerOk(cfg, s, DropData(s, n));
  }

  lemma CleanOk(cfg: Config, s: Cache, c: Cleaning)
    requires Inv(cfg, s)
    ensures Inv(cfg, Clean(s, c))
  {
    hide Inv, Destroy, DropData, Persist, Uncacheable, Stale, Backed, Unbacked;
    var s1 := Destroy(s, Uncacheable(s));
    DestroyFewer(cfg, s, Uncacheable(s));
    var s2 := Destroy(s1, Stale(s1, c.stale));
    DestroyFewer(cfg, s1, Stale(s1, c.stale));
    var s3 := if c.full then Persist(s2, c.written) else s2;
    PersistFewer(cfg, s2, c.written);
    var s4 := DropData(s3, c.third);
    DropFewer(cfg, s3, c.third);
    var s5 := Destroy(s4, Backed(s4, c.fourth));
    DestroyFewer(cfg, s4, Backed(s4, c.fourth));
    DestroyFewer(cfg, s5, Unbacked(s5, c.fifth));
  }

  lemma OpenOk(cfg: Config, s: Cache, u: UserId, url: string, env: Env)
    requires Inv(cfg, s)
    ensures Inv(cfg, Step(s, cfg, Open(u, url, env)))
  {
    hide Retrieve, Frugal;
    if u !in s.users {
      var t := s.(hops := s.hops + [0]);
      assert Inv(cfg, t) && Quiet(t, |s.hops|);
      hide Inv;
      RetrieveOk(cfg, t, url, env, |s.hops|);
      var (s1, r) := Retrieve(t, cfg, url, env, 0, |s.hops|);
      if r.Some? { FewerOk(cfg, s1, s1.(users := s1.users[u := r.value])); }
    }
  }

  lemma QuitOk(cfg: Config, s: Cache, u: UserId)
    requires Inv(cfg, s) && u in s.users && s.users[u] in s.objects
    ensures Inv(cfg, Aborted(s, u))
  {
    hide Inv;
    var id := s.users[u];
    var o := s.objects[id];
    Facts(cfg, s, id);
    CompleteFrugal(cfg, o);
    PutOk(cfg, s, id, Complete(o));
    AddOk(cfg, s, Snapshot(o), false);
    var t := Add(s, Snapshot(o), false);
    FewerOk(cfg, t, t.(users := s.users[u := s.next]));
  }

  lemma StepOk(s: Cache, cfg: Config, op: Op)
    requires Inv(cfg, s)
    ensures Inv(cfg, Step(s, cfg, op))
  {
    hide Inv, Receive, Persist, Clean, Aborted, Frugal;
    match op
    case Open(u, url, env) => OpenOk(cfg, s, u, url, env);
    case Got(id, m) => if id in s.objects && s.objects[id].fetching { ReceiveOk(cfg, s, id, m); }
    case Quit(u) => if u in s.users && s.users[u] in s.objects { QuitOk(cfg, s, u); }
    case Drained(id) =>
      if id in s.objects {
        Facts(cfg, s, id);
        Drains(cfg, s.objects[id]);
        PutOk(cfg, s, id, s.objects[id].(len := 0));
      }
    case Broken(id) =>
      if id in s.objects && s.objects[id].fetching {
        Facts(cfg, s, id);
        CompleteFrugal(cfg, s.objects[id]);
        PutOk(cfg, s, id, Complete(s.objects[id]));
      }
    case Tidy(c) => CleanOk(cfg, s, c);
    case Write(written) => PersistFewer(cfg, s, written);
    case Close(u) => FewerOk(cfg, s, Step(s, cfg, op));
    case Clone(u, v) => FewerOk(cfg, s, Step(s, cfg, op));
    case Stream(u) => FewerOk(cfg, s, Step(s, cfg, op));
  }

  lemma PersistFewer(cfg: Config, s: Cache, written: Id -> bool)
    requires Inv(cfg, s)
    ensures Inv(cfg, Persist(s, written))
  {
    hide Inv;
    FewerOk(cfg, s, Persist(s, written));
  }

  lemma Drains(cfg: Config, o: Obj)
    requires Frugal(cfg, o)
    ensures Frugal(cfg, o.(len := 0))
  {
  }

  lemma {:induction false} RunInv(cfg: Config, ops: seq<Op>)
    ensures Inv(cfg, Run(cfg, ops))
  {
    if ops != [] {
      hide Inv, Step;
      RunInv(cfg, ops[..|ops| - 1]);
      StepOk(Run(cfg, ops[..|ops| - 1]), cfg, ops[|ops| - 1]);
    }
  }

  /** Main result: whatever the messages, no object is fetched more than max(attempts, 1) + 2
      times or is more than limit + 1 redirects away from a client's request, and no client's
      request leads to more than limit + 1 retrievals through redirects. */
  lemma RunBounded(cfg: Config, ops: seq<Op>)
    ensures var s := Run(cfg, ops);
            && (forall id :: id in s.objects ==>
                  s.objects[id].fetches <= Max(cfg.attempts, 1) + 2 && s.objects[id].redirects <= cfg.limit + 1)
            && (forall g :: 0 <= g < |s.hops| ==> s.hops[g] <= cfg.limit + 1)
  {
    hide Run;
    RunInv(cfg, ops);
    var s := Run(cfg, ops);
  }
}

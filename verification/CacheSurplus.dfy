/** By how much candidate counts exceed the objects that point at a candidate: exactly by the
    number of objects that were destroyed with the candidate still set. */
module CacheSurplus {
  import opened Options
  import opened FetchStates
  import opened CacheState
  import opened CacheLifetime

  /** The count of `c` beyond its pointers; nothing counts for an object that is not there. */
  function Surplus(s: Cache, c: Id): int {
    (if c in s.objects then s.objects[c].count else 0) - |Pointers(s.objects, c)|
  }

  /** The objects that went between two states with candidate `c` still set. */
  function Leaked(s: Cache, s': Cache, c: Id): set<Id> {
    set id | id in s.objects && id !in s'.objects && s.objects[id].candidate == Some(c)
  }

  /** The law, for every object of the later state. */
  ghost predicate Drift(s: Cache, s': Cache) {
    forall c :: c in s'.objects ==> Surplus(s', c) == Surplus(s, c) + |Leaked(s, s', c)|
  }

  // ---------------------------------------------------------------- one change at a time

  /** Candidates and counts as they were. */
  lemma SameDrift(s: Cache, s': Cache)
    requires s'.objects.Keys == s.objects.Keys
    requires forall id :: id in s.objects ==>
               s'.objects[id].candidate == s.objects[id].candidate && s'.objects[id].count == s.objects[id].count
    ensures Drift(s, s')
  {
    forall c | c in s'.objects ensures Surplus(s', c) == Surplus(s, c) + |Leaked(s, s', c)| {
      SamePointers(s.objects, s'.objects, c);
      assert Leaked(s, s', c) == {};
    }
  }

  lemma UnpointDrift(s: Cache, id: Id)
    requires Inv(s) && id in s.objects
    ensures Drift(s, Unpoint(s, id))
  {
    hide Inv, Listed, HandlesOk;
    Facts(s, id);
    var o, t := s.objects[id], Unpoint(s, id);
    if o.candidate.Some? {
      var b := o.candidate.value;
      var o1 := o.(candidate := None);
      var m := s.objects[id := o1];
      DropPointer(s.objects, id, o1, b);
      assert t.objects == m[b := m[b].(count := m[b].count - 1)];
      forall c | c in t.objects ensures Surplus(t, c) == Surplus(s, c) + |Leaked(s, t, c)| {
        SamePointers(m, t.objects, c);
        assert Leaked(s, t, c) == {};
        if c != b { assert Pointers(m, c) == Pointers(s.objects, c); }
      }
    } else {
      SameDrift(s, t);
    }
  }

  /** A new object that points at nothing. */
  lemma AddDrift(s: Cache, o: Obj, cached: bool)
    requires Inv(s) && o.count == 0 && o.candidate == None
    ensures Drift(s, Add(s, o, cached))
  {
    hide Pointers;
    var s' := Add(s, o, cached);
    assert s.next !in s.objects;
    NoPointers(s, s.next);
    forall c | c in s'.objects ensures Surplus(s', c) == Surplus(s, c) + |Leaked(s, s', c)| {
      AddPointers(s.objects, s.next, o, c);
      assert Leaked(s, s', c) == {};
    }
  }

  /** A new object whose candidate counts it. */
  lemma PointDrift(s: Cache, id: Id, o: Obj)
    requires Inv(s) && id in s.objects && o.count == 0 && o.candidate == Some(id)
    ensures Drift(s, Add(Put(s, id, s.objects[id].(count := s.objects[id].count + 1)), o, true))
  {
    hide Pointers;
    var s1 := Put(s, id, s.objects[id].(count := s.objects[id].count + 1));
    var s' := Add(s1, o, true);
    assert s.next !in s.objects;
    NoPointers(s, s.next);
    forall c | c in s'.objects ensures Surplus(s', c) == Surplus(s, c) + |Leaked(s, s', c)| {
      SamePointers(s.objects, s1.objects, c);
      AddPointers(s1.objects, s.next, o, c);
      assert Leaked(s, s', c) == {};
    }
  }

  lemma DestroyDrift(s: Cache, dead: set<Id>)
    ensures Drift(s, Destroy(s, dead))
  {
    var s' := Destroy(s, dead);
    forall c | c in s'.objects ensures Surplus(s', c) == Surplus(s, c) + |Leaked(s, s', c)| {
      var all, left, gone := Pointers(s.objects, c), Pointers(s'.objects, c), Leaked(s, s', c);
      assert all == left + gone && left !! gone;
    }
  }

  /** What goes in the second change is as the first found it. */
  ghost predicate Carried(s: Cache, t: Cache, u: Cache) {
    && (forall id :: id in s.objects && id !in t.objects ==> id !in u.objects)
    && (forall id :: id in t.objects && id !in u.objects ==>
          t.objects[id].candidate == if id in s.objects then s.objects[id].candidate else None)
  }

  lemma LeakedThrough(s: Cache, t: Cache, u: Cache, c: Id)
    requires Carried(s, t, u)
    ensures |Leaked(s, u, c)| == |Leaked(s, t, c)| + |Leaked(t, u, c)|
  {
    var a, b, all := Leaked(s, t, c), Leaked(t, u, c), Leaked(s, u, c);
    assert all == a + b && a !! b;
  }

  lemma NothingLeaked(s: Cache, t: Cache, c: Id)
    requires Inv(s) && c !in s.objects
    ensures Surplus(s, c) == 0 && Leaked(s, t, c) == {}
  {
    hide Inv;
    NoPointers(s, c);
    assert Leaked(s, t, c) <= Pointers(s.objects, c);
  }

  /** One change after another. */
  lemma DriftThrough(s: Cache, t: Cache, u: Cache)
    requires Inv(s) && Inv(t) && Drift(s, t) && Drift(t, u) && Carried(s, t, u)
    ensures Drift(s, u)
  {
    hide Inv, Surplus, Leaked;
    forall c | c in u.objects ensures Surplus(u, c) == Surplus(s, c) + |Leaked(s, u, c)| {
      LeakedThrough(s, t, u, c);
      if c !in t.objects {
        NothingLeaked(t, u, c);
        NothingLeaked(s, t, c);
      }
    }
  }

  // ---------------------------------------------------------------- retrieval and messages

  lemma FetchDrift(s: Cache, cfg: Config, url: string, env: Env, redirects: nat, origin: nat, cached: bool)
    requires Inv(s)
    ensures var s' := Fetch(s, cfg, url, env, redirects, origin, cached).0;
            Drift(s, s') && forall id :: id in s'.objects ==> id in s.objects || id == s.next
  {
    hide Inv, Drift;
    AddDrift(s, Fetching(cfg, url, None, env, redirects, origin), cached);
    SameDrift(s, s);
  }

  lemma ReuseDrift(s: Cache, cfg: Config, id: Id, env: Env, redirects: nat, origin: nat)
    requires Inv(s) && id in s.objects
    ensures Drift(s, Reuse(s, cfg, id, env, redirects, origin).0)
  {
    hide Inv, Pointers, Fetch, Destroy, Drift, HandlesOk;
    var o := s.objects[id];
    Facts(s, id);
    if o.disc && !o.data && !env.restored {
      var t := Destroy(s, {id});
      DestroyOk(s, {id});
      DestroyDrift(s, {id});
      DestroyIs(s, {id});
      FetchDrift(t, cfg, o.url, env, redirects, origin, true);
      FetchKeeps(t, cfg, o.url, env, redirects, origin, true);
      Below(s, id);
      DestroyNext(s, {id});
      DriftThrough(s, t, Fetch(t, cfg, o.url, env, redirects, origin, true).0);
    } else {
      var o1 := if o.disc then o.(data := true) else o;
      var s1 := Put(s, id, o1);
      PutOk(s, id, o1);
      SameDrift(s, s1);
      if !env.isFresh && env.starts {
        var n := Fetching(cfg, o.url, Some(id), env, redirects, origin);
        PointDrift(s1, id, n);
        DriftThrough(s, s1, Add(Put(s1, id, o1.(count := o1.count + 1)), n, true));
      }
    }
  }

  lemma FetchKeeps(s: Cache, cfg: Config, url: string, env: Env, redirects: nat, origin: nat, cached: bool)
    ensures s.objects.Keys <= Fetch(s, cfg, url, env, redirects, origin, cached).0.objects.Keys
  {
  }

  lemma DestroyNext(s: Cache, dead: set<Id>)
    ensures Destroy(s, dead).next == s.next
  {
  }

  lemma Below(s: Cache, id: Id)
    requires Inv(s) && id in s.objects
    ensures id < s.next
  {
    hide ObjOk, HandlesOk;
  }

  lemma NextNew(s: Cache)
    requires Inv(s)
    ensures s.next !in s.objects
  {
    hide ObjOk, HandlesOk;
  }

  lemma RetrieveDrift(s: Cache, cfg: Config, url: string, env: Env, redirects: nat, origin: nat)
    requires Inv(s)
    ensures Drift(s, Retrieve(s, cfg, url, env, redirects, origin).0)
  {
    hide Inv, Fetch, Reuse, Newest, Drift;
    FetchDrift(s, cfg, url, env, redirects, origin, env.cacheable);
    var found := Newest(s, url, |s.cached|);
    if found.Some? {
      ReuseDrift(s, cfg, found.value, env, redirects, origin);
    } else if env.stored.Some? {
      var o := Restored(url, env, redirects, origin);
      var t := Add(s, o, true);
      AddOk(s, o, true);
      AddDrift(s, o, true);
      NextNew(s);
      ReuseDrift(t, cfg, s.next, env, redirects, origin);
      DriftThrough(s, t, Reuse(t, cfg, s.next, env, redirects, origin).0);
    }
  }

  lemma UnpointFrame(s: Cache, id: Id)
    requires id in s.objects
    ensures var t := Unpoint(s, id);
            && t.objects.Keys == s.objects.Keys && t.next == s.next
            && forall x :: x in s.objects && x != id ==> t.objects[x].candidate == s.objects[x].candidate
  {
  }

  /** Two states with the same objects, candidates and counts. */
  ghost predicate SamePointing(s: Cache, t: Cache) {
    && t.objects.Keys == s.objects.Keys
    && forall id :: id in s.objects ==>
         t.objects[id].candidate == s.objects[id].candidate && t.objects[id].count == s.objects[id].count
  }

  lemma PutSame(s: Cache, id: Id, o: Obj)
    requires id in s.objects && o.candidate == s.objects[id].candidate && o.count == s.objects[id].count
    ensures SamePointing(s, Put(s, id, o)) && Drift(s, Put(s, id, o))
  {
    hide Drift;
    SameDrift(s, Put(s, id, o));
  }

  lemma SameThrough(s: Cache, t: Cache, u: Cache)
    requires SamePointing(s, t) && SamePointing(t, u)
    ensures SamePointing(s, u)
  {
  }

  /** The candidate released, and then other fields changed. */
  lemma ReleasedDrift(s: Cache, id: Id, u: Cache)
    requires Inv(s) && id in s.objects && SamePointing(Unpoint(s, id), u)
    ensures Drift(s, u)
  {
    hide Inv, Unpoint, Drift;
    UnpointOk(s, id);
    UnpointDrift(s, id);
    SameDrift(Unpoint(s, id), u);
    DriftThrough(s, Unpoint(s, id), u);
  }

  /** The object of a redirect after its fetch is over. */
  ghost predicate Over(s: Cache, id: Id, t: Cache) {
    && t.objects.Keys == s.objects.Keys && id in t.objects && !t.objects[id].disc
    && forall x :: x in s.objects && x != id ==> t.objects[x].candidate == s.objects[x].candidate
  }

  lemma OverDrift(s: Cache, id: Id, hops: seq<nat>)
    requires Inv(s) && id in s.objects && s.objects[id].fetching
    ensures var t := Unpoint(s, id);
            id in t.objects
            && var s2 := Put(t, id, Complete(t.objects[id])).(hops := hops);
               Inv(s2) && Drift(s, s2) && Over(s, id, s2)
  {
    hide Inv, Unpoint, Drift, SamePointing;
    Facts(s, id);
    UnpointOk(s, id);
    UnpointFrame(s, id);
    var t := Unpoint(s, id);
    var s1 := Put(t, id, Complete(t.objects[id]));
    ReleasedOk(s, id, Complete(t.objects[id]));
    PutSame(t, id, Complete(t.objects[id]));
    HopsOk(s1, hops);
    ReleasedDrift(s, id, s1);
    SameObjects(s, s1, s1.(hops := hops));
  }

  lemma TargetDrift(s: Cache, id: Id, t: Cache, cfg: Config, url: string, env: Env, redirects: nat, origin: nat)
    requires Inv(s) && Inv(t) && Drift(s, t) && Over(s, id, t)
    ensures Drift(s, Retrieve(t, cfg, url, env, redirects, origin).0)
  {
    hide Inv, Retrieve, Drift;
    RetrieveOk(t, cfg, url, env, redirects, origin);
    RetrieveDrift(t, cfg, url, env, redirects, origin);
    DriftThrough(s, t, Retrieve(t, cfg, url, env, redirects, origin).0);
  }

  lemma RedirectedDrift(s: Cache, cfg: Config, id: Id, allowed: bool, url: string, env: Env)
    requires Inv(s) && id in s.objects && s.objects[id].fetching
    ensures Drift(s, Redirected(s, cfg, id, allowed, url, env))
  {
    hide Inv, Unpoint, Retrieve, Drift, Over, MoveUsers;
    UnpointOk(s, id);
    var t := Unpoint(s, id);
    var o := t.objects[id];
    var s1 := Put(t, id, Complete(o));
    OverDrift(s, id, s1.hops);
    assert s1.(hops := s1.hops) == s1;
    if !(o.redirects > cfg.limit || !allowed || o.origin >= |s.hops|) {
      var s2 := s1.(hops := s1.hops[o.origin := s1.hops[o.origin] + 1]);
      OverDrift(s, id, s2.hops);
      TargetDrift(s, id, s2, cfg, url, env, o.redirects + 1, o.origin);
      var (s3, dest) := Retrieve(s2, cfg, url, env, o.redirects + 1, o.origin);
      if dest.Some? { MovedDrift(s, s3, id, dest.value); }
    }
  }

  lemma MovedDrift(s: Cache, s': Cache, from: Id, to: Id)
    requires Drift(s, s')
    ensures Drift(s, MoveUsers(s', from, to))
  {
    hide Pointers;
    forall c | c in s'.objects ensures Leaked(s, MoveUsers(s', from, to), c) == Leaked(s, s', c) {
    }
  }

  lemma PutReleased(s: Cache, id: Id, o: Obj)
    requires Inv(s) && id in s.objects && id in Unpoint(s, id).objects
    requires o.candidate == Unpoint(s, id).objects[id].candidate && o.count == Unpoint(s, id).objects[id].count
    ensures Drift(s, Put(Unpoint(s, id), id, o))
  {
    hide Inv, Unpoint, Drift, Put;
    UnpointOk(s, id);
    PutSame(Unpoint(s, id), id, o);
    ReleasedDrift(s, id, Put(Unpoint(s, id), id, o));
  }

  lemma StillFreshDrift(s: Cache, id: Id)
    requires Inv(s) && id in s.objects && s.objects[id].fetching
    ensures Drift(s, StillFresh(s, id))
  {
    hide Inv, Unpoint, Drift, Pointers, Put, ObjOk, Unused;
    var o := s.objects[id];
    PutSame(s, id, Complete(o));
    if o.candidate.Some? {
      var c := o.candidate.value;
      Counted(s, id, c);
      MoveOk(s, id, c);
      var m := MoveUsers(s, id, c);
      SameDrift(s, m);
      UnpointOk(m, id);
      var t := Unpoint(m, id);
      PutSame(t, c, t.objects[c].(time := o.time));
      var t1 := Put(t, c, t.objects[c].(time := o.time));
      PutSame(t1, id, Complete(t1.objects[id]));
      SameThrough(t, t1, StillFresh(s, id));
      ReleasedDrift(m, id, StillFresh(s, id));
      DriftThrough(s, m, StillFresh(s, id));
    }
  }

  lemma ReceiveDrift(s: Cache, cfg: Config, id: Id, m: Message)
    requires Inv(s) && id in s.objects && s.objects[id].fetching
    ensures Drift(s, Receive(s, cfg, id, m))
  {
    hide Inv, Unpoint, Redirected, StillFresh, Drift, Pointers, Put, SamePointing;
    UnpointOk(s, id);
    var o, t := s.objects[id], Unpoint(s, id).objects[id];
    match m
    case Redirect(allowed, url, env) => RedirectedDrift(s, cfg, id, allowed, url, env);
    case NotModified => StillFreshDrift(s, id);
    case Header => PutSame(s, id, o.(state := HEADERS));
    case Finished => PutSame(s, id, o.(state := COMPLETE, fetching := false, data := o.data && o.len > 0));
    case Data(n, uncacheable) => DataDrift(s, id, n, uncacheable);
    case TimedOut(starts, now) =>
      if o.retries > 1 { PutSame(s, id, Retry(o, starts, now)); } else { PutReleased(s, id, Complete(t)); }
    case Auth(known, starts, now) => PutReleased(s, id, AuthNeeded(t, known, starts, now));
    case SslError(starts, now) => PutReleased(s, id, SslFailed(t, starts, now));
    case Failed => PutReleased(s, id, Complete(t));
  }

  lemma DataDrift(s: Cache, id: Id, n: nat, uncacheable: bool)
    requires Inv(s) && id in s.objects
    ensures Drift(s, GotData(s, id, n, uncacheable))
  {
    hide Inv, Unpoint, Drift, Pointers, SamePointing;
    UnpointOk(s, id);
    var o := GotData(s, id, n, uncacheable).objects[id];
    if s.objects[id].state == DATA { PutSame(s, id, o); } else { PutReleased(s, id, o); }
  }

  // ---------------------------------------------------------------- every step

  /** A later state of a cleaning, with the candidates of what is left as they were. */
  ghost predicate Thinned(s: Cache, t: Cache) {
    Drift(s, t) && forall id :: id in t.objects ==>
        id in s.objects && t.objects[id].candidate == s.objects[id].candidate
  }

  lemma ThinnedThrough(s: Cache, t: Cache, u: Cache)
    requires Inv(s) && Inv(t) && Thinned(s, t) && Thinned(t, u)
    ensures Thinned(s, u)
  {
    hide Inv, Drift;
    DriftThrough(s, t, u);
  }

  lemma DestroyThins(s: Cache, dead: set<Id>)
    ensures Thinned(s, Destroy(s, dead))
  {
    hide Drift;
    DestroyDrift(s, dead);
  }

  lemma ChangeThins(s: Cache, n: nat, written: Id -> bool)
    ensures Thinned(s, DropData(s, n)) && Thinned(s, Persist(s, written))
  {
    hide Drift, Persists, Idle;
    SameDrift(s, DropData(s, n));
    SameDrift(s, Persist(s, written));
  }

  lemma CleanDrift(s: Cache, c: Cleaning)
    requires Inv(s) && (c.full ==> Bodied(s, c.written))
    ensures Thinned(s, Clean(s, c))
  {
    hide Inv, Destroy, Persist, DropData, Bodied, Thinned;
    var s1 := Destroy(s, Uncacheable(s));
    DestroyCleans(s, Uncacheable(s));
    DestroyThins(s, Uncacheable(s));
    var s2 := Destroy(s1, Stale(s1, c.stale));
    DestroyCleans(s1, Stale(s1, c.stale));
    DestroyThins(s1, Stale(s1, c.stale));
    ThinnedThrough(s, s1, s2);
    var s3 := if c.full then Persist(s2, c.written) else s2;
    if c.full {
      DestroyBodied(s, Uncacheable(s), c.written);
      DestroyBodied(s1, Stale(s1, c.stale), c.written);
      PersistOk(s2, c.written);
      ChangeThins(s2, 0, c.written);
      ThinnedThrough(s, s2, s3);
    }
    var s4 := DropData(s3, c.third);
    DropOk(s3, c.third);
    ChangeThins(s3, c.third, c.written);
    ThinnedThrough(s, s3, s4);
    var s5 := Destroy(s4, Backed(s4, c.fourth));
    DestroyCleans(s4, Backed(s4, c.fourth));
    DestroyThins(s4, Backed(s4, c.fourth));
    ThinnedThrough(s, s4, s5);
    DestroyThins(s5, Unbacked(s5, c.fifth));
    ThinnedThrough(s, s5, Clean(s, c));
  }

  lemma OpenDrift(s: Cache, cfg: Config, u: UserId, url: string, env: Env)
    requires Inv(s)
    ensures Drift(s, Step(s, cfg, Open(u, url, env)))
  {
    hide Inv, Retrieve, Drift;
    var s' := Step(s, cfg, Open(u, url, env));
    if u in s.users {
      SameDrift(s, s');
    } else {
      var t := s.(hops := s.hops + [0]);
      HopsOk(s, t.hops);
      SameDrift(s, t);
      RetrieveDrift(t, cfg, url, env, 0, |s.hops|);
      var (s1, r) := Retrieve(t, cfg, url, env, 0, |s.hops|);
      RetrieveOk(t, cfg, url, env, 0, |s.hops|);
      DriftThrough(s, t, s1);
      SameObjects(s, s1, s');
    }
  }

  lemma SameObjects(s: Cache, t: Cache, u: Cache)
    requires Drift(s, t) && u.objects == t.objects
    ensures Drift(s, u)
  {
    forall c | c in u.objects ensures Surplus(u, c) == Surplus(s, c) + |Leaked(s, u, c)| {
      assert Surplus(u, c) == Surplus(t, c) && Leaked(s, u, c) == Leaked(s, t, c);
    }
  }

  lemma QuitDrift(s: Cache, u: UserId)
    requires Inv(s) && u in s.users && s.users[u] in s.objects
    ensures Drift(s, Aborted(s, u))
  {
    hide Inv, Drift;
    if Alone(s, u) {
      SameDrift(s, Aborted(s, u));
    } else {
      var o := Snapshot(s.objects[s.users[u]]);
      AddDrift(s, o, false);
      SameObjects(s, Add(s, o, false), Aborted(s, u));
    }
  }

  /** The law: in every step the count of a candidate beyond its pointers grows by the number of
      objects that the step destroys with that candidate still set, and is 0 for a new object. */
  lemma StepDrift(s: Cache, cfg: Config, op: Op)
    requires Inv(s) && Fair(s, op)
    ensures Drift(s, Step(s, cfg, op))
  {
    hide Inv, Receive, Clean, Aborted, Drift, Persists, Retrieve, Bodied;
    var s' := Step(s, cfg, op);
    match op
    case Open(u, url, env) => OpenDrift(s, cfg, u, url, env);
    case Quit(u) => if u in s.users && s.users[u] in s.objects { QuitDrift(s, u); } else { SameDrift(s, s'); }
    case Got(id, m) =>
      if id in s.objects && s.objects[id].fetching { ReceiveDrift(s, cfg, id, m); } else { SameDrift(s, s'); }
    case Tidy(c) => CleanDrift(s, c);
    case Write(written) => SameDrift(s, s');
    case Close(_) => SameDrift(s, s');
    case Clone(_, _) => SameDrift(s, s');
    case Stream(_) => SameDrift(s, s');
    case Drained(_) => SameDrift(s, s');
    case Broken(_) => SameDrift(s, s');
  }
}

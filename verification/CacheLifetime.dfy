/** Why no cache object is destroyed too early: candidate counts never fall below the number of
    objects that point at the candidate, and an object whose data is only on disc is unused. */
module CacheLifetime {
  import opened Options
  import opened FetchStates
  import opened CacheState

  /** The live objects whose candidate is `c`. */
  function Pointers(objects: map<Id, Obj>, c: Id): set<Id> {
    set id | id in objects && objects[id].candidate == Some(c)
  }

  /** What holds of one object. */
  ghost predicate ObjOk(s: Cache, id: Id)
    requires id in s.objects
  {
    var o := s.objects[id];
    && (o.candidate.Some? ==> o.candidate.value in s.objects && o.candidate.value < id)
    && |Pointers(s.objects, id)| <= o.count
    && (o.disc ==> !o.fetching)
    && (o.disc && !o.data ==> o.count == 0 && NoUsers(s, id))
    && (!o.disc && o.len > 0 ==> o.data)
  }

  ghost predicate Listed(s: Cache) {
    && (forall id :: id in s.objects <==> id in s.cached || id in s.uncached)
    && (forall id :: id in s.objects ==> id < s.next)
  }

  ghost predicate HandlesOk(s: Cache) {
    forall u :: u in s.users ==> s.users[u] in s.objects
  }

  /** Every handle points to a live object, and every object is in order. */
  ghost predicate Inv(s: Cache) {
    Listed(s) && HandlesOk(s) && forall id :: id in s.objects ==> ObjOk(s, id)
  }

  /** Every object that went between two states was unused: no user, no fetch, and no object
      whose candidate it was. */
  ghost predicate Spared(s: Cache, s': Cache) {
    forall id :: id in s.objects && id !in s'.objects ==>
      !s.objects[id].fetching && NoUsers(s, id) && Pointers(s.objects, id) == {}
  }

  /** An object that may be handed to a client. */
  ghost predicate Usable(s: Cache, id: Id) {
    id in s.objects && (s.objects[id].disc ==> s.objects[id].data)
  }

  // ---------------------------------------------------------------- one change at a time

  lemma Fewer(a: set<Id>, b: set<Id>)
    requires a <= b
    ensures |a| <= |b|
  {
    if a != b {
      assert b == a + (b - a) && a !! (b - a);
    }
  }

  /** What an object may look like beside its candidate and count. */
  ghost predicate Settled(o: Obj, unused: bool) {
    && (o.disc ==> !o.fetching)
    && (o.disc && !o.data ==> o.count == 0 && unused)
    && (!o.disc && o.len > 0 ==> o.data)
  }

  lemma PutPointers(objects: map<Id, Obj>, id: Id, o: Obj, x: Id)
    requires id in objects && (o.candidate == objects[id].candidate || o.candidate == None)
    ensures |Pointers(objects[id := o], x)| <= |Pointers(objects, x)|
  {
    Fewer(Pointers(objects[id := o], x), Pointers(objects, x));
  }

  /** A changed object; its candidate may be dropped, and its count stay high enough. */
  lemma PutOk(s: Cache, id: Id, o: Obj)
    requires Inv(s) && id in s.objects && |Pointers(s.objects, id)| <= o.count
    requires o.candidate == s.objects[id].candidate || o.candidate == None
    requires Settled(o, NoUsers(s, id))
    ensures Inv(Put(s, id, o))
  {
    hide Pointers;
    var s' := Put(s, id, o);
    forall x | x in s'.objects ensures ObjOk(s', x) {
      assert ObjOk(s, x);
      PutPointers(s.objects, id, o, x);
    }
  }

  lemma DropPointer(objects: map<Id, Obj>, id: Id, o: Obj, c: Id)
    requires id in objects && objects[id].candidate == Some(c) && o.candidate == None
    ensures |Pointers(objects[id := o], c)| == |Pointers(objects, c)| - 1
  {
    assert Pointers(objects[id := o], c) == Pointers(objects, c) - {id};
  }

  /** Releasing a candidate: the candidate is live and its count stays high enough. */
  lemma UnpointOk(s: Cache, id: Id)
    requires Inv(s) && id in s.objects
    ensures var t := Unpoint(s, id);
            && Inv(t) && t.users == s.users && t.objects.Keys == s.objects.Keys && t.hops == s.hops
            && t.objects[id] == s.objects[id].(candidate := None, count := t.objects[id].count)
  {
    hide Pointers, Inv;
    var o := s.objects[id];
    Facts(s, id);
    if o.candidate.Some? {
      var c := o.candidate.value;
      Facts(s, c);
      var o1 := o.(candidate := None);
      var s1 := Put(s, id, o1);
      PutOk(s, id, o1);
      DropPointer(s.objects, id, o1, c);
      PutOk(s1, c, s1.objects[c].(count := s1.objects[c].count - 1));
    }
  }

  lemma Facts(s: Cache, id: Id)
    requires Inv(s) && id in s.objects
    ensures ObjOk(s, id)
  {
  }

  lemma AddPointers(objects: map<Id, Obj>, id: Id, o: Obj, x: Id)
    requires id !in objects
    ensures |Pointers(objects[id := o], x)| == |Pointers(objects, x)| + if o.candidate == Some(x) then 1 else 0
  {
    assert Pointers(objects[id := o], x) == Pointers(objects, x) + if o.candidate == Some(x) then {id} else {};
  }

  /** A new object, whose candidate has already counted it: nobody can point at it yet. */
  lemma AddOk(s: Cache, o: Obj, cached: bool)
    requires Inv(s) && o.count == 0 && Settled(o, true)
    requires o.candidate.Some? ==> o.candidate.value in s.objects
                                   && |Pointers(s.objects, o.candidate.value)| < s.objects[o.candidate.value].count
    ensures Inv(Add(s, o, cached)) && Spared(s, Add(s, o, cached))
  {
    hide Pointers;
    var s' := Add(s, o, cached);
    assert s.next !in s.objects;
    NoPointers(s, s.next);
    forall x | x in s'.objects ensures ObjOk(s', x) {
      assert x in s.objects ==> ObjOk(s, x);
      AddPointers(s.objects, s.next, o, x);
    }
  }

  lemma NoPointers(s: Cache, id: Id)
    requires Inv(s) && id !in s.objects
    ensures Pointers(s.objects, id) == {} && NoUsers(s, id)
  {
    forall x | x in s.objects ensures s.objects[x].candidate != Some(id) {
      assert ObjOk(s, x);
    }
  }

  lemma {:induction false} WithoutIs(list: seq<Id>, dead: set<Id>)
    ensures forall id :: id in Without(list, dead) <==> id in list && id !in dead
  {
    if list != [] {
      WithoutIs(list[1..], dead);
      assert list == [list[0]] + list[1..];
    }
  }

  /** Objects that are unused and have count zero can go. */
  lemma DestroyOk(s: Cache, dead: set<Id>)
    requires Inv(s) && forall id :: id in dead ==> id in s.objects && Idle(s, id)
    ensures Inv(Destroy(s, dead)) && Spared(s, Destroy(s, dead))
  {
    var s' := Destroy(s, dead);
    WithoutIs(s.cached, dead);
    WithoutIs(s.uncached, dead);
    forall id | id in dead ensures Pointers(s.objects, id) == {} {
      assert ObjOk(s, id);
    }
    forall x | x in s'.objects ensures ObjOk(s', x) {
      assert ObjOk(s, x);
      var c := s.objects[x].candidate;
      assert c.Some? ==> x in Pointers(s.objects, c.value);
      Fewer(Pointers(s'.objects, x), Pointers(s.objects, x));
    }
  }

  /** Handles moved to objects that may be handed out. */
  lemma UsersOk(s: Cache, users: map<UserId, Id>)
    requires Inv(s)
    requires forall u :: u in users ==> (u in s.users && users[u] == s.users[u]) || Usable(s, users[u])
    ensures Inv(s.(users := users))
  {
    var s' := s.(users := users);
    forall x | x in s'.objects ensures ObjOk(s', x) {
      assert ObjOk(s, x);
    }
  }

  // ---------------------------------------------------------------- retrieval

  /** The objects that went had their data on disc only. */
  ghost predicate Lost(s: Cache, s': Cache) {
    forall id :: id in s.objects && id !in s'.objects ==> s.objects[id].disc && !s.objects[id].data
  }

  lemma LostSpared(s: Cache, s': Cache)
    requires Inv(s) && Lost(s, s')
    ensures Spared(s, s')
  {
    forall id | id in s.objects && id !in s'.objects
      ensures !s.objects[id].fetching && NoUsers(s, id) && Pointers(s.objects, id) == {}
    {
      assert ObjOk(s, id);
    }
  }

  /** What a retrieval does: its result may be handed out. */
  ghost predicate Retrieved(s: Cache, s': Cache, r: Option<Id>) {
    Inv(s') && Lost(s, s') && s'.users == s.users && (r.Some? ==> Usable(s', r.value))
  }

  lemma FetchOk(s: Cache, cfg: Config, url: string, env: Env, redirects: nat, origin: nat, cached: bool)
    requires Inv(s)
    ensures var (s', r) := Fetch(s, cfg, url, env, redirects, origin, cached); Retrieved(s, s', r)
  {
    hide Inv;
    AddOk(s, Fetching(cfg, url, None, env, redirects, origin), cached);
  }

  lemma ReuseOk(s: Cache, cfg: Config, id: Id, env: Env, redirects: nat, origin: nat)
    requires Inv(s) && id in s.objects
    ensures var (s', r) := Reuse(s, cfg, id, env, redirects, origin); Retrieved(s, s', r)
  {
    hide Inv, Pointers, Fetch, Destroy, Listed, HandlesOk;
    var o := s.objects[id];
    Facts(s, id);
    if o.disc && !o.data && !env.restored {
      var t := Destroy(s, {id});
      DestroyOk(s, {id});
      FetchOk(t, cfg, o.url, env, redirects, origin, true);
      assert t.objects == s.objects - {id} && t.users == s.users by { DestroyIs(s, {id}); }
    } else {
      var o1 := if o.disc then o.(data := true) else o;
      var s1 := Put(s, id, o1);
      PutOk(s, id, o1);
      if !env.isFresh && env.starts {
        var o2 := o1.(count := o1.count + 1);
        Facts(s1, id);
        PutOk(s1, id, o2);
        var s2 := Put(s1, id, o2);
        PutPointers(s1.objects, id, o2, id);
        AddOk(s2, Fetching(cfg, o.url, Some(id), env, redirects, origin), true);
      }
    }
  }

  lemma DestroyIs(s: Cache, dead: set<Id>)
    ensures var t := Destroy(s, dead); t.objects == s.objects - dead && t.users == s.users
  {
  }

  /** Retrieval hands out a usable object, and destroys at most one whose data was lost. */
  lemma RetrieveOk(s: Cache, cfg: Config, url: string, env: Env, redirects: nat, origin: nat)
    requires Inv(s)
    ensures var (s', r) := Retrieve(s, cfg, url, env, redirects, origin); Retrieved(s, s', r)
  {
    hide Inv, Fetch, Reuse, Newest;
    FetchOk(s, cfg, url, env, redirects, origin, env.cacheable);
    var found := Newest(s, url, |s.cached|);
    if found.Some? {
      ReuseOk(s, cfg, found.value, env, redirects, origin);
    } else if env.stored.Some? {
      var t := Add(s, Restored(url, env, redirects, origin), true);
      AddOk(s, Restored(url, env, redirects, origin), true);
      ReuseOk(t, cfg, s.next, env, redirects, origin);
      AddLost(s, t, Reuse(t, cfg, s.next, env, redirects, origin).0);
    }
  }

  lemma AddLost(s: Cache, t: Cache, t': Cache)
    requires Inv(s) && Lost(t, t') && exists o: Obj, cached: bool :: t == Add(s, o, cached)
    ensures Lost(s, t')
  {
    assert s.next !in s.objects;
  }

  // ---------------------------------------------------------------- messages

  /** What a message keeps. */
  ghost predicate Kept(s: Cache, s': Cache) {
    Inv(s') && Lost(s, s') && s'.users.Keys == s.users.Keys
  }

  lemma MoveOk(s: Cache, from: Id, to: Id)
    requires Inv(s) && Usable(s, to)
    ensures Inv(MoveUsers(s, from, to))
  {
    UsersOk(s, MoveUsers(s, from, to).users);
  }

  /** A message after which the object is as a plain change leaves it. */
  lemma PlainOk(s: Cache, id: Id, o: Obj)
    requires Inv(s) && id in s.objects && !s.objects[id].disc
    requires o.count == s.objects[id].count && o.candidate == s.objects[id].candidate && !o.disc
            && (o.len > 0 ==> o.data)
    ensures Inv(Put(s, id, o))
  {
    hide Inv, Pointers;
    Facts(s, id);
    PutOk(s, id, o);
  }

  lemma DataOk(s: Cache, id: Id, n: nat, uncacheable: bool)
    requires Inv(s) && id in s.objects && s.objects[id].fetching
    ensures Kept(s, GotData(s, id, n, uncacheable))
  {
    hide Inv, Unpoint;
    Facts(s, id);
    UnpointOk(s, id);
    var t := if s.objects[id].state != DATA then Unpoint(s, id) else s;
    PlainOk(t, id, GotData(s, id, n, uncacheable).objects[id]);
  }

  /** The candidate that takes over the users may be handed out, because it is counted. */
  lemma StillFreshOk(s: Cache, id: Id)
    requires Inv(s) && id in s.objects && s.objects[id].fetching
    ensures Kept(s, StillFresh(s, id))
  {
    hide Inv, Unpoint, Pointers;
    Facts(s, id);
    var o := s.objects[id];
    if o.candidate.Some? {
      var c := o.candidate.value;
      Facts(s, c);
      Counted(s, id, c);
      MoveOk(s, id, c);
      var m := MoveUsers(s, id, c);
      UnpointOk(m, id);
      var t := Unpoint(m, id);
      Facts(t, c);
      UnpointCandidate(m, id, c);
      var t' := Put(t, c, t.objects[c].(time := o.time));
      PutOk(t, c, t.objects[c].(time := o.time));
      Facts(t', id);
      PlainOk(t', id, Complete(t'.objects[id]));
    } else {
      PlainOk(s, id, Complete(o));
    }
  }

  lemma Counted(s: Cache, id: Id, c: Id)
    requires Inv(s) && id in s.objects && s.objects[id].candidate == Some(c)
    ensures c in s.objects && s.objects[c].count > 0 && Usable(s, c)
  {
    assert ObjOk(s, id) && ObjOk(s, c);
    assert id in Pointers(s.objects, c);
  }

  lemma UnpointCandidate(s: Cache, id: Id, c: Id)
    requires id in s.objects && c in s.objects && s.objects[id].candidate == Some(c)
    ensures var t := Unpoint(s, id);
            c in t.objects && t.objects[c].disc == s.objects[c].disc && t.objects[c].data == s.objects[c].data
  {
    var o1 := s.objects[id].(candidate := None);
    var m := s.objects[id := o1];
    assert m[c].disc == s.objects[c].disc && m[c].data == s.objects[c].data;
    assert Unpoint(s, id).objects == m[c := m[c].(count := m[c].count - 1)];
  }

  /** After a candidate is released the object can be completed or fetched again. */
  lemma ReleasedOk(s: Cache, id: Id, o: Obj)
    requires Inv(s) && id in s.objects && s.objects[id].fetching
    requires var t := Unpoint(s, id).objects;
             && id in t && o.count == t[id].count && o.candidate == t[id].candidate
             && o.disc == t[id].disc && o.data == t[id].data && o.len == t[id].len
    ensures var s' := Put(Unpoint(s, id), id, o); Kept(s, s') && s'.users == s.users && s'.hops == s.hops
  {
    hide Inv, Unpoint;
    Facts(s, id);
    UnpointOk(s, id);
    PlainOk(Unpoint(s, id), id, o);
  }

  lemma RedirectedOk(s: Cache, cfg: Config, id: Id, allowed: bool, url: string, env: Env)
    requires Inv(s) && id in s.objects && s.objects[id].fetching
    ensures Kept(s, Redirected(s, cfg, id, allowed, url, env))
  {
    hide Inv, Unpoint, Retrieve;
    Facts(s, id);
    UnpointOk(s, id);
    var t := Unpoint(s, id);
    var o := t.objects[id];
    ReleasedOk(s, id, Complete(o));
    var s1 := Put(t, id, Complete(o));
    if !(o.redirects > cfg.limit || !allowed || o.origin >= |s.hops|) {
      var s2 := s1.(hops := s1.hops[o.origin := s1.hops[o.origin] + 1]);
      assert Inv(s2) by { HopsOk(s1, s2.hops); }
      RetrieveOk(s2, cfg, url, env, o.redirects + 1, o.origin);
      var (s3, dest) := Retrieve(s2, cfg, url, env, o.redirects + 1, o.origin);
      if dest.Some? { MoveOk(s3, id, dest.value); }
      ReleasedLost(s, id, s2, s3);
    }
  }

  lemma HopsOk(s: Cache, hops: seq<nat>)
    requires Inv(s)
    ensures Inv(s.(hops := hops))
  {
    var s' := s.(hops := hops);
    forall x | x in s'.objects ensures ObjOk(s', x) {
      assert ObjOk(s, x);
    }
  }

  /** Releasing a candidate and completing the object does not change where data is. */
  lemma ReleasedLost(s: Cache, id: Id, s2: Cache, s3: Cache)
    requires Inv(s) && id in s.objects
    requires s2.objects == Put(Unpoint(s, id), id, Complete(Unpoint(s, id).objects[id])).objects && Lost(s2, s3)
    ensures Lost(s, s3)
  {
    hide Inv;
    UnpointOk(s, id);
  }

  lemma ReceiveOk(s: Cache, cfg: Config, id: Id, m: Message)
    requires Inv(s) && id in s.objects && s.objects[id].fetching
    ensures Kept(s, Receive(s, cfg, id, m))
  {
    hide Inv, Unpoint, Redirected, StillFresh, GotData, Put, Kept, Unused, Pointers;
    Facts(s, id);
    UnpointOk(s, id);
    var o, t := s.objects[id], Unpoint(s, id).objects[id];
    match m
    case Header => PlainPut(s, id, o.(state := HEADERS));
    case Data(n, uncacheable) => DataOk(s, id, n, uncacheable);
    case Finished => PlainPut(s, id, o.(state := COMPLETE, fetching := false, data := o.data && o.len > 0));
    case Redirect(allowed, url, env) => RedirectedOk(s, cfg, id, allowed, url, env);
    case NotModified => StillFreshOk(s, id);
    case TimedOut(starts, now) =>
      if o.retries > 1 {
        PlainPut(s, id, Retry(o, starts, now));
      } else {
        ReleasedOk(s, id, Complete(t));
      }
    case Auth(known, starts, now) => ReleasedOk(s, id, AuthNeeded(t, known, starts, now));
    case SslError(starts, now) => ReleasedOk(s, id, SslFailed(t, starts, now));
    case Failed => ReleasedOk(s, id, Complete(t));
  }

  lemma PlainPut(s: Cache, id: Id, o: Obj)
    requires Inv(s) && id in s.objects && !s.objects[id].disc
    requires o.count == s.objects[id].count && o.candidate == s.objects[id].candidate && !o.disc
            && (o.len > 0 ==> o.data)
    ensures Kept(s, Put(s, id, o))
  {
    hide Inv;
    PlainOk(s, id, o);
  }

  // ---------------------------------------------------------------- cleaning

  /** A later state of a cleaning: objects may be gone, and those left keep what counts. */
  ghost predicate Cleaned(s: Cache, s': Cache) {
    && s'.users == s.users
    && (forall id :: id in s.objects && id !in s'.objects ==> Idle(s, id))
    && forall id :: id in s'.objects ==>
        && id in s.objects && s'.objects[id].count == s.objects[id].count
        && s'.objects[id].fetching == s.objects[id].fetching && s'.objects[id].len == s.objects[id].len
        && (s.objects[id].disc ==> s'.objects[id].disc)
  }

  lemma CleanedSpared(s: Cache, s': Cache)
    requires Inv(s) && Cleaned(s, s')
    ensures Spared(s, s')
  {
    forall id | id in s.objects && id !in s'.objects ensures Pointers(s.objects, id) == {} {
      assert ObjOk(s, id);
    }
  }

  lemma CleanedOn(s: Cache, t: Cache, t': Cache)
    requires Cleaned(s, t) && Cleaned(t, t')
    ensures Cleaned(s, t')
  {
  }

  lemma DestroyCleans(s: Cache, dead: set<Id>)
    requires Inv(s) && forall id :: id in dead ==> Idle(s, id)
    ensures Inv(Destroy(s, dead)) && Cleaned(s, Destroy(s, dead))
  {
    hide Inv;
    DestroyOk(s, dead);
  }

  lemma SamePointers(a: map<Id, Obj>, b: map<Id, Obj>, x: Id)
    requires a.Keys == b.Keys && forall id :: id in a ==> b[id].candidate == a[id].candidate
    ensures Pointers(a, x) == Pointers(b, x)
  {
  }

  /** Fields of objects changed, other than candidates, counts and what else cleaning keeps. */
  lemma ChangedOk(s: Cache, objects: map<Id, Obj>)
    requires Inv(s) && objects.Keys == s.objects.Keys
    requires forall id :: id in objects ==>
               && objects[id].candidate == s.objects[id].candidate && objects[id].count == s.objects[id].count
               && objects[id].fetching == s.objects[id].fetching && objects[id].len == s.objects[id].len
               && (s.objects[id].disc ==> objects[id].disc) && Settled(objects[id], NoUsers(s, id))
    ensures Inv(s.(objects := objects)) && Cleaned(s, s.(objects := objects))
  {
    hide Pointers, Unused;
    var s' := s.(objects := objects);
    forall x | x in objects ensures ObjOk(s', x) {
      assert ObjOk(s, x);
      SamePointers(s.objects, objects, x);
    }
  }

  /** What is written to the store has its data in memory, or no users. */
  ghost predicate Bodied(s: Cache, written: Id -> bool) {
    forall id :: Persists(s, written, id) ==> s.objects[id].data || NoUsers(s, id)
  }

  /** So it is whenever only objects with a body are written. */
  lemma BodiedIfNonEmpty(s: Cache, written: Id -> bool)
    requires Inv(s) && forall id :: Persists(s, written, id) ==> s.objects[id].len > 0
    ensures Bodied(s, written)
  {
    forall id | Persists(s, written, id) ensures s.objects[id].data {
      assert ObjOk(s, id);
    }
  }

  lemma PersistOk(s: Cache, written: Id -> bool)
    requires Inv(s) && Bodied(s, written)
    ensures Inv(Persist(s, written)) && Cleaned(s, Persist(s, written))
  {
    hide Unused, Pointers;
    forall id | id in s.objects ensures Settled(Persist(s, written).objects[id], NoUsers(s, id)) {
      assert ObjOk(s, id);
    }
    ChangedOk(s, Persist(s, written).objects);
  }

  /** Writing to the store keeps the invariant exactly then. */
  lemma PersistExact(s: Cache, written: Id -> bool)
    requires Inv(s)
    ensures Inv(Persist(s, written)) <==> Bodied(s, written)
  {
    if Bodied(s, written) { PersistOk(s, written); }
    var s' := Persist(s, written);
    if Inv(s') {
      forall id | Persists(s, written, id) ensures s.objects[id].data || NoUsers(s, id) {
        assert ObjOk(s', id);
      }
    }
  }

  lemma DestroyBodied(s: Cache, dead: set<Id>, written: Id -> bool)
    requires Bodied(s, written)
    ensures Bodied(Destroy(s, dead), written)
  {
    WithoutIs(s.cached, dead);
    var s' := Destroy(s, dead);
    forall id | Persists(s', written, id) ensures s'.objects[id].data || NoUsers(s', id) {
      assert Persists(s, written, id);
    }
  }

  lemma DropOk(s: Cache, n: nat)
    requires Inv(s)
    ensures Inv(DropData(s, n)) && Cleaned(s, DropData(s, n))
  {
    forall id | id in s.objects ensures Settled(DropData(s, n).objects[id], NoUsers(s, id)) {
      assert ObjOk(s, id);
    }
    ChangedOk(s, DropData(s, n).objects);
  }

  /** llcache_clean destroys only idle objects. */
  lemma CleanOk(s: Cache, c: Cleaning)
    requires Inv(s) && (c.full ==> Bodied(s, c.written))
    ensures Inv(Clean(s, c)) && Cleaned(s, Clean(s, c))
  {
    hide Inv, Destroy, Persist, DropData, Bodied;
    var s1 := Destroy(s, Uncacheable(s));
    DestroyCleans(s, Uncacheable(s));
    var s2 := Destroy(s1, Stale(s1, c.stale));
    DestroyCleans(s1, Stale(s1, c.stale));
    CleanedOn(s, s1, s2);
    var s3 := if c.full then Persist(s2, c.written) else s2;
    if c.full {
      DestroyBodied(s, Uncacheable(s), c.written);
      DestroyBodied(s1, Stale(s1, c.stale), c.written);
      PersistOk(s2, c.written);
      CleanedOn(s, s2, s3);
    }
    var s4 := DropData(s3, c.third);
    DropOk(s3, c.third);
    CleanedOn(s, s3, s4);
    var s5 := Destroy(s4, Backed(s4, c.fourth));
    DestroyCleans(s4, Backed(s4, c.fourth));
    CleanedOn(s, s4, s5);
    DestroyCleans(s5, Unbacked(s5, c.fifth));
    CleanedOn(s, s5, Clean(s, c));
  }

  // ---------------------------------------------------------------- whole runs

  /** Objects with users are written to the store only if their data is in memory. */
  ghost predicate Fair(s: Cache, op: Op) {
    && (op.Write? ==> Bodied(s, op.written))
    && (op.Tidy? && op.c.full ==> Bodied(s, op.c.written))
  }

  lemma QuitOk(s: Cache, u: UserId)
    requires Inv(s) && u in s.users && s.users[u] in s.objects
    ensures var s' := Aborted(s, u); Inv(s') && s.objects.Keys <= s'.objects.Keys && s'.users.Keys == s.users.Keys
  {
    hide Inv, Pointers;
    var id := s.users[u];
    var o := s.objects[id];
    Facts(s, id);
    PutOk(s, id, Complete(o));
    AddOk(s, Snapshot(o), false);
    var t := Add(s, Snapshot(o), false);
    assert Usable(t, s.next);
    UsersOk(t, s.users[u := s.next]);
  }

  lemma StreamOk(s: Cache, u: UserId)
    requires Inv(s) && u in s.users
    ensures var s' := Streamed(s, u); Inv(s') && s'.objects == s.objects && s'.users == s.users
  {
    var s' := Streamed(s, u);
    var id := s.users[u];
    WithoutIs(s.cached, {id});
    forall x | x in s'.objects ensures ObjOk(s', x) {
      assert ObjOk(s, x);
    }
  }

  lemma OpenOk(s: Cache, cfg: Config, u: UserId, url: string, env: Env)
    requires Inv(s)
    ensures var s' := Step(s, cfg, Open(u, url, env)); Inv(s') && Lost(s, s') && s.users.Keys <= s'.users.Keys
  {
    hide Inv, Retrieve;
    if u !in s.users {
      var t := s.(hops := s.hops + [0]);
      HopsOk(s, t.hops);
      RetrieveOk(t, cfg, url, env, 0, |s.hops|);
      var (s1, r) := Retrieve(t, cfg, url, env, 0, |s.hops|);
      if r.Some? { UsersOk(s1, s1.users[u := r.value]); }
    }
  }

  /** Every step keeps the invariant, destroys no object that is in use, and takes away no
      handle but the one that is closed. */
  lemma StepOk(s: Cache, cfg: Config, op: Op)
    requires Inv(s) && Fair(s, op)
    ensures var s' := Step(s, cfg, op);
            && Inv(s') && Spared(s, s')
            && forall u :: u in s.users ==> u in s'.users || op == Close(u)
  {
    hide Inv, Receive, Persist, Clean, Aborted, Streamed, Pointers;
    var s' := Step(s, cfg, op);
    match op
    case Open(u, url, env) => OpenOk(s, cfg, u, url, env); LostSpared(s, s');
    case Close(u) => UsersOk(s, s.users - {u});
    case Clone(u, v) =>
      if u in s.users && v !in s.users {
        assert Usable(s, s.users[u]) by { HandleUsable(s, u); }
        UsersOk(s, s.users[v := s.users[u]]);
      }
    case Quit(u) => if u in s.users && s.users[u] in s.objects { QuitOk(s, u); }
    case Stream(u) => if u in s.users { StreamOk(s, u); }
    case Drained(id) => if id in s.objects { Facts(s, id); PutOk(s, id, s.objects[id].(len := 0)); }
    case Got(id, m) => if id in s.objects && s.objects[id].fetching { ReceiveOk(s, cfg, id, m); LostSpared(s, s'); }
    case Broken(id) =>
      if id in s.objects && s.objects[id].fetching { Facts(s, id); PutOk(s, id, Complete(s.objects[id])); }
    case Write(written) => PersistOk(s, written); CleanedSpared(s, s');
    case Tidy(c) => CleanOk(s, c); CleanedSpared(s, s');
  }

  /** A handle's object has its data at hand. */
  lemma HandleUsable(s: Cache, u: UserId)
    requires Inv(s) && u in s.users
    ensures Usable(s, s.users[u])
  {
    assert ObjOk(s, s.users[u]);
  }

  ghost predicate FairRun(cfg: Config, ops: seq<Op>) {
    forall i :: 0 <= i < |ops| ==> Fair(Run(cfg, ops[..i]), ops[i])
  }

  lemma FairPrefix(cfg: Config, ops: seq<Op>, n: nat)
    requires FairRun(cfg, ops) && n <= |ops|
    ensures FairRun(cfg, ops[..n])
  {
    hide Fair, Run;
    forall i | 0 <= i < n ensures Fair(Run(cfg, ops[..n][..i]), ops[..n][i]) {
      assert ops[..n][..i] == ops[..i];
      assert Fair(Run(cfg, ops[..i]), ops[i]);
    }
  }

  /** Main result: in every reachable state every handle points to a live object, every
      candidate is live and counted, and an object whose data is on disc only is unused. */
  lemma {:induction false} RunOk(cfg: Config, ops: seq<Op>)
    requires FairRun(cfg, ops)
    ensures Inv(Run(cfg, ops))
  {
    hide Step, Fair, Inv, FairRun;
    if ops == [] {
      EmptyOk();
    } else {
      var n := |ops| - 1;
      FairPrefix(cfg, ops, n);
      RunOk(cfg, ops[..n]);
      assert Fair(Run(cfg, ops[..n]), ops[n]) by { FairLast(cfg, ops); }
      StepOk(Run(cfg, ops[..n]), cfg, ops[n]);
    }
  }

  lemma FairLast(cfg: Config, ops: seq<Op>)
    requires FairRun(cfg, ops) && ops != []
    ensures Fair(Run(cfg, ops[..|ops| - 1]), ops[|ops| - 1])
  {
    hide Fair, Run;
  }

  /** And no step of any run destroyed an object in use, or took away a handle that was not
      closed, or left one whose data is not at hand. */
  lemma RunSpares(cfg: Config, ops: seq<Op>)
    requires FairRun(cfg, ops) && ops != []
    ensures var s, s' := Run(cfg, ops[..|ops| - 1]), Run(cfg, ops);
            && Spared(s, s')
            && (forall u :: u in s.users ==> u in s'.users || ops[|ops| - 1] == Close(u))
            && (forall u :: u in s'.users ==> Usable(s', s'.users[u]))
  {
    hide Step, Fair, Spared, Inv, Usable, FairRun;
    var n := |ops| - 1;
    FairPrefix(cfg, ops, n);
    RunOk(cfg, ops[..n]);
    RunOk(cfg, ops);
    FairLast(cfg, ops);
    StepOk(Run(cfg, ops[..n]), cfg, ops[n]);
    forall u | u in Run(cfg, ops).users ensures Usable(Run(cfg, ops), Run(cfg, ops).users[u]) {
      HandleUsable(Run(cfg, ops), u);
    }
  }

  lemma EmptyOk()
    ensures Inv(Empty)
  {
  }
}

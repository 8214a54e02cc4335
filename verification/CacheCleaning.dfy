/** What a cleaning of the cache takes away and what it leaves (llcache_clean). */
module CacheCleaning {
  import opened Options
  import opened CacheState

  /** Idle, and uncacheable or past its freshness. */
  predicate Junk(s: Cache, c: Cleaning, id: Id) {
    Idle(s, id) && (id in s.uncached || (id in s.cached && c.stale(id)))
  }

  /** On disc, or written there by this cleaning. */
  predicate OnDisc(s: Cache, c: Cleaning, id: Id)
    requires id in s.objects
  {
    var o := s.objects[id];
    o.disc || (c.full && id in s.cached && c.written(id) && o.count == 0 && !o.fetching)
  }

  lemma {:induction false} InWithout(list: seq<Id>, dead: set<Id>, id: Id)
    ensures id in Without(list, dead) <==> id in list && id !in dead
  {
    if list != [] { InWithout(list[1..], dead, id); }
  }

  lemma {:induction false} WithoutShorter(list: seq<Id>, dead: set<Id>)
    ensures |Without(list, dead)| <= |list|
  {
    if list != [] { WithoutShorter(list[1..], dead); }
  }

  /** As far as one object goes, nothing has happened but a change of its record. */
  predicate Kept(s: Cache, s': Cache, id: Id) {
    && id in s.objects && id in s'.objects
    && (id in s'.cached <==> id in s.cached) && (id in s'.uncached <==> id in s.uncached) && s'.users == s.users
    && s'.objects[id] == s.objects[id].(disc := s'.objects[id].disc, data := s'.objects[id].data)
    && |s'.cached| <= |s.cached|
  }

  lemma KeptIdle(s: Cache, s': Cache, id: Id)
    requires Kept(s, s', id)
    ensures Idle(s', id) <==> Idle(s, id)
  {
  }

  lemma KeptOn(a: Cache, b: Cache, c: Cache, id: Id)
    requires Kept(a, b, id) && Kept(b, c, id)
    ensures Kept(a, c, id)
  {
  }

  /** A pass that destroys the objects of a set. */
  lemma DestroyOne(s: Cache, dead: set<Id>, id: Id)
    requires id in s.objects
    ensures var s' := Destroy(s, dead);
            if id in dead then id !in s'.objects else Kept(s, s', id) && s'.objects[id] == s.objects[id]
  {
    InWithout(s.cached, dead, id);
    InWithout(s.uncached, dead, id);
    WithoutShorter(s.cached, dead);
  }

  /** The first two passes take what is junk. */
  lemma JunkGoes(s: Cache, c: Cleaning, id: Id)
    requires id in s.objects
    ensures var s1 := Destroy(s, Uncacheable(s)); var s2 := Destroy(s1, Stale(s1, c.stale));
            if Junk(s, c, id) then id !in s2.objects else Kept(s, s2, id) && s2.objects[id] == s.objects[id]
  {
    hide Idle, Destroy, Without, Kept;
    var s1 := Destroy(s, Uncacheable(s));
    DestroyOne(s, Uncacheable(s), id);
    if id !in Uncacheable(s) {
      KeptIdle(s, s1, id);
      KeptFacts(s, s1, id);
      DestroyOne(s1, Stale(s1, c.stale), id);
      if id !in Stale(s1, c.stale) { KeptOn(s, s1, Destroy(s1, Stale(s1, c.stale)), id); }
    } else {
      DestroyGone(s1, Stale(s1, c.stale), id);
    }
  }

  lemma KeptFacts(s: Cache, s': Cache, id: Id)
    requires Kept(s, s', id)
    ensures id in s.objects && id in s'.objects && (id in s'.cached <==> id in s.cached) && |s'.cached| <= |s.cached|
    ensures s'.objects[id].count == s.objects[id].count && s'.objects[id].fetching == s.objects[id].fetching
  {
  }

  lemma DestroyGone(s: Cache, dead: set<Id>, id: Id)
    requires id !in s.objects
    ensures id !in Destroy(s, dead).objects
  {
  }

  /** Writing to the store and freeing of data change one object's record. */
  lemma DataGoes(s: Cache, c: Cleaning, id: Id)
    requires id in s.objects
    ensures var s3 := if c.full then Persist(s, c.written) else s; var s4 := DropData(s3, c.third);
            && Kept(s, s4, id) && s4.objects[id].disc == OnDisc(s, c, id)
            && s4.objects[id].data ==
               (s.objects[id].data && !(id in Upto(s.cached, c.third) && Idle(s, id) && OnDisc(s, c, id)))
  {
    var s3 := if c.full then Persist(s, c.written) else s;
    assert s3.cached == s.cached && s3.users == s.users;
    assert s3.objects[id] == s.objects[id].(disc := OnDisc(s, c, id));
    assert Idle(s3, id) <==> Idle(s, id);
  }

  /** The last two passes take idle objects: those on disc whose data is not in memory, and those
      not on disc. */
  lemma IdleGoes(s: Cache, fourth: nat, fifth: nat, id: Id)
    requires id in s.objects
    ensures var s5 := Destroy(s, CacheState.Backed(s, fourth)); var s6 := Destroy(s5, Unbacked(s5, fifth));
            && (!Idle(s, id) || (fourth == 0 && fifth == 0) ==> id in s6.objects)
            && (id in s6.objects ==> s6.objects[id] == s.objects[id])
            && (fourth >= |s.cached| && fifth >= |s.cached| && id in s.cached && id in s6.objects ==>
                  !Idle(s, id) || (s.objects[id].disc && s.objects[id].data))
  {
    hide Idle, Destroy, Without, Kept;
    var s5 := Destroy(s, CacheState.Backed(s, fourth));
    DestroyOne(s, CacheState.Backed(s, fourth), id);
    if id !in CacheState.Backed(s, fourth) {
      KeptIdle(s, s5, id);
      KeptFacts(s, s5, id);
      DestroyOne(s5, Unbacked(s5, fifth), id);
    } else {
      DestroyGone(s5, Unbacked(s5, fifth), id);
    }
  }

  /** Main result on cleaning, for each object: junk goes, and idle objects go if the passes get
      all the way down the list; an object in use stays, with nothing changed but that it may now
      be on disc; an idle one that stays may lose its data from memory only if it is on disc; and
      passes that get nowhere take only junk. */
  lemma CleanExact(s: Cache, c: Cleaning, id: Id)
    requires id in s.objects
    ensures var s', o := Clean(s, c), s.objects[id];
            && (Junk(s, c, id) ==> id !in s'.objects)
            && (c.third >= |s.cached| && c.fourth >= |s.cached| && c.fifth >= |s.cached| ==>
                  id in s'.objects && id in s.cached ==> !Idle(s, id))
            && (!Idle(s, id) ==> id in s'.objects && s'.objects[id] == o.(disc := OnDisc(s, c, id)))
            && (id in s'.objects ==>
                  && s'.objects[id] == o.(disc := OnDisc(s, c, id), data := s'.objects[id].data)
                  && (s'.objects[id].data != o.data ==> o.data && OnDisc(s, c, id)))
            && (c.third == 0 && c.fourth == 0 && c.fifth == 0 ==>
                  if Junk(s, c, id) then id !in s'.objects
                  else id in s'.objects && s'.objects[id] == o.(disc := OnDisc(s, c, id)))
  {
    hide Idle, Destroy, Without, Persist, DropData, Kept, OnDisc;
    var s1 := Destroy(s, Uncacheable(s));
    var s2 := Destroy(s1, Stale(s1, c.stale));
    JunkGoes(s, c, id);
    var s3 := if c.full then Persist(s2, c.written) else s2;
    var s4 := DropData(s3, c.third);
    var s5 := Destroy(s4, CacheState.Backed(s4, c.fourth));
    if Junk(s, c, id) {
      StaysAway(s2, c, id);
    } else {
      KeptIdle(s, s2, id);
      KeptFacts(s, s2, id);
      SameDisc(s, s2, c, id);
      DataGoes(s2, c, id);
      KeptIdle(s2, s4, id);
      KeptFacts(s2, s4, id);
      KeptRecord(s2, s4, id);
      IdleGoes(s4, c.fourth, c.fifth, id);
    }
  }

  lemma KeptRecord(s: Cache, s': Cache, id: Id)
    requires Kept(s, s', id)
    ensures s'.objects[id] == s.objects[id].(disc := s'.objects[id].disc, data := s'.objects[id].data)
  {
  }

  lemma SameDisc(s: Cache, s': Cache, c: Cleaning, id: Id)
    requires Kept(s, s', id) && s'.objects[id] == s.objects[id]
    ensures OnDisc(s', c, id) == OnDisc(s, c, id)
  {
  }

  lemma StaysAway(s: Cache, c: Cleaning, id: Id)
    requires id !in s.objects
    ensures var s3 := if c.full then Persist(s, c.written) else s;
            var s4 := DropData(s3, c.third);
            var s5 := Destroy(s4, CacheState.Backed(s4, c.fourth));
            id !in Destroy(s5, Unbacked(s5, c.fifth)).objects
  {
    hide Without, Idle, Persists;
  }

  /** Cleaning takes no handle away and makes nothing new. */
  lemma CleanBeside(s: Cache, c: Cleaning)
    ensures var s' := Clean(s, c);
            && s'.users == s.users && s'.next == s.next && s'.hops == s.hops && s'.objects.Keys <= s.objects.Keys
  {
    hide Without, Idle, Persists;
  }
}

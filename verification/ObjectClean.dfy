/** llcache_clean on the linked lists (content/llcache.c): its passes leave exactly the objects,
    with the records, that the cleaning of CacheState leaves. */
module ObjectClean {
  import opened Options
  import opened CacheState
  import opened ObjectLists
  import opened ObjectCache
  import L = CacheLifetime

  lemma {:induction false} WithoutDifferent(ids: seq<Id>, dead: set<Id>)
    requires Different(ids)
    ensures Different(Without(ids, dead))
  {
    if ids != [] {
      WithoutDifferent(ids[1..], dead);
      L.WithoutIs(ids[1..], dead);
      assert ids[0] !in ids[1..];
    }
  }

  /** Lists that lost the nodes of destroyed objects hold the state without them. */
  lemma DestroyReflects(s: Cache, dead: set<Id>, cs: Nodes, us: Nodes, cs': Nodes, us': Nodes)
    requires Reflects(s, cs, us) && Ids(cs') == Without(Ids(cs), dead) && Ids(us') == Without(Ids(us), dead)
    requires (forall i :: 0 <= i < |cs'| ==> cs'[i] in cs) && (forall i :: 0 <= i < |us'| ==> us'[i] in us)
    ensures Reflects(Destroy(s, dead), cs', us')
  {
    hide Different, Unused;
    var s' := Destroy(s, dead);
    L.WithoutIs(s.cached, dead);
    L.WithoutIs(s.uncached, dead);
    WithoutSplit(s.cached, s.uncached, dead);
    WithoutDifferent(s.cached + s.uncached, dead);
    Left(s, dead, cs, cs');
    Left(s, dead, us, us');
  }

  lemma Left(s: Cache, dead: set<Id>, list: Nodes, list': Nodes)
    requires AllShow(s, list) && Ids(list') == Without(Ids(list), dead)
    requires forall i :: 0 <= i < |list'| ==> list'[i] in list
    ensures AllShow(Destroy(s, dead), list')
  {
    hide Unused, Without;
    L.WithoutIs(Ids(list), dead);
    forall i | 0 <= i < |list'| ensures Shows(Destroy(s, dead), list'[i].item) {
      var j :| 0 <= j < |list| && list[j] == list'[i];
      assert Shows(s, list[j].item);
      assert Ids(list')[i] in Ids(list');
    }
  }

  lemma PickedElsewhere(s: Cache, cs: Nodes, us: Nodes, dead: set<Id>)
    requires Different(Ids(cs) + Ids(us))
    ensures (forall id :: id in dead ==> id in Ids(us)) ==> Without(Ids(cs), dead) == Ids(cs)
    ensures (forall id :: id in dead ==> id in Ids(cs)) ==> Without(Ids(us), dead) == Ids(us)
  {
    var a, b := Ids(cs), Ids(us);
    assert forall i, j :: 0 <= i < |a| && 0 <= j < |b| ==> a[i] != b[j] by {
      forall i, j | 0 <= i < |a| && 0 <= j < |b| ensures a[i] != b[j] {
        assert (a + b)[i] == a[i] && (a + b)[|a| + j] == b[j];
      }
    }
    if forall id :: id in dead ==> id in b { WithoutOther(a, dead); }
    if forall id :: id in dead ==> id in a { WithoutOther(b, dead); }
  }

  /** The two lists of objects, linked, hold the state. */
  ghost predicate Holds(cached: ListNode?<Entry>, uncached: ListNode?<Entry>, s: Cache, cs: Nodes, us: Nodes)
    reads cs, us, Items(cs), Items(us)
  {
    Chain(cached, cs) && Chain(uncached, us) && (forall n :: n in cs ==> n !in us) && Reflects(s, cs, us)
  }

  /** A pass over the uncached list. */
  method DiscardUncached(cached: ListNode?<Entry>, uncached: ListNode?<Entry>, which: (Id, Obj) -> bool,
                         ghost s: Cache, ghost cs: Nodes, ghost us: Nodes)
      returns (uncached': ListNode?<Entry>, ghost us': Nodes)
    requires Holds(cached, uncached, s, cs, us)
    modifies us`next, us`prev
    ensures Holds(cached, uncached', Destroy(s, Picked(s, s.uncached, which)), cs, us')
    ensures forall i :: 0 <= i < |us'| ==> us'[i] in us
  {
    hide Chain, Unused, Different, Without, Destroy, Picked, Shows, Ids;
    assert Different(Ids(us)) by { DifferentParts(s.cached, s.uncached); }
    uncached', us' := Discard(uncached, None, which, s, us);
    assert forall n :: n in cs ==> n !in us && n.next == old(n.next) && n.prev == old(n.prev);
    DiscardedReflects(s, s.uncached, which, cs, us, cs, us');
  }

  /** A list without the objects picked from it, and the other list, hold the state without them. */
  lemma DiscardedReflects(s: Cache, ids: seq<Id>, which: (Id, Obj) -> bool, cs: Nodes, us: Nodes,
      cs': Nodes, us': Nodes)
    requires Reflects(s, cs, us)
    requires (forall i :: 0 <= i < |cs'| ==> cs'[i] in cs) && (forall i :: 0 <= i < |us'| ==> us'[i] in us)
    requires var dead := Picked(s, ids, which);
             || (cs' == cs && Ids(us') == Without(Ids(us), dead) && forall id :: id in ids ==> id in s.uncached)
             || (us' == us && Ids(cs') == Without(Ids(cs), dead) && forall id :: id in ids ==> id in s.cached)
    ensures Reflects(Destroy(s, Picked(s, ids, which)), cs', us')
  {
    hide AllShow, Unused, Different, Without, Destroy, Picked, Ids;
    var dead := Picked(s, ids, which);
    PickedWithin(s, ids, which);
    PickedElsewhere(s, cs, us, dead);
    DestroyReflects(s, dead, cs, us, cs', us');
  }

  /** A pass over the cached list. */
  method DiscardCached(cached: ListNode?<Entry>, uncached: ListNode?<Entry>, visits: Option<nat>,
      which: (Id, Obj) -> bool,
                       ghost s: Cache, ghost cs: Nodes, ghost us: Nodes)
      returns (cached': ListNode?<Entry>, ghost cs': Nodes)
    requires Holds(cached, uncached, s, cs, us)
    modifies cs`next, cs`prev
    ensures Holds(cached', uncached, Destroy(s, Picked(s, Reached(s.cached, visits), which)), cs', us)
    ensures forall i :: 0 <= i < |cs'| ==> cs'[i] in cs
  {
    hide Chain, Unused, Different, Without, Destroy, Picked, Shows, Reached, Ids;
    assert Different(Ids(cs)) by { DifferentParts(s.cached, s.uncached); }
    cached', cs' := Discard(cached, visits, which, s, cs);
    assert forall n :: n in us ==> n !in cs && n.next == old(n.next) && n.prev == old(n.prev);
    ReachedWithin(s.cached, visits);
    DiscardedReflects(s, Reached(s.cached, visits), which, cs, us, cs', us);
  }

  lemma ItemsApart(cs: Nodes, us: Nodes)
    requires Different(Ids(cs) + Ids(us))
    ensures forall e :: e in Items(cs) ==> e !in Items(us)
  {
    var a, b := Ids(cs), Ids(us);
    forall i, j | 0 <= i < |cs| && 0 <= j < |us| ensures cs[i].item != us[j].item {
      assert (a + b)[i] == a[i] && (a + b)[|a| + j] == b[j];
    }
  }

  /** An entry that is not of the cached list shows the state as it did. */
  lemma OthersShow(s: Cache, s': Cache, f: (Id, Obj, bool) -> Obj, visits: Option<nat>, cs: Nodes, us: Nodes)
    requires Rewritten(s, s', f, visits) && s.cached == Ids(cs) && s.uncached == Ids(us)
    requires Different(s.cached + s.uncached) && AllShow(s, us)
    ensures AllShow(s', us)
  {
    hide Unused, Reached;
    ReachedWithin(s.cached, visits);
    forall j | 0 <= j < |us| ensures Shows(s', us[j].item) {
      assert Shows(s, us[j].item);
      OnOneList(s, us, j);
    }
  }

  lemma OnOneList(s: Cache, us: Nodes, j: nat)
    requires s.uncached == Ids(us) && Different(s.cached + s.uncached) && j < |us|
    ensures us[j].item.id !in s.cached
  {
    var all := s.cached + s.uncached;
    forall i | 0 <= i < |s.cached| ensures s.cached[i] != us[j].item.id {
      assert all[i] == s.cached[i] && all[|s.cached| + j] == us[j].item.id;
    }
  }

  /** A pass over the cached list that changes records. */
  method RewriteCached(cached: ListNode?<Entry>, uncached: ListNode?<Entry>, visits: Option<nat>,
      f: (Id, Obj, bool) -> Obj,
                       ghost s: Cache, ghost s': Cache, ghost cs: Nodes, ghost us: Nodes)
    requires Holds(cached, uncached, s, cs, us) && Rewritten(s, s', f, visits)
    modifies Items(cs)`obj
    ensures Holds(cached, uncached, s', cs, us)
  {
    hide Chain, Unused, Different, Items, Rewritten;
    DifferentParts(s.cached, s.uncached);
    ItemsApart(cs, us);
    ghost var was := Records(cs);
    assert forall i :: 0 <= i < |cs| ==> Shows(s, cs[i].item);
    Rewrite(cached, visits, f, cs, Items(cs));
    RewrittenShows(s, s', f, visits, cs, was);
    OthersShow(s, s', f, visits, cs, us);
    RewrittenLists(s, s', f, visits);
  }

  lemma RewrittenLists(s: Cache, s': Cache, f: (Id, Obj, bool) -> Obj, visits: Option<nat>)
    requires Rewritten(s, s', f, visits)
    ensures s'.cached == s.cached && s'.uncached == s.uncached && s'.objects.Keys == s.objects.Keys
  {
  }

  lemma PickedWithin(s: Cache, ids: seq<Id>, which: (Id, Obj) -> bool)
    ensures forall id :: id in Picked(s, ids, which) ==> id in ids
  {
  }

  lemma ReachedWithin(ids: seq<Id>, visits: Option<nat>)
    ensures forall id :: id in Reached(ids, visits) ==> id in ids
  {
  }

  lemma DifferentParts(a: seq<Id>, b: seq<Id>)
    requires Different(a + b)
    ensures Different(a) && Different(b)
  {
    assert forall i :: 0 <= i < |a| ==> a[i] == (a + b)[i];
    assert forall i :: 0 <= i < |b| ==> b[i] == (a + b)[|a| + i];
  }

  // ---------------------------------------------------------------- the cleaning

  /** The record of an object after llcache_persist, and after its data was freed. */
  function Kept(written: Id -> bool, id: Id, o: Obj, unused: bool): Obj {
    if written(id) && o.count == 0 && !o.fetching && !o.disc then o.(disc := true) else o
  }

  function Freed(id: Id, o: Obj, unused: bool): Obj {
    if unused && o.count == 0 && !o.fetching && o.disc then o.(data := false) else o
  }

  lemma PersistRewrites(s: Cache, written: Id -> bool, f: (Id, Obj, bool) -> Obj)
    requires forall id, o, unused :: f(id, o, unused) == Kept(written, id, o, unused)
    ensures Rewritten(s, Persist(s, written), f, None)
  {
    hide Unused;
  }

  lemma DropRewrites(s: Cache, n: nat)
    ensures Rewritten(s, DropData(s, n), Freed, Some(n))
  {
    hide Unused;
  }

  lemma PickedAny(s: Cache, any: (Id, Obj) -> bool)
    requires forall id, o :: any(id, o)
    ensures Picked(s, s.uncached, any) == Uncacheable(s)
  {
    hide Unused;
  }

  lemma PickedStale(s: Cache, stale: Id -> bool, which: (Id, Obj) -> bool)
    requires forall id, o :: which(id, o) == stale(id)
    ensures Picked(s, Reached(s.cached, None), which) == Stale(s, stale)
  {
    hide Unused;
  }

  lemma PickedBacked(s: Cache, n: nat, which: (Id, Obj) -> bool)
    requires forall id, o :: which(id, o) == (o.disc && !o.data)
    ensures Picked(s, Reached(s.cached, Some(n)), which) == Backed(s, n)
  {
    hide Unused;
  }

  lemma PickedUnbacked(s: Cache, n: nat, which: (Id, Obj) -> bool)
    requires forall id, o :: which(id, o) == !o.disc
    ensures Picked(s, Reached(s.cached, Some(n)), which) == Unbacked(s, n)
  {
    hide Unused;
  }

  /** Nodes of a list that are nodes of another. */
  lemma Within(cs': Nodes, cs: Nodes)
    requires forall i :: 0 <= i < |cs'| ==> cs'[i] in cs
    ensures Items(cs') <= Items(cs) && forall n :: n in cs' ==> n in cs
  {
    forall i | 0 <= i < |cs'| ensures cs'[i].item in Items(cs) {
      var j :| 0 <= j < |cs| && cs[j] == cs'[i];
    }
  }

  /** llcache_clean. */
  method CleanLists(cached: ListNode?<Entry>, uncached: ListNode?<Entry>, c: Cleaning,
                    ghost s: Cache, ghost cs: Nodes, ghost us: Nodes)
      returns (cached': ListNode?<Entry>, uncached': ListNode?<Entry>, ghost cs': Nodes, ghost us': Nodes)
    requires Holds(cached, uncached, s, cs, us)
    modifies cs`next, cs`prev, us`next, us`prev, Items(cs)`obj
    ensures Holds(cached', uncached', Clean(s, c), cs', us')
  {
    hide Holds, Destroy, Persist, DropData, Picked, Uncacheable, Stale, Backed, Unbacked, Reached, Rewritten, Items;
    var any := (id: Id, o: Obj) => true;
    var stale := (id: Id, o: Obj) => c.stale(id);
    var backed := (id: Id, o: Obj) => o.disc && !o.data;
    var unbacked := (id: Id, o: Obj) => !o.disc;
    uncached', us' := DiscardUncached(cached, uncached, any, s, cs, us);
    ghost var s1 := Destroy(s, Picked(s, s.uncached, any));
    ghost var c1: Nodes;
    cached', c1 := DiscardCached(cached, uncached', None, stale, s1, cs, us');
    ghost var s2 := Destroy(s1, Picked(s1, Reached(s1.cached, None), stale));
    Within(c1, cs);
    ghost var s3 := s2;
    if c.full {
      var f := (id: Id, o: Obj, unused: bool) => Kept(c.written, id, o, unused);
      s3 := Persist(s2, c.written);
      PersistRewrites(s2, c.written, f);
      RewriteCached(cached', uncached', None, f, s2, s3, c1, us');
    }
    ghost var s4 := DropData(s3, c.third);
    DropRewrites(s3, c.third);
    RewriteCached(cached', uncached', Some(c.third), Freed, s3, s4, c1, us');
    ghost var c2: Nodes;
    cached', c2 := DiscardCached(cached', uncached', Some(c.fourth), backed, s4, c1, us');
    ghost var s5 := Destroy(s4, Picked(s4, Reached(s4.cached, Some(c.fourth)), backed));
    Within(c2, c1);
    cached', cs' := DiscardCached(cached', uncached', Some(c.fifth), unbacked, s5, c2, us');
    assert Picked(s, s.uncached, any) == Uncacheable(s) by { PickedAny(s, any); }
    assert Picked(s1, Reached(s1.cached, None), stale) == Stale(s1, c.stale) by { PickedStale(s1, c.stale, stale); }
    assert Picked(s4, Reached(s4.cached, Some(c.fourth)), backed) == Backed(s4, c.fourth)
        by { PickedBacked(s4, c.fourth, backed); }
    assert Picked(s5, Reached(s5.cached, Some(c.fifth)), unbacked) == Unbacked(s5, c.fifth) by {
      PickedUnbacked(s5, c.fifth, unbacked);
    }
  }
}

/** Which object a retrieval yields (llcache_object_retrieve and its search of the cache): a hit
    that is fresh is shared, a stale one validated, a lost one replaced, and only what is not
    there is fetched. */
module CacheRetrieval {
  import opened Options
  import opened FetchStates
  import opened CacheState
  import opened ObjectCache

  /** There is only one newest object. */
  lemma NewestUnique(s: Cache, url: string, r: Option<Id>)
    requires IsNewest(s, url, |s.cached|, r)
    ensures Newest(s, url, |s.cached|) == r
  {
    hide Newest;
    NewestIs(s, url, |s.cached|);
    var n := Newest(s, url, |s.cached|);
    if r.Some? && n.Some? {
      var k :| 0 <= k < |s.cached| && s.cached[k] == r.value && Beats(s, url, |s.cached|, r.value, k);
      var j :| 0 <= j < |s.cached| && s.cached[j] == n.value && Beats(s, url, |s.cached|, n.value, j);
      assert s.objects[s.cached[j]].time == s.objects[s.cached[k]].time;
      assert j == k;
    }
  }

  /** The object's data is in memory, or the store gives it back. */
  predicate AtHand(o: Obj, env: Env) {
    !o.disc || o.data || env.restored
  }

  function WithData(o: Obj): Obj {
    if o.disc then o.(data := true) else o
  }

  /** A request: the settings, the URL, what the surroundings answer, the redirects so far, and
      the client's retrieval that led to it. */
  datatype Request = Request(cfg: Config, url: string, env: Env, redirects: nat, origin: nat)

  function Ask(s: Cache, q: Request): (Cache, Option<Id>) {
    Retrieve(s, q.cfg, q.url, q.env, q.redirects, q.origin)
  }

  /** The newest cached object at the URL asked for, if the cache may be searched. */
  predicate Finds(s: Cache, q: Request, found: Option<Id>) {
    q.env.cacheable && IsNewest(s, q.url, |s.cached|, found)
  }

  /** One object more, at the head of one list, being fetched for the first time; it validates
      `candidate` if there is one, and nothing else has changed. */
  ghost predicate Begun(s: Cache, s': Cache, q: Request, candidate: Option<Id>, cached: bool) {
    && s'.objects.Keys == s.objects.Keys + {s.next} && s'.next == s.next + 1
    && s'.cached == (if cached then [s.next] else []) + s.cached
    && s'.uncached == (if cached then [] else [s.next]) + s.uncached
    && s'.users == s.users && s'.hops == s.hops
    && (forall id :: id in s.objects && id != s.next ==> s'.objects[id] == s.objects[id])
    && var o := s'.objects[s.next];
       && o.url == q.url && o.time == q.env.now && o.state == INIT && o.fetching && o.fetches == 1
       && o.candidate == candidate && o.count == 0 && !o.disc && !o.data && o.len == 0
       && o.redirects == q.redirects && o.origin == q.origin && o.retries == q.cfg.attempts
       && !o.triedAuth && !o.triedTls && o.hsts == q.env.hsts
  }

  /** A fetch is begun and its object handed out, or if it does not start neither. */
  ghost predicate BegunIf(s: Cache, r: (Cache, Option<Id>), q: Request, candidate: Option<Id>, cached: bool) {
    if q.env.starts then r.1 == Some(s.next) && Begun(s, r.0, q, candidate, cached) else r == (s, None)
  }

  // ---------------------------------------------------------------- hits

  /** A fresh hit is handed out itself: no object and no fetch is added, whether or not one
      could have been started, and only its data may have come back. */
  lemma FreshIsShared(s: Cache, q: Request, id: Id)
    requires Finds(s, q, Some(id)) && q.env.isFresh && AtHand(s.objects[id], q.env)
    ensures Ask(s, q) == (s.(objects := s.objects[id := WithData(s.objects[id])]), Some(id))
  {
    NewestUnique(s, q.url, Some(id));
  }

  /** A stale hit is validated: a fetch is begun with the hit as its candidate, which counts one
      more; if none starts the hit's data may have come back, and that is all. */
  lemma StaleIsValidated(s: Cache, q: Request, id: Id)
    requires Finds(s, q, Some(id)) && !q.env.isFresh && AtHand(s.objects[id], q.env) && s.next !in s.objects
    ensures var o := WithData(s.objects[id]);
            var hit := s.(objects := s.objects[id := if q.env.starts then o.(count := o.count + 1) else o]);
            BegunIf(hit, Ask(s, q), q, Some(id), true)
  {
    NewestUnique(s, q.url, Some(id));
  }

  /** A hit whose data is lost goes, and is fetched anew. */
  lemma LostIsReplaced(s: Cache, q: Request, id: Id)
    requires Finds(s, q, Some(id)) && !AtHand(s.objects[id], q.env) && s.next !in s.objects
    ensures id !in Destroy(s, {id}).objects && BegunIf(Destroy(s, {id}), Ask(s, q), q, None, true)
  {
    hide Without;
    NewestUnique(s, q.url, Some(id));
  }

  // ---------------------------------------------------------------- misses

  /** What is neither cached nor stored is fetched into the cache. */
  lemma MissIsFetched(s: Cache, q: Request)
    requires Finds(s, q, None) && q.env.stored.None? && s.next !in s.objects
    ensures BegunIf(s, Ask(s, q), q, None, true)
  {
    NewestUnique(s, q.url, None);
  }

  /** What must not be cached is fetched beside the cache, whatever is there. */
  lemma UncacheableIsFetched(s: Cache, q: Request)
    requires !q.env.cacheable && s.next !in s.objects
    ensures BegunIf(s, Ask(s, q), q, None, false)
  {
  }

  /** The cache with an object made from stored metadata, which is complete and on disc. */
  ghost predicate Revived(s: Cache, t: Cache, q: Request)
    requires q.env.stored.Some?
  {
    && t.objects.Keys == s.objects.Keys + {s.next} && t.next == s.next + 1
    && t.cached == [s.next] + s.cached && t.uncached == s.uncached && t.users == s.users && t.hops == s.hops
    && (forall id :: id in s.objects && id != s.next ==> t.objects[id] == s.objects[id])
    && var o := t.objects[s.next];
       && o.url == q.url && o.time == q.env.stored.value.0 && o.len == q.env.stored.value.1
       && o.state == COMPLETE && !o.fetching && o.fetches == 0 && o.disc && !o.data
       && o.candidate == None && o.count == 0
  }

  /** What is stored but not cached is revived, and then is the hit. */
  lemma StoredIsRevived(s: Cache, q: Request) returns (t: Cache)
    requires Finds(s, q, None) && q.env.stored.Some? && s.next !in s.objects && s.next !in s.cached
    ensures Revived(s, t, q) && Finds(t, q, Some(s.next)) && Ask(s, q) == Ask(t, q)
  {
    hide Reuse, Newest;
    NewestUnique(s, q.url, None);
    t := Add(s, Restored(q.url, q.env, q.redirects, q.origin), true);
    assert forall i :: 0 < i < |t.cached| ==> t.cached[i] == s.cached[i - 1];
    assert t.cached[0] == s.next && Beats(t, q.url, |t.cached|, s.next, 0);
    NewestUnique(t, q.url, Some(s.next));
  }

  // ---------------------------------------------------------------- many clients

  /** A new client's request for the URL that may be cached, at a time when its object `o` is
      fresh and at hand. */
  predicate Hits(op: Op, url: string, o: Obj) {
    op.Open? && op.url == url && op.env.cacheable && op.env.isFresh && AtHand(o, op.env)
  }

  function Steps(s: Cache, cfg: Config, ops: seq<Op>): Cache {
    if ops == [] then s else Step(Steps(s, cfg, ops[..|ops| - 1]), cfg, ops[|ops| - 1])
  }

  /** The same objects in the same lists, but that the data of one may have come back. */
  predicate Keeps(s: Cache, s': Cache, id: Id) {
    && id in s.objects
    && (s'.objects == s.objects || s'.objects == s.objects[id := WithData(s.objects[id])])
    && s'.cached == s.cached && s'.uncached == s.uncached && s'.next == s.next
  }

  lemma StaysNewest(s: Cache, s': Cache, url: string, id: Id)
    requires IsNewest(s, url, |s.cached|, Some(id)) && Keeps(s, s', id)
    ensures IsNewest(s', url, |s'.cached|, Some(id))
  {
    var k :| 0 <= k < |s.cached| && s.cached[k] == id && Beats(s, url, |s.cached|, id, k);
    assert Beats(s', url, |s'.cached|, id, k);
  }

  lemma HitShares(s: Cache, cfg: Config, op: Op, url: string, id: Id)
    requires IsNewest(s, url, |s.cached|, Some(id)) && Hits(op, url, s.objects[id]) && op.u !in s.users
    ensures Keeps(s, Step(s, cfg, op), id) && Step(s, cfg, op).users == s.users[op.u := id]
  {
    hide Retrieve;
    var s1 := s.(hops := s.hops + [0]);
    var k :| 0 <= k < |s.cached| && s.cached[k] == id && Beats(s, url, |s.cached|, id, k);
    assert Beats(s1, url, |s1.cached|, id, k);
    FreshIsShared(s1, Request(cfg, url, op.env, 0, |s.hops|), id);
  }

  /** One more client, after others. */
  lemma HitAlsoShares(s: Cache, t: Cache, cfg: Config, op: Op, url: string, id: Id)
    requires IsNewest(s, url, |s.cached|, Some(id)) && Keeps(s, t, id)
    requires Hits(op, url, s.objects[id]) && op.u !in t.users
    ensures Keeps(s, Step(t, cfg, op), id) && Step(t, cfg, op).users == t.users[op.u := id]
  {
    hide Step, IsNewest;
    StaysNewest(s, t, url, id);
    HitShares(t, cfg, op, url, id);
  }

  /** The clients that ask. */
  function Askers(ops: seq<Op>): set<UserId> {
    set i | 0 <= i < |ops| && ops[i].Open? :: ops[i].u
  }

  lemma AskersGrow(ops: seq<Op>, op: Op)
    requires op.Open?
    ensures Askers(ops + [op]) == Askers(ops) + {op.u}
  {
    var all := ops + [op];
    assert all[|ops|] == op && forall i :: 0 <= i < |ops| ==> all[i] == ops[i];
  }

  predicate AllHit(s: Cache, ops: seq<Op>, url: string, id: Id) {
    && id in s.objects
    && (forall i :: 0 <= i < |ops| ==> Hits(ops[i], url, s.objects[id]) && ops[i].u !in s.users)
    && forall i, j :: 0 <= i < j < |ops| && ops[i].Open? && ops[j].Open? ==> ops[i].u != ops[j].u
  }

  /** All of them are users of the object, beside those that there were. */
  predicate AllShare(s: Cache, s': Cache, id: Id, askers: set<UserId>) {
    && Keeps(s, s', id) && s'.users.Keys == s.users.Keys + askers
    && forall u :: u in s'.users ==> s'.users[u] == if u in askers then id else s.users[u]
  }

  /** Main result: however many clients ask for a URL while its newest object is fresh, they all
      share that object, and no object is made and nothing fetched. */
  lemma {:induction false} HitsShare(s: Cache, cfg: Config, ops: seq<Op>, url: string, id: Id)
    requires IsNewest(s, url, |s.cached|, Some(id)) && AllHit(s, ops, url, id)
    ensures AllShare(s, Steps(s, cfg, ops), id, Askers(ops))
  {
    if ops == [] {
      assert Askers(ops) == {};
    } else {
      hide Step, IsNewest, AllHit, Askers, AllShare;
      var n := |ops| - 1;
      AllHitBefore(s, ops, url, id);
      HitsShare(s, cfg, ops[..n], url, id);
      AskersGrow(ops[..n], ops[n]);
      assert ops == ops[..n] + [ops[n]];
      ShareOneMore(s, Steps(s, cfg, ops[..n]), cfg, ops[n], url, id, Askers(ops[..n]));
    }
  }

  lemma ShareOneMore(s: Cache, t: Cache, cfg: Config, op: Op, url: string, id: Id, askers: set<UserId>)
    requires IsNewest(s, url, |s.cached|, Some(id)) && AllShare(s, t, id, askers)
    requires Hits(op, url, s.objects[id]) && op.u !in askers && op.u !in s.users
    ensures AllShare(s, Step(t, cfg, op), id, askers + {op.u})
  {
    hide Step, IsNewest, Hits, Keeps;
    HitAlsoShares(s, t, cfg, op, url, id);
  }

  lemma AllHitBefore(s: Cache, ops: seq<Op>, url: string, id: Id)
    requires ops != [] && AllHit(s, ops, url, id)
    ensures AllHit(s, ops[..|ops| - 1], url, id)
    ensures Hits(ops[|ops| - 1], url, s.objects[id]) && ops[|ops| - 1].u !in s.users
    ensures ops[|ops| - 1].u !in Askers(ops[..|ops| - 1])
  {
    hide AtHand;
  }
}

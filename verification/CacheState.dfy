/** The low-level cache as a protocol (content/llcache.c): objects in two lists, their users,
    validation candidates and fetches, changed by client calls and fetch messages. */
module CacheState {
  import opened Options
  import opened FetchStates

  type Id = nat
  type UserId = nat

  /** A cache object. `time` is its request time, `data` whether source data is in memory,
      `origin` the client retrieval that led to it, and `fetches` how often it was fetched. */
  datatype Obj = Obj(
    url: string, time: int, state: nat, fetching: bool,
    candidate: Option<Id>, count: int,
    disc: bool, data: bool, len: nat,
    redirects: nat, retries: nat, triedAuth: bool, triedTls: bool, hsts: bool,
    origin: nat, fetches: nat)

  /** The cache. A handle points to its object; `hops` counts, for each client retrieval, the
      retrievals that redirects have added to it. */
  datatype Cache = Cache(
    objects: map<Id, Obj>, cached: seq<Id>, uncached: seq<Id>, users: map<UserId, Id>, next: Id, hops: seq<nat>)

  datatype Config = Config(attempts: nat, limit: nat)

  /** What the surroundings answer during a retrieval: whether the request may be cached, the
      time and length of stored metadata, whether the newest object is fresh, whether stored
      data can be read back, and whether a fetch starts. */
  datatype Env = Env(
    cacheable: bool, stored: Option<(int, nat)>, isFresh: bool, restored: bool, starts: bool, now: int, hsts: bool)

  // ---------------------------------------------------------------- changes to the state

  function Put(s: Cache, id: Id, o: Obj): Cache {
    s.(objects := s.objects[id := o])
  }

  /** A new object, at the head of its list. */
  function Add(s: Cache, o: Obj, cached: bool): Cache {
    s.(objects := s.objects[s.next := o],
       cached := if cached then [s.next] + s.cached else s.cached,
       uncached := if cached then s.uncached else [s.next] + s.uncached,
       next := s.next + 1)
  }

  function Without(list: seq<Id>, dead: set<Id>): seq<Id> {
    if list == [] then [] else (if list[0] in dead then [] else [list[0]]) + Without(list[1..], dead)
  }

  /** Objects unlinked from their lists and destroyed. A candidate that one of them had keeps
      its count. */
  function Destroy(s: Cache, dead: set<Id>): Cache {
    s.(objects := s.objects - dead, cached := Without(s.cached, dead), uncached := Without(s.uncached, dead))
  }

  /** Release the candidate, if any. */
  function Unpoint(s: Cache, id: Id): Cache
    requires id in s.objects
  {
    var o := s.objects[id];
    if o.candidate.None? || o.candidate.value !in s.objects then s
    else
      var s1 := Put(s, id, o.(candidate := None));
      var c := o.candidate.value;
      Put(s1, c, s1.objects[c].(count := s1.objects[c].count - 1))
  }

  function MoveUsers(s: Cache, from: Id, to: Id): Cache {
    s.(users := map u | u in s.users :: if s.users[u] == from then to else s.users[u])
  }

  predicate Unused(users: map<UserId, Id>, id: Id) {
    forall u :: u in users ==> users[u] != id
  }

  predicate NoUsers(s: Cache, id: Id) {
    Unused(s.users, id)
  }

  // ---------------------------------------------------------------- retrieval

  /** An object whose first fetch is on its way. */
  function Fetching(cfg: Config, url: string, candidate: Option<Id>, env: Env, redirects: nat, origin: nat): Obj {
    Obj(url, env.now, INIT, true, candidate, 0, false, false, 0,
        redirects, cfg.attempts, false, false, env.hsts, origin, 1)
  }

  /** An object restored from stored metadata, its data still in the store. */
  function Restored(url: string, env: Env, redirects: nat, origin: nat): Obj
    requires env.stored.Some?
  {
    Obj(url, env.stored.value.0, COMPLETE, false, None, 0, true, false, env.stored.value.1,
        redirects, 0, false, false, false, origin, 0)
  }

  function Fetch(s: Cache, cfg: Config, url: string, env: Env, redirects: nat, origin: nat, cached: bool)
    : (Cache, Option<Id>)
  {
    if env.starts then (Add(s, Fetching(cfg, url, None, env, redirects, origin), cached), Some(s.next))
    else (s, None)
  }

  /** The object in the first `n` of the cached list that was requested last, the first such. */
  function Newest(s: Cache, url: string, n: nat): (r: Option<Id>)
    requires n <= |s.cached|
    ensures r.Some? ==> r.value in s.objects && s.objects[r.value].url == url
  {
    if n == 0 then None
    else
      var best := Newest(s, url, n - 1);
      var id := s.cached[n - 1];
      if id in s.objects && (best.None? || s.objects[id].time > s.objects[best.value].time) && s.objects[id].url == url
      then Some(id) else best
  }

  /** An object was found: hand it out, validate it, or if its data is lost fetch it anew. */
  function Reuse(s: Cache, cfg: Config, id: Id, env: Env, redirects: nat, origin: nat): (Cache, Option<Id>)
    requires id in s.objects
  {
    var o := s.objects[id];
    if o.disc && !o.data && !env.restored then
      Fetch(Destroy(s, {id}), cfg, o.url, env, redirects, origin, true)
    else
      var o1 := if o.disc then o.(data := true) else o;
      var s1 := Put(s, id, o1);
      if env.isFresh then (s1, Some(id))
      else if !env.starts then (s1, None)
      else
        var s2 := Put(s1, id, o1.(count := o1.count + 1));
        (Add(s2, Fetching(cfg, o.url, Some(id), env, redirects, origin), true), Some(s2.next))
  }

  /** llcache_object_retrieve and llcache_object_retrieve_from_cache. */
  function Retrieve(s: Cache, cfg: Config, url: string, env: Env, redirects: nat, origin: nat): (Cache, Option<Id>) {
    if !env.cacheable then Fetch(s, cfg, url, env, redirects, origin, false)
    else
      var found := Newest(s, url, |s.cached|);
      if found.Some? then Reuse(s, cfg, found.value, env, redirects, origin)
      else if env.stored.Some? then
        Reuse(Add(s, Restored(url, env, redirects, origin), true), cfg, s.next, env, redirects, origin)
      else Fetch(s, cfg, url, env, redirects, origin, true)
  }

  // ---------------------------------------------------------------- fetch messages

  datatype Message =
    | Header
    | Data(n: nat, uncacheable: bool)
    | Finished
    | Redirect(allowed: bool, url: string, env: Env)
    | NotModified
    | TimedOut(starts: bool, now: int)
    | Auth(known: bool, starts: bool, now: int)
    | SslError(starts: bool, now: int)
    | Failed

  function Complete(o: Obj): Obj {
    o.(state := COMPLETE, fetching := false, time := 0)
  }

  /** llcache_object_refetch. */
  function Refetch(o: Obj, starts: bool, now: int): Obj {
    o.(state := INIT, fetching := starts, time := now, fetches := o.fetches + 1)
  }

  /** llcache_fetch_timeout with a retry left.  It does not forget the fetch that timed out, so
      if the new one does not start the error handling of llcache_fetch_callback still finds
      that fetch, aborts it and completes the object; see FetchPointer. */
  function Retry(o: Obj, starts: bool, now: int): Obj
    requires o.retries > 1
  {
    var r := Refetch(o.(retries := o.retries - 1), starts, now);
    if starts then r else Complete(r)
  }

  /** llcache_fetch_auth, after the candidate was released. */
  function AuthNeeded(o: Obj, known: bool, starts: bool, now: int): Obj {
    if !known || o.triedAuth then Complete(o).(triedAuth := false)
    else Refetch(o.(triedAuth := true), starts, now)
  }

  /** llcache_fetch_ssl_error, after the candidate was released. */
  function SslFailed(o: Obj, starts: bool, now: int): Obj {
    if o.hsts || o.triedTls then Complete(o)
    else Refetch(o.(triedTls := true), starts, now)
  }

  /** llcache_fetch_process_data. */
  function GotData(s: Cache, id: Id, n: nat, uncacheable: bool): Cache
    requires id in s.objects
  {
    var first := s.objects[id].state != DATA;
    var s1 := if first then Unpoint(s, id) else s;
    var o := s1.objects[id];
    Put(s1, id, o.(state := DATA, len := o.len + n, data := true,
                   time := if first && uncacheable then 0 else o.time))
  }

  /** llcache_fetch_notmodified: the users move to the candidate. */
  function StillFresh(s: Cache, id: Id): Cache
    requires id in s.objects
  {
    var o := s.objects[id];
    var s1 :=
      if o.candidate.None? || o.candidate.value !in s.objects then s
      else
        var c := o.candidate.value;
        var t := Unpoint(MoveUsers(s, id, c), id);
        Put(t, c, t.objects[c].(time := o.time));
    Put(s1, id, Complete(s1.objects[id]))
  }

  /** llcache_fetch_redirect: unless too many were followed, the target is retrieved and takes
      over the users. */
  function Redirected(s: Cache, cfg: Config, id: Id, allowed: bool, url: string, env: Env): Cache
    requires id in s.objects
  {
    var t := Unpoint(s, id);
    var o := t.objects[id];
    var s1 := Put(t, id, Complete(o));
    if o.redirects > cfg.limit || !allowed || o.origin >= |s.hops| then s1
    else
      var s2 := s1.(hops := s1.hops[o.origin := s1.hops[o.origin] + 1]);
      var (s3, dest) := Retrieve(s2, cfg, url, env, o.redirects + 1, o.origin);
      if dest.Some? then MoveUsers(s3, id, dest.value) else s3
  }

  /** llcache_fetch_callback on a fetch of object `id`. */
  function Receive(s: Cache, cfg: Config, id: Id, m: Message): Cache
    requires id in s.objects
  {
    var o := s.objects[id];
    match m
    case Header => Put(s, id, o.(state := HEADERS))
    case Data(n, uncacheable) => GotData(s, id, n, uncacheable)
    case Finished => Put(s, id, o.(state := COMPLETE, fetching := false, data := o.data && o.len > 0))
    case Redirect(allowed, url, env) => Redirected(s, cfg, id, allowed, url, env)
    case NotModified => StillFresh(s, id)
    case TimedOut(starts, now) =>
      if o.retries > 1 then Put(s, id, Retry(o, starts, now))
      else var t := Unpoint(s, id); Put(t, id, Complete(t.objects[id]))
    case Auth(known, starts, now) => var t := Unpoint(s, id); Put(t, id, AuthNeeded(t.objects[id], known, starts, now))
    case SslError(starts, now) => var t := Unpoint(s, id); Put(t, id, SslFailed(t.objects[id], starts, now))
    case Failed => var t := Unpoint(s, id); Put(t, id, Complete(t.objects[id]))
  }

  // ---------------------------------------------------------------- cleaning

  /** No users, no fetch, and nobody's candidate as far as its count tells. */
  predicate Idle(s: Cache, id: Id) {
    id in s.objects && NoUsers(s, id) && s.objects[id].count == 0 && !s.objects[id].fetching
  }

  /** What is fixed for one cleaning: which objects have outlived their freshness, which are
      written to the store when it is asked, and how far down the list the three last passes
      get before the size is within its limit. */
  datatype Cleaning = Cleaning(stale: Id -> bool, full: bool, written: Id -> bool, third: nat, fourth: nat, fifth: nat)

  function Upto(list: seq<Id>, n: nat): seq<Id> {
    if n <= |list| then list[..n] else list
  }

  function Uncacheable(s: Cache): set<Id> {
    set id | id in s.uncached && Idle(s, id)
  }

  function Stale(s: Cache, stale: Id -> bool): set<Id> {
    set id | id in s.cached && Idle(s, id) && stale(id)
  }

  function Backed(s: Cache, n: nat): set<Id> {
    set id | id in Upto(s.cached, n) && Idle(s, id) && s.objects[id].disc && !s.objects[id].data
  }

  function Unbacked(s: Cache, n: nat): set<Id> {
    set id | id in Upto(s.cached, n) && Idle(s, id) && !s.objects[id].disc
  }

  /** llcache_persist: objects that nobody validates or fetches go to the store. */
  predicate Persists(s: Cache, written: Id -> bool, id: Id) {
    id in s.objects && id in s.cached && written(id)
    && s.objects[id].count == 0 && !s.objects[id].fetching && !s.objects[id].disc
  }

  function Persist(s: Cache, written: Id -> bool): Cache {
    s.(objects := map id | id in s.objects ::
      if Persists(s, written, id) then s.objects[id].(disc := true) else s.objects[id])
  }

  /** The objects once the source data of the idle ones of a list that are on disc is freed. */
  function Dropped(s: Cache, list: seq<Id>): map<Id, Obj> {
    map id | id in s.objects ::
      if id in list && Idle(s, id) && s.objects[id].disc then s.objects[id].(data := false) else s.objects[id]
  }

  function DropData(s: Cache, n: nat): Cache {
    s.(objects := Dropped(s, Upto(s.cached, n)))
  }

  /** llcache_clean. */
  function Clean(s: Cache, c: Cleaning): Cache {
    var s1 := Destroy(s, Uncacheable(s));
    var s2 := Destroy(s1, Stale(s1, c.stale));
    var s3 := if c.full then Persist(s2, c.written) else s2;
    var s4 := DropData(s3, c.third);
    var s5 := Destroy(s4, Backed(s4, c.fourth));
    Destroy(s5, Unbacked(s5, c.fifth))
  }

  // ---------------------------------------------------------------- whole runs

  datatype Op =
    | Open(u: UserId, url: string, env: Env)
    | Close(u: UserId)
    | Clone(u: UserId, v: UserId)
    | Quit(u: UserId)
    | Stream(u: UserId)
    | Drained(id: Id)
    | Got(id: Id, m: Message)
    | Broken(id: Id)
    | Write(written: Id -> bool)
    | Tidy(c: Cleaning)

  /** llcache_object_snapshot. */
  function Snapshot(o: Obj): Obj {
    Obj(o.url, 0, COMPLETE, false, None, 0, false, o.len > 0, o.len, 0, 0, false, false, false, o.origin, 0)
  }

  predicate Alone(s: Cache, u: UserId)
    requires u in s.users
  {
    forall v :: v in s.users && s.users[v] == s.users[u] ==> v == u
  }

  /** llcache_handle_abort: with other users, a copy of what there is so far; alone, the fetch
      is stopped and the candidate left as it is. */
  function Aborted(s: Cache, u: UserId): Cache
    requires u in s.users && s.users[u] in s.objects
  {
    var id := s.users[u];
    var o := s.objects[id];
    if Alone(s, u) then Put(s, id, Complete(o))
    else Add(s, Snapshot(o), false).(users := s.users[u := s.next])
  }

  /** llcache_handle_force_stream: an object with one user leaves the cached list. */
  function Streamed(s: Cache, u: UserId): Cache
    requires u in s.users
  {
    var id := s.users[u];
    if Alone(s, u) && id in s.cached
    then s.(cached := Without(s.cached, {id}), uncached := [id] + s.uncached) else s
  }

  function Step(s: Cache, cfg: Config, op: Op): Cache {
    match op
    case Open(u, url, env) =>
      if u in s.users then s
      else
        var (s1, r) := Retrieve(s.(hops := s.hops + [0]), cfg, url, env, 0, |s.hops|);
        if r.Some? then s1.(users := s1.users[u := r.value]) else s1
    case Close(u) => s.(users := s.users - {u})
    case Clone(u, v) => if u in s.users && v !in s.users then s.(users := s.users[v := s.users[u]]) else s
    case Quit(u) => if u in s.users && s.users[u] in s.objects then Aborted(s, u) else s
    case Stream(u) => if u in s.users then Streamed(s, u) else s
    case Drained(id) => if id in s.objects then Put(s, id, s.objects[id].(len := 0)) else s
    case Got(id, m) => if id in s.objects && s.objects[id].fetching then Receive(s, cfg, id, m) else s
    case Broken(id) => if id in s.objects && s.objects[id].fetching then Put(s, id, Complete(s.objects[id])) else s
    case Write(written) => Persist(s, written)
    case Tidy(c) => Clean(s, c)
  }

  const Empty: Cache := Cache(map[], [], [], map[], 0, [])

  function Run(cfg: Config, ops: seq<Op>): Cache {
    if ops == [] then Empty else Step(Run(cfg, ops[..|ops| - 1]), cfg, ops[|ops| - 1])
  }
}

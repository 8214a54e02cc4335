/** That clients are served: their objects are being fetched or complete, and when an object is
    replaced its users go along. */
module CacheService {
  import opened Options
  import opened FetchStates
  import opened CacheState
  import L = CacheLifetime

  /** The object will have something to say to its users, or has said it all. */
  predicate Alive(o: Obj) {
    o.fetching || o.state == COMPLETE
  }

  ghost predicate AllAlive(s: Cache) {
    forall id :: id in s.objects ==> Alive(s.objects[id])
  }

  /** A message after which an object is to be fetched with credentials or downgraded, and the
      fetch does not start.  A timeout is not among them: see Retry. */
  predicate Stalls(s: Cache, op: Op) {
    && op.Got? && op.id in s.objects && s.objects[op.id].fetching
    && var o := s.objects[op.id];
       match op.m
       case Auth(known, starts, _) => known && !o.triedAuth && !starts
       case SslError(starts, _) => !o.hsts && !o.triedTls && !starts
       case _ => false
  }

  lemma UnpointAlive(s: Cache, id: Id)
    requires id in s.objects
    ensures var t := Unpoint(s, id);
            && t.objects.Keys == s.objects.Keys && t.users == s.users && t.hops == s.hops
            && forall x :: x in s.objects ==>
                t.objects[x] == s.objects[x].(candidate := t.objects[x].candidate, count := t.objects[x].count)
  {
    var o := s.objects[id];
    if o.candidate.Some? && o.candidate.value in s.objects {
      var c := o.candidate.value;
      var s1 := Put(s, id, o.(candidate := None));
      forall x | x in s.objects
        ensures Unpoint(s, id).objects[x] ==
                s.objects[x].(candidate := Unpoint(s, id).objects[x].candidate,
                    count := Unpoint(s, id).objects[x].count)
      {
        assert s1.objects[x] == s.objects[x].(candidate := s1.objects[x].candidate);
      }
    }
  }

  lemma RetrieveAlive(s: Cache, cfg: Config, url: string, env: Env, redirects: nat, origin: nat)
    requires AllAlive(s)
    ensures AllAlive(Retrieve(s, cfg, url, env, redirects, origin).0)
  {
    hide Newest, Without;
  }

  lemma StillFreshAlive(s: Cache, id: Id)
    requires AllAlive(s) && id in s.objects
    ensures AllAlive(StillFresh(s, id))
  {
    hide Unpoint;
    var o := s.objects[id];
    if o.candidate.Some? && o.candidate.value in s.objects {
      UnpointAlive(MoveUsers(s, id, o.candidate.value), id);
    }
  }

  lemma RedirectedAlive(s: Cache, cfg: Config, id: Id, allowed: bool, url: string, env: Env)
    requires AllAlive(s) && id in s.objects
    ensures AllAlive(Redirected(s, cfg, id, allowed, url, env))
  {
    hide Unpoint, Retrieve;
    UnpointAlive(s, id);
    var t := Unpoint(s, id);
    var o := t.objects[id];
    var s1 := Put(t, id, Complete(o));
    assert AllAlive(s1);
    if !(o.redirects > cfg.limit || !allowed || o.origin >= |s.hops|) {
      RetrieveAlive(s1.(hops := s1.hops[o.origin := s1.hops[o.origin] + 1]), cfg, url, env, o.redirects + 1, o.origin);
    }
  }

  lemma PutAlive(s: Cache, id: Id, o: Obj)
    requires AllAlive(s) && id in s.objects
    ensures AllAlive(Put(s, id, o)) <==> Alive(o)
  {
    hide Alive;
    assert id in Put(s, id, o).objects;
  }

  lemma ReleasedAlive(s: Cache, id: Id)
    requires AllAlive(s) && id in s.objects
    ensures var t := Unpoint(s, id);
            && AllAlive(t) && id in t.objects
            && t.objects[id] == s.objects[id].(candidate := t.objects[id].candidate, count := t.objects[id].count)
  {
    hide Unpoint;
    UnpointAlive(s, id);
  }

  /** A message leaves every object alive exactly if it does not stall. */
  lemma ReceiveAlive(s: Cache, cfg: Config, id: Id, m: Message)
    requires AllAlive(s) && id in s.objects && s.objects[id].fetching
    ensures AllAlive(Receive(s, cfg, id, m)) <==> !Stalls(s, Got(id, m))
  {
    hide Unpoint, StillFresh, Redirected, Put, AllAlive;
    ReleasedAlive(s, id);
    var o, t := s.objects[id], Unpoint(s, id);
    match m
    case Redirect(allowed, url, env) => RedirectedAlive(s, cfg, id, allowed, url, env);
    case NotModified => StillFreshAlive(s, id);
    case Header => PutAlive(s, id, o.(state := HEADERS));
    case Data(n, uncacheable) => DataAlive(s, id, n, uncacheable);
    case Finished => PutAlive(s, id, o.(state := COMPLETE, fetching := false, data := o.data && o.len > 0));
    case Failed => PutAlive(t, id, Complete(t.objects[id]));
    case TimedOut(starts, now) =>
      if o.retries > 1 { PutAlive(s, id, Retry(o, starts, now)); } else { PutAlive(t, id, Complete(t.objects[id])); }
    case Auth(known, starts, now) => PutAlive(t, id, AuthNeeded(t.objects[id], known, starts, now));
    case SslError(starts, now) => PutAlive(t, id, SslFailed(t.objects[id], starts, now));
  }

  lemma DataAlive(s: Cache, id: Id, n: nat, uncacheable: bool)
    requires AllAlive(s) && id in s.objects && s.objects[id].fetching
    ensures AllAlive(GotData(s, id, n, uncacheable))
  {
    hide Unpoint, AllAlive;
    ReleasedAlive(s, id);
    var t := if s.objects[id].state != DATA then Unpoint(s, id) else s;
    PutAlive(t, id, GotData(s, id, n, uncacheable).objects[id]);
  }

  lemma CleanAlive(s: Cache, c: Cleaning)
    requires AllAlive(s)
    ensures AllAlive(Clean(s, c))
  {
    hide Idle, Without;
    var s1 := Destroy(s, Uncacheable(s));
    var s2 := Destroy(s1, Stale(s1, c.stale));
    assert AllAlive(s2);
    var s3 := if c.full then Persist(s2, c.written) else s2;
    assert AllAlive(s3);
    var s4 := DropData(s3, c.third);
    assert AllAlive(s4);
  }

  /** A step leaves every object alive exactly if it does not stall. */
  lemma StepAlive(s: Cache, cfg: Config, op: Op)
    requires AllAlive(s)
    ensures AllAlive(Step(s, cfg, op)) <==> !Stalls(s, op)
  {
    hide Receive, Retrieve, Clean, Persists, AllAlive;
    match op
    case Got(id, m) => if id in s.objects && s.objects[id].fetching { ReceiveAlive(s, cfg, id, m); }
    case Tidy(c) => CleanAlive(s, c);
    case Open(u, url, env) => OpenAlive(s, cfg, u, url, env);
    case Write(_) => PlainAlive(s, cfg, op);
    case Close(_) => PlainAlive(s, cfg, op);
    case Clone(_, _) => PlainAlive(s, cfg, op);
    case Quit(_) => PlainAlive(s, cfg, op);
    case Stream(_) => PlainAlive(s, cfg, op);
    case Drained(_) => PlainAlive(s, cfg, op);
    case Broken(_) => PlainAlive(s, cfg, op);
  }

  lemma OpenAlive(s: Cache, cfg: Config, u: UserId, url: string, env: Env)
    requires AllAlive(s)
    ensures AllAlive(Step(s, cfg, Open(u, url, env)))
  {
    hide Retrieve;
    RetrieveAlive(s.(hops := s.hops + [0]), cfg, url, env, 0, |s.hops|);
  }

  lemma PlainAlive(s: Cache, cfg: Config, op: Op)
    requires AllAlive(s) && !op.Got? && !op.Tidy? && !op.Open?
    ensures AllAlive(Step(s, cfg, op))
  {
    hide Persists, Without;
  }

  /** Main result: in a run in which every repeated fetch starts, each client's object is live,
      and is being fetched or complete: no client is left waiting. */
  lemma {:induction false} RunServes(cfg: Config, ops: seq<Op>)
    requires forall i :: 0 <= i < |ops| ==> !Stalls(Run(cfg, ops[..i]), ops[i])
    ensures AllAlive(Run(cfg, ops))
    ensures L.FairRun(cfg, ops) ==>
              forall u :: u in Run(cfg, ops).users ==>
                Run(cfg, ops).users[u] in Run(cfg, ops).objects && Alive(Run(cfg, ops).objects[Run(cfg, ops).users[u]])
  {
    hide Step, Stalls, L.FairRun;
    if ops != [] {
      var n := |ops| - 1;
      forall i | 0 <= i < n ensures !Stalls(Run(cfg, ops[..n][..i]), ops[..n][i]) {
        assert ops[..n][..i] == ops[..i];
        assert !Stalls(Run(cfg, ops[..i]), ops[i]);
      }
      RunServes(cfg, ops[..n]);
      StepAlive(Run(cfg, ops[..n]), cfg, ops[n]);
    }
    if L.FairRun(cfg, ops) { Handles(cfg, ops); }
  }

  lemma Handles(cfg: Config, ops: seq<Op>)
    requires L.FairRun(cfg, ops)
    ensures forall u :: u in Run(cfg, ops).users ==> Run(cfg, ops).users[u] in Run(cfg, ops).objects
  {
    hide Run, L.FairRun;
    L.RunOk(cfg, ops);
  }

  // ---------------------------------------------------------------- replaced objects

  /** The objects after a 304. */
  lemma StillFreshObjects(s: Cache, id: Id, c: Id)
    requires id in s.objects && c in s.objects && c != id && s.objects[id].candidate == Some(c)
    ensures var o, b := s.objects[id], s.objects[c];
            StillFresh(s, id).objects
            == s.objects[c := b.(count := b.count - 1, time := o.time)][id := Complete(o.(candidate := None))]
  {
    var o, b := s.objects[id], s.objects[c];
    var m := MoveUsers(s, id, c);
    assert Unpoint(m, id).objects == s.objects[id := o.(candidate := None)][c := b.(count := b.count - 1)];
  }

  lemma StillFreshUsers(s: Cache, id: Id, c: Id)
    requires id in s.objects && c in s.objects && s.objects[id].candidate == Some(c)
    ensures StillFresh(s, id).users == MoveUsers(s, id, c).users
  {
    hide Unpoint;
    UnpointAlive(MoveUsers(s, id, c), id);
  }

  lemma CandidateDiffers(s: Cache, id: Id)
    requires L.Inv(s) && id in s.objects && s.objects[id].candidate.Some?
    ensures var c := s.objects[id].candidate.value; c in s.objects && c != id
  {
    hide L.Pointers;
    assert L.ObjOk(s, id);
  }

  /** After a 304 the users of the object are users of its candidate, and nobody is left. */
  lemma CandidateTakesOver(s: Cache, id: Id)
    requires L.Inv(s) && id in s.objects && s.objects[id].fetching && s.objects[id].candidate.Some?
    ensures var s', c := StillFresh(s, id), s.objects[id].candidate.value;
            && s'.users.Keys == s.users.Keys && NoUsers(s', id)
            && (forall u :: u in s.users ==> s'.users[u] == if s.users[u] == id then c else s.users[u])
  {
    hide L.Inv, StillFresh;
    CandidateDiffers(s, id);
    StillFreshUsers(s, id, s.objects[id].candidate.value);
  }

  /** And the candidate counts one less, and one less points at it. */
  lemma CandidateReleased(s: Cache, id: Id)
    requires L.Inv(s) && id in s.objects && s.objects[id].fetching && s.objects[id].candidate.Some?
    ensures var s', c := StillFresh(s, id), s.objects[id].candidate.value;
            && c in s'.objects && c in s.objects && s'.objects[c].count == s.objects[c].count - 1
            && s'.objects[c].data == s.objects[c].data && s'.objects[c].len == s.objects[c].len
            && |L.Pointers(s'.objects, c)| == |L.Pointers(s.objects, c)| - 1
  {
    hide L.Inv, StillFresh, L.Pointers;
    CandidateDiffers(s, id);
    var o, c := s.objects[id], s.objects[id].candidate.value;
    StillFreshObjects(s, id, c);
    var b := s.objects[c].(count := s.objects[c].count - 1, time := o.time);
    var m := s.objects[c := b];
    L.SamePointers(s.objects, m, c);
    L.DropPointer(m, id, Complete(o.(candidate := None)), c);
  }

  /** A retrieval yields an object at the URL, if only a fetch can be started. */
  lemma RetrieveTarget(s: Cache, cfg: Config, url: string, env: Env, redirects: nat, origin: nat)
    ensures var (s', r) := Retrieve(s, cfg, url, env, redirects, origin);
            && s'.hops == s.hops && s'.users == s.users
            && (env.starts ==> r.Some?) && (r.Some? ==> r.value in s'.objects && s'.objects[r.value].url == url)
  {
    hide Newest, Without;
  }

  /** After a redirect the users are users of an object at its target, if only a fetch can be
      started, and one more hop is counted for the request that led here. */
  lemma TargetTakesOver(s: Cache, cfg: Config, id: Id, url: string, env: Env)
    requires id in s.objects && s.objects[id].fetching && env.starts
    requires s.objects[id].redirects <= cfg.limit && s.objects[id].origin < |s.hops|
    ensures var s' := Redirected(s, cfg, id, true, url, env);
            && s'.users.Keys == s.users.Keys
            && s'.hops == s.hops[s.objects[id].origin := s.hops[s.objects[id].origin] + 1]
            && exists dest :: dest in s'.objects && s'.objects[dest].url == url
                 && forall u :: u in s.users ==> s'.users[u] == if s.users[u] == id then dest else s.users[u]
  {
    hide Unpoint, Retrieve;
    UnpointAlive(s, id);
    var t := Unpoint(s, id);
    var o := t.objects[id];
    var s1 := Put(t, id, Complete(o));
    var s2 := s1.(hops := s1.hops[o.origin := s1.hops[o.origin] + 1]);
    RetrieveTarget(s2, cfg, url, env, o.redirects + 1, o.origin);
    var (s3, dest) := Retrieve(s2, cfg, url, env, o.redirects + 1, o.origin);
    var s' := Redirected(s, cfg, id, true, url, env);
    assert s' == MoveUsers(s3, id, dest.value);
    assert dest.value in s'.objects && s'.objects[dest.value].url == url;
  }
}

/** Candidate counts over whole runs: what they exceed the pointers by is what was leaked, never
    falls, and is nothing exactly if no object was destroyed with a candidate set. */
module CacheLeaks {
  import opened Options
  import opened CacheState
  import opened CacheLifetime
  import opened CacheSurplus
  import opened CacheLimits

  // ---------------------------------------------------------------- numbers are not used again

  ghost predicate Onward(s: Cache, s': Cache) {
    s.next <= s'.next && forall id :: id in s'.objects && id !in s.objects ==> s.next <= id
  }

  lemma RetrieveOnward(s: Cache, cfg: Config, url: string, env: Env, redirects: nat, origin: nat)
    ensures Onward(s, Retrieve(s, cfg, url, env, redirects, origin).0)
  {
    hide Newest, Without;
  }

  lemma RedirectedOnward(s: Cache, cfg: Config, id: Id, allowed: bool, url: string, env: Env)
    requires id in s.objects
    ensures Onward(s, Redirected(s, cfg, id, allowed, url, env))
  {
    hide Unpoint, Retrieve;
    UnpointFrame(s, id);
    UnpointHops(s, id);
    var o := Unpoint(s, id).objects[id];
    var s1 := Put(Unpoint(s, id), id, Complete(o));
    if o.origin < |s1.hops| {
      RetrieveOnward(s1.(hops := s1.hops[o.origin := s1.hops[o.origin] + 1]), cfg, url, env, o.redirects + 1, o.origin);
    }
  }

  lemma UnpointHops(s: Cache, id: Id)
    requires id in s.objects
    ensures Unpoint(s, id).hops == s.hops
  {
  }

  lemma ReceiveOnward(s: Cache, cfg: Config, id: Id, m: Message)
    requires id in s.objects
    ensures Onward(s, Receive(s, cfg, id, m))
  {
    hide Unpoint, Redirected;
    UnpointFrame(s, id);
    var c := s.objects[id].candidate;
    if m.NotModified? && c.Some? && c.value in s.objects { UnpointFrame(MoveUsers(s, id, c.value), id); }
    if m.Redirect? { RedirectedOnward(s, cfg, id, m.allowed, m.url, m.env); }
  }

  lemma StepOnward(s: Cache, cfg: Config, op: Op)
    ensures Onward(s, Step(s, cfg, op))
  {
    hide Receive, Retrieve, Without, Persists, Idle;
    match op
    case Open(u, url, env) => RetrieveOnward(s.(hops := s.hops + [0]), cfg, url, env, 0, |s.hops|);
    case Got(id, m) => if id in s.objects { ReceiveOnward(s, cfg, id, m); }
    case Quit(_) =>
    case Tidy(_) =>
    case Write(_) =>
    case Close(_) =>
    case Clone(_, _) =>
    case Stream(_) =>
    case Drained(_) =>
    case Broken(_) =>
  }

  // ---------------------------------------------------------------- whole runs

  /** How many objects were destroyed in a run with candidate `c` still set. */
  function LeakedIn(cfg: Config, ops: seq<Op>, c: Id): nat {
    if ops == [] then 0
    else
      var before := ops[..|ops| - 1];
      LeakedIn(cfg, before, c) + |Leaked(Run(cfg, before), Run(cfg, ops), c)|
  }

  /** Nothing is leaked of an object that is not there yet. */
  lemma {:induction false} NoneYet(cfg: Config, ops: seq<Op>, c: Id)
    requires FairRun(cfg, ops) && Run(cfg, ops).next <= c
    ensures LeakedIn(cfg, ops, c) == 0
  {
    hide Step, Leaked, Inv, FairRun;
    if ops != [] {
      var n := |ops| - 1;
      var s := Run(cfg, ops[..n]);
      FairPrefix(cfg, ops, n);
      RunOk(cfg, ops[..n]);
      StepOnward(s, cfg, ops[n]);
      NoneYet(cfg, ops[..n], c);
      assert c !in s.objects by { Numbered(s); }
      NothingLeaked(s, Run(cfg, ops), c);
    }
  }

  lemma Numbered(s: Cache)
    requires Inv(s)
    ensures forall id :: id in s.objects ==> id < s.next
  {
    hide ObjOk, HandlesOk;
  }

  /** Main result: the count of every object exceeds the objects that point at it by exactly the
      number of objects that were destroyed with it set as their candidate. */
  lemma {:induction false} SurplusIsLeaked(cfg: Config, ops: seq<Op>, c: Id)
    requires FairRun(cfg, ops) && c in Run(cfg, ops).objects
    ensures Surplus(Run(cfg, ops), c) == LeakedIn(cfg, ops, c)
  {
    hide Step, Leaked, Inv, FairRun, Surplus, Fair;
    if ops != [] {
      var n := |ops| - 1;
      var s := Run(cfg, ops[..n]);
      FairPrefix(cfg, ops, n);
      RunOk(cfg, ops[..n]);
      FairLast(cfg, ops);
      StepDrift(s, cfg, ops[n]);
      if c in s.objects {
        SurplusIsLeaked(cfg, ops[..n], c);
      } else {
        StepOnward(s, cfg, ops[n]);
        NoneYet(cfg, ops[..n], c);
        NothingLeaked(s, Run(cfg, ops), c);
      }
    }
  }

  lemma {:induction false} LeakedGrows(cfg: Config, ops: seq<Op>, i: nat, c: Id)
    requires i <= |ops|
    ensures LeakedIn(cfg, ops[..i], c) <= LeakedIn(cfg, ops, c)
  {
    hide Run, Leaked;
    if i == |ops| {
      assert ops[..i] == ops;
    } else {
      var before := ops[..|ops| - 1];
      LeakedGrows(cfg, before, i, c);
      assert before[..i] == ops[..i];
    }
  }

  /** A surplus never falls while the object is there. */
  lemma SurplusStays(cfg: Config, ops: seq<Op>, i: nat, c: Id)
    requires FairRun(cfg, ops) && i <= |ops| && c in Run(cfg, ops[..i]).objects && c in Run(cfg, ops).objects
    ensures Surplus(Run(cfg, ops[..i]), c) <= Surplus(Run(cfg, ops), c)
  {
    hide Run, Surplus, FairRun;
    FairPrefix(cfg, ops, i);
    SurplusIsLeaked(cfg, ops[..i], c);
    SurplusIsLeaked(cfg, ops, c);
    LeakedGrows(cfg, ops, i, c);
  }

  /** The i-th step of a run destroys an object with candidate `c` set. */
  predicate LeaksAt(cfg: Config, ops: seq<Op>, i: nat, c: Id)
    requires i < |ops|
  {
    Leaked(Run(cfg, ops[..i]), Run(cfg, ops[..i + 1]), c) != {}
  }

  lemma {:induction false} LeakedSteps(cfg: Config, ops: seq<Op>, c: Id)
    ensures LeakedIn(cfg, ops, c) == 0 <==> forall i :: 0 <= i < |ops| ==> !LeaksAt(cfg, ops, i, c)
  {
    hide Run, Leaked;
    if ops != [] {
      var n := |ops| - 1;
      var before := ops[..n];
      LeakedSteps(cfg, before, c);
      assert ops[..n + 1] == ops;
      forall i | 0 <= i < n ensures LeaksAt(cfg, before, i, c) == LeaksAt(cfg, ops, i, c) {
        assert before[..i] == ops[..i] && before[..i + 1] == ops[..i + 1];
      }
      assert LeaksAt(cfg, ops, n, c) <==> |Leaked(Run(cfg, before), Run(cfg, ops), c)| > 0;
    }
  }

  /** The counts are the pointers exactly if no step destroyed an object whose candidate is still
      there. */
  lemma CountsExact(cfg: Config, ops: seq<Op>)
    requires FairRun(cfg, ops)
    ensures var s := Run(cfg, ops);
            (forall c :: c in s.objects ==> s.objects[c].count == |Pointers(s.objects, c)|)
            <==> forall c, i :: c in s.objects && 0 <= i < |ops| ==> !LeaksAt(cfg, ops, i, c)
  {
    hide Run, LeaksAt, FairRun, Pointers;
    var s := Run(cfg, ops);
    forall c | c in s.objects
      ensures s.objects[c].count == |Pointers(s.objects, c)|
              <==> forall i :: 0 <= i < |ops| ==> !LeaksAt(cfg, ops, i, c)
    {
      SurplusIsLeaked(cfg, ops, c);
      LeakedSteps(cfg, ops, c);
    }
  }

  /** After the run of CacheLimits that gives up a validation, the first object counts one too
      many in every later state that still has it. */
  lemma CountStaysHigh(more: seq<Op>)
    requires FairRun(Cfg, GivenUp + more) && 0 in Run(Cfg, GivenUp + more).objects
    ensures var s := Run(Cfg, GivenUp + more); s.objects[0].count > |Pointers(s.objects, 0)|
  {
    hide Run, Pointers, FairRun;
    var all := GivenUp + more;
    assert all[..|GivenUp|] == GivenUp;
    CountTooHigh();
    SurplusStays(Cfg, all, |GivenUp|, 0);
  }
}

/** Runs that meet the bounds of CacheWork. */
module CacheBounds {
  import opened Options
  import opened CacheState
  import opened CacheWork
  import CacheLimits

  /** A request that is never cached and whose fetch starts. */
  const Plain: Env := Env(false, None, false, false, true, 0, false)

  function Repeat(first: Op, rest: nat -> Op, k: nat): (ops: seq<Op>)
    ensures |ops| == k + 1
  {
    if k == 0 then [first] else Repeat(first, rest, k - 1) + [rest(k - 1)]
  }

  /** The first object, after `k` fetches of it timed out. */
  ghost predicate Retried(cfg: Config, s: Cache, k: nat) {
    && 0 in s.objects && s.objects[0].fetching && s.objects[0].candidate == None
    && s.objects[0].retries == cfg.attempts - k && s.objects[0].fetches == 1 + k
    && !s.objects[0].triedAuth && !s.objects[0].triedTls && !s.objects[0].hsts
  }

  const Again: nat -> Op := (k: nat) => Got(0, TimedOut(true, 0))

  lemma FirstTry(cfg: Config)
    ensures var s := Run(cfg, [Open(0, "u", Plain)]); Retried(cfg, s, 0) && Hopped(s, 0)
  {
    CacheLimits.RunStep(cfg, [], Open(0, "u", Plain));
    assert [] + [Open(0, "u", Plain)] == [Open(0, "u", Plain)];
  }

  lemma Retries(cfg: Config, s: Cache, k: nat)
    requires Retried(cfg, s, k) && k + 1 < cfg.attempts
    ensures Retried(cfg, Step(s, cfg, Again(k)), k + 1)
  {
  }

  lemma {:induction false} TimesOut(cfg: Config, k: nat)
    requires k == 0 || k < cfg.attempts
    ensures Retried(cfg, Run(cfg, Repeat(Open(0, "u", Plain), Again, k)), k)
  {
    hide Run, Step, Retried;
    if k == 0 {
      FirstTry(cfg);
    } else {
      var a := Repeat(Open(0, "u", Plain), Again, k - 1);
      TimesOut(cfg, k - 1);
      CacheLimits.RunStep(cfg, a, Again(k - 1));
      Retries(cfg, Run(cfg, a), k - 1);
    }
  }

  lemma LastTries(cfg: Config, s: Cache)
    requires 0 in s.objects && s.objects[0].fetching && s.objects[0].candidate == None
    requires !s.objects[0].triedAuth && !s.objects[0].triedTls && !s.objects[0].hsts
    ensures var s' := Step(Step(s, cfg, Got(0, Auth(true, true, 0))), cfg, Got(0, SslError(true, 0)));
            0 in s'.objects && s'.objects[0].fetches == s.objects[0].fetches + 2
  {
    var s1 := Step(s, cfg, Got(0, Auth(true, true, 0)));
    assert s1.objects[0] == Refetch(s.objects[0].(triedAuth := true), true, 0);
  }

  /** Timeouts up to the last retry, one refusal without credentials and one TLS failure: the
      object is fetched as often as it can be. */
  lemma FetchBoundMet(cfg: Config) returns (ops: seq<Op>)
    ensures 0 in Run(cfg, ops).objects && Run(cfg, ops).objects[0].fetches == Bound(cfg)
  {
    var k := if cfg.attempts == 0 then 0 else cfg.attempts - 1;
    var a := Repeat(Open(0, "u", Plain), Again, k);
    TimesOut(cfg, k);
    LastTries(cfg, Run(cfg, a));
    hide Run, Step;
    CacheLimits.RunStep(cfg, a, Got(0, Auth(true, true, 0)));
    CacheLimits.RunStep(cfg, a + [Got(0, Auth(true, true, 0))], Got(0, SslError(true, 0)));
    ops := a + [Got(0, Auth(true, true, 0))] + [Got(0, SslError(true, 0))];
  }

  const Onward: nat -> Op := (k: nat) => Got(k, Redirect(true, "u", Plain))

  /** The object with this number is being fetched, that many redirects on. */
  ghost predicate Hopped(s: Cache, k: nat) {
    && k in s.objects && s.objects[k].fetching && s.objects[k].candidate == None
    && s.objects[k].redirects == k && s.objects[k].origin == 0 && s.hops == [k] && s.next == k + 1
  }

  /** Every object in turn is redirected, until the limit is passed. */
  lemma {:induction false} RedirectBoundMet(cfg: Config, k: nat)
    requires k <= cfg.limit + 1
    ensures Hopped(Run(cfg, Repeat(Open(0, "u", Plain), Onward, k)), k)
  {
    hide Run, Step, Hopped;
    if k == 0 {
      FirstTry(cfg);
    } else {
      var a := Repeat(Open(0, "u", Plain), Onward, k - 1);
      RedirectBoundMet(cfg, k - 1);
      CacheLimits.RunStep(cfg, a, Onward(k - 1));
      Hops(cfg, Run(cfg, a), k - 1);
    }
  }

  lemma Hops(cfg: Config, s: Cache, k: nat)
    requires Hopped(s, k) && k <= cfg.limit
    ensures Hopped(Step(s, cfg, Onward(k)), k + 1)
  {
  }
}

/** The fetch scheduler of content/fetch.c: a ring of queued fetches, a ring of active ones,
    a limit on all active fetches and one on those of a single host.

    A ring is the sequence of its elements from the ring pointer on, so insertion is at its
    end.  Whether a fetcher starts a job is an input.
 */
module FetchScheduler {

  datatype Fetch = Fetch(id: nat, host: string, isActive: bool)

  datatype Limits = Limits(all: int, perHost: int)

  datatype Rings = Rings(queue: seq<Fetch>, active: seq<Fetch>)

  // ---------------------------------------------------------------- one dispatch

  /** RING_COUNTBYLWCHOST. */
  function CountHost(ring: seq<Fetch>, host: string): nat {
    if ring == [] then 0 else (if ring[0].host == host then 1 else 0) + CountHost(ring[1..], host)
  }

  predicate HasRoom(r: Rings, l: Limits, f: Fetch) {
    CountHost(r.active, f.host) < l.perHost
  }

  /** Reference: the first queued fetch whose host has room, without any skipping. */
  function FirstRoom(r: Rings, l: Limits, i: nat): (k: nat)
    requires i <= |r.queue|
    ensures i <= k <= |r.queue|
    ensures k < |r.queue| ==> HasRoom(r, l, r.queue[k])
    ensures forall j :: i <= j < k ==> !HasRoom(r, l, r.queue[j])
    decreases |r.queue| - i
  {
    if i == |r.queue| || HasRoom(r, l, r.queue[i]) then i else FirstRoom(r, l, i + 1)
  }

  function Without(s: seq<Fetch>, i: nat): seq<Fetch>
    requires i < |s|
  {
    s[..i] + s[i + 1..]
  }

  /** fetch_dispatch_job: a job that does not start goes to the end of the queue. */
  function DispatchJob(r: Rings, i: nat, start: nat -> bool): (Rings, bool)
    requires i < |r.queue|
  {
    var f := r.queue[i];
    if start(f.id) then (Rings(Without(r.queue, i), r.active + [f.(isActive := true)]), true)
    else (Rings(Without(r.queue, i) + [f], r.active), false)
  }

  /** fetch_choose_and_dispatch. */
  function Choose(r: Rings, l: Limits, start: nat -> bool): (Rings, bool)
    requires r.queue != []
  {
    var i := FirstRoom(r, l, 0);
    if i == |r.queue| then (r, false) else DispatchJob(r, i, start)
  }

  /** fetch_dispatch_jobs. */
  function Dispatch(r: Rings, l: Limits, start: nat -> bool): Rings
    decreases |r.queue|
  {
    if r.queue == [] || |r.active| >= l.all then r
    else
      var (r', more) := Choose(r, l, start);
      if more then Dispatch(r', l, start) else r'
  }

  // ---------------------------------------------------------------- invariant

  function Ids(s: seq<Fetch>): multiset<nat> {
    if s == [] then multiset{} else multiset{s[0].id} + Ids(s[1..])
  }

  lemma {:induction false} IdsAppend(a: seq<Fetch>, b: seq<Fetch>)
    ensures Ids(a + b) == Ids(a) + Ids(b)
  {
    if a == [] {
      assert a + b == b;
    } else {
      assert (a + b)[1..] == a[1..] + b;
      IdsAppend(a[1..], b);
    }
  }

  lemma IdsWithout(s: seq<Fetch>, i: nat)
    requires i < |s|
    ensures Ids(s) == Ids(Without(s, i)) + multiset{s[i].id}
  {
    hide Ids;
    assert s == s[..i] + [s[i]] + s[i + 1..];
    IdsAppend(s[..i] + [s[i]], s[i + 1..]);
    IdsAppend(s[..i], [s[i]]);
    IdsAppend(s[..i], s[i + 1..]);
    IdsOne(s[i]);
  }

  lemma {:induction false} CountAppend(a: seq<Fetch>, b: seq<Fetch>, host: string)
    ensures CountHost(a + b, host) == CountHost(a, host) + CountHost(b, host)
  {
    if a == [] {
      assert a + b == b;
    } else {
      assert (a + b)[1..] == a[1..] + b;
      CountAppend(a[1..], b, host);
    }
  }

  /** All the fetches in either ring. */
  function All(r: Rings): multiset<nat> {
    Ids(r.queue) + Ids(r.active)
  }

  /** Neither limit is exceeded; a limit below zero allows nothing. */
  ghost predicate Within(active: seq<Fetch>, l: Limits) {
    && (|active| <= l.all || active == [])
    && forall h :: CountHost(active, h) <= l.perHost || CountHost(active, h) == 0
  }

  predicate Flagged(s: seq<Fetch>, flag: bool) {
    forall i :: 0 <= i < |s| ==> s[i].isActive == flag
  }

  /** Every fetch is in exactly one ring, the one that its flag tells, and no limit is exceeded. */
  ghost predicate Inv(r: Rings, l: Limits) {
    && Flagged(r.queue, false) && Flagged(r.active, true)
    && (forall x :: All(r)[x] <= 1)
    && Within(r.active, l)
  }

  lemma IdsOne(f: Fetch)
    ensures Ids([f]) == multiset{f.id}
  {
  }

  lemma WithinOneMore(active: seq<Fetch>, l: Limits, f: Fetch)
    requires Within(active, l) && |active| < l.all && CountHost(active, f.host) < l.perHost
    ensures Within(active + [f], l)
  {
    forall h ensures CountHost(active + [f], h) <= l.perHost || CountHost(active + [f], h) == 0 {
      CountAppend(active, [f], h);
      assert CountHost([f], h) == if f.host == h then 1 else 0;
    }
  }

  lemma JobKeeps(r: Rings, l: Limits, i: nat, start: nat -> bool)
    requires Inv(r, l) && i < |r.queue| && HasRoom(r, l, r.queue[i]) && |r.active| < l.all
    ensures var r' := DispatchJob(r, i, start).0; Inv(r', l) && All(r') == All(r)
    ensures DispatchJob(r, i, start).1 <==> start(r.queue[i].id)
  {
    hide Ids, CountHost, Within;
    var f := r.queue[i];
    IdsWithout(r.queue, i);
    if start(f.id) {
      var g := f.(isActive := true);
      IdsAppend(r.active, [g]);
      IdsOne(g);
      WithinOneMore(r.active, l, g);
    } else {
      IdsAppend(Without(r.queue, i), [f]);
      IdsOne(f);
    }
    assert All(DispatchJob(r, i, start).0) == All(r);
  }

  /** Why dispatch stopped: nothing queued, no room at all, a start that failed, or no room
      on any queued host. */
  predicate Stopped(r: Rings, l: Limits, start: nat -> bool) {
    || r.queue == []
    || |r.active| >= l.all
    || (exists i :: 0 <= i < |r.queue| && !start(r.queue[i].id) && HasRoom(r, l, r.queue[i]))
    || (forall i :: 0 <= i < |r.queue| ==> !HasRoom(r, l, r.queue[i]))
  }

  /** Dispatch keeps the invariant and every fetch, and stops only for one of the reasons. */
  lemma {:induction false} DispatchKeeps(r: Rings, l: Limits, start: nat -> bool)
    requires Inv(r, l)
    ensures var r' := Dispatch(r, l, start); Inv(r', l) && All(r') == All(r) && Stopped(r', l, start)
    decreases |r.queue|
  {
    hide Inv, All;
    if r.queue != [] && |r.active| < l.all {
      var i := FirstRoom(r, l, 0);
      if i < |r.queue| {
        JobKeeps(r, l, i, start);
        var (r', more) := DispatchJob(r, i, start);
        if more {
          DispatchKeeps(r', l, start);
        } else {
          var n := |r'.queue| - 1;
          assert r'.queue[n] == r.queue[i] && HasRoom(r', l, r'.queue[n]);
        }
      }
    }
  }

  // ---------------------------------------------------------------- runs

  /** fetch_start of a new fetch, a poll, and fetch_remove_from_queues. */
  datatype Op = Start(id: nat, host: string, start: nat -> bool) | Poll(start: nat -> bool) | Remove(f: Fetch)

  function IndexOf(s: seq<Fetch>, id: nat): (i: nat)
    ensures i <= |s| && (i < |s| ==> s[i].id == id)
  {
    if s == [] || s[0].id == id then 0 else 1 + IndexOf(s[1..], id)
  }

  /** fetch_remove_from_queues: the ring is picked by the fetch's flag. */
  function RemoveFetch(r: Rings, f: Fetch): Rings {
    var i := IndexOf(if f.isActive then r.active else r.queue, f.id);
    if f.isActive then (if i < |r.active| then r.(active := Without(r.active, i)) else r)
    else if i < |r.queue| then r.(queue := Without(r.queue, i)) else r
  }

  function Step(r: Rings, l: Limits, op: Op): Rings {
    match op
    case Start(id, host, start) => Dispatch(r.(queue := r.queue + [Fetch(id, host, false)]), l, start)
    case Poll(start) => Dispatch(r, l, start)
    case Remove(f) => RemoveFetch(r, f)
  }

  lemma {:induction false} CountWithout(s: seq<Fetch>, i: nat, host: string)
    requires i < |s|
    ensures CountHost(Without(s, i), host) <= CountHost(s, host)
  {
    assert s == s[..i] + [s[i]] + s[i + 1..];
    CountAppend(s[..i] + [s[i]], s[i + 1..], host);
    CountAppend(s[..i], [s[i]], host);
    CountAppend(s[..i], s[i + 1..], host);
  }

  lemma WithinOneLess(active: seq<Fetch>, l: Limits, i: nat)
    requires Within(active, l) && i < |active|
    ensures Within(Without(active, i), l)
  {
    forall h ensures CountHost(Without(active, i), h) <= l.perHost || CountHost(Without(active, i), h) == 0 {
      CountWithout(active, i, h);
    }
  }

  lemma RemoveKeeps(r: Rings, l: Limits, f: Fetch)
    requires Inv(r, l) && (f in r.queue || f in r.active)
    ensures Inv(RemoveFetch(r, f), l) && All(RemoveFetch(r, f)) == All(r) - multiset{f.id}
  {
    hide Ids, CountHost, Within;
    if f.isActive {
      assert f in r.active;
      IdPresent(r.active, f);
      var i := IndexOf(r.active, f.id);
      IdsWithout(r.active, i);
      WithinOneLess(r.active, l, i);
    } else {
      assert f in r.queue;
      IdPresent(r.queue, f);
      IdsWithout(r.queue, IndexOf(r.queue, f.id));
    }
    assert All(RemoveFetch(r, f)) == All(r) - multiset{f.id};
  }

  /** And every other fetch stays in its ring. */
  lemma RemoveSpares(r: Rings, l: Limits, f: Fetch)
    requires Inv(r, l) && (f in r.queue || f in r.active)
    ensures var r' := RemoveFetch(r, f);
            && f.id !in All(r')
            && (forall g :: g in r.queue && g.id != f.id ==> g in r'.queue)
            && (forall g :: g in r.active && g.id != f.id ==> g in r'.active)
  {
    hide Ids, Within;
    RemoveKeeps(r, l, f);
    assert All(r)[f.id] <= 1;
    var ring := if f.isActive then r.active else r.queue;
    var i := IndexOf(ring, f.id);
    if i < |ring| { WithoutSpares(ring, i); }
  }

  lemma WithoutSpares(s: seq<Fetch>, i: nat)
    requires i < |s|
    ensures forall g :: g in s && g != s[i] ==> g in Without(s, i)
  {
    assert s == s[..i] + [s[i]] + s[i + 1..];
  }

  lemma {:induction false} IdPresent(s: seq<Fetch>, f: Fetch)
    requires f in s
    ensures IndexOf(s, f.id) < |s|
  {
    if s[0].id != f.id { IdPresent(s[1..], f); }
  }

  /** A fetch that is started is new, and one that is removed is live. */
  predicate Sensible(r: Rings, op: Op) {
    (op.Start? ==> op.id !in All(r)) && (op.Remove? ==> op.f in r.queue || op.f in r.active)
  }

  lemma StepKeeps(r: Rings, l: Limits, op: Op)
    requires Inv(r, l) && Sensible(r, op)
    ensures var r' := Step(r, l, op);
            && Inv(r', l)
            && All(r') == (match op case Start(id, _, _) => All(r) + multiset{id}
                                    case Poll(_) => All(r)
                                    case Remove(f) => All(r) - multiset{f.id})
            && (!op.Remove? ==> Stopped(r', l, op.start))
  {
    hide Dispatch, Stopped, Within, RemoveFetch, Ids;
    match op
    case Start(id, host, start) =>
      var f := Fetch(id, host, false);
      IdsAppend(r.queue, [f]);
      IdsOne(f);
      var r1 := r.(queue := r.queue + [f]);
      assert All(r1) == All(r) + multiset{id};
      DispatchKeeps(r1, l, start);
    case Poll(start) =>
      DispatchKeeps(r, l, start);
    case Remove(f) =>
      RemoveKeeps(r, l, f);
  }

  function Run(l: Limits, ops: seq<Op>): Rings {
    if ops == [] then Rings([], []) else Step(Run(l, ops[..|ops| - 1]), l, ops[|ops| - 1])
  }

  ghost predicate SensibleRun(l: Limits, ops: seq<Op>) {
    forall i :: 0 <= i < |ops| ==> Sensible(Run(l, ops[..i]), ops[i])
  }

  /** Over every run with fixed limits: one ring per fetch, matching its flag, and neither
      limit ever exceeded; after every dispatch a queued fetch with room waits only because
      of a failed start or the limit on all fetches. */
  lemma {:induction false} RunKeeps(l: Limits, ops: seq<Op>)
    requires SensibleRun(l, ops)
    ensures Inv(Run(l, ops), l)
    ensures ops != [] && !ops[|ops| - 1].Remove? ==> Stopped(Run(l, ops), l, ops[|ops| - 1].start)
  {
    hide Step, Sensible, Stopped;
    if ops == [] {
      EmptyOk(l);
    } else {
      hide Inv;
      var n := |ops| - 1;
      forall i | 0 <= i < n ensures Sensible(Run(l, ops[..n][..i]), ops[..n][i]) {
        assert ops[..n][..i] == ops[..i];
        assert Sensible(Run(l, ops[..i]), ops[i]);
      }
      RunKeeps(l, ops[..n]);
      assert Sensible(Run(l, ops[..n]), ops[n]);
      StepKeeps(Run(l, ops[..n]), l, ops[n]);
    }
  }

  lemma EmptyOk(l: Limits)
    ensures Inv(Rings([], []), l)
  {
  }

  // ---------------------------------------------------------------- the code

  class Scheduler {
    var queue: seq<Fetch>
    var active: seq<Fetch>
    const limits: Limits

    ghost function View(): Rings
      reads this
    {
      Rings(queue, active)
    }

    constructor (limits: Limits)
      ensures this.limits == limits && View() == Rings([], [])
    {
      this.limits, queue, active := limits, [], [];
    }

    method CountByHost(host: string) returns (n: nat)
      ensures n == CountHost(active, host)
    {
      n := 0;
      var i := 0;
      while i < |active|
        invariant 0 <= i <= |active| && n + CountHost(active[i..], host) == CountHost(active, host)
      {
        assert active[i..][1..] == active[i + 1..];
        if active[i].host == host { n := n + 1; }
        i := i + 1;
      }
    }

    /** The scan of fetch_choose_and_dispatch: a host without room is skipped with the whole
        run of its queued neighbours, and nothing with room is passed over. */
    method Scan() returns (i: nat)
      ensures i == FirstRoom(View(), limits, 0)
    {
      hide CountHost;
      i := 0;
      while i < |queue|
        invariant i <= |queue| && forall j :: 0 <= j < i ==> !HasRoom(View(), limits, queue[j])
      {
        var n := CountByHost(queue[i].host);
        if n < limits.perHost { break; }
        while i + 1 < |queue| && queue[i + 1].host == queue[i].host
          invariant i < |queue| && !HasRoom(View(), limits, queue[i])
          invariant forall j :: 0 <= j < i ==> !HasRoom(View(), limits, queue[j])
        {
          i := i + 1;
        }
        i := i + 1;
      }
    }

    method ChooseAndDispatch(start: nat -> bool) returns (more: bool)
      requires queue != []
      modifies this
      ensures (View(), more) == Choose(old(View()), limits, start)
    {
      var i := Scan();
      if i == |queue| { return false; }
      var f := queue[i];
      queue := Without(queue, i);
      if start(f.id) {
        active := active + [f.(isActive := true)];
        more := true;
      } else {
        queue := queue + [f];
        more := false;
      }
    }

    method DispatchJobs(start: nat -> bool)
      modifies this
      ensures View() == Dispatch(old(View()), limits, start)
    {
      hide Choose;
      var allQueued, allActive := |queue|, |active|;
      var more := true;
      while allQueued != 0 && allActive < limits.all && more
        invariant more ==> allQueued == |queue| && allActive == |active|
        invariant more ==> Dispatch(View(), limits, start) == Dispatch(old(View()), limits, start)
        invariant !more ==> View() == Dispatch(old(View()), limits, start)
        decreases more, if more then allQueued else 0
      {
        ChooseCounts(View(), limits, start);
        more := ChooseAndDispatch(start);
        if more { allQueued, allActive := allQueued - 1, allActive + 1; }
      }
    }

    /** fetch_remove_from_queues of a live fetch: it is in neither ring then, every other fetch
        is where it was, and the rings are in order. */
    method RemoveFromQueues(f: Fetch)
      requires Inv(View(), limits) && (f in queue || f in active)
      modifies this
      ensures View() == Step(old(View()), limits, Remove(f)) && Inv(View(), limits)
      ensures All(View()) == All(old(View())) - multiset{f.id} && f.id !in All(View())
      ensures forall g :: g in old(queue) && g.id != f.id ==> g in queue
      ensures forall g :: g in old(active) && g.id != f.id ==> g in active
    {
      hide Ids, Within, Inv;
      RemoveKeeps(View(), limits, f);
      RemoveSpares(View(), limits, f);
      if f.isActive {
        var i := IndexOf(active, f.id);
        if i < |active| { active := Without(active, i); }
      } else {
        var i := IndexOf(queue, f.id);
        if i < |queue| { queue := Without(queue, i); }
      }
    }

    /** fetch_start, once the fetch is set up. */
    method StartFetch(id: nat, host: string, start: nat -> bool)
      modifies this
      ensures View() == Step(old(View()), limits, Start(id, host, start))
    {
      queue := queue + [Fetch(id, host, false)];
      DispatchJobs(start);
    }
  }

  lemma ChooseCounts(r: Rings, l: Limits, start: nat -> bool)
    requires r.queue != []
    ensures var (r', more) := Choose(r, l, start);
            more ==> |r'.queue| == |r.queue| - 1 && |r'.active| == |r.active| + 1
  {
  }
}

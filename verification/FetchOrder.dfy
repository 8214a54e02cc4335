/** That queued fetches are served in turn (content/fetch.c): the queue is in the order in which
    fetches arrived, or last failed to start, and the first of them with room is started. */
module FetchOrder {
  import opened FetchScheduler

  /** When each fetch joined the end of the queue last, by its id. */
  type Joined = map<nat, nat>

  function At(j: Joined, id: nat): nat {
    if id in j then j[id] else 0
  }

  /** No fetch stands before one that joined earlier; all joined before `now`. */
  predicate InTurn(queue: seq<Fetch>, j: Joined, now: nat) {
    && (forall a, b :: 0 <= a < b < |queue| ==> At(j, queue[a].id) < At(j, queue[b].id))
    && forall a :: 0 <= a < |queue| ==> At(j, queue[a].id) < now
  }

  /** A fetch whose start fails during a dispatch at `now` joins the queue again. */
  function DispatchJoined(r: Rings, l: Limits, start: nat -> bool, j: Joined, now: nat): Joined
    decreases |r.queue|
  {
    if r.queue == [] || |r.active| >= l.all then j
    else
      var i := FirstRoom(r, l, 0);
      if i == |r.queue| then j
      else if start(r.queue[i].id) then DispatchJoined(DispatchJob(r, i, start).0, l, start, j, now)
      else j[r.queue[i].id := now]
  }

  /** A fetch that is started joins at once. */
  function StepJoined(r: Rings, l: Limits, op: Op, j: Joined, now: nat): Joined {
    match op
    case Start(id, host, start) =>
      DispatchJoined(r.(queue := r.queue + [Fetch(id, host, false)]), l, start, j[id := now], now + 1)
    case Poll(start) => DispatchJoined(r, l, start, j, now + 1)
    case Remove(_) => j
  }

  function RunJoined(l: Limits, ops: seq<Op>): Joined {
    if ops == [] then map[]
    else
      var before := ops[..|ops| - 1];
      StepJoined(Run(l, before), l, ops[|ops| - 1], RunJoined(l, before), Clock(before))
  }

  /** The time at which a run has ended; each operation takes two ticks. */
  function Clock(ops: seq<Op>): nat {
    1 + 2 * |ops|
  }

  // ---------------------------------------------------------------- one change at a time

  lemma WithoutInTurn(queue: seq<Fetch>, i: nat, j: Joined, now: nat)
    requires InTurn(queue, j, now) && i < |queue|
    ensures InTurn(Without(queue, i), j, now)
    ensures forall a :: 0 <= a < |Without(queue, i)| ==> Without(queue, i)[a].id != queue[i].id
  {
    var q := Without(queue, i);
    assert forall a :: 0 <= a < |q| ==> q[a] == queue[if a < i then a else a + 1];
  }

  /** A fetch that joins now comes last. */
  lemma JoinInTurn(queue: seq<Fetch>, f: Fetch, j: Joined, now: nat)
    requires InTurn(queue, j, now) && forall a :: 0 <= a < |queue| ==> queue[a].id != f.id
    ensures InTurn(queue + [f], j[f.id := now], now + 1)
  {
    var q := queue + [f];
    assert forall a :: 0 <= a < |queue| ==> q[a] == queue[a];
    assert q[|queue|] == f;
  }

  lemma LaterInTurn(queue: seq<Fetch>, j: Joined, now: nat, later: nat)
    requires InTurn(queue, j, now) && now <= later
    ensures InTurn(queue, j, later)
  {
  }

  lemma {:induction false} DispatchInTurn(r: Rings, l: Limits, start: nat -> bool, j: Joined, now: nat)
    requires InTurn(r.queue, j, now)
    ensures InTurn(Dispatch(r, l, start).queue, DispatchJoined(r, l, start, j, now), now + 1)
    decreases |r.queue|
  {
    hide InTurn, HasRoom, Without;
    LaterInTurn(r.queue, j, now, now + 1);
    if r.queue != [] && |r.active| < l.all {
      var i := FirstRoom(r, l, 0);
      if i < |r.queue| {
        WithoutInTurn(r.queue, i, j, now);
        if start(r.queue[i].id) {
          JobQueue(r, i, start);
          DispatchInTurn(DispatchJob(r, i, start).0, l, start, j, now);
        } else {
          JoinInTurn(Without(r.queue, i), r.queue[i], j, now);
        }
      }
    }
  }

  lemma JobQueue(r: Rings, i: nat, start: nat -> bool)
    requires i < |r.queue| && start(r.queue[i].id)
    ensures DispatchJob(r, i, start).0.queue == Without(r.queue, i) && |Without(r.queue, i)| < |r.queue|
  {
  }

  lemma {:induction false} InIds(s: seq<Fetch>, a: nat)
    requires a < |s|
    ensures s[a].id in Ids(s)
  {
    if a > 0 { InIds(s[1..], a - 1); }
  }

  lemma StepInTurn(r: Rings, l: Limits, op: Op, j: Joined, now: nat)
    requires Sensible(r, op) && InTurn(r.queue, j, now)
    ensures InTurn(Step(r, l, op).queue, StepJoined(r, l, op, j, now), now + 2)
  {
    hide InTurn, Dispatch, DispatchJoined;
    match op
    case Start(id, host, start) =>
      forall a | 0 <= a < |r.queue| ensures r.queue[a].id != id {
        InIds(r.queue, a);
      }
      var f := Fetch(id, host, false);
      JoinInTurn(r.queue, f, j, now);
      DispatchInTurn(r.(queue := r.queue + [f]), l, start, j[id := now], now + 1);
    case Poll(start) =>
      LaterInTurn(r.queue, j, now, now + 1);
      DispatchInTurn(r, l, start, j, now + 1);
    case Remove(f) =>
      var i := IndexOf(r.queue, f.id);
      if i < |r.queue| { WithoutInTurn(r.queue, i, j, now); }
      LaterInTurn(Step(r, l, op).queue, j, now, now + 2);
  }

  // ---------------------------------------------------------------- whole runs

  /** Main result: in every run the queue is in the order in which its fetches arrived, or last
      failed to start. */
  lemma {:induction false} RunInTurn(l: Limits, ops: seq<Op>)
    requires SensibleRun(l, ops)
    ensures InTurn(Run(l, ops).queue, RunJoined(l, ops), Clock(ops))
  {
    hide Step, StepJoined, Sensible;
    if ops != [] {
      hide InTurn;
      var n := |ops| - 1;
      forall i | 0 <= i < n ensures Sensible(Run(l, ops[..n][..i]), ops[..n][i]) {
        assert ops[..n][..i] == ops[..i];
        assert Sensible(Run(l, ops[..i]), ops[i]);
      }
      RunInTurn(l, ops[..n]);
      assert Sensible(Run(l, ops[..n]), ops[n]);
      StepInTurn(Run(l, ops[..n]), l, ops[n], RunJoined(l, ops[..n]), Clock(ops[..n]));
    }
  }

  /** Of the queued fetches with room the one that joined first is tried: it leaves its place for
      the end of the active ring if it starts, or for the end of the queue if it does not, and the
      others keep theirs. */
  lemma FirstInTurn(r: Rings, l: Limits, start: nat -> bool, j: Joined, now: nat, k: nat)
    requires InTurn(r.queue, j, now) && k < |r.queue| && HasRoom(r, l, r.queue[k])
    requires forall a :: 0 <= a < |r.queue| && HasRoom(r, l, r.queue[a]) ==>
               At(j, r.queue[k].id) <= At(j, r.queue[a].id)
    ensures var f, others := r.queue[k], r.queue[..k] + r.queue[k + 1..];
            Choose(r, l, start) ==
              if start(f.id) then (Rings(others, r.active + [f.(isActive := true)]), true)
              else (Rings(others + [f], r.active), false)
  {
    hide HasRoom, CountHost;
    var i := FirstRoom(r, l, 0);
    assert i == k;
  }
}

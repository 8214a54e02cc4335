/** The states of a fetch, in order (content/llcache.c). */
module FetchStates {
  const INIT: nat := 0
  const HEADERS: nat := 1
  const DATA: nat := 2
  const COMPLETE: nat := 3
}

/** Delivery of cache object events to users (content/llcache.c): every user is brought up
    to date with the object's state, and a user that asks for replay is told again. */
module Delivery {
  import opened FetchStates

  type Byte = b: int | 0 <= b < 256

  datatype Event = GotCerts | HadHeaders | HadData(bytes: seq<Byte>) | Done

  /** What a client's callback returns; NeedData asks for replay. */
  datatype Answer = Okay | NeedData | Error

  /** An answer, and whether the client released its handle during the callback. */
  datatype Reply = Reply(answer: Answer, quits: bool)

  datatype Sent = Sent(event: Event, answer: Answer)

  /** A handle: last known state, last reported byte count, and all that it was sent. */
  datatype User = User(id: nat, state: nat, bytes: nat, log: seq<Sent>)

  /** An object that is not streamed. */
  datatype Obj = Obj(state: nat, source: seq<Byte>, certs: bool)

  /** The clients: the reply of a user to the n-th event that it is sent. */
  type Clients = (nat, nat) -> Reply

  // ---------------------------------------------------------------- one user

  /** How delivery to a user goes on: to its next event, to the next user, or not at all. */
  datatype Verdict = Continue | Skip | Gone(failed: bool) | Abort

  function Tell(u: User, e: Event, ask: Clients): User {
    u.(log := u.log + [Sent(e, ask(u.id, |u.log|).answer)])
  }

  /** What follows a callback: `told` is the user moved on, `again` the user set to replay.
      The handle of a user that quits is freed; its record tells what it last accepted. */
  function After(r: Reply, told: User, again: User): (User, Verdict) {
    if r.quits then (if r.answer == NeedData then again else told, Gone(r.answer != Okay))
    else if r.answer == NeedData then (again, Skip)
    else if r.answer == Error then (told, Abort)
    else (told, Continue)
  }

  /** From INIT to HEADERS, with any certificates. */
  function Begin(o: Obj, u: User, ask: Clients): (User, Verdict) {
    if u.state == INIT && o.state > INIT then
      var v := u.(state := HEADERS);
      if o.certs then After(ask(u.id, |u.log|), Tell(v, GotCerts, ask), Tell(v, GotCerts, ask))
      else (v, Continue)
    else (u, Continue)
  }

  /** From HEADERS to DATA. */
  function TellHeaders(o: Obj, u: User, ask: Clients): (User, Verdict) {
    if u.state == HEADERS && o.state > HEADERS then
      var v := Tell(u, HadHeaders, ask);
      After(ask(u.id, |u.log|), v.(state := DATA), v)
    else (u, Continue)
  }

  /** In DATA, whatever has not been reported yet. */
  function TellData(o: Obj, u: User, ask: Clients): (User, Verdict) {
    if u.state == DATA && o.state >= DATA && |o.source| > u.bytes then
      var v := Tell(u, HadData(o.source[u.bytes..]), ask);
      After(ask(u.id, |u.log|), v.(bytes := |o.source|), v)
    else (u, Continue)
  }

  /** From DATA to COMPLETE. */
  function TellDone(o: Obj, u: User, ask: Clients): (User, Verdict) {
    if u.state == DATA && o.state > DATA then
      var v := Tell(u, Done, ask);
      After(ask(u.id, |u.log|), v.(state := COMPLETE), v)
    else (u, Continue)
  }

  /** All events due to one user. */
  function Deliver(o: Obj, u: User, ask: Clients): (User, Verdict) {
    var (u1, v1) := Begin(o, u, ask);
    if !v1.Continue? then (u1, v1) else
    var (u2, v2) := TellHeaders(o, u1, ask);
    if !v2.Continue? then (u2, v2) else
    var (u3, v3) := TellData(o, u2, ask);
    if !v3.Continue? then (u3, v3) else
    TellDone(o, u3, ask)
  }

  // ---------------------------------------------------------------- all users

  /** The object with its users, and the users that have left. */
  datatype World = World(obj: Obj, users: seq<User>, gone: seq<User>)

  /** llcache_object_notify_users: the users after a pass over them, and those that left. */
  function Pass(o: Obj, users: seq<User>, ask: Clients): (seq<User>, seq<User>) {
    if users == [] then ([], [])
    else
      var (u, v) := Deliver(o, users[0], ask);
      var (rest, gone) := if v.Abort? || v == Gone(true) then (users[1..], []) else Pass(o, users[1..], ask);
      if v.Gone? then (rest, [u] + gone) else ([u] + rest, gone)
  }

  /** Whether a pass ends early, with an error. */
  predicate PassFails(o: Obj, users: seq<User>, ask: Clients) {
    users != [] &&
    var v := Deliver(o, users[0], ask).1;
    v.Abort? || v == Gone(true) || PassFails(o, users[1..], ask)
  }

  // ---------------------------------------------------------------- what a user has seen

  predicate Accepted(s: Sent) {
    s.answer != NeedData
  }

  /** The data that was sent and not asked for again. */
  function Taken(log: seq<Sent>): seq<Byte> {
    if log == [] then []
    else
      var s := log[|log| - 1];
      Taken(log[..|log| - 1]) + (if s.event.HadData? && Accepted(s) then s.event.bytes else [])
  }

  /** How often an event without data was sent and not asked for again. */
  function Times(log: seq<Sent>, e: Event): nat {
    if log == [] then 0
    else Times(log[..|log| - 1], e) + (if log[|log| - 1].event == e && Accepted(log[|log| - 1]) then 1 else 0)
  }

  lemma LogGrows(log: seq<Sent>, s: Sent, e: Event)
    ensures Taken(log + [s]) == Taken(log) + (if s.event.HadData? && Accepted(s) then s.event.bytes else [])
    ensures Times(log + [s], e) == Times(log, e) + (if s.event == e && Accepted(s) then 1 else 0)
  {
    assert (log + [s])[..|log|] == log;
  }

  /** Data and the end are only ever sent after the headers were taken, and the end only
      when all the data was. */
  predicate Orderly(o: Obj, log: seq<Sent>) {
    forall j :: 0 <= j < |log| ==>
      && (log[j].event.HadData? || log[j].event.Done? ==> Times(log[..j], HadHeaders) == 1)
      && (log[j].event.Done? ==> o.state == COMPLETE && Taken(log[..j]) == o.source)
  }

  /** The handle tells exactly what the user has seen. */
  predicate UserOk(o: Obj, u: User) {
    && u.state <= o.state <= COMPLETE && u.bytes <= |o.source|
    && Taken(u.log) == o.source[..u.bytes]
    && Times(u.log, HadHeaders) == (if u.state >= DATA then 1 else 0)
    && Times(u.log, Done) == (if u.state == COMPLETE then 1 else 0)
    && (u.state < DATA ==> u.bytes == 0)
    && (u.state == COMPLETE ==> u.bytes == |o.source|)
    && Orderly(o, u.log)
  }

  predicate CaughtUp(o: Obj, u: User) {
    u.state == o.state && (o.state >= DATA ==> u.bytes == |o.source|)
  }

  lemma OrderlyGrows(o: Obj, log: seq<Sent>, s: Sent)
    requires Orderly(o, log)
    requires s.event.HadData? || s.event.Done? ==> Times(log, HadHeaders) == 1
    requires s.event.Done? ==> o.state == COMPLETE && Taken(log) == o.source
    ensures Orderly(o, log + [s])
  {
    hide Times, Taken;
    var log' := log + [s];
    forall j | 0 <= j < |log'|
      ensures log'[j].event.HadData? || log'[j].event.Done? ==> Times(log'[..j], HadHeaders) == 1
      ensures log'[j].event.Done? ==> o.state == COMPLETE && Taken(log'[..j]) == o.source
    {
      if j < |log| {
        assert log'[..j] == log[..j] && log'[j] == log[j];
      } else {
        assert log'[..j] == log;
      }
    }
  }

  /** One more event in the log. */
  lemma TellOk(o: Obj, u: User, e: Event, ask: Clients)
    requires UserOk(o, u)
    requires e.HadData? || e.Done? ==> u.state >= DATA
    requires e.Done? ==> o.state == COMPLETE && u.bytes == |o.source|
    ensures var v := Tell(u, e, ask); var a := ask(u.id, |u.log|).answer != NeedData;
            && Orderly(o, v.log)
            && Taken(v.log) == o.source[..u.bytes] + (if e.HadData? && a then e.bytes else [])
            && Times(v.log, HadHeaders) == Times(u.log, HadHeaders) + (if e == HadHeaders && a then 1 else 0)
            && Times(v.log, Done) == Times(u.log, Done) + (if e == Done && a then 1 else 0)
  {
    hide Times, Taken, Orderly;
    var s := Sent(e, ask(u.id, |u.log|).answer);
    LogGrows(u.log, s, HadHeaders);
    LogGrows(u.log, s, Done);
    assert o.source[..|o.source|] == o.source;
    OrderlyGrows(o, u.log, s);
  }

  lemma BeginOk(o: Obj, u: User, ask: Clients)
    requires UserOk(o, u)
    ensures var (u', v) := Begin(o, u, ask);
            && UserOk(o, u') && (v.Continue? ==> (u'.state > INIT || o.state == INIT))
  {
    hide Times, Taken, Orderly;
    TellOk(o, u, GotCerts, ask);
    assert o.source[..u.bytes] + [] == o.source[..u.bytes];
  }

  lemma HeadersOk(o: Obj, u: User, ask: Clients)
    requires UserOk(o, u) && (u.state > INIT || o.state == INIT)
    ensures var (u', v) := TellHeaders(o, u, ask);
            && UserOk(o, u') && (v.Continue? ==> (u'.state >= DATA || (u'.state == o.state < DATA)))
  {
    hide Times, Taken, Orderly;
    TellOk(o, u, HadHeaders, ask);
    assert o.source[..u.bytes] + [] == o.source[..u.bytes];
  }

  lemma DataOk(o: Obj, u: User, ask: Clients)
    requires UserOk(o, u)
    ensures var (u', v) := TellData(o, u, ask);
            && UserOk(o, u') && u'.state == u.state && (v.Continue? && u.state >= DATA ==> u'.bytes == |o.source|)
  {
    hide Times, Taken, Orderly;
    if u.state == DATA && o.state >= DATA && |o.source| > u.bytes {
      var e := HadData(o.source[u.bytes..]);
      TellOk(o, u, e, ask);
      assert o.source[..u.bytes] + e.bytes == o.source[..|o.source|];
      assert o.source[..u.bytes] + [] == o.source[..u.bytes];
    }
  }

  lemma DoneOk(o: Obj, u: User, ask: Clients)
    requires UserOk(o, u) && o.state <= COMPLETE && (u.state >= DATA ==> u.bytes == |o.source|)
    ensures var (u', v) := TellDone(o, u, ask);
            && UserOk(o, u') && (v.Continue? && u.state >= DATA ==> u'.state == o.state && u'.bytes == u.bytes)
            && (u.state < DATA ==> u' == u)
  {
    hide Times, Taken, Orderly;
    if u.state == DATA && o.state > DATA {
      TellOk(o, u, Done, ask);
      assert o.source[..u.bytes] + [] == o.source[..u.bytes];
    }
  }

  /** Delivery keeps the handle true, and a user that goes on to the end is caught up. */
  lemma DeliverOk(o: Obj, u: User, ask: Clients)
    requires UserOk(o, u) && o.state <= COMPLETE
    ensures var (u', v) := Deliver(o, u, ask); UserOk(o, u') && (v.Continue? ==> CaughtUp(o, u'))
  {
    hide Begin, TellHeaders, TellData, TellDone, UserOk;
    BeginOk(o, u, ask);
    var (u1, v1) := Begin(o, u, ask);
    if v1.Continue? {
      HeadersOk(o, u1, ask);
      var (u2, v2) := TellHeaders(o, u1, ask);
      if v2.Continue? {
        DataOk(o, u2, ask);
        var (u3, v3) := TellData(o, u2, ask);
        if v3.Continue? { DoneOk(o, u3, ask); }
      }
    }
  }

  predicate AllOk(o: Obj, us: seq<User>) {
    forall i :: 0 <= i < |us| ==> UserOk(o, us[i])
  }

  lemma {:induction false} PassOk(o: Obj, users: seq<User>, ask: Clients)
    requires AllOk(o, users) && o.state <= COMPLETE
    ensures var (users', gone) := Pass(o, users, ask); AllOk(o, users') && AllOk(o, gone)
  {
    hide UserOk, Deliver;
    if users != [] {
      assert UserOk(o, users[0]);
      DeliverOk(o, users[0], ask);
      PassOk(o, users[1..], ask);
    }
  }

  /** One pass with clients that all agree and stay leaves everyone caught up, and everyone there. */
  lemma {:induction false} PassCatchesUp(o: Obj, users: seq<User>, ask: Clients)
    requires AllOk(o, users) && o.state <= COMPLETE && forall i, n :: ask(i, n) == Reply(Okay, false)
    ensures var (users', gone) := Pass(o, users, ask);
            && gone == [] && |users'| == |users|
            && forall i :: 0 <= i < |users| ==> users'[i].id == users[i].id && CaughtUp(o, users'[i])
  {
    hide UserOk, Deliver, CaughtUp;
    if users != [] {
      assert UserOk(o, users[0]);
      DeliverOk(o, users[0], ask);
      AgreeingContinues(o, users[0], ask);
      PassCatchesUp(o, users[1..], ask);
    }
  }

  lemma AgreeingContinues(o: Obj, u: User, ask: Clients)
    requires forall i, n :: ask(i, n) == Reply(Okay, false)
    ensures Deliver(o, u, ask).1.Continue? && Deliver(o, u, ask).0.id == u.id
  {
  }

  // ---------------------------------------------------------------- whole runs

  /** What can happen to an object: its first headers, a chunk of data, its end, a new user,
      and a pass over the users. */
  datatype Op = Header | Chunk(bytes: seq<Byte>) | Finish | Join(id: nat) | Notify(ask: Clients)

  /** Messages come in the order that the fetch states have. */
  predicate Timely(w: World, op: Op) {
    match op
    case Header => w.obj.state <= HEADERS
    case Chunk(_) => w.obj.state <= DATA
    case _ => true
  }

  function Step(w: World, op: Op): World {
    match op
    case Header => w.(obj := w.obj.(state := HEADERS))
    case Chunk(bytes) => w.(obj := w.obj.(state := DATA, source := w.obj.source + bytes))
    case Finish => w.(obj := w.obj.(state := COMPLETE))
    case Join(id) => w.(users := [User(id, INIT, 0, [])] + w.users)
    case Notify(ask) =>
      var (users, gone) := Pass(w.obj, w.users, ask);
      World(w.obj, users, gone + w.gone)
  }

  predicate Inv(w: World) {
    w.obj.state <= COMPLETE && AllOk(w.obj, w.users) && AllOk(w.obj, w.gone)
  }

  /** A later object with more data shows a user nothing that it has not seen. */
  lemma ObjGrows(o: Obj, o': Obj, u: User)
    requires UserOk(o, u) && o.state <= o'.state <= COMPLETE && o.source <= o'.source
    requires o.state == COMPLETE ==> o' == o
    ensures UserOk(o', u)
  {
    hide Times, Taken;
    assert o'.source[..u.bytes] == o.source[..u.bytes];
  }

  lemma StepOk(w: World, op: Op)
    requires Inv(w) && Timely(w, op)
    ensures Inv(Step(w, op))
  {
    hide UserOk, Pass;
    var w' := Step(w, op);
    match op
    case Notify(ask) =>
      PassOk(w.obj, w.users, ask);
    case Join(id) =>
      assert UserOk(w.obj, w'.users[0]) by { FreshOk(w.obj, id); }
    case _ =>
      forall i | 0 <= i < |w.users| ensures UserOk(w'.obj, w.users[i]) {
        ObjGrows(w.obj, w'.obj, w.users[i]);
      }
      forall i | 0 <= i < |w.gone| ensures UserOk(w'.obj, w.gone[i]) {
        ObjGrows(w.obj, w'.obj, w.gone[i]);
      }
  }

  lemma FreshOk(o: Obj, id: nat)
    requires o.state <= COMPLETE
    ensures UserOk(o, User(id, INIT, 0, []))
  {
  }

  function Run(certs: bool, ops: seq<Op>): World {
    if ops == [] then World(Obj(INIT, [], certs), [], []) else Step(Run(certs, ops[..|ops| - 1]), ops[|ops| - 1])
  }

  ghost predicate TimelyRun(certs: bool, ops: seq<Op>) {
    forall i :: 0 <= i < |ops| ==> Timely(Run(certs, ops[..i]), ops[i])
  }

  /** Main result: in every run, whatever the clients answer, each user, present or gone, has
      taken exactly the data up to its byte count, the headers once and before any data, and
      the end at most once and with all the data. */
  lemma {:induction false} RunOk(certs: bool, ops: seq<Op>)
    requires TimelyRun(certs, ops)
    ensures Inv(Run(certs, ops))
  {
    hide Step, Timely, UserOk;
    if ops != [] {
      hide Inv;
      var n := |ops| - 1;
      forall i | 0 <= i < n ensures Timely(Run(certs, ops[..n][..i]), ops[..n][i]) {
        assert ops[..n][..i] == ops[..i];
        assert Timely(Run(certs, ops[..i]), ops[i]);
      }
      RunOk(certs, ops[..n]);
      assert Timely(Run(certs, ops[..n]), ops[n]);
      StepOk(Run(certs, ops[..n]), ops[n]);
    }
  }
}

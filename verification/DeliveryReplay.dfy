/** What a client that asks for replay is sent again (content/llcache.c): everything but the
    certificates, which are past once they were sent. */
module DeliveryReplay {
  import opened Options
  import opened FetchStates
  import opened Delivery

  /** The event that is due to a user first, if any. */
  function NextEvent(o: Obj, u: User): Option<Event> {
    var starting := u.state == INIT && o.state > INIT;
    var state := if starting then HEADERS else u.state;
    if starting && o.certs then Some(GotCerts)
    else if state == HEADERS && o.state > HEADERS then Some(HadHeaders)
    else if state == DATA && o.state >= DATA && |o.source| > u.bytes then Some(HadData(o.source[u.bytes..]))
    else if state == DATA && o.state > DATA then Some(Done)
    else None
  }

  /** Delivery sends that event first, and none exactly if none is due. */
  lemma FirstSent(o: Obj, u: User, ask: Clients)
    ensures var u' := Deliver(o, u, ask).0; var e := NextEvent(o, u);
            && u.log <= u'.log && (u'.log == u.log <==> e.None?)
            && (e.Some? ==> u'.log[|u.log|] == Sent(e.value, ask(u.id, |u.log|).answer))
  {
    hide Begin, TellHeaders, TellData, TellDone;
    BeginSends(o, u, ask);
    var (u1, v1) := Begin(o, u, ask);
    HeadersSends(o, u1, ask);
    var (u2, v2) := TellHeaders(o, u1, ask);
    DataSends(o, u2, ask);
    var (u3, v3) := TellData(o, u2, ask);
    DoneSends(o, u3, ask);
  }

  /** What one of the four parts of a delivery does to the user. */
  ghost predicate Tells(u: User, r: (User, Verdict), due: bool, e: Event, ask: Clients) {
    && (!due ==> r == (u, Continue))
    && (due ==> r.0.id == u.id && r.0.log == u.log + [Sent(e, ask(u.id, |u.log|).answer)])
  }

  lemma BeginSends(o: Obj, u: User, ask: Clients)
    ensures var starting := u.state == INIT && o.state > INIT; var r := Begin(o, u, ask);
            && Tells(u, (r.0.(state := u.state), r.1), starting && o.certs, GotCerts, ask)
            && r.0.bytes == u.bytes && r.0.state == if starting then HEADERS else u.state
  {
  }

  lemma HeadersSends(o: Obj, u: User, ask: Clients)
    ensures Tells(u, TellHeaders(o, u, ask), u.state == HEADERS && o.state > HEADERS, HadHeaders, ask)
  {
  }

  lemma DataSends(o: Obj, u: User, ask: Clients)
    ensures var due := u.state == DATA && o.state >= DATA && |o.source| > u.bytes;
            due ==> Tells(u, TellData(o, u, ask), true, HadData(o.source[u.bytes..]), ask)
    ensures !(u.state == DATA && o.state >= DATA && |o.source| > u.bytes) ==> TellData(o, u, ask) == (u, Continue)
  {
  }

  lemma DoneSends(o: Obj, u: User, ask: Clients)
    ensures Tells(u, TellDone(o, u, ask), u.state == DATA && o.state > DATA, Done, ask)
  {
  }

  /** A client that asks for replay is due the very event again that it was sent, exactly if
      that was not its certificates. */
  lemma ReplayExact(o: Obj, u: User, ask: Clients)
    requires Deliver(o, u, ask).1 == Skip
    ensures var u' := Deliver(o, u, ask).0;
            u'.log != [] && var last := u'.log[|u'.log| - 1];
            last.answer == NeedData && (NextEvent(o, u') == Some(last.event) <==> last.event != GotCerts)
  {
  }

  // ---------------------------------------------------------------- whole runs

  /** How often an event was sent, whatever the answer. */
  function Sends(log: seq<Sent>, e: Event): nat {
    if log == [] then 0 else Sends(log[..|log| - 1], e) + (if log[|log| - 1].event == e then 1 else 0)
  }

  lemma SendsOne(log: seq<Sent>, s: Sent, e: Event)
    ensures Sends(log + [s], e) == Sends(log, e) + if s.event == e then 1 else 0
  {
    assert (log + [s])[..|log|] == log;
  }

  /** Certificates are sent on the way out of the first state. */
  predicate CertsOk(u: User) {
    Sends(u.log, GotCerts) <= if u.state == INIT then 0 else 1
  }

  lemma DeliverCerts(o: Obj, u: User, ask: Clients)
    requires CertsOk(u)
    ensures CertsOk(Deliver(o, u, ask).0)
  {
    hide Sends;
    SentOne(u, GotCerts, ask);
    var (u1, v1) := Begin(o, u, ask);
    SentOne(u1, HadHeaders, ask);
    var (u2, v2) := TellHeaders(o, u1, ask);
    if u2.bytes <= |o.source| { SentOne(u2, HadData(o.source[u2.bytes..]), ask); }
    var (u3, v3) := TellData(o, u2, ask);
    SentOne(u3, Done, ask);
  }

  lemma SentOne(u: User, e: Event, ask: Clients)
    ensures Sends(Tell(u, e, ask).log, GotCerts) == Sends(u.log, GotCerts) + if e == GotCerts then 1 else 0
  {
    hide Sends;
    SendsOne(u.log, Sent(e, ask(u.id, |u.log|).answer), GotCerts);
  }

  predicate AllCertsOk(us: seq<User>) {
    forall i :: 0 <= i < |us| ==> CertsOk(us[i])
  }

  lemma {:induction false} PassCerts(o: Obj, users: seq<User>, ask: Clients)
    requires AllCertsOk(users)
    ensures AllCertsOk(Pass(o, users, ask).0) && AllCertsOk(Pass(o, users, ask).1)
  {
    hide CertsOk, Deliver;
    if users != [] {
      assert CertsOk(users[0]);
      DeliverCerts(o, users[0], ask);
      PassCerts(o, users[1..], ask);
    }
  }

  /** In every run, whatever its answers, a user is sent the certificates at most once. */
  lemma {:induction false} CertsOnce(certs: bool, ops: seq<Op>)
    ensures AllCertsOk(Run(certs, ops).users) && AllCertsOk(Run(certs, ops).gone)
  {
    if ops != [] {
      hide CertsOk, Pass;
      var op := ops[|ops| - 1];
      var w := Run(certs, ops[..|ops| - 1]);
      CertsOnce(certs, ops[..|ops| - 1]);
      if op.Notify? { PassCerts(w.obj, w.users, op.ask); }
      if op.Join? { assert CertsOk(User(op.id, INIT, 0, [])) by { NothingSent(op.id); } }
    }
  }

  lemma NothingSent(id: nat)
    ensures CertsOk(User(id, INIT, 0, []))
  {
  }

  const Again: Clients := (u: nat, n: nat) => Reply(NeedData, false)

  /** A client that asks for its certificates again is sent nothing more, though it asked. */
  lemma CertsNotReplayed()
    ensures Run(true, [Header, Join(0), Notify(Again), Notify(Again)]).users
            == [User(0, HEADERS, 0, [Sent(GotCerts, NeedData)])]
  {
    var ops := [Header, Join(0), Notify(Again), Notify(Again)];
    assert ops[..3] == [Header, Join(0), Notify(Again)] && ops[..3][..2] == [Header, Join(0)];
    assert ops[..3][..2][..1] == [Header] && [Header][..0] == [];
    var o := Obj(HEADERS, [], true);
    var u := User(0, INIT, 0, []);
    assert Run(true, [Header]) == World(o, [], []);
    assert Run(true, [Header, Join(0)]) == World(o, [u], []);
    var u1 := User(0, HEADERS, 0, [Sent(GotCerts, NeedData)]);
    assert u.log + [Sent(GotCerts, NeedData)] == u1.log;
    assert Begin(o, u, Again) == (u1, Skip);
    assert Deliver(o, u, Again) == (u1, Skip);
    assert [u][1..] == [];
    assert Pass(o, [], Again) == ([], []);
    assert Pass(o, [u], Again) == ([u1] + [], []);
    assert Deliver(o, u1, Again) == (u1, Continue);
    assert [u1][1..] == [];
    assert Pass(o, [u1], Again) == ([u1] + [], []);
  }
}

/** That a pass over the users serves them all (llcache_object_notify_users): a client that asks
    for replay, or that leaves in peace, does not keep those after it from their events. */
module DeliveryFairness {
  import opened Options
  import opened FetchStates
  import opened Delivery
  import opened DeliveryReplay

  /** What a user last replied in a delivery that made `w` of it; silence is consent. */
  function LastReply(u: User, w: User, ask: Clients): Reply {
    if |w.log| > |u.log| then ask(u.id, |w.log| - 1) else Reply(Okay, false)
  }

  /** A reply after which the pass goes on: no error, and no failure on leaving. */
  predicate Bearable(r: Reply) {
    if r.quits then r.answer == Okay else r.answer != Error
  }

  /** The verdict that a reply asks for. */
  function Judged(r: Reply): Verdict {
    if r.quits then Gone(r.answer != Okay)
    else match r.answer case Okay => Continue case NeedData => Skip case Error => Abort
  }

  /** `w` is `u` after it was told what was due: first the event due first, then more as long as
      it agreed and stayed.  The log holds what it answered. */
  ghost predicate Told(o: Obj, u: User, w: User, ask: Clients) {
    && w.id == u.id && u.log <= w.log
    && (forall n :: |u.log| <= n < |w.log| ==> w.log[n].answer == ask(u.id, n).answer)
    && (forall n :: |u.log| <= n < |w.log| - 1 ==> ask(u.id, n) == Reply(Okay, false))
    && match NextEvent(o, u)
       case None => w.log == u.log
       case Some(e) => |w.log| > |u.log| && w.log[|u.log|].event == e
  }

  /** What a part of a delivery does: nothing, or one event and the verdict on its reply. */
  ghost predicate Part(u: User, r: (User, Verdict), ask: Clients) {
    && r.0.id == u.id
    && if r.0.log == u.log then r.1 == Continue
       else
         && |r.0.log| == |u.log| + 1 && u.log <= r.0.log
         && r.0.log[|u.log|].answer == ask(u.id, |u.log|).answer && r.1 == Judged(ask(u.id, |u.log|))
  }

  lemma PartsAre(o: Obj, u: User, ask: Clients)
    ensures Part(u, Begin(o, u, ask), ask) && Part(u, TellHeaders(o, u, ask), ask)
    ensures Part(u, TellData(o, u, ask), ask) && Part(u, TellDone(o, u, ask), ask)
  {
  }

  /** So far all went well: whatever was told since `u` was agreed to. */
  ghost predicate Agreed(u: User, w: User, ask: Clients) {
    && w.id == u.id && u.log <= w.log
    && (forall n :: |u.log| <= n < |w.log| ==> w.log[n].answer == ask(u.id, n).answer)
    && (forall n :: |u.log| <= n < |w.log| ==> ask(u.id, n) == Reply(Okay, false))
  }

  /** Then one part more. */
  ghost predicate Ended(u: User, r: (User, Verdict), ask: Clients) {
    && r.0.id == u.id && u.log <= r.0.log
    && (forall n :: |u.log| <= n < |r.0.log| ==> r.0.log[n].answer == ask(u.id, n).answer)
    && (forall n :: |u.log| <= n < |r.0.log| - 1 ==> ask(u.id, n) == Reply(Okay, false))
    && r.1 == Judged(LastReply(u, r.0, ask))
  }

  lemma OnePart(u: User, w: User, r: (User, Verdict), ask: Clients)
    requires Agreed(u, w, ask) && Part(w, r, ask)
    ensures Ended(u, r, ask) && (r.1.Continue? ==> Agreed(u, r.0, ask))
  {
  }

  /** The verdict on a user is what its last reply asks for: to go on exactly if it agreed to
      everything, to skip it exactly if it asked for replay and stayed, to end the pass exactly
      if it answered with an error and stayed, and it is gone exactly if it left. */
  lemma VerdictExact(o: Obj, u: User, ask: Clients)
    ensures var (w, v) := Deliver(o, u, ask); Told(o, u, w, ask) && v == Judged(LastReply(u, w, ask))
  {
    hide Begin, TellHeaders, TellData, TellDone, Agreed, Part, Ended;
    assert Agreed(u, u, ask) by { Silent(u, ask); }
    PartsAre(o, u, ask);
    var (u1, v1) := Begin(o, u, ask);
    OnePart(u, u, (u1, v1), ask);
    PartsAre(o, u1, ask);
    var (u2, v2) := TellHeaders(o, u1, ask);
    if v1.Continue? { OnePart(u, u1, (u2, v2), ask); }
    PartsAre(o, u2, ask);
    var (u3, v3) := TellData(o, u2, ask);
    if v1.Continue? && v2.Continue? { OnePart(u, u2, (u3, v3), ask); }
    PartsAre(o, u3, ask);
    if v1.Continue? && v2.Continue? && v3.Continue? { OnePart(u, u3, TellDone(o, u3, ask), ask); }
    assert Ended(u, Deliver(o, u, ask), ask);
    FirstSent(o, u, ask);
    EndedTold(o, u, Deliver(o, u, ask), ask);
  }

  lemma Silent(u: User, ask: Clients)
    ensures Agreed(u, u, ask)
  {
  }

  lemma EndedTold(o: Obj, u: User, r: (User, Verdict), ask: Clients)
    requires Ended(u, r, ask)
    requires r.0.log == u.log <==> NextEvent(o, u).None?
    requires NextEvent(o, u).Some? ==> r.0.log[|u.log|].event == NextEvent(o, u).value
    ensures Told(o, u, r.0, ask) && r.1 == Judged(LastReply(u, r.0, ask))
  {
  }

  /** What a served user is left with: if it agreed to everything it has caught up, and if it
      asked for replay the same event is due to it again, certificates apart. */
  ghost predicate Served(o: Obj, u: User, w: User, ask: Clients) {
    && Told(o, u, w, ask) && UserOk(o, w)
    && (LastReply(u, w, ask) == Reply(Okay, false) ==> CaughtUp(o, w))
    && (LastReply(u, w, ask) == Reply(NeedData, false) ==>
          && w.log != [] && var e := w.log[|w.log| - 1].event;
          (NextEvent(o, w) == Some(e) <==> e != GotCerts))
  }

  lemma DeliverServes(o: Obj, u: User, ask: Clients)
    requires UserOk(o, u) && o.state <= COMPLETE
    ensures Served(o, u, Deliver(o, u, ask).0, ask)
  {
    hide Deliver, Told, UserOk, CaughtUp, NextEvent;
    VerdictExact(o, u, ask);
    DeliverOk(o, u, ask);
    if Deliver(o, u, ask).1 == Skip { ReplayExact(o, u, ask); }
  }

  /** Those of the users reached that stay, and those that leave. */
  function Staying(us: seq<User>, ws: seq<User>, ask: Clients): seq<User>
    requires |us| >= |ws|
  {
    if ws == [] then []
    else (if LastReply(us[0], ws[0], ask).quits then [] else [ws[0]]) + Staying(us[1..], ws[1..], ask)
  }

  function Leaving(us: seq<User>, ws: seq<User>, ask: Clients): seq<User>
    requires |us| >= |ws|
  {
    if ws == [] then []
    else (if LastReply(us[0], ws[0], ask).quits then [ws[0]] else []) + Leaving(us[1..], ws[1..], ask)
  }

  /** `ws` are the users that a pass reached, and how it left them: it went on from each but the
      last, and stopped short of the end exactly if the last one's reply was not bearable. */
  ghost predicate Reached(o: Obj, us: seq<User>, ws: seq<User>, ask: Clients) {
    && |ws| <= |us|
    && (forall i :: 0 <= i < |ws| ==> Served(o, us[i], ws[i], ask))
    && (forall i :: 0 <= i < |ws| - 1 ==> Bearable(LastReply(us[i], ws[i], ask)))
    && (|ws| < |us| ==> ws != [] && !Bearable(LastReply(us[|ws| - 1], ws[|ws| - 1], ask)))
  }

  /** Main result: a pass serves the users in turn, whatever they answer, up to the first that
      answers with an error or leaves with a failure.  The users that stay keep their order, those
      not reached are as they were, and the pass fails exactly if there was such a reply. */
  lemma {:induction false} PassServes(o: Obj, us: seq<User>, ask: Clients) returns (ws: seq<User>)
    requires AllOk(o, us) && o.state <= COMPLETE
    ensures Reached(o, us, ws, ask)
    ensures Pass(o, us, ask).0 == Staying(us, ws, ask) + us[|ws|..] && Pass(o, us, ask).1 == Leaving(us, ws, ask)
    ensures PassFails(o, us, ask) <==> ws != [] && !Bearable(LastReply(us[|ws| - 1], ws[|ws| - 1], ask))
  {
    hide UserOk, Deliver, Served, LastReply;
    if us == [] {
      ws := [];
      assert us[0..] == [];
    } else {
      assert UserOk(o, us[0]);
      DeliverServes(o, us[0], ask);
      VerdictExact(o, us[0], ask);
      var (w, v) := Deliver(o, us[0], ask);
      var rest := [];
      if !v.Abort? && v != Gone(true) { rest := PassServes(o, us[1..], ask); }
      ws := [w] + rest;
      ReachedFirst(o, us, w, rest, ask);
      SplitFirst(us, w, rest, ask);
      var after := Staying(us[1..], rest, ask) + us[1..][|rest|..];
      assert [] + after == after && [] + Leaving(us[1..], rest, ask) == Leaving(us[1..], rest, ask);
    }
  }

  /** The first user reached, and those reached after it, if the pass went on. */
  lemma ReachedFirst(o: Obj, us: seq<User>, w: User, rest: seq<User>, ask: Clients)
    requires us != [] && Served(o, us[0], w, ask)
    requires if Bearable(LastReply(us[0], w, ask)) then Reached(o, us[1..], rest, ask) else rest == []
    ensures Reached(o, us, [w] + rest, ask)
  {
    hide Served, LastReply, Bearable;
    var ws := [w] + rest;
    assert forall i :: 1 <= i < |ws| ==> us[i] == us[1..][i - 1] && ws[i] == rest[i - 1];
  }

  lemma SplitFirst(us: seq<User>, w: User, rest: seq<User>, ask: Clients)
    requires us != [] && |rest| < |us|
    ensures var ws, quits := [w] + rest, LastReply(us[0], w, ask).quits;
            && us[|ws|..] == us[1..][|rest|..]
            && Staying(us, ws, ask) + us[|ws|..] ==
               (if quits then [] else [w]) + (Staying(us[1..], rest, ask) + us[1..][|rest|..])
            && Leaving(us, ws, ask) == (if quits then [w] else []) + Leaving(us[1..], rest, ask)
  {
    hide LastReply;
    assert ([w] + rest)[1..] == rest;
  }

  /** In particular a pass whose clients neither answer with an error nor leave with a failure
      serves every user, however many of them ask for replay. */
  lemma NobodyStarves(o: Obj, us: seq<User>, ask: Clients) returns (ws: seq<User>)
    requires AllOk(o, us) && o.state <= COMPLETE
    requires forall i, n :: 0 <= i < |us| && |us[i].log| <= n ==> Bearable(ask(us[i].id, n))
    ensures |ws| == |us| && forall i :: 0 <= i < |us| ==> Served(o, us[i], ws[i], ask)
    ensures Pass(o, us, ask).0 == Staying(us, ws, ask) && Pass(o, us, ask).1 == Leaving(us, ws, ask)
    ensures !PassFails(o, us, ask)
  {
    hide Served, Pass, PassFails, UserOk, Staying, Leaving, Bearable;
    ws := PassServes(o, us, ask);
    if ws != [] {
      var i := |ws| - 1;
      SilenceBearable();
      assert Bearable(LastReply(us[i], ws[i], ask));
    }
    assert us[|us|..] == [] && Staying(us, ws, ask) + [] == Staying(us, ws, ask);
  }

  lemma SilenceBearable()
    ensures Bearable(Reply(Okay, false))
  {
  }
}

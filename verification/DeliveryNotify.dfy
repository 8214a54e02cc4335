/** Cache objects in memory (content/llcache.c): handles whose fields are moved on before each
    callback and back when a client asks for replay, and the growing source buffer. */
module DeliveryNotify {
  import opened FetchStates
  import opened Delivery
  import opened DeliveryFairness

  class Handle {
    const id: nat
    var state: nat
    var bytes: nat
    var log: seq<Sent>

    constructor (id: nat)
      ensures View() == User(id, INIT, 0, [])
    {
      this.id := id;
      state := INIT;
      bytes := 0;
      log := [];
    }

    function View(): User
      reads this
    {
      User(id, state, bytes, log)
    }

    /** Call the client; what it is told and answers goes into the log. */
    method Callback(e: Event, ask: Clients) returns (r: Reply)
      modifies this`log
      ensures r == ask(id, |old(log)|)
      ensures log == old(log) + [Sent(e, r.answer)]
    {
      r := ask(id, |log|);
      log := log + [Sent(e, r.answer)];
    }
  }

  /** Handles at distinct places. */
  ghost predicate Distinct(hs: seq<Handle>) {
    forall i, j :: 0 <= i < j < |hs| ==> hs[i] != hs[j]
  }

  ghost function Views(hs: seq<Handle>): (us: seq<User>)
    reads hs
    ensures |us| == |hs| && forall i :: 0 <= i < |hs| ==> us[i] == hs[i].View()
  {
    seq(|hs|, i requires 0 <= i < |hs| reads hs => hs[i].View())
  }

  class CacheObject {
    var state: nat
    var data: array<Byte>
    var len: nat
    var certs: bool
    var users: seq<Handle>

    ghost predicate Valid()
      reads this, data
    {
      len <= data.Length && Distinct(users)
    }

    ghost function View(): Obj
      reads this, data
      requires Valid()
    {
      Obj(state, data[..len], certs)
    }

    constructor (certs: bool)
      ensures Valid() && View() == Obj(INIT, [], certs) && users == [] && fresh(data)
    {
      state := INIT;
      data := new Byte[0];
      len := 0;
      this.certs := certs;
      users := [];
    }

    /** Room for `extra` more bytes, and one to spare. */
    method Grow(extra: nat)
      requires Valid()
      modifies this`data
      ensures Valid() && View() == old(View()) && (data == old(data) || fresh(data))
      ensures len + extra < data.Length
    {
      hide Distinct;
      if len + extra >= data.Length {
        var bigger := new Byte[len + extra + 64 * 1024];
        forall i | 0 <= i < len { bigger[i] := data[i]; }
        assert bigger[..len] == data[..len];
        data := bigger;
      }
    }

    /** llcache_fetch_process_data: a larger buffer when this one would be full, then the chunk. */
    method ProcessData(chunk: seq<Byte>)
      requires Valid()
      modifies this`state, this`data, this`len, data
      ensures Valid() && (data == old(data) || fresh(data))
      ensures View() == Step(World(old(View()), [], []), Chunk(chunk)).obj
      ensures len < data.Length
    {
      hide Distinct;
      state := DATA;
      Grow(|chunk|);
      ghost var was := data[..len];
      forall i | 0 <= i < |chunk| { data[len + i] := chunk[i]; }
      len := len + |chunk|;
      assert data[..len] == was + chunk;
    }

    /** The INIT state: on to HEADERS, with any certificates. */
    method Begin(h: Handle, ask: Clients) returns (v: Verdict)
      requires Valid()
      modifies h
      ensures (h.View(), v) == Delivery.Begin(View(), old(h.View()), ask)
      ensures if h.log == old(h.log) then v == Continue else v == Judged(ask(h.id, |old(h.log)|))
    {
      v := Continue;
      if h.state == INIT && state > INIT {
        h.state := HEADERS;
        if certs {
          var r := h.Callback(GotCerts, ask);
          v := Judged(r);
          if r.answer == NeedData { h.state := HEADERS; }
        }
      }
    }

    method TellHeaders(h: Handle, ask: Clients) returns (v: Verdict)
      requires Valid()
      modifies h
      ensures (h.View(), v) == Delivery.TellHeaders(View(), old(h.View()), ask)
      ensures if h.log == old(h.log) then v == Continue else v == Judged(ask(h.id, |old(h.log)|))
    {
      v := Continue;
      if h.state == HEADERS && state > HEADERS {
        h.state := DATA;
        var r := h.Callback(HadHeaders, ask);
        v := Judged(r);
        if r.answer == NeedData { h.state := HEADERS; }
      }
    }

    method TellData(h: Handle, ask: Clients) returns (v: Verdict)
      requires Valid()
      modifies h
      ensures (h.View(), v) == Delivery.TellData(View(), old(h.View()), ask)
      ensures if h.log == old(h.log) then v == Continue else v == Judged(ask(h.id, |old(h.log)|))
    {
      v := Continue;
      if h.state == DATA && state >= DATA && len > h.bytes {
        var orig := h.bytes;
        h.bytes := len;
        assert data[..len][orig..] == data[orig..len];
        var r := h.Callback(HadData(data[orig..len]), ask);
        v := Judged(r);
        if r.answer == NeedData { h.bytes := orig; }
      }
    }

    method TellDone(h: Handle, ask: Clients) returns (v: Verdict)
      requires Valid()
      modifies h
      ensures (h.View(), v) == Delivery.TellDone(View(), old(h.View()), ask)
      ensures if h.log == old(h.log) then v == Continue else v == Judged(ask(h.id, |old(h.log)|))
    {
      v := Continue;
      if h.state == DATA && state > DATA {
        h.state := COMPLETE;
        var r := h.Callback(Done, ask);
        v := Judged(r);
        if r.answer == NeedData { h.state := DATA; }
      }
    }

    method Deliver(h: Handle, ask: Clients) returns (v: Verdict)
      requires Valid()
      modifies h
      ensures (h.View(), v) == Delivery.Deliver(View(), old(h.View()), ask)
      ensures Told(View(), old(h.View()), h.View(), ask) && v == Judged(LastReply(old(h.View()), h.View(), ask))
    {
      hide Delivery.Begin, Delivery.TellHeaders, Delivery.TellData, Delivery.TellDone, Told, LastReply;
      VerdictExact(View(), h.View(), ask);
      v := Begin(h, ask);
      if !v.Continue? { return; }
      v := TellHeaders(h, ask);
      if !v.Continue? { return; }
      v := TellData(h, ask);
      if !v.Continue? { return; }
      v := TellDone(h, ask);
    }

    /** One turn of the pass: the user at a place is told what is due, and removed if it quits. */
    method NotifyOne(i: nat, ask: Clients) returns (v: Verdict)
      requires Valid() && i < |users|
      modifies this`users, users[i]
      ensures Valid() && View() == old(View())
      ensures forall h :: h in users ==> h in old(users)
      ensures var was := old(Views(users));
              && v == Delivery.Deliver(View(), was[i], ask).1
              && Views(users) == if v.Gone? then was[..i] + was[i + 1..]
                  else was[i := Delivery.Deliver(View(), was[i], ask).0]
    {
      hide Delivery.Deliver, Distinct;
      Parted(users, i);
      v := Deliver(users[i], ask);
      if v.Gone? {
        users := users[..i] + users[i + 1..];
      }
    }

    /** llcache_object_notify_users: one pass over the users; a client that quits is removed,
        and an error stops the pass. */
    method NotifyUsers(ask: Clients) returns (failed: bool)
      requires Valid()
      modifies this`users, users
      ensures Valid() && View() == old(View())
      ensures forall h :: h in users ==> h in old(users)
      ensures Views(users) == Pass(View(), old(Views(users)), ask).0
      ensures failed == PassFails(View(), old(Views(users)), ask)
    {
      hide Delivery.Deliver, Pass, PassFails, Distinct;
      var i := 0;
      failed := false;
      ghost var o := View();
      ghost var us := Views(users);
      ghost var all := Pass(o, us, ask).0;
      assert us[..0] == [] && us[0..] == us;
      while i < |users| && !failed
        invariant Valid() && View() == o && us == Views(users) && i <= |us|
        invariant forall h :: h in users ==> h in old(users)
        invariant all == us[..i] + (if failed then us[i..] else Pass(o, us[i..], ask).0)
        invariant PassFails(o, old(Views(users)), ask) == (failed || PassFails(o, us[i..], ask))
        decreases |users| - i, !failed
      {
        PassStep(o, us, i, ask);
        assert users[i] in users;
        var v := NotifyOne(i, ask);
        failed := v.Abort? || v == Gone(true);
        us := Views(users);
        if !v.Gone? { i := i + 1; }
      }
      PassEmpty(o, ask);
      assert us == us[..i] + us[i..];
    }
  }

  lemma PassEmpty(o: Obj, ask: Clients)
    ensures Pass(o, [], ask) == ([], []) && !PassFails(o, [], ask)
  {
  }

  /** One user of a pass. */
  lemma PassStep(o: Obj, us: seq<User>, i: nat, ask: Clients)
    requires i < |us|
    ensures var (u, v) := Delivery.Deliver(o, us[i], ask);
            var us' := if v.Gone? then us[..i] + us[i + 1..] else us[i := u];
            var j := if v.Gone? then i else i + 1;
            var stop := v.Abort? || v == Gone(true);
            && us[..i] + Pass(o, us[i..], ask).0 == us'[..j] + (if stop then us'[j..] else Pass(o, us'[j..], ask).0)
            && PassFails(o, us[i..], ask) == (stop || PassFails(o, us'[j..], ask))
  {
    hide Delivery.Deliver;
    var (u, v) := Delivery.Deliver(o, us[i], ask);
    var us' := if v.Gone? then us[..i] + us[i + 1..] else us[i := u];
    var j := if v.Gone? then i else i + 1;
    assert us[i..][1..] == us[i + 1..] == us'[j..];
    assert us'[..j] == us[..i] + if v.Gone? then [] else [u];
  }

  /** A handle of a list without repetition is in neither part beside it. */
  lemma Parted(hs: seq<Handle>, i: nat)
    requires i < |hs| && Distinct(hs)
    ensures forall k :: 0 <= k < |hs| && k != i ==> hs[k] != hs[i]
    ensures Distinct(hs[..i] + hs[i + 1..])
  {
  }
}

/** Runs that show why CacheLifetime says no more: an object without body can be destroyed under
    its user once it is written to the store, and a count can be too high. */
module CacheLimits {
  import opened Options
  import opened FetchStates
  import opened CacheState
  import opened CacheLifetime

  const Cfg: Config := Config(1, 5)

  /** A request that may be cached and whose fetch starts. */
  function Request(isFresh: bool): Env {
    Env(true, None, isFresh, false, true, 7, false)
  }

  function First(): Obj {
    Obj("u", 7, INIT, true, None, 0, false, false, 0, 0, 1, false, false, false, 0, 1)
  }

  lemma RunStep(cfg: Config, ops: seq<Op>, op: Op)
    ensures Run(cfg, ops + [op]) == Step(Run(cfg, ops), cfg, op)
  {
    assert (ops + [op])[..|ops|] == ops;
  }

  lemma Opened()
    ensures Run(Cfg, [Open(0, "u", Request(true))]) == Cache(map[0 := First()], [0], [], map[0 := 0], 1, [0])
  {
    RunStep(Cfg, [], Open(0, "u", Request(true)));
    assert [] + [Open(0, "u", Request(true))] == [Open(0, "u", Request(true))];
  }

  const Everything: Id -> bool := (id: Id) => true

  /** An empty response, written to the store, then asked for again when the store has lost it:
      the first client's object is gone. */
  const EmptyBody: seq<Op> :=
    [Open(0, "u", Request(true))] + [Got(0, Header)] + [Got(0, Finished)] + [Write(Everything)]
    + [Open(1, "u", Request(true))]

  lemma EmptyBodyDestroyed()
    ensures var s := Run(Cfg, EmptyBody); 0 in s.users && s.users[0] !in s.objects
  {
    var a := [Open(0, "u", Request(true))];
    Opened();
    RunStep(Cfg, a, Got(0, Header));
    var b := a + [Got(0, Header)];
    assert Run(Cfg, b) == Cache(map[0 := First().(state := HEADERS)], [0], [], map[0 := 0], 1, [0]);
    RunStep(Cfg, b, Got(0, Finished));
    var o := First().(state := COMPLETE, fetching := false);
    var s2 := Cache(map[0 := o], [0], [], map[0 := 0], 1, [0]);
    assert Run(Cfg, b + [Got(0, Finished)]) == s2;
    RunStep(Cfg, b + [Got(0, Finished)], Write(Everything));
    var s3 := Persist(s2, Everything);
    assert s3.objects[0] == o.(disc := true);
    RunStep(Cfg, b + [Got(0, Finished)] + [Write(Everything)], Open(1, "u", Request(true)));
    assert Newest(s3.(hops := [0, 0]), "u", 0) == None;
    assert Newest(s3.(hops := [0, 0]), "u", 1) == Some(0);
  }

  /** A stale object with a body is validated; the client of the new object gives up, and that
      object is cleaned away with its candidate still set. */
  const GivenUp: seq<Op> :=
    [Open(0, "u", Request(true))] + [Got(0, Header)] + [Got(0, Data(1, false))] + [Got(0, Finished)]
    + [Open(1, "u", Request(false))]
    + [Quit(1)] + [Close(1)] + [Tidy(Cleaning(Everything, false, Everything, 0, 0, 0))]

  /** The first object, fetched with a body of one byte. */
  lemma FetchedOnce()
    ensures Run(Cfg, [Open(0, "u", Request(true))] + [Got(0, Header)] + [Got(0, Data(1, false))] + [Got(0, Finished)])
            == Cache(map[0 := First().(state := COMPLETE, len := 1, data := true, fetching := false)],
                     [0], [], map[0 := 0], 1, [0])
  {
    var a := [Open(0, "u", Request(true))];
    Opened();
    RunStep(Cfg, a, Got(0, Header));
    var h := a + [Got(0, Header)];
    assert Run(Cfg, h) == Cache(map[0 := First().(state := HEADERS)], [0], [], map[0 := 0], 1, [0]);
    var b := h + [Got(0, Data(1, false))];
    RunStep(Cfg, h, Got(0, Data(1, false)));
    var o2 := First().(state := DATA, len := 1, data := true);
    assert Run(Cfg, b) == Cache(map[0 := o2], [0], [], map[0 := 0], 1, [0]);
    RunStep(Cfg, b, Got(0, Finished));
  }

  /** The first object then counts as a candidate, though nobody points at it. */
  lemma CountTooHigh()
    ensures var s := Run(Cfg, GivenUp); 0 in s.objects && s.objects[0].count == 1 && Pointers(s.objects, 0) == {}
  {
    var a := [Open(0, "u", Request(true))] + [Got(0, Header)] + [Got(0, Data(1, false))] + [Got(0, Finished)];
    FetchedOnce();
    var o := First().(state := COMPLETE, len := 1, data := true, fetching := false);
    Validated(a, Cache(map[0 := o], [0], [], map[0 := 0], 1, [0]), o);
  }

  function Second(): Obj {
    First().(candidate := Some(0), origin := 1)
  }

  /** The first object, validated by the second. */
  function Validating(o: Obj): Cache {
    Cache(map[0 := o.(count := 1), 1 := Second()], [1, 0], [], map[0 := 0, 1 := 1], 2, [0, 0])
  }

  lemma Validates(s: Cache, o: Obj)
    requires o == First().(state := COMPLETE, len := 1, data := true, fetching := false)
    requires s == Cache(map[0 := o], [0], [], map[0 := 0], 1, [0])
    ensures Step(s, Cfg, Open(1, "u", Request(false))) == Validating(o)
  {
    var t := s.(hops := [0, 0]);
    assert Newest(t, "u", 0) == None;
    assert Newest(t, "u", 1) == Some(0);
  }

  lemma GivesUp(o: Obj)
    ensures var s := Validating(o);
            Step(Step(s, Cfg, Quit(1)), Cfg, Close(1)) == Put(s, 1, Complete(Second())).(users := map[0 := 0])
  {
    var s := Validating(o);
    assert Alone(s, 1);
    var t := Put(s, 1, Complete(Second()));
    assert Step(s, Cfg, Quit(1)) == t;
    assert t.users - {1} == map[0 := 0];
  }

  lemma Validated(c: seq<Op>, s3: Cache, o3: Obj)
    requires o3 == First().(state := COMPLETE, len := 1, data := true, fetching := false)
    requires s3 == Cache(map[0 := o3], [0], [], map[0 := 0], 1, [0]) && Run(Cfg, c) == s3
    ensures var s := Run(Cfg, c + [Open(1, "u", Request(false))] + [Quit(1)] + [Close(1)]
                              + [Tidy(Cleaning(Everything, false, Everything, 0, 0, 0))]);
            0 in s.objects && s.objects[0].count == 1 && Pointers(s.objects, 0) == {}
  {
    hide Run, Step, Validating, Pointers;
    var d := c + [Open(1, "u", Request(false))];
    RunStep(Cfg, c, Open(1, "u", Request(false)));
    Validates(s3, o3);
    RunStep(Cfg, d, Quit(1));
    RunStep(Cfg, d + [Quit(1)], Close(1));
    RunStep(Cfg, d + [Quit(1)] + [Close(1)], Tidy(Cleaning(Everything, false, Everything, 0, 0, 0)));
    TidiedUp(o3);
  }

  lemma TidiedUp(o: Obj)
    requires o.candidate == None
    ensures var clean := Cleaning(Everything, false, Everything, 0, 0, 0);
            var s := Step(Step(Step(Validating(o), Cfg, Quit(1)), Cfg, Close(1)), Cfg, Tidy(clean));
            0 in s.objects && s.objects[0].count == 1 && Pointers(s.objects, 0) == {}
  {
    hide Clean, Pointers;
    GivesUp(o);
    var s := Put(Validating(o), 1, Complete(Second())).(users := map[0 := 0]);
    Tidied(s, Cleaning(Everything, false, Everything, 0, 0, 0));
  }

  lemma Tidied(s: Cache, clean: Cleaning)
    requires s.objects.Keys == {0, 1} && s.cached == [1, 0] && s.uncached == [] && s.users == map[0 := 0]
    requires clean == Cleaning(Everything, false, Everything, 0, 0, 0) && s.objects[0].count == 1
    requires s.objects[1].count == 0 && !s.objects[1].fetching && s.objects[0].candidate == None
    ensures var s' := Clean(s, clean); 0 in s'.objects && s'.objects[0].count == 1 && Pointers(s'.objects, 0) == {}
  {
    var s1 := Destroy(s, Uncacheable(s));
    assert Uncacheable(s) == {};
    WithoutIs(s.cached, {});
    assert s1.objects == s.objects && 1 in s1.cached;
    var s2 := Destroy(s1, Stale(s1, Everything));
    assert Idle(s1, 1) && !Idle(s1, 0);
    assert Stale(s1, Everything) == {1};
    assert s2.objects.Keys == {0};
    var s4 := DropData(s2, 0);
    assert s4.objects.Keys == {0} && s4.objects[0] == s2.objects[0];
    assert Backed(s4, 0) == {};
    var s5 := Destroy(s4, Backed(s4, 0));
    assert s5.objects == s4.objects;
    assert Unbacked(s5, 0) == {};
  }
}

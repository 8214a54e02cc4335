/** What invalidating a URL does to the backing store: an entry out of use is gone at once, and
    one in use as soon as its last reference is released; it does not come back unless stored. */
module StoreInvalidation {
  import opened StoreModel
  import opened StoreInvariant
  import opened StoreRuns
  import opened StoreRefs

  /** The blocks that an element holds: its own, if it has one. */
  function Blocks(el: Elem): set<nat> {
    if el.block != 0 then {el.block} else {}
  }

  /** The separate files of a URL's elements that have no block. */
  predicate Separate(st: St, u: Url, key: (Kind, nat))
    requires u in st.entries
  {
    key.1 == u.ident && Get(st.entries[u], key.0).block == 0
  }

  /** Exactly the entry is gone, with its blocks, its files and its size. */
  ghost predicate Erased(st: St, st': St, u: Url)
    requires u in st.entries
  {
    && st'.entries == st.entries - {u}
    && st'.total == st.total - Sizes(st.entries[u])
    && (forall k :: Used(st', k) == Used(st, k) - Blocks(Get(st.entries[u], k)))
    && (forall key :: key in st'.own <==> key in st.own && !Separate(st, u, key))
    && (forall key :: key in st'.own ==> st'.own[key] == st.own[key])
    && st'.blocks == st.blocks
  }

  /** An entry out of use is gone after an invalidation, and neither element is found. */
  lemma InvalidateErases(st: St, u: Url, now: int)
    requires u in st.entries && !Pinned(st.entries[u])
    ensures var (st', r) := Invalidate(st, u, now);
            && r == Ok([]) && Erased(st, st', u)
            && forall k, later :: Fetch(st', u, k, later).1 == NotFound
  {
    var st' := Invalidate(st, u, now).0;
    var st1 := st.(entries := st.entries[u := Touch(st.entries[u], now)]);
    var st2 := InvalidateElem(st1, u, Meta);
    assert st'.entries == st.entries - {u};
    assert Used(st', Meta) == Used(st, Meta) - Blocks(st.entries[u].meta);
    assert Used(st', Data) == Used(st, Data) - Blocks(st.entries[u].data);
    assert forall key :: key in st'.own <==> key in st.own && !Separate(st, u, key);
  }

  /** An entry in use is only marked: it keeps its places and allocations. */
  lemma InvalidateMarks(st: St, u: Url, now: int)
    requires u in st.entries && Pinned(st.entries[u])
    ensures var (st', r) := Invalidate(st, u, now);
            && r == Ok([]) && u in st'.entries && st'.entries[u].invalid
            && st'.entries[u].data == st.entries[u].data && st'.entries[u].meta == st.entries[u].meta
            && st' == st.(entries := st.entries[u := st'.entries[u]])
  {
  }

  /** Exactly the elements of an entry in use are still fetched after its invalidation. */
  lemma FetchedAllTheSame(st: St, u: Url, now: int, k: Kind, later: int)
    requires Inv(st)
    ensures Fetch(Invalidate(st, u, now).0, u, k, later).1.Ok? <==>
              u in st.entries && Pinned(st.entries[u]) && OnDisc(st, u, k).Ok?
  {
    hide Inv, Fetch, ReadElem;
    var st' := Invalidate(st, u, now).0;
    if u in st.entries {
      if Pinned(st.entries[u]) {
        InvalidateMarks(st, u, now);
        hide Invalidate;
        DropKeeps(st, u, now);
        FetchKeeps(st', u, k, later);
        assert Unmoved(st, st', u, k);
      } else {
        InvalidateErases(st, u, now);
      }
    } else {
      assert Fetch(st', u, k, later).1 == NotFound by { Absent(st', u, k, later); }
    }
  }

  lemma Absent(st: St, u: Url, k: Kind, now: int)
    requires u !in st.entries
    ensures Fetch(st, u, k, now).1 == NotFound
  {
  }

  /** So what was stored and not released yet is fetched although it was invalidated. */
  lemma StoredIsStillFetched(st: St, u: Url, k: Kind, bytes: seq<Byte>, now: int, order: seq<Url>, later: int)
    requires Inv(st) && Fair(st, DoStore(u, k, bytes, now, order)) && Store(st, u, k, bytes, now, order).1.Ok?
    ensures Fetch(Invalidate(Store(st, u, k, bytes, now, order).0, u, now).0, u, k, later).1.Ok?
  {
    hide Inv, Fetch, Invalidate, ReadElem, UnsharedIdent, Oversize;
    StoreKeeps(st, u, k, bytes, now, order);
    assert Pinned(Store(st, u, k, bytes, now, order).0.entries[u]) by { JustStored(st, u, k, bytes, now, order); }
    FetchedAllTheSame(Store(st, u, k, bytes, now, order).0, u, now, k, later);
  }

  lemma JustStored(st: St, u: Url, k: Kind, bytes: seq<Byte>, now: int, order: seq<Url>)
    requires Store(st, u, k, bytes, now, order).1.Ok?
    ensures var st' := Store(st, u, k, bytes, now, order).0; u in st'.entries && Pinned(st'.entries[u])
  {
    hide Evict, Chosen, Pwrite;
  }

  // ---------------------------------------------------------------- whole runs

  predicate Stores(op: Op, u: Url) {
    op.DoStore? && op.u == u
  }

  /** The URL is not in the table, or marked. */
  predicate Dropped(st: St, u: Url) {
    u in st.entries ==> st.entries[u].invalid
  }

  lemma EntryDropped(st: St, u: Url, v: Url)
    requires Dropped(st, u) && v in st.entries
    ensures Dropped(InvalidateEntry(st, v), u)
  {
    InvalidateShape(st, v);
  }

  lemma {:induction false} EvictDropped(st: St, order: seq<Url>, i: nat, removed: nat, u: Url)
    requires Dropped(st, u) && i <= |order|
    ensures Dropped(EvictFrom(st, order, i, removed), u)
    decreases |order| - i
  {
    hide InvalidateEntry, Dropped;
    if i < |order| && order[i] in st.entries {
      EntryDropped(st, u, order[i]);
      if removed + Sizes(st.entries[order[i]]) <= st.hysteresis {
        EvictDropped(InvalidateEntry(st, order[i]), order, i + 1, removed + Sizes(st.entries[order[i]]), u);
      }
    }
  }

  lemma StoreDropped(st: St, op: Op, u: Url)
    requires Dropped(st, u) && op.DoStore? && op.u != u
    ensures Dropped(Step(st, op).0, u)
  {
    hide Chosen, EvictFrom, Put;
    var st1 := Evict(st, op.order);
    if st.total >= st.limit { EvictDropped(st, op.order, 0, 0, u); }
    if Target(st1, op.u, op.k).heap { Refused(st1, op); } else { PutShape(st1, op.u, op.k, op.bytes, op.now); }
  }

  /** What is in use is not overwritten. */
  lemma Refused(st: St, op: Op)
    requires op.DoStore? && Target(st, op.u, op.k).heap
    ensures Put(st, op.u, op.k, op.bytes, op.now) == (st, Permission)
  {
  }

  /** Only a store of the URL itself brings it back. */
  lemma StepDropped(st: St, op: Op, u: Url)
    requires Dropped(st, u) && !Stores(op, u)
    ensures Dropped(Step(st, op).0, u) && (u !in st.entries ==> u !in Step(st, op).0.entries)
  {
    hide Store, InvalidateEntry, FetchElem, ReleaseElem;
    match op
    case DoStore(v, k, bytes, now, order) =>
      StoreDropped(st, op, u);
      if u !in st.entries { StoreAbsent(st, op, u); }
    case DoFetch(_, _, _) =>
    case DoRelease(v, k, now) =>
      if v in st.entries {
        var e := Touch(st.entries[v], now);
        var st1 := st.(entries := st.entries[v := Set(e, k, ReleaseElem(Get(e, k)))]);
        InvalidateShape(st1, v);
      }
    case DoInvalidate(v, now) =>
      if v in st.entries { InvalidateShape(st.(entries := st.entries[v := Touch(st.entries[v], now)]), v); }
  }

  lemma StoreAbsent(st: St, op: Op, u: Url)
    requires op.DoStore? && op.u != u && u !in st.entries
    ensures u !in Step(st, op).0.entries
  {
    hide Chosen, EvictFrom, Put;
    var st1 := Evict(st, op.order);
    if st.total >= st.limit { EvictAbsent(st, op.order, 0, 0, u); }
    if Target(st1, op.u, op.k).heap { Refused(st1, op); } else { PutShape(st1, op.u, op.k, op.bytes, op.now); }
  }

  lemma {:induction false} EvictAbsent(st: St, order: seq<Url>, i: nat, removed: nat, u: Url)
    requires u !in st.entries && i <= |order|
    ensures u !in EvictFrom(st, order, i, removed).entries
    decreases |order| - i
  {
    hide InvalidateEntry;
    if i < |order| && order[i] in st.entries {
      InvalidateShape(st, order[i]);
      if removed + Sizes(st.entries[order[i]]) <= st.hysteresis {
        EvictAbsent(InvalidateEntry(st, order[i]), order, i + 1, removed + Sizes(st.entries[order[i]]), u);
      }
    }
  }

  predicate Unstored(ops: seq<Op>, u: Url) {
    forall i :: 0 <= i < |ops| ==> !Stores(ops[i], u)
  }

  lemma {:induction false} RunDropped(st: St, ops: seq<Op>, u: Url)
    requires Dropped(st, u) && Unstored(ops, u)
    ensures Dropped(Run(st, ops), u) && (u !in st.entries ==> u !in Run(st, ops).entries)
    decreases |ops|
  {
    hide Step, Dropped, Stores;
    if ops != [] {
      assert !Stores(ops[0], u);
      StepDropped(st, ops[0], u);
      assert forall i :: 0 <= i < |ops| - 1 ==> ops[1..][i] == ops[i + 1];
      RunDropped(Step(st, ops[0]).0, ops[1..], u);
    }
  }

  /** Main result: from an invalidation on, until the URL is stored again, it is in the table
      exactly as long as a reference to one of its elements is held.  Without one every fetch
      of it fails. */
  lemma InvalidatedIsGone(st: St, h: StoreRefs.Held, u: Url, now: int, ops: seq<Op>)
    requires Inv(st) && RefsOk(st, h)
    requires var st1 := Step(st, DoInvalidate(u, now)).0;
             FairRun(st1, ops) && CountedRun(st1, h, ops) && Unstored(ops, u)
    ensures var st1 := Step(st, DoInvalidate(u, now)).0;
            var st2, h2 := Run(st1, ops), RunHeld(st1, h, ops);
            && (u in st2.entries <==> Count(h2, u, Data) > 0 || Count(h2, u, Meta) > 0)
            && (Count(h2, u, Data) == 0 && Count(h2, u, Meta) == 0 ==>
                  forall k, later :: Fetch(st2, u, k, later).1 == NotFound)
  {
    hide Invalidate, Inv, RefsOk, Run, RunHeld, FairRun, CountedRun, Unstored;
    var op := DoInvalidate(u, now);
    var st1 := Step(st, op).0;
    StepKeeps(st, op);
    StepRefs(st, h, op);
    NowDropped(st, u, now);
    RunDropped(st1, ops, u);
    RunRefs(st1, h, ops);
  }

  lemma NowDropped(st: St, u: Url, now: int)
    ensures Dropped(Invalidate(st, u, now).0, u)
  {
    if u in st.entries {
      if Pinned(st.entries[u]) { InvalidateMarks(st, u, now); } else { InvalidateErases(st, u, now); }
    }
  }

  /** And once it is gone it stays away, whoever asks, until it is stored again. */
  lemma GoneStaysAway(st: St, u: Url, ops: seq<Op>)
    requires u !in st.entries && Unstored(ops, u)
    ensures forall k, later :: Fetch(Run(st, ops), u, k, later).1 == NotFound
  {
    hide Run, Unstored;
    RunDropped(st, ops, u);
  }
}

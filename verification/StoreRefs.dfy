/** References to the allocations of the backing store. */
module StoreRefs {
  import opened StoreModel
  import opened StoreInvariant
  import opened StoreRuns

  /** References that clients hold: one for every successful store or fetch of an element,
      less one for every release. */
  type Held = map<(Url, Kind), nat>

  function Count(h: Held, u: Url, k: Kind): nat {
    if (u, k) in h then h[(u, k)] else 0
  }

  function StepHeld(st: St, h: Held, op: Op): Held {
    match op
    case DoStore(u, k, _, _, _) => if Step(st, op).1.Ok? then h[(u, k) := Count(h, u, k) + 1] else h
    case DoFetch(u, k, _) => if Step(st, op).1.Ok? then h[(u, k) := Count(h, u, k) + 1] else h
    case DoRelease(u, k, _) => if Count(h, u, k) > 0 then h[(u, k) := Count(h, u, k) - 1] else h
    case DoInvalidate(_, _) => h
  }

  /** Whether an element has an allocation. */
  predicate Live(st: St, u: Url, k: Kind) {
    u in st.entries && Get(st.entries[u], k).heap
  }

  /** While an element has an allocation its count is the number of references held, and an
      element without one has none. */
  predicate RefOk(st: St, h: Held, u: Url, k: Kind) {
    if Live(st, u, k) then Get(st.entries[u], k).ref == Count(h, u, k) && 1 <= Count(h, u, k) < 256
    else Count(h, u, k) == 0
  }

  ghost predicate RefsOk(st: St, h: Held) {
    forall u, k :: RefOk(st, h, u, k)
  }

  /** A fetch asks that fewer than 255 references are held. */
  predicate Counted(h: Held, op: Op) {
    op.DoFetch? ==> Count(h, op.u, op.k) < 255
  }

  lemma FetchRefs(st: St, h: Held, u: Url, k: Kind, now: int)
    requires RefsOk(st, h) && Count(h, u, k) < 255
    ensures RefsOk(Fetch(st, u, k, now).0, StepHeld(st, h, DoFetch(u, k, now)))
  {
    hide ReadElem;
    var st', h' := Fetch(st, u, k, now).0, StepHeld(st, h, DoFetch(u, k, now));
    forall v, j ensures RefOk(st', h', v, j) {
      assert RefOk(st, h, v, j);
    }
  }

  lemma InvalidateRefs(st: St, h: Held, u: Url)
    requires RefsOk(st, h) && u in st.entries
    ensures RefsOk(InvalidateEntry(st, u), h)
  {
    hide InvalidateEntry;
    InvalidateShape(st, u);
    var st' := InvalidateEntry(st, u);
    forall v, j ensures RefOk(st', h, v, j) {
      assert RefOk(st, h, v, j);
    }
  }

  lemma ReleaseRefs(st: St, h: Held, u: Url, k: Kind, now: int)
    requires RefsOk(st, h)
    ensures RefsOk(Release(st, u, k, now).0, StepHeld(st, h, DoRelease(u, k, now)))
  {
    hide InvalidateEntry;
    var h' := StepHeld(st, h, DoRelease(u, k, now));
    assert RefOk(st, h, u, k);
    if u in st.entries {
      var e := Touch(st.entries[u], now);
      var st1 := st.(entries := st.entries[u := Set(e, k, ReleaseElem(Get(e, k)))]);
      forall v, j ensures RefOk(st1, h', v, j) {
        assert RefOk(st, h, v, j);
      }
      if st1.entries[u].invalid { InvalidateRefs(st1, h', u); }
    } else {
      assert h' == h;
    }
  }

  lemma {:induction false} EvictRefs(st: St, h: Held, order: seq<Url>, i: nat, removed: nat)
    requires RefsOk(st, h) && i <= |order|
    ensures RefsOk(EvictFrom(st, order, i, removed), h)
    decreases |order| - i
  {
    hide RefsOk, InvalidateEntry;
    if i < |order| && order[i] in st.entries {
      InvalidateRefs(st, h, order[i]);
      if removed + Sizes(st.entries[order[i]]) <= st.hysteresis {
        EvictRefs(InvalidateEntry(st, order[i]), h, order, i + 1, removed + Sizes(st.entries[order[i]]));
      }
    }
  }

  lemma StoreRefsOk(st: St, h: Held, u: Url, k: Kind, bytes: seq<Byte>, now: int, order: seq<Url>)
    requires RefsOk(st, h)
    ensures RefsOk(Store(st, u, k, bytes, now, order).0, StepHeld(st, h, DoStore(u, k, bytes, now, order)))
  {
    hide Chosen, WriteElem, Placed, EvictFrom;
    var st1 := Evict(st, order);
    if st.total >= st.limit { EvictRefs(st, h, order, 0, 0); }
    assert RefsOk(st1, h);
    assert RefOk(st1, h, u, k);
    if !Target(st1, u, k).heap {
      PutShape(st1, u, k, bytes, now);
      var st', h' := Put(st1, u, k, bytes, now).0, h[(u, k) := Count(h, u, k) + 1];
      assert StepHeld(st, h, DoStore(u, k, bytes, now, order)) == h';
      forall v, j ensures RefOk(st', h', v, j) {
        assert RefOk(st1, h, v, j);
      }
    }
  }

  /** Every operation keeps the counts true. */
  lemma StepRefs(st: St, h: Held, op: Op)
    requires RefsOk(st, h) && Counted(h, op)
    ensures RefsOk(Step(st, op).0, StepHeld(st, h, op))
  {
    hide RefsOk, Store, Fetch, Release, InvalidateEntry, StepHeld;
    match op
    case DoStore(u, k, bytes, now, order) => StoreRefsOk(st, h, u, k, bytes, now, order);
    case DoFetch(u, k, now) => FetchRefs(st, h, u, k, now);
    case DoRelease(u, k, now) => ReleaseRefs(st, h, u, k, now);
    case DoInvalidate(u, now) => DropRefs(st, h, u, now);
  }

  lemma DropRefs(st: St, h: Held, u: Url, now: int)
    requires RefsOk(st, h)
    ensures RefsOk(Invalidate(st, u, now).0, StepHeld(st, h, DoInvalidate(u, now)))
  {
    hide InvalidateEntry;
    if u in st.entries {
      var st1 := st.(entries := st.entries[u := Touch(st.entries[u], now)]);
      forall v, j ensures RefOk(st1, h, v, j) {
        assert RefOk(st, h, v, j);
      }
      InvalidateRefs(st1, h, u);
    }
  }

  ghost predicate CountedRun(st: St, h: Held, ops: seq<Op>)
    decreases |ops|
  {
    ops == [] || (Counted(h, ops[0]) && CountedRun(Step(st, ops[0]).0, StepHeld(st, h, ops[0]), ops[1..]))
  }

  function RunHeld(st: St, h: Held, ops: seq<Op>): Held
    decreases |ops|
  {
    if ops == [] then h else RunHeld(Step(st, ops[0]).0, StepHeld(st, h, ops[0]), ops[1..])
  }

  /** Over every run: the counts are true, an entry with a reference is in the table, and an
      entry marked invalid is there only as long as it has one. */
  lemma {:induction false} RunRefs(st: St, h: Held, ops: seq<Op>)
    requires Inv(st) && RefsOk(st, h) && FairRun(st, ops) && CountedRun(st, h, ops)
    ensures var st' := Run(st, ops); var h' := RunHeld(st, h, ops);
            && Inv(st') && RefsOk(st', h')
            && (forall u, k :: Count(h', u, k) > 0 ==> u in st'.entries)
            && (forall u :: u in st'.entries && st'.entries[u].invalid ==>
                Count(h', u, Data) > 0 || Count(h', u, Meta) > 0)
    decreases |ops|
  {
    hide Step, StepHeld, Fair, Counted, BlocksOk, TotalOk, DiscOk, NoCollision;
    if ops == [] {
      forall u, k ensures RefOk(st, h, u, k) {}
      forall u, k | Count(h, u, k) > 0 ensures u in st.entries {
        assert RefOk(st, h, u, k);
      }
      forall u | u in st.entries && st.entries[u].invalid ensures Count(h, u, Data) > 0 || Count(h, u, Meta) > 0 {
        assert RefOk(st, h, u, Data) && RefOk(st, h, u, Meta);
      }
    } else {
      StepKeeps(st, ops[0]);
      StepRefs(st, h, ops[0]);
      RunRefs(Step(st, ops[0]).0, StepHeld(st, h, ops[0]), ops[1..]);
    }
  }

  /** The allocation goes exactly with the last reference, and an entry marked invalid
      leaves the table with the last reference to either of its elements. */
  lemma ReleaseFrees(st: St, h: Held, u: Url, k: Kind, now: int)
    requires Inv(st) && RefsOk(st, h) && Count(h, u, k) > 0
    ensures var st' := Release(st, u, k, now).0; var h' := StepHeld(st, h, DoRelease(u, k, now));
            && u in st.entries && Live(st, u, k)
            && (Live(st', u, k) <==> Count(h, u, k) > 1)
            && (st.entries[u].invalid ==>
                  (u in st'.entries <==> Count(h', u, Data) > 0 || Count(h', u, Meta) > 0))
            && (!st.entries[u].invalid ==> u in st'.entries)
  {
    hide InvalidateEntry, BlocksOk, TotalOk, DiscOk, NoCollision;
    assert RefOk(st, h, u, Data) && RefOk(st, h, u, Meta) && RefOk(st, h, u, k);
    var e := Touch(st.entries[u], now);
    var st1 := st.(entries := st.entries[u := Set(e, k, ReleaseElem(Get(e, k)))]);
    InvalidateShape(st1, u);
  }
}

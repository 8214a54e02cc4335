/** Main results on the backing store: over every run it refines a map from (URL, kind) to
    bytes, its blocks and sizes are accounted for, and its references are safe. */
module StoreRuns {
  import opened StoreModel
  import opened StoreInvariant

  // ---------------------------------------------------------------- eviction

  /** Without what it must not lose: the entries an eviction leaves are those that were
      there, and every one in use is among them. */
  lemma {:induction false} EvictFromKeeps(st: St, order: seq<Url>, i: nat, removed: nat)
    requires Inv(st) && i <= |order|
    ensures var st' := EvictFrom(st, order, i, removed);
            && Inv(st') && Undisturbed(st, st') && st'.entries.Keys <= st.entries.Keys
            && forall u :: u in st.entries && Pinned(st.entries[u]) ==> u in st'.entries && SameHold(st, st', u)
    decreases |order| - i
  {
    hide Inv, Undisturbed, InvalidateEntry, Unmoved, SameHold;
    Still(st);
    if i < |order| && order[i] in st.entries {
      var u := order[i];
      var st1 := InvalidateEntry(st, u);
      InvalidateStep(st, u);
      if removed + Sizes(st.entries[u]) <= st.hysteresis {
        EvictFromKeeps(st1, order, i + 1, removed + Sizes(st.entries[u]));
        var st' := EvictFrom(st1, order, i + 1, removed + Sizes(st.entries[u]));
        UndisturbedThrough(st, st1, st');
        forall v | v in st.entries && Pinned(st.entries[v]) ensures v in st'.entries && SameHold(st, st', v) {
          HoldThrough(st, st1, st', v);
        }
      }
    }
  }

  /** The allocations of an entry and their reference counts are as they were. */
  predicate SameHold(st: St, st': St, u: Url) {
    u in st.entries && u in st'.entries ==>
      st'.entries[u].data == st.entries[u].data && st'.entries[u].meta == st.entries[u].meta
  }

  lemma InvalidateStep(st: St, u: Url)
    requires Inv(st) && u in st.entries
    ensures var st' := InvalidateEntry(st, u);
            && Inv(st') && Undisturbed(st, st') && st'.entries.Keys <= st.entries.Keys
            && st'.hysteresis == st.hysteresis
            && forall v :: v in st.entries && Pinned(st.entries[v]) ==> v in st'.entries && SameHold(st, st', v)
  {
    hide ReadElem, BlocksOk, TotalOk, DiscOk, Undisturbed, InvalidateEntry;
    InvalidateKeeps(st, u);
    InvalidateShape(st, u);
  }

  lemma InvalidateShape(st: St, u: Url)
    requires u in st.entries
    ensures var st' := InvalidateEntry(st, u);
            && st'.hysteresis == st.hysteresis
            && st'.entries == (if Pinned(st.entries[u]) then st.entries[u := st.entries[u].(invalid := true)]
                               else st.entries - {u})
  {
  }

  lemma Still(st: St)
    ensures Undisturbed(st, st) && forall u :: SameHold(st, st, u)
  {
  }

  lemma UndisturbedThrough(a: St, b: St, c: St)
    requires Undisturbed(a, b) && Undisturbed(b, c)
    ensures Undisturbed(a, c)
  {
    hide ReadElem;
    forall v, k | v in c.entries ensures Unmoved(a, c, v, k) {
      assert Unmoved(b, c, v, k) && Unmoved(a, b, v, k);
    }
  }

  lemma HoldThrough(a: St, b: St, c: St, v: Url)
    requires v in a.entries && Pinned(a.entries[v]) && v in b.entries && SameHold(a, b, v)
    requires Pinned(b.entries[v]) ==> v in c.entries && SameHold(b, c, v)
    ensures v in c.entries && SameHold(a, c, v)
  {
  }

  /** compar is a total preorder: entries in use come last, and of others the one that was used
      less often first, or if both were as often, the one used longer ago. */
  lemma ComparIsOrder(a: Entry, b: Entry, c: Entry)
    ensures Compar(a, a) == 0 && Compar(a, b) == -Compar(b, a)
    ensures Compar(a, b) <= 0 && Compar(b, c) <= 0 ==> Compar(a, c) <= 0
    ensures !Pinned(a) && Pinned(b) ==> Compar(a, b) < 0
    ensures !Pinned(a) && !Pinned(b) ==>
              (Compar(a, b) < 0 <==>
                 a.useCount < b.useCount || (a.useCount == b.useCount && a.lastUsed < b.lastUsed))
  {
  }

  /** The entries among the first `n` of the order that are not in use, and their sizes. */
  function Loose(entries: map<Url, Entry>, order: seq<Url>, n: nat): (set<Url>, nat)
    requires n <= |order|
  {
    if n == 0 then ({}, 0)
    else
      var (us, size) := Loose(entries, order, n - 1);
      var u := order[n - 1];
      if u in entries && !Pinned(entries[u]) then (us + {u}, size + Sizes(entries[u])) else (us, size)
  }

  function PrefixSize(entries: map<Url, Entry>, order: seq<Url>, n: nat): nat
    requires n <= |order|
  {
    if n == 0 then 0
    else PrefixSize(entries, order, n - 1) + (if order[n - 1] in entries then Sizes(entries[order[n - 1]]) else 0)
  }

  /** The state after the first `n` of the order have been processed. */
  ghost predicate Processed(st: St, order: seq<Url>, n: nat, st': St)
    requires n <= |order|
  {
    && st'.entries.Keys == st.entries.Keys - Loose(st.entries, order, n).0
    && st'.total == st.total - Loose(st.entries, order, n).1
    && st'.hysteresis == st.hysteresis
    && (forall u :: u in st'.entries ==> u in st.entries && st'.entries[u] == Marked(st.entries[u], u in order[..n]))
  }

  function Marked(e: Entry, m: bool): Entry {
    if m then e.(invalid := true) else e
  }

  lemma {:induction false} LooseInPrefix(entries: map<Url, Entry>, order: seq<Url>, n: nat)
    requires n <= |order|
    ensures forall u :: u in Loose(entries, order, n).0 ==> u in order[..n] && u in entries && !Pinned(entries[u])
    ensures forall i :: 0 <= i < n && order[i] in entries && !Pinned(entries[order[i]]) ==>
        order[i] in Loose(entries, order, n).0
  {
    if n > 0 {
      LooseInPrefix(entries, order, n - 1);
      assert order[..n] == order[..n - 1] + [order[n - 1]];
    }
  }

  lemma OrderedOnce(entries: map<Url, Entry>, order: seq<Url>, n: nat)
    requires n < |order| && EvictionOrder(entries, order)
    ensures order[n] in entries && order[n] !in order[..n]
  {
    hide Compar;
    assert order[n] in entries.Keys;
  }

  lemma ProcessOne(st: St, order: seq<Url>, n: nat, st1: St)
    requires n < |order| && EvictionOrder(st.entries, order) && Processed(st, order, n, st1)
    ensures order[n] in st1.entries && st1.entries[order[n]] == st.entries[order[n]]
    ensures Processed(st, order, n + 1, InvalidateEntry(st1, order[n]))
  {
    hide EvictionOrder, InvalidateEntry, Sizes;
    var u := order[n];
    OrderedOnce(st.entries, order, n);
    LooseInPrefix(st.entries, order, n);
    assert u in st1.entries.Keys;
    var st2 := InvalidateEntry(st1, u);
    InvalidateShape(st1, u);
    InvalidateTotal(st1, u);
    forall v | v in st2.entries ensures st2.entries[v] == Marked(st.entries[v], v in order[..n + 1]) {
      assert v in order[..n + 1] <==> v in order[..n] || v == u by { assert order[..n + 1] == order[..n] + [u]; }
      assert v in st1.entries;
    }
  }

  lemma InvalidateTotal(st: St, u: Url)
    requires u in st.entries
    ensures InvalidateEntry(st, u).total == st.total - (if Pinned(st.entries[u]) then 0 else Sizes(st.entries[u]))
  {
  }

  /** Eviction processes a prefix of the order, no longer than it takes to account for more
      than the hysteresis, and all of the order if it never does. */
  lemma {:induction false} EvictIsPrefix(st: St, order: seq<Url>, i: nat, st1: St) returns (n: nat)
    requires EvictionOrder(st.entries, order) && i <= |order| && Processed(st, order, i, st1)
    requires PrefixSize(st.entries, order, i) <= st.hysteresis
    ensures i <= n <= |order|
    ensures Processed(st, order, n, EvictFrom(st1, order, i, PrefixSize(st.entries, order, i)))
    ensures n < |order| ==> PrefixSize(st.entries, order, n) > st.hysteresis
    ensures forall m :: i <= m < n ==> PrefixSize(st.entries, order, m) <= st.hysteresis
    decreases |order| - i
  {
    hide Compar, InvalidateEntry, EvictionOrder, Processed;
    n := i;
    if i < |order| {
      OrderedOnce(st.entries, order, i);
      ProcessOne(st, order, i, st1);
      ProcessedHysteresis(st, order, i, st1);
      if PrefixSize(st.entries, order, i + 1) <= st.hysteresis {
        n := EvictIsPrefix(st, order, i + 1, InvalidateEntry(st1, order[i]));
      } else {
        n := i + 1;
      }
    }
  }

  lemma ProcessedHysteresis(st: St, order: seq<Url>, i: nat, st1: St)
    requires i <= |order| && Processed(st, order, i, st1)
    ensures st1.hysteresis == st.hysteresis
  {
  }

  /** An entry in use is reached only when no entry out of use is left in the table. */
  lemma PinnedReachedLast(st: St, order: seq<Url>, n: nat, st': St)
    requires EvictionOrder(st.entries, order) && n <= |order| && Processed(st, order, n, st')
    requires exists i :: 0 <= i < n && order[i] in st.entries && Pinned(st.entries[order[i]])
    ensures forall u :: u in st'.entries ==> Pinned(st'.entries[u])
  {
    hide Compar;
    var i :| 0 <= i < n && order[i] in st.entries && Pinned(st.entries[order[i]]);
    LooseInPrefix(st.entries, order, n);
    forall u | u in st'.entries ensures Pinned(st'.entries[u]) {
      assert u in st.entries.Keys;
      var j :| 0 <= j < |order| && order[j] == u;
      if j > i {
        ComparIsOrder(st.entries[u], st.entries[order[i]], st.entries[u]);
      }
    }
  }

  /** Eviction as a whole, on any list that the sort may produce. */
  lemma EvictResult(st: St, order: seq<Url>) returns (n: nat)
    requires EvictionOrder(st.entries, order) && st.limit <= st.total
    ensures n <= |order| && Processed(st, order, n, Evict(st, order))
    ensures n < |order| ==> PrefixSize(st.entries, order, n) > st.hysteresis
    ensures forall m :: 0 <= m < n ==> PrefixSize(st.entries, order, m) <= st.hysteresis
    ensures (exists i :: 0 <= i < n && order[i] in st.entries && Pinned(st.entries[order[i]])) ==>
              forall u :: u in Evict(st, order).entries ==> Pinned(Evict(st, order).entries[u])
  {
    assert Processed(st, order, 0, st) by { assert st.entries.Keys - {} == st.entries.Keys; }
    hide EvictionOrder, Processed, EvictFrom;
    n := EvictIsPrefix(st, order, 0, st);
    if exists i :: 0 <= i < n && order[i] in st.entries && Pinned(st.entries[order[i]]) {
      PinnedReachedLast(st, order, n, Evict(st, order));
    }
  }

  // ---------------------------------------------------------------- runs

  datatype Op = DoStore(u: Url, k: Kind, bytes: seq<Byte>, now: int, order: seq<Url>)
              | DoFetch(u: Url, k: Kind, now: int)
              | DoRelease(u: Url, k: Kind, now: int)
              | DoInvalidate(u: Url, now: int)

  function Step(st: St, op: Op): (St, Result) {
    match op
    case DoStore(u, k, bytes, now, order) => Store(st, u, k, bytes, now, order)
    case DoFetch(u, k, now) => Fetch(st, u, k, now)
    case DoRelease(u, k, now) => Release(st, u, k, now)
    case DoInvalidate(u, now) => Invalidate(st, u, now)
  }

  /** What a store asks: no other live URL with this hash, and not more than a block's worth
      of data for an element that has a block. */
  predicate Fair(st: St, op: Op) {
    op.DoStore? ==> UnsharedIdent(st, op.u) && !Oversize(Evict(st, op.order), op.u, op.k, op.bytes)
  }

  /** The entry outlives the operation, eviction included. */
  predicate Outlives(st: St, op: Op, v: Url) {
    if op.DoStore? then v in Evict(st, op.order).entries else v in Step(st, op).0.entries
  }

  /** The operation writes this element. */
  predicate Writes(op: Op, v: Url, j: Kind) {
    op.DoStore? && op.u == v && op.k == j
  }

  lemma EvictKeeps(st: St, order: seq<Url>)
    requires Inv(st)
    ensures var st' := Evict(st, order);
            && Inv(st') && Undisturbed(st, st') && st'.entries.Keys <= st.entries.Keys
            && forall u :: u in st.entries && Pinned(st.entries[u]) ==> u in st'.entries && SameHold(st, st', u)
  {
    hide Inv, Undisturbed, EvictFrom, SameHold;
    Still(st);
    if st.total >= st.limit { EvictFromKeeps(st, order, 0, 0); }
  }

  lemma StoreKeeps(st: St, u: Url, k: Kind, bytes: seq<Byte>, now: int, order: seq<Url>)
    requires Inv(st) && UnsharedIdent(st, u) && !Oversize(Evict(st, order), u, k, bytes)
    ensures var (st', r) := Store(st, u, k, bytes, now, order);
            && Inv(st')
            && (r.Ok? ==> u in st'.entries && OnDisc(st', u, k) == Ok(bytes))
            && forall v, j :: v in Evict(st, order).entries && (v != u || j != k || !r.Ok?) ==> ReadsSame(st, st', v, j)
  {
    hide ReadElem, Evict, BlocksOk, TotalOk, DiscOk, NoCollision, MarkedOk, WriteElem, Placed, Chosen;
    EvictKeeps(st, order);
    var st1 := Evict(st, order);
    var (st', r) := Store(st, u, k, bytes, now, order);
    if !Target(st1, u, k).heap { PutKeeps(st1, u, k, bytes, now); }
    forall v, j | v in st1.entries && (v != u || j != k || !r.Ok?) ensures ReadsSame(st, st', v, j) {
      assert Unmoved(st, st1, v, j);
      assert r.Ok? ==> ReadsSame(st1, st', v, j);
    }
  }

  lemma FetchedElem(st: St, u: Url, k: Kind, el: Elem)
    requires el.heap ==> ReadElem(st, u, k, el) == Ok(el.data)
    ensures var (el', r) := FetchElem(st, u, k, el);
            && SamePlace(el', el) && r == ReadElem(st, u, k, el)
            && (el'.heap ==> r == Ok(el'.data)) && (el.heap ==> el'.heap)
  {
    hide ReadElem;
  }

  lemma FetchKeeps(st: St, u: Url, k: Kind, now: int)
    requires Inv(st)
    ensures var (st', r) := Fetch(st, u, k, now);
            && Inv(st') && Undisturbed(st, st') && st'.entries.Keys == st.entries.Keys
            && (u in st.entries ==> r == OnDisc(st, u, k))
  {
    hide ReadElem, FetchElem, BlocksOk, TotalOk, Undisturbed;
    if u in st.entries {
      assert ElemOk(st, u, Data) && ElemOk(st, u, Meta);
      FetchedElem(st, u, k, Get(st.entries[u], k));
      var e := Touch(st.entries[u], now);
      PlacesKeepInv(st, u, Set(e, k, FetchElem(st, u, k, Get(e, k)).0));
    } else {
      Still(st);
    }
  }

  lemma ReleaseKeeps(st: St, u: Url, k: Kind, now: int)
    requires Inv(st)
    ensures var st' := Release(st, u, k, now).0;
            Inv(st') && Undisturbed(st, st') && st'.entries.Keys <= st.entries.Keys
  {
    hide ReadElem, BlocksOk, TotalOk, InvalidateEntry;
    if u in st.entries {
      assert ElemOk(st, u, Data) && ElemOk(st, u, Meta);
      var e := Touch(st.entries[u], now);
      var e' := Set(e, k, ReleaseElem(Get(e, k)));
      var st1 := st.(entries := st.entries[u := e']);
      PlacesKeepInv(st, u, e');
      if e'.invalid {
        InvalidateKeeps(st1, u);
        UndisturbedThrough(st, st1, InvalidateEntry(st1, u));
      }
    } else {
      Still(st);
    }
  }

  lemma DropKeeps(st: St, u: Url, now: int)
    requires Inv(st)
    ensures var st' := Invalidate(st, u, now).0;
            Inv(st') && Undisturbed(st, st') && st'.entries.Keys <= st.entries.Keys
  {
    hide ReadElem, BlocksOk, TotalOk, InvalidateEntry;
    if u in st.entries {
      assert ElemOk(st, u, Data) && ElemOk(st, u, Meta);
      var st1 := st.(entries := st.entries[u := Touch(st.entries[u], now)]);
      PlacesKeepInv(st, u, Touch(st.entries[u], now));
      InvalidateKeeps(st1, u);
      UndisturbedThrough(st, st1, InvalidateEntry(st1, u));
    } else {
      Still(st);
    }
  }

  /** Every operation keeps the invariant, and what it neither removes nor writes. */
  lemma StepKeeps(st: St, op: Op)
    requires Inv(st) && Fair(st, op)
    ensures Inv(Step(st, op).0)
    ensures forall v, j :: v in st.entries && Outlives(st, op, v) && !Writes(op, v, j) ==>
              ReadsSame(st, Step(st, op).0, v, j)
  {
    hide ReadElem, Evict, Inv, Store, Fetch, Release, Invalidate, UnsharedIdent, Oversize;
    var st' := Step(st, op).0;
    if op.DoStore? {
      StoreKeeps(st, op.u, op.k, op.bytes, op.now, op.order);
    } else {
      QuietKeeps(st, op);
      forall v, j | v in st.entries && Outlives(st, op, v) ensures ReadsSame(st, st', v, j) {
        assert Unmoved(st, st', v, j);
      }
    }
  }

  lemma QuietKeeps(st: St, op: Op)
    requires Inv(st) && !op.DoStore?
    ensures var st' := Step(st, op).0; Inv(st') && Undisturbed(st, st')
  {
    hide Inv, Undisturbed, Fetch, Release, Invalidate;
    match op
    case DoFetch(u, k, now) => FetchKeeps(st, u, k, now);
    case DoRelease(u, k, now) => ReleaseKeeps(st, u, k, now);
    case DoInvalidate(u, now) => DropKeeps(st, u, now);
  }

  function Run(st: St, ops: seq<Op>): St
    decreases |ops|
  {
    if ops == [] then st else Run(Step(st, ops[0]).0, ops[1..])
  }

  predicate FairRun(st: St, ops: seq<Op>)
    decreases |ops|
  {
    ops == [] || (Fair(st, ops[0]) && FairRun(Step(st, ops[0]).0, ops[1..]))
  }

  /** No operation of the run removes the entry or writes the element. */
  predicate SparedBy(st: St, ops: seq<Op>, v: Url, j: Kind)
    decreases |ops|
  {
    ops == [] || (Outlives(st, ops[0], v) && !Writes(ops[0], v, j) && SparedBy(Step(st, ops[0]).0, ops[1..], v, j))
  }

  lemma {:induction false} RunKeeps(st: St, ops: seq<Op>)
    requires Inv(st) && FairRun(st, ops)
    ensures Inv(Run(st, ops))
    decreases |ops|
  {
    hide Inv, Step, Fair, Outlives, Writes;
    if ops != [] {
      StepKeeps(st, ops[0]);
      RunKeeps(Step(st, ops[0]).0, ops[1..]);
    }
  }

  lemma {:induction false} RunSpares(st: St, ops: seq<Op>, v: Url, j: Kind)
    requires Inv(st) && FairRun(st, ops) && v in st.entries && SparedBy(st, ops, v, j)
    ensures v in Run(st, ops).entries && OnDisc(Run(st, ops), v, j) == OnDisc(st, v, j)
    decreases |ops|
  {
    hide Inv, Step, Fair, Outlives, Writes, OnDisc;
    if ops != [] {
      StepKeeps(st, ops[0]);
      assert ReadsSame(st, Step(st, ops[0]).0, v, j);
      RunSpares(Step(st, ops[0]).0, ops[1..], v, j);
    }
  }

  /** Main result: what was stored is what is fetched, after any run of operations that
      neither removes nor re-stores it, from the heap, a block or a file alike. */
  lemma StoredIsFetched(st: St, u: Url, k: Kind, bytes: seq<Byte>, now: int, order: seq<Url>, ops: seq<Op>, later: int)
    requires Inv(st) && Fair(st, DoStore(u, k, bytes, now, order))
    requires Store(st, u, k, bytes, now, order).1.Ok?
    requires var st' := Store(st, u, k, bytes, now, order).0; FairRun(st', ops) && SparedBy(st', ops, u, k)
    ensures Fetch(Run(Store(st, u, k, bytes, now, order).0, ops), u, k, later).1 == Ok(bytes)
  {
    hide Inv, Step, Store, Fetch, FairRun, SparedBy, Run, Oversize, UnsharedIdent, ReadElem;
    StoreKeeps(st, u, k, bytes, now, order);
    var st' := Store(st, u, k, bytes, now, order).0;
    RunKeeps(st', ops);
    RunSpares(st', ops, u, k);
    FetchKeeps(Run(st', ops), u, k, later);
  }

  /** The store as it is first set up: only the sentinel block is marked. */
  lemma EmptyInv(limit: nat, hysteresis: nat)
    ensures Inv(St(map[], {0}, {0}, map[], map[], 0, limit, hysteresis))
  {
  }
}

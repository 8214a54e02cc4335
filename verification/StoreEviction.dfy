/** What eviction takes and what it leaves, told by use counts and times of use alone; what these
    record; and where stored data goes. */
module StoreEviction {
  import opened StoreModel
  import opened StoreInvariant
  import opened StoreRuns
  import opened StoreInvalidation

  /** Used less often, or as often and no later. */
  predicate UsedLess(a: Entry, b: Entry) {
    a.useCount < b.useCount || (a.useCount == b.useCount && a.lastUsed <= b.lastUsed)
  }

  lemma SortedByUse(a: Entry, b: Entry)
    requires !Pinned(a) && !Pinned(b)
    ensures Compar(a, b) <= 0 <==> UsedLess(a, b)
  {
  }

  /** The entries that were removed are those out of use at the front of the list. */
  lemma RemovedFromFront(st: St, order: seq<Url>, n: nat, st': St, u: Url) returns (i: nat)
    requires EvictionOrder(st.entries, order) && n <= |order| && Processed(st, order, n, st')
    requires u in st.entries && u !in st'.entries
    ensures i < n && order[i] == u && !Pinned(st.entries[u])
  {
    hide Compar;
    LooseInPrefix(st.entries, order, n);
    assert u !in st'.entries.Keys;
    i :| 0 <= i < n && order[i] == u;
  }

  /** What is left out of use is further on. */
  lemma LeftFurtherOn(st: St, order: seq<Url>, n: nat, st': St, v: Url) returns (j: nat)
    requires EvictionOrder(st.entries, order) && n <= |order| && Processed(st, order, n, st')
    requires v in st'.entries && !Pinned(st'.entries[v])
    ensures n <= j < |order| && order[j] == v && v in st.entries && st'.entries[v] == st.entries[v]
  {
    hide Compar;
    LooseInPrefix(st.entries, order, n);
    assert v in st'.entries.Keys && v in st.entries.Keys;
    j :| 0 <= j < |order| && order[j] == v;
    assert !Pinned(st.entries[v]);
  }

  /** Main result: what eviction removes was used less often than whatever it leaves out of use,
      or as often and no later. */
  lemma LeastUsedGo(st: St, order: seq<Url>)
    requires EvictionOrder(st.entries, order)
    ensures var st' := Evict(st, order);
            forall u, v :: u in st.entries && u !in st'.entries && v in st'.entries && !Pinned(st'.entries[v]) ==>
              v in st.entries && UsedLess(st.entries[u], st.entries[v])
  {
    hide EvictFrom, Processed, Compar, UsedLess;
    var st' := Evict(st, order);
    if st.limit <= st.total {
      var n := EvictResult(st, order);
      forall u, v | u in st.entries && u !in st'.entries && v in st'.entries && !Pinned(st'.entries[v])
        ensures v in st.entries && UsedLess(st.entries[u], st.entries[v])
      {
        var i := RemovedFromFront(st, order, n, st', u);
        var j := LeftFurtherOn(st, order, n, st', v);
        assert order[i] in st.entries && order[j] in st.entries;
        SortedByUse(st.entries[u], st.entries[v]);
      }
    }
  }

  /** With nothing in use among them, the sizes of the first `n` are all given back. */
  lemma {:induction false} AllLoose(entries: map<Url, Entry>, order: seq<Url>, n: nat)
    requires n <= |order| && forall i :: 0 <= i < n ==> order[i] in entries && !Pinned(entries[order[i]])
    ensures Loose(entries, order, n).1 == PrefixSize(entries, order, n)
  {
    hide Sizes;
    if n > 0 { AllLoose(entries, order, n - 1); }
  }

  /** Main result: eviction does nothing below the limit.  Otherwise it gives back more than the
      hysteresis, or leaves nothing but entries in use. */
  lemma EvictMakesRoom(st: St, order: seq<Url>)
    requires EvictionOrder(st.entries, order)
    ensures var st' := Evict(st, order);
            if st.total < st.limit then st' == st
            else st'.total < st.total - st.hysteresis || forall v :: v in st'.entries ==> Pinned(st'.entries[v])
  {
    hide EvictFrom, Processed, Compar;
    if st.limit <= st.total {
      var st' := Evict(st, order);
      var n := EvictResult(st, order);
      if !exists i :: 0 <= i < n && order[i] in st.entries && Pinned(st.entries[order[i]]) {
        if n < |order| {
          forall i | 0 <= i < n ensures order[i] in st.entries {
            OrderedOnce(st.entries, order, i);
          }
          AllLoose(st.entries, order, n);
          TotalAfter(st, order, n, st');
        } else {
          forall v | v in st'.entries ensures Pinned(st'.entries[v]) {
            if !Pinned(st'.entries[v]) {
              var j := LeftFurtherOn(st, order, n, st', v);
              assert false;
            }
          }
        }
      }
    }
  }

  lemma TotalAfter(st: St, order: seq<Url>, n: nat, st': St)
    requires n <= |order| && Processed(st, order, n, st')
    ensures st'.total == st.total - Loose(st.entries, order, n).1
  {
  }

  // ---------------------------------------------------------------- what use counts and times tell

  /** How often a run uses the URL: every operation on it counts. */
  function Times(ops: seq<Op>, u: Url): nat {
    if ops == [] then 0 else (if ops[0].u == u then 1 else 0) + Times(ops[1..], u)
  }

  /** When it did so last, or else `before`. */
  function Latest(ops: seq<Op>, u: Url, before: int): int {
    if ops == [] then before else Latest(ops[1..], u, if ops[0].u == u then ops[0].now else before)
  }

  /** The entry, if it is still there, records `more` uses, the last of them at `at`. */
  predicate Recorded(st: St, st': St, u: Url, more: nat, at: int) {
    u in st'.entries ==>
      && u in st.entries
      && (st.entries[u].useCount < 65536 ==> st'.entries[u].useCount == (st.entries[u].useCount + more) % 65536)
      && st'.entries[u].lastUsed == at
  }

  lemma {:induction false} EvictRecorded(st: St, order: seq<Url>, i: nat, removed: nat, u: Url)
    requires i <= |order|
    ensures var st' := EvictFrom(st, order, i, removed);
            u in st'.entries ==>
              u in st.entries && st'.entries[u].(invalid := false) == st.entries[u].(invalid := false)
    decreases |order| - i
  {
    hide InvalidateEntry;
    if i < |order| && order[i] in st.entries {
      InvalidateShape(st, order[i]);
      if removed + Sizes(st.entries[order[i]]) <= st.hysteresis {
        EvictRecorded(InvalidateEntry(st, order[i]), order, i + 1, removed + Sizes(st.entries[order[i]]), u);
      }
    }
  }

  lemma StoreRecorded(st: St, op: Op, u: Url)
    requires op.DoStore? && op.u != u
    ensures u in Step(st, op).0.entries && u in st.entries ==>
              Recorded(st, Step(st, op).0, u, 0, st.entries[u].lastUsed)
  {
    hide Chosen, EvictFrom, Put;
    var st1 := Evict(st, op.order);
    if st.total >= st.limit { EvictRecorded(st, op.order, 0, 0, u); }
    if Target(st1, op.u, op.k).heap { Refused(st1, op); } else { PutShape(st1, op.u, op.k, op.bytes, op.now); }
  }

  lemma StepRecorded(st: St, op: Op, u: Url)
    requires !Stores(op, u) && u in st.entries
    ensures var uses := op.u == u;
            Recorded(st, Step(st, op).0, u, if uses then 1 else 0, if uses then op.now else st.entries[u].lastUsed)
  {
    hide Store, InvalidateEntry, FetchElem, ReleaseElem;
    match op
    case DoStore(v, k, bytes, now, order) => StoreRecorded(st, op, u);
    case DoFetch(_, _, _) =>
    case DoRelease(v, k, now) =>
      if v in st.entries {
        var e := Touch(st.entries[v], now);
        InvalidateShape(st.(entries := st.entries[v := Set(e, k, ReleaseElem(Get(e, k)))]), v);
      }
    case DoInvalidate(v, now) =>
      if v in st.entries { InvalidateShape(st.(entries := st.entries[v := Touch(st.entries[v], now)]), v); }
  }

  lemma {:induction false} RunRecorded(st: St, ops: seq<Op>, u: Url)
    requires Unstored(ops, u) && u in st.entries && st.entries[u].useCount < 65536
    ensures Recorded(st, Run(st, ops), u, Times(ops, u), Latest(ops, u, st.entries[u].lastUsed))
    decreases |ops|
  {
    hide Step, Stores;
    if ops != [] {
      assert !Stores(ops[0], u);
      assert forall i :: 0 <= i < |ops| - 1 ==> ops[1..][i] == ops[i + 1];
      var st1 := Step(st, ops[0]).0;
      if u in st1.entries {
        StepRecorded(st, ops[0], u);
        RunRecorded(st1, ops[1..], u);
      } else {
        RunDropped(st1, ops[1..], u);
      }
    }
  }

  lemma StoreStarts(st: St, u: Url, k: Kind, bytes: seq<Byte>, now: int, order: seq<Url>)
    requires Store(st, u, k, bytes, now, order).1.Ok?
    ensures var st' := Store(st, u, k, bytes, now, order).0;
            u in st'.entries && st'.entries[u].useCount == 1 && st'.entries[u].lastUsed == now
  {
    hide Chosen, Evict;
  }

  /** From its store on an entry tells how often it was used, up to the width of the counter,
      and when it was used last. */
  lemma UseIsRecorded(st: St, u: Url, k: Kind, bytes: seq<Byte>, now: int, order: seq<Url>, ops: seq<Op>)
    requires Store(st, u, k, bytes, now, order).1.Ok? && Unstored(ops, u)
    ensures var st' := Run(Store(st, u, k, bytes, now, order).0, ops);
            u in st'.entries ==>
              && st'.entries[u].useCount == (1 + Times(ops, u)) % 65536
              && st'.entries[u].lastUsed == Latest(ops, u, now)
  {
    hide Store, Run, Unstored, Times, Latest;
    StoreStarts(st, u, k, bytes, now, order);
    RunRecorded(Store(st, u, k, bytes, now, order).0, ops, u);
  }

  // ---------------------------------------------------------------- where data goes

  lemma {:induction false} SmallerTaken(used: set<nat>, b: nat)
    requires 0 < b <= BLOCKS
    ensures var f := FirstFree(used, b); forall c :: b <= c < (if f == 0 then BLOCKS else f) ==> c in used
    decreases BLOCKS - b
  {
    if b < BLOCKS && b in used { SmallerTaken(used, b + 1); }
  }

  /** Data of at most a block goes to the first free block of its kind, and to a file of its own
      only if no block is free; longer data goes to a file unless the element has a block. */
  lemma PlaceOf(st: St, u: Url, k: Kind, bytes: seq<Byte>, now: int)
    requires BlocksOk(st) && !Target(st, u, k).heap
    ensures var st' := Put(st, u, k, bytes, now).0;
            && u in st'.entries && var b := Get(st'.entries[u], k).block;
            && (if b != 0 then st'.own == st.own else st'.blocks == st.blocks && (k, u.ident) in st'.own)
            && (if |bytes| > BLOCK_SIZE then b == Target(st, u, k).block
                else if b != 0 then b < BLOCKS && b !in Used(st, k) && forall c :: 0 <= c < b ==> c in Used(st, k)
                else forall c :: 0 <= c < BLOCKS ==> c in Used(st, k))
  {
    hide Pwrite, FirstFree;
    PutShape(st, u, k, bytes, now);
    FirstFreeIs(Used(st, k), 0);
    SentinelFirst(Used(st, k));
  }

  lemma SentinelFirst(used: set<nat>)
    requires 0 in used
    ensures FirstFree(used, 0) == FirstFree(used, 1)
    ensures var f := FirstFree(used, 1); forall c :: 1 <= c < (if f == 0 then BLOCKS else f) ==> c in used
  {
    SmallerTaken(used, 1);
  }
}

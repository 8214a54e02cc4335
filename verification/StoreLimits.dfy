/** Where the backing store stops refining a map: data that has outgrown its block. */
module StoreLimits {
  import opened StoreModel
  import opened StoreInvariant
  import opened StoreRuns

  /** Some other element has bytes in the blocks that `n` bytes from block `b` on run over. */
  ghost predicate Overrun(st: St, u: Url, k: Kind, b: nat, n: nat) {
    exists v :: v in st.entries && v != u && InRange(Get(st.entries[v], k), b, n)
  }

  predicate InRange(el: Elem, b: nat, n: nat) {
    && el.block != 0 && el.size > 0 && FileOf(el.block) == FileOf(b)
    && OffsetOf(b) < OffsetOf(el.block) < OffsetOf(b) + n
  }

  lemma OversizeShape(st: St, u: Url, k: Kind, bytes: seq<Byte>, now: int)
    requires !Target(st, u, k).heap && Oversize(st, u, k, bytes)
    ensures var st' := Put(st, u, k, bytes, now).0; var b := Target(st, u, k).block;
            && st'.entries.Keys == st.entries.Keys + {u} && st'.own == st.own
            && (forall v :: v in st.entries && v != u ==> st'.entries[v] == st.entries[v])
            && (u in st.entries ==> forall j :: j != k ==> Get(st'.entries[u], j) == Get(st.entries[u], j))
            && st'.blocks == st.blocks[(k, FileOf(b)) := Pwrite(File(st.blocks, (k, FileOf(b))), OffsetOf(b), bytes)]
  {
    hide Pwrite, FirstFree;
    PutShape(st, u, k, bytes, now);
  }

  /** Data out of the way of every other element spares them, however long it is. */
  lemma RoomSpares(st: St, u: Url, k: Kind, bytes: seq<Byte>, now: int, v: Url, j: Kind)
    requires Inv(st) && !Target(st, u, k).heap && Oversize(st, u, k, bytes)
    requires !Overrun(st, u, k, Target(st, u, k).block, |bytes|)
    requires v in st.entries && (v != u || j != k)
    ensures ReadsSame(st, Put(st, u, k, bytes, now).0, v, j)
  {
    hide Pwrite, Put, TotalOk, NoCollision, MarkedOk, FileOf, OffsetOf;
    OversizeShape(st, u, k, bytes, now);
    var b, el := Target(st, u, k).block, Get(st.entries[v], j);
    assert ElemOk(st, v, j) && BlockOk(st, j, el);
    if el.block != 0 && j == k && FileOf(b) == FileOf(el.block) && el.size > 0 {
      assert !InRange(el, b, |bytes|);
      assert BlockOk(st, k, Get(st.entries[u], k)) && Distinct(Get(st.entries[u], k), el);
      BlocksApart(b, el.block);
      PwriteKeeps(File(st.blocks, (k, FileOf(b))), OffsetOf(b), bytes, OffsetOf(el.block), el.size);
    }
  }

  /** Data in the way of another element destroys its first byte, if that differs. */
  lemma OverrunDestroys(st: St, u: Url, k: Kind, bytes: seq<Byte>, now: int, v: Url)
    requires Inv(st) && !Target(st, u, k).heap && Oversize(st, u, k, bytes)
    requires v in st.entries && v != u && InRange(Get(st.entries[v], k), Target(st, u, k).block, |bytes|)
    requires OnDisc(st, v, k).Ok?
    requires forall i :: 0 <= i < |bytes| ==> bytes[i] != OnDisc(st, v, k).bytes[0]
    ensures !ReadsSame(st, Put(st, u, k, bytes, now).0, v, k)
  {
    hide Put, BlocksOk, TotalOk, DiscOk, NoCollision, MarkedOk;
    OversizeShape(st, u, k, bytes, now);
    var b, el := Target(st, u, k).block, Get(st.entries[v], k);
    var f := File(st.blocks, (k, FileOf(b)));
    var at := OffsetOf(el.block);
    var g := Pwrite(f, OffsetOf(b), bytes);
    assert g[at] == bytes[at - OffsetOf(b)];
    assert f[at..at + el.size][0] == f[at];
    assert at + el.size <= |g| ==> g[at..at + el.size][0] == g[at];
  }

  /** Storing `n` bytes over an element that has a block, more than the block holds: every
      other element reads as before whatever the bytes are, exactly if none of them lies in
      the blocks run over. */
  lemma OversizeSparesIff(st: St, u: Url, k: Kind, n: nat, now: int)
    requires Inv(st) && u in st.entries && !Target(st, u, k).heap
    requires n > BLOCK_SIZE && Target(st, u, k).block != 0
    ensures (forall bytes: seq<Byte>, v, j :: |bytes| == n && v in st.entries && (v != u || j != k) ==>
               ReadsSame(st, Put(st, u, k, bytes, now).0, v, j))
            <==> !Overrun(st, u, k, Target(st, u, k).block, n)
  {
    hide Inv, Put, InRange, ReadsSame;
    var b := Target(st, u, k).block;
    if Overrun(st, u, k, b, n) {
      var v :| v in st.entries && v != u && InRange(Get(st.entries[v], k), b, n);
      var bytes := Different(st, v, k, n, b);
      OverrunDestroys(st, u, k, bytes, now, v);
    } else {
      forall bytes: seq<Byte>, v, j | |bytes| == n && v in st.entries && (v != u || j != k)
        ensures ReadsSame(st, Put(st, u, k, bytes, now).0, v, j)
      {
        RoomSpares(st, u, k, bytes, now, v, j);
      }
    }
  }

  /** Bytes that all differ from the first byte of an element. */
  lemma Different(st: St, v: Url, k: Kind, n: nat, b: nat) returns (bytes: seq<Byte>)
    requires Inv(st) && v in st.entries && InRange(Get(st.entries[v], k), b, n)
    ensures |bytes| == n && OnDisc(st, v, k).Ok? && OnDisc(st, v, k).bytes != []
    ensures forall i :: 0 <= i < |bytes| ==> bytes[i] != OnDisc(st, v, k).bytes[0]
  {
    hide BlocksOk, TotalOk;
    assert ElemOk(st, v, k);
    var z: Byte := if OnDisc(st, v, k).bytes[0] == 0 then 1 else 0;
    bytes := seq(n, _ => z);
  }

  // ---------------------------------------------------------------- such a state is reached

  const PAGE: Url := Url("http://a/", 1)
  const OTHER: Url := Url("http://b/", 2)
  const FRESH: St := St(map[], {0}, {0}, map[], map[], 0, 1000000, 1000)

  /** Two short stores, each released. */
  const SETUP: seq<Op> := [DoStore(PAGE, Data, [7], 0, []), DoRelease(PAGE, Data, 0),
                           DoStore(OTHER, Data, [9], 0, []), DoRelease(OTHER, Data, 0)]

  lemma SetupOne()
    ensures var st := Run(FRESH, SETUP[..2]);
            && FairRun(FRESH, SETUP[..2])
            && st.entries.Keys == {PAGE} && !st.entries[PAGE].invalid
            && st.entries[PAGE].data.(data := []) == Elem([], 1, 1, 0, false) && st.usedData == {0, 1} && st.total == 1
            && st.limit == 1000000
  {
    hide Pwrite;
    var one := Step(FRESH, SETUP[0]).0;
    assert FirstFree({0}, 0) == 1;
    assert SETUP[..2][1..] == [SETUP[1]] && SETUP[..2][1..][1..] == [];
    assert one.entries[PAGE].data == Elem([7], 1, 1, 1, true);
    var two := Step(one, SETUP[1]).0;
    assert Run(FRESH, SETUP[..2]) == Run(one, [SETUP[1]]) == Run(two, []) == two;
    assert FairRun(two, []) && FairRun(one, [SETUP[1]]);
  }

  lemma SetupTwo()
    ensures var st := Run(FRESH, SETUP);
            && FairRun(FRESH, SETUP)
            && PAGE in st.entries && OTHER in st.entries
            && st.entries[PAGE].data.(data := []) == Elem([], 1, 1, 0, false)
            && st.entries[OTHER].data.(data := []) == Elem([], 1, 2, 0, false)
  {
    hide Pwrite;
    SetupOne();
    var st := Run(FRESH, SETUP[..2]);
    assert SETUP == SETUP[..2] + SETUP[2..];
    RunAppend(FRESH, SETUP[..2], SETUP[2..]);
    assert FirstFree({0, 1}, 0) == 2;
    var three := Step(st, SETUP[2]).0;
    assert SETUP[2..][1..] == [SETUP[3]] && SETUP[2..][1..][1..] == [];
    assert three.entries[OTHER].data == Elem([9], 1, 2, 1, true);
    var four := Step(three, SETUP[3]).0;
    assert Run(st, SETUP[2..]) == Run(three, [SETUP[3]]) == Run(four, []) == four;
    assert FairRun(four, []) && FairRun(three, [SETUP[3]]);
  }

  lemma {:induction false} RunAppend(st: St, a: seq<Op>, b: seq<Op>)
    ensures Run(st, a + b) == Run(Run(st, a), b)
    ensures FairRun(st, a + b) <==> FairRun(st, a) && FairRun(Run(st, a), b)
    decreases |a|
  {
    hide Step, Fair;
    if a == [] {
      assert a + b == b;
    } else {
      assert (a + b)[1..] == a[1..] + b;
      RunAppend(Step(st, a[0]).0, a[1..], b);
    }
  }

  /** A second, longer store of the first page destroys the other page's data. */
  lemma NeighbourOverwritten(bytes: seq<Byte>)
    requires |bytes| == BLOCK_SIZE + 1 && forall i :: 0 <= i < |bytes| ==> bytes[i] == 0
    ensures var st := Run(FRESH, SETUP);
            && FairRun(FRESH, SETUP) && OTHER in st.entries
            && OnDisc(st, OTHER, Data) == Ok([9])
            && !ReadsSame(st, Put(st, PAGE, Data, bytes, 0).0, OTHER, Data)
  {
    hide Run, FairRun, Put, ReadElem, Inv, Step;
    var st := Run(FRESH, SETUP);
    SetupTwo();
    EmptyInv(1000000, 1000);
    RunKeeps(FRESH, SETUP);
    var before := Run(FRESH, SETUP[..2]);
    assert OnDisc(st, OTHER, Data) == Ok([9]) by { OtherReads(); }
    OverrunDestroys(st, PAGE, Data, bytes, 0, OTHER);
  }

  lemma OtherReads()
    ensures var st := Run(FRESH, SETUP); OTHER in st.entries && OnDisc(st, OTHER, Data) == Ok([9])
  {
    hide ReadElem, Inv, Store, Evict, Fetch, Release, Fair;
    SetupOne();
    SetupTwo();
    var st := Run(FRESH, SETUP[..2]);
    assert SETUP == SETUP[..2] + SETUP[2..];
    RunAppend(FRESH, SETUP[..2], SETUP[2..]);
    EmptyInv(1000000, 1000);
    RunKeeps(FRESH, SETUP[..2]);
    var three := Step(st, SETUP[2]).0;
    assert SETUP[2..][0] == SETUP[2] && SETUP[2..][1..] == [SETUP[3]];
    assert Fair(st, SETUP[2]);
    StoredOther(st);
    StepKeeps(st, SETUP[2]);
    ReleaseKeeps(three, OTHER, Data, 0);
    var four := Step(three, SETUP[3]).0;
    assert Run(three, [SETUP[3]]) == Run(four, []) == four;
    assert Unmoved(three, four, OTHER, Data);
  }

  lemma StoredOther(st: St)
    requires Inv(st) && Fair(st, SETUP[2]) && st.total < st.limit && OTHER !in st.entries
    ensures var three := Step(st, SETUP[2]).0; OTHER in three.entries && OnDisc(three, OTHER, Data) == Ok([9])
  {
    StoreKeeps(st, OTHER, Data, [9], 0, []);
  }
}

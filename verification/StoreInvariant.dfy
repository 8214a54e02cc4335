/** What every operation of the backing store keeps. */
module StoreInvariant {
  import opened StoreModel

  // ---------------------------------------------------------------- size accounting

  ghost function Sum(m: map<Url, Entry>): nat
    decreases |m|
  {
    if m == map[] then 0
    else
      var u :| u in m;
      Sizes(m[u]) + Sum(m - {u})
  }

  lemma {:induction false} SumRemove(m: map<Url, Entry>, u: Url)
    requires u in m
    ensures Sum(m) == Sizes(m[u]) + Sum(m - {u})
    decreases |m|
  {
    hide Sizes;
    var v :| v in m && Sum(m) == Sizes(m[v]) + Sum(m - {v});
    if v != u {
      SumRemove(m - {v}, u);
      SumRemove(m - {u}, v);
      assert m - {u} - {v} == m - {v} - {u};
    }
  }

  lemma SumUpdate(m: map<Url, Entry>, u: Url, e: Entry)
    ensures Sum(m[u := e]) == Sizes(e) + Sum(m - {u})
    ensures u in m ==> Sum(m[u := e]) == Sum(m) - Sizes(m[u]) + Sizes(e)
  {
    SumRemove(m[u := e], u);
    assert m[u := e] - {u} == m - {u};
    if u in m { SumRemove(m, u); }
  }

  // ---------------------------------------------------------------- blocks

  predicate BlockOk(st: St, k: Kind, el: Elem) {
    el.block != 0 ==> el.block < BLOCKS && el.block in Used(st, k)
  }

  /** Held blocks are marked, and held once. */
  ghost predicate BlocksOk(st: St) {
    && 0 in st.usedData && 0 in st.usedMeta
    && (forall u, k :: u in st.entries ==> BlockOk(st, k, Get(st.entries[u], k)))
    && (forall u, v, k :: u in st.entries && v in st.entries && u != v ==>
          Distinct(Get(st.entries[u], k), Get(st.entries[v], k)))
  }

  predicate Distinct(a: Elem, b: Elem) {
    a.block == 0 || a.block != b.block
  }

  ghost predicate TotalOk(st: St) {
    st.total == Sum(st.entries)
  }

  lemma {:induction false} FirstFreeIs(used: set<nat>, b: nat)
    requires b <= BLOCKS
    ensures var f := FirstFree(used, b);
            && (f != 0 ==> b <= f < BLOCKS && f !in used)
            && (f == 0 && b > 0 ==> forall c :: b <= c < BLOCKS ==> c in used)
    decreases BLOCKS - b
  {
    if b < BLOCKS && b in used { FirstFreeIs(used, b + 1); }
  }

  // ---------------------------------------------------------------- the disc

  /** What the disc holds for an element. */
  function OnDisc(st: St, u: Url, k: Kind): Result
    requires u in st.entries
  {
    ReadElem(st, u, k, Get(st.entries[u], k))
  }

  /** An allocation equals what the disc holds, and a block holds all of its element. */
  predicate ElemOk(st: St, u: Url, k: Kind)
    requires u in st.entries
  {
    var el := Get(st.entries[u], k);
    && (el.heap ==> OnDisc(st, u, k) == Ok(el.data))
    && (el.block != 0 ==> OnDisc(st, u, k).Ok? && el.size <= BLOCK_SIZE)
  }

  ghost predicate DiscOk(st: St) {
    forall u, k :: u in st.entries ==> ElemOk(st, u, k)
  }

  /** No two live URLs share a hash. */
  ghost predicate NoCollision(st: St) {
    forall u, v :: u in st.entries && v in st.entries && u != v ==> u.ident != v.ident
  }

  /** An entry that is marked invalid is in use. */
  ghost predicate MarkedOk(st: St) {
    forall u :: u in st.entries && st.entries[u].invalid ==> Pinned(st.entries[u])
  }

  ghost predicate Inv(st: St) {
    BlocksOk(st) && TotalOk(st) && DiscOk(st) && NoCollision(st) && MarkedOk(st)
  }

  // ---------------------------------------------------------------- steps that move no data

  /** Two elements that differ at most in their allocation. */
  predicate SamePlace(a: Elem, b: Elem) {
    a.block == b.block && a.size == b.size
  }

  /** Everything still there lies where it lay and reads as it read. */
  ghost predicate Undisturbed(st: St, st': St) {
    forall v, k :: v in st'.entries ==> Unmoved(st, st', v, k)
  }

  predicate Unmoved(st: St, st': St, v: Url, k: Kind) {
    && v in st.entries && v in st'.entries
    && SamePlace(Get(st'.entries[v], k), Get(st.entries[v], k)) && OnDisc(st', v, k) == OnDisc(st, v, k)
  }

  predicate ReadsSame(st: St, st': St, v: Url, k: Kind) {
    v in st.entries && v in st'.entries && OnDisc(st', v, k) == OnDisc(st, v, k)
  }

  lemma PlacesKeepBlocks(st: St, u: Url, e: Entry)
    requires BlocksOk(st) && TotalOk(st) && u in st.entries
    requires SamePlace(e.data, st.entries[u].data) && SamePlace(e.meta, st.entries[u].meta)
    ensures var st' := st.(entries := st.entries[u := e]); BlocksOk(st') && TotalOk(st')
  {
    hide Sum;
    SumUpdate(st.entries, u, e);
    var st' := st.(entries := st.entries[u := e]);
    forall v, k | v in st'.entries ensures BlockOk(st', k, Get(st'.entries[v], k)) {
      assert BlockOk(st, k, Get(st.entries[v], k));
    }
    forall v, w, k | v in st'.entries && w in st'.entries && v != w
      ensures Distinct(Get(st'.entries[v], k), Get(st'.entries[w], k))
    {
      assert Distinct(Get(st.entries[v], k), Get(st.entries[w], k));
    }
  }

  /** An entry replaced by one on the same places, its allocations true to the disc. */
  lemma PlacesKeepInv(st: St, u: Url, e: Entry)
    requires BlocksOk(st) && TotalOk(st) && DiscOk(st) && NoCollision(st) && u in st.entries
    requires forall v :: v in st.entries && v != u && st.entries[v].invalid ==> Pinned(st.entries[v])
    requires SamePlace(e.data, st.entries[u].data) && SamePlace(e.meta, st.entries[u].meta)
    requires e.data.heap ==> OnDisc(st, u, Data) == Ok(e.data.data)
    requires e.meta.heap ==> OnDisc(st, u, Meta) == Ok(e.meta.data)
    ensures var st' := st.(entries := st.entries[u := e]);
            && BlocksOk(st') && TotalOk(st') && DiscOk(st') && NoCollision(st')
            && ((e.invalid ==> Pinned(e)) ==> MarkedOk(st'))
            && Undisturbed(st, st')
  {
    hide BlocksOk, TotalOk;
    PlacesKeepBlocks(st, u, e);
    var st' := st.(entries := st.entries[u := e]);
    forall v, k | v in st'.entries ensures Unmoved(st, st', v, k) && ElemOk(st', v, k) {
      assert ElemOk(st, v, k);
    }
  }

  // ---------------------------------------------------------------- removal

  lemma RemovalKeepsBlocks(st: St, u: Url)
    requires BlocksOk(st) && TotalOk(st) && u in st.entries && !Pinned(st.entries[u])
    ensures BlocksOk(InvalidateEntry(st, u)) && TotalOk(InvalidateEntry(st, u))
  {
    hide Sum;
    var st' := InvalidateEntry(st, u);
    SumRemove(st.entries, u);
    forall v, k | v in st'.entries ensures BlockOk(st', k, Get(st'.entries[v], k)) {
      assert BlockOk(st, k, Get(st.entries[v], k));
      assert Distinct(Get(st.entries[v], k), Get(st.entries[u], k));
    }
    forall v, w, k | v in st'.entries && w in st'.entries && v != w
      ensures Distinct(Get(st'.entries[v], k), Get(st'.entries[w], k))
    {
      assert Distinct(Get(st.entries[v], k), Get(st.entries[w], k));
    }
  }

  lemma RemovalKeepsDisc(st: St, u: Url)
    requires DiscOk(st) && NoCollision(st) && u in st.entries && !Pinned(st.entries[u])
    ensures var st' := InvalidateEntry(st, u);
            && st'.entries == st.entries - {u}
            && DiscOk(st') && Undisturbed(st, st')
  {
    var st' := InvalidateEntry(st, u);
    forall v, k | v in st'.entries ensures Unmoved(st, st', v, k) && ElemOk(st', v, k) {
      assert ElemOk(st, v, k) && u.ident != v.ident;
    }
  }

  /** invalidate_entry keeps the invariant and the contents of every other entry. */
  lemma InvalidateKeeps(st: St, u: Url)
    requires BlocksOk(st) && TotalOk(st) && DiscOk(st) && NoCollision(st) && u in st.entries
    requires forall v :: v in st.entries && v != u && st.entries[v].invalid ==> Pinned(st.entries[v])
    ensures var st' := InvalidateEntry(st, u);
            && Inv(st') && Undisturbed(st, st')
            && st'.entries.Keys == (if Pinned(st.entries[u]) then st.entries.Keys else st.entries.Keys - {u})
  {
    hide BlocksOk, TotalOk, ReadElem, InvalidateElem;
    var e := st.entries[u];
    if Pinned(e) {
      assert ElemOk(st, u, Data) && ElemOk(st, u, Meta);
      PlacesKeepInv(st, u, e.(invalid := true));
    } else {
      hide DiscOk;
      RemovalKeepsBlocks(st, u);
      RemovalKeepsDisc(st, u);
    }
  }

  // ---------------------------------------------------------------- writing

  lemma PwriteKeeps(f: seq<Byte>, off: nat, bytes: seq<Byte>, a: nat, n: nat)
    requires a + n <= |f| && (a + n <= off || off + |bytes| <= a)
    ensures var g := Pwrite(f, off, bytes); |f| <= |g| && g[a..a + n] == f[a..a + n]
  {
  }

  lemma PwriteReads(f: seq<Byte>, off: nat, bytes: seq<Byte>)
    requires bytes != [] || off == 0
    ensures var g := Pwrite(f, off, bytes); off + |bytes| <= |g| && g[off..off + |bytes|] == bytes
  {
  }

  lemma BlocksApart(b: nat, c: nat)
    requires b < BLOCKS && c < BLOCKS && b != c && FileOf(b) == FileOf(c)
    ensures OffsetOf(b) + BLOCK_SIZE <= OffsetOf(c) || OffsetOf(c) + BLOCK_SIZE <= OffsetOf(b)
  {
  }

  /** More data than a block holds, for an element that already has a block. */
  predicate Oversize(st: St, u: Url, k: Kind, bytes: seq<Byte>) {
    |bytes| > BLOCK_SIZE && Target(st, u, k).block != 0
  }

  predicate UnsharedIdent(st: St, u: Url) {
    forall v :: v in st.entries && v != u ==> v.ident != u.ident
  }

  /** The chosen block is the writer's own: it was free and no element of the kind holds it, or
      there is none. */
  lemma ChosenIsFree(st: St, u: Url, k: Kind, bytes: seq<Byte>)
    requires BlocksOk(st) && !Oversize(st, u, k, bytes)
    ensures var b := Chosen(st, u, k, |bytes|);
            b != 0 ==>
              && b < BLOCKS && b !in Used(st, k) && |bytes| <= BLOCK_SIZE
              && forall v :: v in st.entries ==> Get(st.entries[v], k).block != b
  {
    FirstFreeIs(Used(st, k), 0);
    forall v | v in st.entries ensures BlockOk(st, k, Get(st.entries[v], k)) {
    }
  }

  /** The entry after Put: the written element is new, the other one as it was. */
  lemma PutShape(st: St, u: Url, k: Kind, bytes: seq<Byte>, now: int)
    requires !Target(st, u, k).heap
    ensures var st' := Put(st, u, k, bytes, now).0;
            && u in st'.entries && st'.entries == st.entries[u := st'.entries[u]]
            && st'.total == st.total - Target(st, u, k).size + |bytes|
            && Get(st'.entries[u], k) == Elem(bytes, |bytes|, Chosen(st, u, k, |bytes|), 1, true)
            && (forall j :: j != k ==> Get(st'.entries[u], j) == Target(st, u, j) && Used(st', j) == Used(st, j))
            && Used(st', k) == Used(st, k) + (if |bytes| <= BLOCK_SIZE then {Chosen(st, u, k, |bytes|)} else {})
            && (u in st.entries ==> st'.entries[u].invalid == st.entries[u].invalid)
            && (u !in st.entries ==> !st'.entries[u].invalid)
  {
    hide FirstFree, Pwrite;
  }

  lemma PutKeepsTotal(st: St, u: Url, k: Kind, bytes: seq<Byte>, now: int)
    requires TotalOk(st) && !Target(st, u, k).heap
    ensures TotalOk(Put(st, u, k, bytes, now).0)
  {
    hide Sum, Put, Chosen;
    var st' := Put(st, u, k, bytes, now).0;
    PutShape(st, u, k, bytes, now);
    assert forall j :: j != k ==> Get(st'.entries[u], j) == Target(st, u, j);
    SumUpdate(st.entries, u, st'.entries[u]);
    if u !in st.entries { assert st.entries - {u} == st.entries; }
    assert k == Data || k == Meta;
    assert Get(st'.entries[u], Data) == st'.entries[u].data && Get(st'.entries[u], Meta) == st'.entries[u].meta;
  }

  lemma PutKeepsBlocks(st: St, u: Url, k: Kind, bytes: seq<Byte>, now: int)
    requires BlocksOk(st) && !Target(st, u, k).heap && !Oversize(st, u, k, bytes)
    ensures BlocksOk(Put(st, u, k, bytes, now).0)
  {
    hide Put, Chosen;
    var st' := Put(st, u, k, bytes, now).0;
    ChosenIsFree(st, u, k, bytes);
    PutShape(st, u, k, bytes, now);
    forall j ensures Used(st, j) <= Used(st', j) && 0 in Used(st', j) {
      assert 0 in Used(st, Data) && 0 in Used(st, Meta);
    }
    assert 0 in Used(st', Data) && 0 in Used(st', Meta);
    forall v, j | v in st'.entries ensures BlockOk(st', j, Get(st'.entries[v], j)) {
      if v in st.entries { assert BlockOk(st, j, Get(st.entries[v], j)); }
    }
    forall v, w, j | v in st'.entries && w in st'.entries && v != w
      ensures Distinct(Get(st'.entries[v], j), Get(st'.entries[w], j))
    {
      if v in st.entries { assert BlockOk(st, j, Get(st.entries[v], j)); }
      if w in st.entries { assert BlockOk(st, j, Get(st.entries[w], j)); }
      if v in st.entries && w in st.entries { assert Distinct(Get(st.entries[v], j), Get(st.entries[w], j)); }
    }
  }

  /** A write to a block of its own, or to a file of its own, disturbs no other element. */
  lemma WriteSpares(st: St, u: Url, k: Kind, b: nat, bytes: seq<Byte>, v: Url, j: Kind, el: Elem)
    requires v != u ==> v.ident != u.ident
    requires v != u || j != k
    requires b != 0 ==> b < BLOCKS && |bytes| <= BLOCK_SIZE && (j == k ==> el.block != b)
    requires el.block != 0 ==> el.block < BLOCKS && el.size <= BLOCK_SIZE && ReadElem(st, v, j, el).Ok?
    ensures ReadElem(WriteElem(st, u, k, b, bytes), v, j, el) == ReadElem(st, v, j, el)
  {
    hide Pwrite, FileOf, OffsetOf;
    if b != 0 && el.block != 0 && j == k && FileOf(b) == FileOf(el.block) && el.size > 0 {
      BlocksApart(b, el.block);
      PwriteKeeps(File(st.blocks, (k, FileOf(b))), OffsetOf(b), bytes, OffsetOf(el.block), el.size);
    }
  }

  lemma PutOnDisc(st: St, u: Url, k: Kind, bytes: seq<Byte>, now: int, v: Url, j: Kind)
    requires BlocksOk(st) && DiscOk(st) && UnsharedIdent(st, u)
    requires !Target(st, u, k).heap && !Oversize(st, u, k, bytes)
    requires v in st.entries && (v != u || j != k)
    ensures var st' := Put(st, u, k, bytes, now).0;
            v in st'.entries && Get(st'.entries[v], j) == Get(st.entries[v], j) && OnDisc(st', v, j) == OnDisc(st, v, j)
  {
    hide Chosen, WriteElem;
    var b, el := Chosen(st, u, k, |bytes|), Get(st.entries[v], j);
    var st1 := Placed(st, u, k, bytes, now);
    ChosenIsFree(st, u, k, bytes);
    PutShape(st, u, k, bytes, now);
    assert ElemOk(st, v, j) && BlockOk(st, j, el);
    assert ReadElem(st1, v, j, el) == ReadElem(st, v, j, el);
    WriteSpares(st1, u, k, b, bytes, v, j, el);
  }

  lemma PutReadsBack(st: St, u: Url, k: Kind, bytes: seq<Byte>, now: int)
    requires !Target(st, u, k).heap
    ensures var st' := Put(st, u, k, bytes, now).0; u in st'.entries && OnDisc(st', u, k) == Ok(bytes)
  {
    hide Chosen, Pwrite;
    PutShape(st, u, k, bytes, now);
    var b := Chosen(st, u, k, |bytes|);
    if b != 0 && bytes != [] {
      PwriteReads(File(st.blocks, (k, FileOf(b))), OffsetOf(b), bytes);
    } else if b == 0 {
      PwriteReads(File(st.own, (k, u.ident)), 0, bytes);
    }
  }

  /** Storing keeps the invariant, makes the new contents readable and spares all others. */
  lemma PutKeeps(st: St, u: Url, k: Kind, bytes: seq<Byte>, now: int)
    requires Inv(st) && UnsharedIdent(st, u) && !Target(st, u, k).heap && !Oversize(st, u, k, bytes)
    ensures var st' := Put(st, u, k, bytes, now).0;
            && Inv(st') && u in st'.entries && OnDisc(st', u, k) == Ok(bytes)
            && forall v, j :: v in st.entries && (v != u || j != k) ==> ReadsSame(st, st', v, j)
  {
    hide ReadElem, Chosen, Put, BlockOk;
    var st' := Put(st, u, k, bytes, now).0;
    PutKeepsBlocks(st, u, k, bytes, now);
    PutKeepsTotal(st, u, k, bytes, now);
    PutShape(st, u, k, bytes, now);
    PutReadsBack(st, u, k, bytes, now);
    hide BlocksOk, TotalOk;
    forall v, j | v in st'.entries ensures ElemOk(st', v, j) {
      PutElemOk(st, u, k, bytes, now, v, j);
    }
    forall v, j | v in st.entries && (v != u || j != k) ensures ReadsSame(st, st', v, j) {
      assert ElemOk(st, v, j);
      PutOnDisc(st, u, k, bytes, now, v, j);
    }
  }

  lemma PutElemOk(st: St, u: Url, k: Kind, bytes: seq<Byte>, now: int, v: Url, j: Kind)
    requires Inv(st) && UnsharedIdent(st, u) && !Target(st, u, k).heap && !Oversize(st, u, k, bytes)
    requires v in Put(st, u, k, bytes, now).0.entries
    ensures ElemOk(Put(st, u, k, bytes, now).0, v, j)
  {
    hide ReadElem, Chosen, Put, TotalOk;
    var st' := Put(st, u, k, bytes, now).0;
    PutShape(st, u, k, bytes, now);
    if v == u && j == k {
      ChosenIsFree(st, u, k, bytes);
      PutReadsBack(st, u, k, bytes, now);
    } else if v in st.entries {
      assert ElemOk(st, v, j);
      PutOnDisc(st, u, k, bytes, now, v, j);
    }
  }
}

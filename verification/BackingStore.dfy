/** The operations of content/fs_backing_store.c as they update their state in place; each
    leaves exactly the state that the function of the same name in StoreModel computes. */
module BackingStore {
  import opened StoreModel
  import U = UseMap
  import SI = StoreInvalidation
  import SE = StoreEviction

  class FileStore {
    var entries: map<Url, Entry>
    const dataMap: array<bv8>
    const metaMap: array<bv8>
    var blocks: Files
    var own: Files
    var total: int
    const limit: nat
    const hysteresis: nat

    ghost predicate Valid()
      reads this, dataMap, metaMap
    {
      && dataMap != metaMap && U.Shaped(dataMap[..]) && U.Shaped(metaMap[..])
      && forall u :: u in entries ==> entries[u].data.block < BLOCKS && entries[u].meta.block < BLOCKS
    }

    ghost function View(): St
      requires Valid()
      reads this, dataMap, metaMap
    {
      St(entries, U.MarkedSet(dataMap[..]), U.MarkedSet(metaMap[..]), blocks, own, total, limit, hysteresis)
    }

    function MapOf(k: Kind): array<bv8> {
      if k == Data then dataMap else metaMap
    }

    /** Read blocks defaults: only the sentinel block 0 is marked. */
    constructor (limit: nat, hysteresis: nat)
      ensures Valid() && fresh(dataMap) && fresh(metaMap)
      ensures View() == St(map[], {0}, {0}, map[], map[], 0, limit, hysteresis)
    {
      this.limit, this.hysteresis := limit, hysteresis;
      entries, blocks, own, total := map[], map[], map[], 0;
      dataMap := new bv8[FILES * U.MAP_BYTES](i => if i == 0 then 1 else 0);
      metaMap := new bv8[FILES * U.MAP_BYTES](i => if i == 0 then 1 else 0);
      new;
      OnlySentinel(dataMap[..]);
      OnlySentinel(metaMap[..]);
    }

    method InvalidateElement(u: Url, k: Kind)
      requires Valid() && u in entries
      modifies `own, `total, dataMap, metaMap
      ensures Valid() && View() == InvalidateElem(old(View()), u, k)
    {
      var el := Get(entries[u], k);
      if el.block != 0 {
        U.ClearBlock(MapOf(k), el.block);
      } else {
        own := own - {(k, u.ident)};
      }
      total := total - el.size;
    }

    method InvalidateEntry(u: Url)
      requires Valid() && u in entries
      modifies this, dataMap, metaMap
      ensures Valid() && View() == StoreModel.InvalidateEntry(old(View()), u)
    {
      hide InvalidateElem, U.MarkedSet;
      var e := entries[u];
      if Pinned(e) {
        entries := entries[u := e.(invalid := true)];
      } else {
        InvalidateElement(u, Meta);
        InvalidateElement(u, Data);
        entries := entries - {u};
      }
    }

    /** The eviction loop, on the list that the sort has produced. */
    method EvictInOrder(order: seq<Url>)
      requires Valid() && EvictionOrder(entries, order)
      modifies this, dataMap, metaMap
      ensures Valid() && View() == EvictFrom(old(View()), order, 0, 0)
    {
      hide StoreModel.InvalidateEntry, U.MarkedSet, Compar;
      var removed, ent := 0, 0;
      var going := true;
      while ent < |order| && going
        invariant Valid() && 0 <= ent <= |order| && removed >= 0
        invariant going ==> EvictFrom(View(), order, ent, removed) == EvictFrom(old(View()), order, 0, 0)
        invariant !going ==> View() == EvictFrom(old(View()), order, 0, 0)
        invariant going ==> forall i :: ent <= i < |order| ==> order[i] in entries
        decreases |order| - ent
      {
        var u := order[ent];
        removed := removed + Sizes(entries[u]);
        ShapeOf(View(), u);
        InvalidateEntry(u);
        ent := ent + 1;
        if removed > hysteresis { going := false; }
      }
    }

    /** store_evict: below the limit nothing happens.  Otherwise room is made, as far as entries
        in use allow, and the entries that were used least go first. */
    method Evict(order: seq<Url>)
      requires Valid() && (limit <= total ==> EvictionOrder(entries, order))
      modifies this, dataMap, metaMap
      ensures Valid() && View() == StoreModel.Evict(old(View()), order)
      ensures old(total) < limit ==> View() == old(View())
      ensures limit <= old(total) ==>
                total < old(total) - hysteresis || forall v :: v in entries ==> Pinned(entries[v])
      ensures forall u, v :: u in old(entries) && u !in entries && v in entries && !Pinned(entries[v]) ==>
                v in old(entries) && SE.UsedLess(old(entries)[u], old(entries)[v])
    {
      hide EvictFrom, U.MarkedSet, EvictionOrder, SE.UsedLess;
      if total < limit { return; }
      SE.EvictMakesRoom(View(), order);
      SE.LeastUsedGo(View(), order);
      EvictInOrder(order);
    }

    /** The rest of set_store_entry: the entry, its size and its block. */
    method SetEntry(u: Url, k: Kind, bytes: seq<Byte>, now: int) returns (b: nat)
      requires Valid()
      modifies this, dataMap, metaMap
      ensures Valid() && View() == Placed(old(View()), u, k, bytes, now)
      ensures b == Chosen(old(View()), u, k, |bytes|)
    {
      hide U.MarkedSet, FirstFree;
      ghost var st := View();
      var e := if u in entries then entries[u] else NEW_ENTRY;
      b := Get(e, k).block;
      if |bytes| <= BLOCK_SIZE {
        b := U.AllocBlock(MapOf(k));
        assert b == FirstFree(Used(st, k), 0);
        FreeBelow(Used(st, k), 0);
      }
      total := total - Get(e, k).size + |bytes|;
      entries := entries[u := Set(e.(useCount := 1, lastUsed := now), k, Elem(bytes, |bytes|, b, 1, true))];
    }

    /** store_write_block or store_write_file. */
    method WriteElement(u: Url, k: Kind, b: nat, bytes: seq<Byte>)
      requires Valid()
      modifies `blocks, `own
      ensures Valid() && View() == WriteElem(old(View()), u, k, b, bytes)
    {
      hide U.MarkedSet, Pwrite;
      if b != 0 {
        var key := (k, FileOf(b));
        blocks := blocks[key := Pwrite(File(blocks, key), OffsetOf(b), bytes)];
      } else {
        var key := (k, u.ident);
        own := own[key := Pwrite(File(own, key), 0, bytes)];
      }
    }

    /** store: evict, set up the entry unless its element is in use, and write. */
    method Store(u: Url, k: Kind, bytes: seq<Byte>, now: int, order: seq<Url>) returns (r: Result)
      requires Valid() && (limit <= total ==> EvictionOrder(entries, order))
      modifies this, dataMap, metaMap
      ensures Valid() && (View(), r) == StoreModel.Store(old(View()), u, k, bytes, now, order)
    {
      hide StoreModel.Evict, U.MarkedSet, Chosen, Placed, WriteElem, SE.UsedLess;
      Evict(order);
      if u in entries && Get(entries[u], k).heap { return Permission; }
      var b := SetEntry(u, k, bytes, now);
      WriteElement(u, k, b, bytes);
      r := Ok(bytes);
    }

    /** `some` says how much each read of a file returns. */
    method Fetch(u: Url, k: Kind, now: int, some: nat -> nat) returns (r: Result)
      requires Valid()
      modifies `entries
      ensures Valid() && (View(), r) == StoreModel.Fetch(old(View()), u, k, now)
    {
      hide U.MarkedSet;
      if u !in entries { return NotFound; }
      var e := Touch(entries[u], now);
      var el := Get(e, k);
      if el.heap {
        el := el.(ref := (el.ref + 1) % 256);
        r := Ok(el.data);
      } else {
        r := ReadBack(u, k, el, some);
        el := if r.Ok? then el.(data := r.bytes, ref := 1, heap := true) else el.(ref := 0);
      }
      entries := entries[u := Set(e, k, el)];
    }

    /** store_read_block or store_read_file.  A block is read in one go, and what is short of
        the element's size is a failure. */
    method ReadBack(u: Url, k: Kind, el: Elem, some: nat -> nat) returns (r: Result)
      requires Valid()
      ensures r == ReadElem(View(), u, k, el)
    {
      if el.block != 0 {
        var data := Pread(File(blocks, (k, FileOf(el.block))), OffsetOf(el.block), el.size);
        r := if |data| == el.size then Ok(data) else NotFound;
      } else if (k, u.ident) in own {
        r := ReadFile(own[(k, u.ident)], el.size, some);
      } else {
        r := NotFound;
      }
    }

    method Release(u: Url, k: Kind, now: int) returns (r: Result)
      requires Valid()
      modifies this, dataMap, metaMap
      ensures Valid() && (View(), r) == StoreModel.Release(old(View()), u, k, now)
    {
      hide StoreModel.InvalidateEntry, U.MarkedSet;
      if u !in entries { return NotFound; }
      var e := Touch(entries[u], now);
      e := Set(e, k, ReleaseElem(Get(e, k)));
      entries := entries[u := e];
      if e.invalid { InvalidateEntry(u); }
      r := Ok([]);
    }

    method Invalidate(u: Url, now: int) returns (r: Result)
      requires Valid()
      modifies this, dataMap, metaMap
      ensures Valid() && (View(), r) == StoreModel.Invalidate(old(View()), u, now)
      ensures u !in old(entries) ==> View() == old(View()) && r == NotFound
      ensures u in old(entries) && !Pinned(old(entries)[u]) ==> SI.Erased(old(View()), View(), u)
      ensures u in old(entries) && Pinned(old(entries)[u]) ==>
                && u in entries && entries == old(entries)[u := entries[u]] && entries[u].invalid
                && entries[u].data == old(entries)[u].data && entries[u].meta == old(entries)[u].meta
                && total == old(total) && blocks == old(blocks) && own == old(own)
    {
      hide StoreModel.InvalidateEntry, U.MarkedSet, SI.Erased;
      if u in entries && Pinned(entries[u]) { SI.InvalidateMarks(View(), u, now); }
      if u in entries && !Pinned(entries[u]) { SI.InvalidateErases(View(), u, now); }
      if u !in entries { return NotFound; }
      entries := entries[u := Touch(entries[u], now)];
      InvalidateEntry(u);
      r := Ok([]);
    }
  }

  /** pread: what there is of `n` bytes at `off`. */
  function Pread(f: seq<Byte>, off: nat, n: nat): (data: seq<Byte>)
    ensures |data| <= n
  {
    if off >= |f| then [] else if off + n <= |f| then f[off..off + n] else f[off..]
  }

  /** store_read_file: reads until there is enough, or nothing more.  However many bytes each
      read returns, the first `size` bytes come back, or nothing exactly if the file is shorter. */
  method ReadFile(file: seq<Byte>, size: nat, some: nat -> nat) returns (r: Result)
    ensures r == if size <= |file| then Ok(file[..size]) else NotFound
  {
    var data: seq<Byte>, n := [], 0;
    while |data| < size
      invariant |data| <= size && data <= file
      decreases size - |data|
    {
      var most := Pread(file, |data|, size - |data|);
      var rd := if some(n) == 0 then 1 else some(n);
      var got := if rd < |most| then most[..rd] else most;
      if got == [] { return NotFound; }
      assert data + got == file[..|data| + |got|];
      data := data + got;
      n := n + 1;
    }
    r := Ok(data);
  }

  lemma OnlySentinel(m: seq<bv8>)
    requires U.Shaped(m) && m[0] == 1 && forall i :: 1 <= i < |m| ==> m[i] == 0
    ensures U.MarkedSet(m) == {0}
  {
    forall c: nat | c < BLOCKS ensures U.IsMarked(m, c) <==> c == 0 {
      U.MarkPlace(m, c);
    }
  }

  lemma {:induction false} FreeBelow(used: set<nat>, b: nat)
    requires b <= BLOCKS
    ensures FirstFree(used, b) < BLOCKS
    decreases BLOCKS - b
  {
    if b < BLOCKS { FreeBelow(used, b + 1); }
  }

  /** Invalidation removes no other entry. */
  lemma ShapeOf(st: St, u: Url)
    requires u in st.entries
    ensures var st' := StoreModel.InvalidateEntry(st, u);
            st'.hysteresis == st.hysteresis && st.entries.Keys - {u} <= st'.entries.Keys
  {
  }
}

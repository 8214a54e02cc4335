/** The file backing store of content/fs_backing_store.c as a state machine.

    Every operation is a function from state to state; BackingStore.dfy holds the stepwise
    code that computes them.  Disc access and memory allocation always succeed.
 */
module StoreModel {

  type Byte = b: int | 0 <= b < 256

  /** A URL with its hash, which names its separate file. */
  datatype Url = Url(text: string, ident: nat)

  datatype Kind = Data | Meta

  /** Blocks per block file, number of block files, bytes per block. */
  const PER_FILE: nat := 1024
  const FILES: nat := 6
  const BLOCKS: nat := FILES * PER_FILE
  const BLOCK_SIZE: nat := 8192

  /** `heap` is the HEAP flag; `data` is the allocation, meaningful while it is set. */
  datatype Elem = Elem(data: seq<Byte>, size: nat, block: nat, ref: nat, heap: bool)

  datatype Entry = Entry(lastUsed: int, useCount: nat, invalid: bool, data: Elem, meta: Elem)

  /** Block files and separate files, each a sequence of bytes. */
  type Files = map<(Kind, nat), seq<Byte>>

  /** `usedData` and `usedMeta` are the blocks whose bit is set in the use maps. */
  datatype St = St(entries: map<Url, Entry>, usedData: set<nat>, usedMeta: set<nat>,
                   blocks: Files, own: Files, total: int, limit: nat, hysteresis: nat)

  datatype Result = Ok(bytes: seq<Byte>) | NotFound | Permission

  // ---------------------------------------------------------------- small parts

  const BLANK: Elem := Elem([], 0, 0, 0, false)
  const NEW_ENTRY: Entry := Entry(0, 0, false, BLANK, BLANK)

  function Get(e: Entry, k: Kind): Elem {
    if k == Data then e.data else e.meta
  }

  function Set(e: Entry, k: Kind, el: Elem): Entry {
    if k == Data then e.(data := el) else e.(meta := el)
  }

  function Used(st: St, k: Kind): set<nat> {
    if k == Data then st.usedData else st.usedMeta
  }

  function WithUsed(st: St, k: Kind, u: set<nat>): St {
    if k == Data then st.(usedData := u) else st.(usedMeta := u)
  }

  function File(fs: Files, key: (Kind, nat)): seq<Byte> {
    if key in fs then fs[key] else []
  }

  /** Block file and byte offset in it of a block number. */
  function FileOf(b: nat): nat {
    b / PER_FILE % 64
  }

  function OffsetOf(b: nat): nat {
    b % PER_FILE * BLOCK_SIZE
  }

  /** pwrite at `off`: a gap is filled with zeros, writing nothing changes nothing. */
  function Pwrite(f: seq<Byte>, off: nat, bytes: seq<Byte>): seq<Byte> {
    if bytes == [] then f
    else
      var g := if |f| < off then f + seq(off - |f|, _ => 0) else f;
      g[..off] + bytes + (if off + |bytes| < |g| then g[off + |bytes|..] else [])
  }

  function Sizes(e: Entry): nat {
    e.data.size + e.meta.size
  }

  predicate Pinned(e: Entry) {
    e.data.heap || e.meta.heap
  }

  /** Use counts are 16 bits wide. */
  function Touch(e: Entry, now: int): Entry {
    e.(lastUsed := now, useCount := (e.useCount + 1) % 65536)
  }

  // ---------------------------------------------------------------- allocation

  /** alloc_block: the smallest block from `b` on whose bit is clear; 0 if there is none. */
  function FirstFree(used: set<nat>, b: nat): nat
    requires b <= BLOCKS
    decreases BLOCKS - b
  {
    if b == BLOCKS then 0 else if b !in used then b else FirstFree(used, b + 1)
  }

  // ---------------------------------------------------------------- invalidation

  /** invalidate_element. */
  function InvalidateElem(st: St, u: Url, k: Kind): St
    requires u in st.entries
  {
    var el := Get(st.entries[u], k);
    var st' := if el.block != 0 then WithUsed(st, k, Used(st, k) - {el.block})
               else st.(own := st.own - {(k, u.ident)});
    st'.(total := st'.total - el.size)
  }

  /** invalidate_entry: an entry in use is only marked. */
  function InvalidateEntry(st: St, u: Url): St
    requires u in st.entries
  {
    var e := st.entries[u];
    if Pinned(e) then st.(entries := st.entries[u := e.(invalid := true)])
    else
      var st' := InvalidateElem(InvalidateElem(st, u, Meta), u, Data);
      st'.(entries := st'.entries - {u})
  }

  // ---------------------------------------------------------------- eviction

  function CompareInt(a: int, b: int): int {
    if a < b then -1 else if a > b then 1 else 0
  }

  function Flag(heap: bool): int {
    if heap then 1 else 0
  }

  /** compar: entries in use last, then by use count, then by time of last use. */
  function Compar(a: Entry, b: Entry): int {
    if a.data.heap != b.data.heap then CompareInt(Flag(a.data.heap), Flag(b.data.heap))
    else if a.meta.heap != b.meta.heap then CompareInt(Flag(a.meta.heap), Flag(b.meta.heap))
    else if a.useCount != b.useCount then CompareInt(a.useCount, b.useCount)
    else CompareInt(a.lastUsed, b.lastUsed)
  }

  /** A list that qsort may produce: all entries once, none before a smaller one. */
  predicate EvictionOrder(entries: map<Url, Entry>, order: seq<Url>) {
    && entries.Keys == (set u | u in order)
    && (forall i, j :: 0 <= i < j < |order| ==>
          && order[i] != order[j]
          && (order[i] in entries && order[j] in entries ==> Compar(entries[order[i]], entries[order[j]]) <= 0))
  }

  /** The eviction loop from position `i` on, `removed` bytes being accounted for. */
  function EvictFrom(st: St, order: seq<Url>, i: nat, removed: nat): St
    requires i <= |order|
    decreases |order| - i
  {
    if i == |order| || order[i] !in st.entries then st
    else
      var removed' := removed + Sizes(st.entries[order[i]]);
      var st' := InvalidateEntry(st, order[i]);
      if removed' > st.hysteresis then st' else EvictFrom(st', order, i + 1, removed')
  }

  /** store_evict. */
  function Evict(st: St, order: seq<Url>): St {
    if st.total < st.limit then st else EvictFrom(st, order, 0, 0)
  }

  // ---------------------------------------------------------------- the interface

  /** The element that an operation is about to write. */
  function Target(st: St, u: Url, k: Kind): Elem {
    if u in st.entries then Get(st.entries[u], k) else BLANK
  }

  /** The block that `n` bytes for an element go to, 0 for a file of their own.  A block that
      the element already has is kept when the new data does not fit one. */
  function Chosen(st: St, u: Url, k: Kind, n: nat): nat {
    if n <= BLOCK_SIZE then FirstFree(Used(st, k), 0) else Target(st, u, k).block
  }

  /** set_store_entry after eviction. */
  function Placed(st: St, u: Url, k: Kind, bytes: seq<Byte>, now: int): St {
    var e := if u in st.entries then st.entries[u] else NEW_ENTRY;
    var b := Chosen(st, u, k, |bytes|);
    var e' := Set(e.(useCount := 1, lastUsed := now), k, Elem(bytes, |bytes|, b, 1, true));
    WithUsed(st.(entries := st.entries[u := e'], total := st.total - Get(e, k).size + |bytes|), k,
             if |bytes| <= BLOCK_SIZE then Used(st, k) + {b} else Used(st, k))
  }

  /** set_store_entry after eviction, then the write of the element. */
  function Put(st: St, u: Url, k: Kind, bytes: seq<Byte>, now: int): (St, Result) {
    if Target(st, u, k).heap then (st, Permission)
    else (WriteElem(Placed(st, u, k, bytes, now), u, k, Chosen(st, u, k, |bytes|), bytes), Ok(bytes))
  }

  /** store_write_block and store_write_file. */
  function WriteElem(st: St, u: Url, k: Kind, b: nat, bytes: seq<Byte>): St {
    if b != 0 then
      var key := (k, FileOf(b));
      st.(blocks := st.blocks[key := Pwrite(File(st.blocks, key), OffsetOf(b), bytes)])
    else
      var key := (k, u.ident);
      st.(own := st.own[key := Pwrite(File(st.own, key), 0, bytes)])
  }

  function Store(st: St, u: Url, k: Kind, bytes: seq<Byte>, now: int, order: seq<Url>): (St, Result) {
    Put(Evict(st, order), u, k, bytes, now)
  }

  /** store_read_block and store_read_file. */
  function ReadElem(st: St, u: Url, k: Kind, el: Elem): Result {
    if el.block != 0 then
      var f, off := File(st.blocks, (k, FileOf(el.block))), OffsetOf(el.block);
      if el.size == 0 then Ok([])
      else if off + el.size <= |f| then Ok(f[off..off + el.size]) else NotFound
    else if (k, u.ident) in st.own && el.size <= |st.own[(k, u.ident)]| then
      Ok(st.own[(k, u.ident)][..el.size])
    else NotFound
  }

  /** The element with one more reference, from the heap or else from disc.  References are
      8 bits wide. */
  function FetchElem(st: St, u: Url, k: Kind, el: Elem): (Elem, Result) {
    if el.heap then (el.(ref := (el.ref + 1) % 256), Ok(el.data))
    else
      match ReadElem(st, u, k, el)
      case Ok(bytes) => (el.(data := bytes, ref := 1, heap := true), Ok(bytes))
      case other => (el.(ref := 0), other)
  }

  function Fetch(st: St, u: Url, k: Kind, now: int): (St, Result) {
    if u !in st.entries then (st, NotFound)
    else
      var e := Touch(st.entries[u], now);
      var (el, r) := FetchElem(st, u, k, Get(e, k));
      (st.(entries := st.entries[u := Set(e, k, el)]), r)
  }

  /** entry_release_alloc. */
  function ReleaseElem(el: Elem): Elem {
    if !el.heap then el
    else
      var ref := (el.ref + 255) % 256;
      el.(ref := ref, heap := ref != 0)
  }

  function Release(st: St, u: Url, k: Kind, now: int): (St, Result) {
    if u !in st.entries then (st, NotFound)
    else
      var e := Touch(st.entries[u], now);
      var e' := Set(e, k, ReleaseElem(Get(e, k)));
      var st' := st.(entries := st.entries[u := e']);
      (if e'.invalid then InvalidateEntry(st', u) else st', Ok([]))
  }

  function Invalidate(st: St, u: Url, now: int): (St, Result) {
    if u !in st.entries then (st, NotFound)
    else (InvalidateEntry(st.(entries := st.entries[u := Touch(st.entries[u], now)]), u), Ok([]))
  }
}

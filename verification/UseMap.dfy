/** The use maps of the block files: 6 files of 1024 blocks, one bit a block. */
module UseMap {
  import opened StoreModel

  /** Bytes in the use map of one file. */
  const MAP_BYTES: nat := 128

  function Mask(i: nat): bv8
    requires i < 8
  {
    if i == 0 then 1 else if i == 1 then 2 else if i == 2 then 4 else if i == 3 then 8
    else if i == 4 then 16 else if i == 5 then 32 else if i == 6 then 64 else 128
  }

  predicate Bit(x: bv8, i: nat)
    requires i < 8
  {
    x & Mask(i) != 0
  }

  lemma BitSet(x: bv8, i: nat, j: nat)
    requires i < 8 && j < 8
    ensures Bit(x | Mask(i), j) <==> Bit(x, j) || i == j
  {
  }

  lemma BitCleared(x: bv8, i: nat, j: nat)
    requires i < 8 && j < 8
    ensures Bit(x & !Mask(i), j) <==> Bit(x, j) && i != j
  {
  }

  lemma FullByte(x: bv8)
    ensures x == 0xff <==> forall i :: 0 <= i < 8 ==> Bit(x, i)
  {
    if forall i :: 0 <= i < 8 ==> Bit(x, i) {
      assert Bit(x, 0) && Bit(x, 1) && Bit(x, 2) && Bit(x, 3) && Bit(x, 4) && Bit(x, 5) && Bit(x, 6) && Bit(x, 7);
    }
  }

  /** The use maps of all files of one kind, one after the other. */
  predicate Shaped(m: seq<bv8>) {
    |m| == FILES * MAP_BYTES
  }

  predicate IsMarked(m: seq<bv8>, b: nat)
    requires Shaped(m) && b < BLOCKS
  {
    Bit(m[b / PER_FILE * MAP_BYTES + b % PER_FILE / 8], b % PER_FILE % 8)
  }

  /** The blocks whose bit is set. */
  ghost function MarkedSet(m: seq<bv8>): set<nat>
    requires Shaped(m)
  {
    set b: nat | b < BLOCKS && IsMarked(m, b)
  }

  /** The block number of a file, byte and bit. */
  function Encode(bf: nat, idx: nat, bit: nat): nat {
    (bf * MAP_BYTES + idx) * 8 + bit
  }

  /** Decoding a block number leads to the very file, byte and bit that it was made from. */
  lemma Decode(bf: nat, idx: nat, bit: nat)
    requires bf < FILES && idx < MAP_BYTES && bit < 8
    ensures var b := Encode(bf, idx, bit);
            b < BLOCKS && FileOf(b) == bf == b / PER_FILE && b % PER_FILE / 8 == idx && b % PER_FILE % 8 == bit
  {
  }

  lemma {:induction false} FirstFreeFound(used: set<nat>, from: nat, b: nat)
    requires from <= b < BLOCKS && b !in used && forall c :: from <= c < b ==> c in used
    ensures FirstFree(used, from) == b
    decreases b - from
  {
    if from < b { FirstFreeFound(used, from + 1, b); }
  }

  lemma {:induction false} NoneFree(used: set<nat>, from: nat)
    requires from <= BLOCKS && forall c :: from <= c < BLOCKS ==> c in used
    ensures FirstFree(used, from) == 0
    decreases BLOCKS - from
  {
    if from < BLOCKS { NoneFree(used, from + 1); }
  }

  /** Which byte and bit a block is marked in. */
  lemma MarkPlace(m: seq<bv8>, c: nat)
    requires Shaped(m) && c < BLOCKS
    ensures c / 8 < |m| && IsMarked(m, c) == Bit(m[c / 8], c % 8)
  {
    assert c / PER_FILE * MAP_BYTES + c % PER_FILE / 8 == c / 8;
  }

  /** The map with the bit of one block set or cleared. */
  function WithBit(m: seq<bv8>, b: nat, on: bool): seq<bv8>
    requires Shaped(m) && b < BLOCKS
  {
    var x := m[b / 8];
    m[b / 8 := if on then x | Mask(b % 8) else x & !Mask(b % 8)]
  }

  lemma BitAt(m: seq<bv8>, b: nat, on: bool, c: nat)
    requires Shaped(m) && b < BLOCKS && c < BLOCKS
    ensures IsMarked(WithBit(m, b, on), c) <==> if c == b then on else IsMarked(m, c)
  {
    hide Bit, Mask, IsMarked;
    MarkPlace(m, c);
    MarkPlace(WithBit(m, b, on), c);
    BitSet(m[b / 8], b % 8, c % 8);
    BitCleared(m[b / 8], b % 8, c % 8);
  }

  /** Setting or clearing one bit changes the mark of one block. */
  lemma BitChanged(m: seq<bv8>, b: nat, on: bool)
    requires Shaped(m) && b < BLOCKS
    ensures MarkedSet(WithBit(m, b, on)) == if on then MarkedSet(m) + {b} else MarkedSet(m) - {b}
  {
    hide IsMarked, WithBit;
    assert Shaped(WithBit(m, b, on)) by { SameShape(m, b, on); }
    forall c: nat | c < BLOCKS ensures IsMarked(WithBit(m, b, on), c) <==> if c == b then on else IsMarked(m, c) {
      BitAt(m, b, on, c);
    }
  }

  lemma SameShape(m: seq<bv8>, b: nat, on: bool)
    requires Shaped(m) && b < BLOCKS
    ensures Shaped(WithBit(m, b, on))
  {
  }

  /** The scan of one byte that is not full. */
  method ClearBit(x: bv8) returns (bit: nat)
    requires x != 0xff
    ensures bit < 8 && !Bit(x, bit) && forall i :: 0 <= i < bit ==> Bit(x, i)
  {
    FullByte(x);
    bit := 0;
    while bit < 8 && Bit(x, bit)
      invariant bit <= 8 && forall i :: 0 <= i < bit ==> Bit(x, i)
    {
      bit := bit + 1;
    }
  }

  /** The scan of the use map of one file: its first byte that is not full, if any. */
  method ScanFile(m: array<bv8>, bf: nat) returns (idx: nat)
    requires Shaped(m[..]) && bf < FILES
    ensures idx <= MAP_BYTES && (idx < MAP_BYTES ==> m[bf * MAP_BYTES + idx] != 0xff)
    ensures forall i :: bf * MAP_BYTES <= i < bf * MAP_BYTES + idx ==> m[i] == 0xff
  {
    idx := 0;
    while idx < MAP_BYTES && m[bf * MAP_BYTES + idx] == 0xff
      invariant idx <= MAP_BYTES && forall i :: bf * MAP_BYTES <= i < bf * MAP_BYTES + idx ==> m[i] == 0xff
    {
      idx := idx + 1;
    }
  }

  /** The scan over the files: the first byte that is not full in any of them. */
  method FirstOpen(m: array<bv8>) returns (bf: nat, idx: nat)
    requires Shaped(m[..])
    ensures bf <= FILES && (bf < FILES ==> idx < MAP_BYTES && m[bf * MAP_BYTES + idx] != 0xff)
    ensures bf < FILES ==> forall i :: 0 <= i < bf * MAP_BYTES + idx ==> m[i] == 0xff
    ensures bf == FILES ==> forall i :: 0 <= i < m.Length ==> m[i] == 0xff
  {
    bf, idx := 0, 0;
    while bf < FILES
      invariant bf <= FILES && forall i :: 0 <= i < bf * MAP_BYTES ==> m[i] == 0xff
    {
      idx := ScanFile(m, bf);
      if idx < MAP_BYTES { return; }
      bf := bf + 1;
    }
  }

  /** alloc_block: scan files, bytes and bits for the first clear bit, and set it. */
  method AllocBlock(m: array<bv8>) returns (b: nat)
    requires Shaped(m[..])
    modifies m
    ensures Shaped(m[..])
    ensures b == FirstFree(old(MarkedSet(m[..])), 0)
    ensures MarkedSet(m[..]) == old(MarkedSet(m[..])) + {b}
  {
    hide MarkedSet, FirstFree, Bit, Mask;
    ghost var used := MarkedSet(m[..]);
    var bf, idx := FirstOpen(m);
    if bf == FILES {
      BytesFull(m[..], m.Length);
      NoneFree(used, 0);
      b := 0;
      assert used + {0} == used;
    } else {
      var bit := ClearBit(m[bf * MAP_BYTES + idx]);
      b := Encode(bf, idx, bit);
      FirstClear(m[..], used, bf * MAP_BYTES + idx, bit);
      MarkBlock(m, b);
    }
  }

  lemma BytesFull(m: seq<bv8>, n: nat)
    requires Shaped(m) && n <= |m| && forall i :: 0 <= i < n ==> m[i] == 0xff
    ensures forall c :: 0 <= c < n * 8 ==> c in MarkedSet(m)
  {
    forall c | 0 <= c < n * 8 ensures c in MarkedSet(m) {
      MarkPlace(m, c);
      FullByte(m[c / 8]);
    }
  }

  lemma FirstClear(m: seq<bv8>, used: set<nat>, n: nat, bit: nat)
    requires Shaped(m) && n < |m| && bit < 8 && used == MarkedSet(m)
    requires forall i :: 0 <= i < n ==> m[i] == 0xff
    requires !Bit(m[n], bit) && forall i :: 0 <= i < bit ==> Bit(m[n], i)
    ensures FirstFree(used, 0) == n * 8 + bit
  {
    hide Bit;
    var b := n * 8 + bit;
    BytesFull(m, n);
    MarkPlace(m, b);
    forall c: nat | c < b ensures c in used {
      if c >= n * 8 { MarkPlace(m, c); }
    }
    FirstFreeFound(used, 0, b);
  }

  method MarkBlock(m: array<bv8>, b: nat)
    requires Shaped(m[..]) && b < BLOCKS
    modifies m
    ensures Shaped(m[..]) && MarkedSet(m[..]) == old(MarkedSet(m[..])) + {b}
  {
    hide MarkedSet;
    BitChanged(m[..], b, true);
    m[b / 8] := m[b / 8] | Mask(b % 8);
    assert m[..] == WithBit(old(m[..]), b, true);
  }

  /** The bit that invalidate_element clears. */
  method ClearBlock(m: array<bv8>, b: nat)
    requires Shaped(m[..]) && b < BLOCKS
    modifies m
    ensures Shaped(m[..]) && MarkedSet(m[..]) == old(MarkedSet(m[..])) - {b}
  {
    hide MarkedSet;
    var bf, bi := b / PER_FILE % 64, b % PER_FILE;
    assert bf * MAP_BYTES + bi / 8 == b / 8 && bi % 8 == b % 8;
    BitChanged(m[..], b, false);
    m[bf * MAP_BYTES + bi / 8] := m[bf * MAP_BYTES + bi / 8] & !Mask(bi % 8);
    assert m[..] == WithBit(old(m[..]), b, false);
  }
}

/** The use maps of the block files (content/fs_backing_store.c): a bit for each
    block, in six files of 1024 blocks. */
module BlockUse {

  const BLOCK_ENTRY_COUNT := 10
  const BLOCK_FILE_COUNT := 6
  const BLOCK_USE_MAP_SIZE := 128
  /** Blocks in all files. */
  const BLOCKS := 6144
  /** Bytes in the use maps of all files, one map after the other. */
  const MAP_BYTES := 768

  /** 1U << bit */
  function Mask(bit: nat): bv8
    requires bit < 8
  {
    if bit == 0 then 1 else if bit == 1 then 2 else if bit == 2 then 4 else if bit == 3 then 8
    else if bit == 4 then 16 else if bit == 5 then 32 else if bit == 6 then 64 else 128
  }

  predicate Bit(b: bv8, bit: nat)
    requires bit < 8
  {
    b & Mask(bit) != 0
  }

  lemma SetBit(b: bv8, i: nat, j: nat)
    requires i < 8 && j < 8
    ensures Bit(b | Mask(i), j) <==> j == i || Bit(b, j)
  {
  }

  lemma ClearBit(b: bv8, i: nat, j: nat)
    requires i < 8 && j < 8
    ensures Bit(b & !Mask(i), j) <==> j != i && Bit(b, j)
  {
  }

  lemma FullByte(b: bv8)
    ensures b == 0xff <==> forall i | 0 <= i < 8 :: Bit(b, i)
  {
    if forall i | 0 <= i < 8 :: Bit(b, i) {
      assert Bit(b, 0) && Bit(b, 1) && Bit(b, 2) && Bit(b, 3);
      assert Bit(b, 4) && Bit(b, 5) && Bit(b, 6) && Bit(b, 7);
    }
  }

  /** Is block `k` in use? */
  predicate Used(bits: seq<bv8>, k: nat)
    requires |bits| == MAP_BYTES && k < BLOCKS
  {
    Bit(bits[k / 8], k % 8)
  }

  ghost function UsedSet(bits: seq<bv8>): set<nat>
    requires |bits| == MAP_BYTES
  {
    set k: nat | k < BLOCKS && Used(bits, k)
  }

  // ---------------------------------------------------------------------
  // Block numbers
  // ---------------------------------------------------------------------

  /** The file that a block is in. */
  function FileOf(block: nat): nat {
    (block / 1024) % 64
  }

  /** The position of a block in its file. */
  function IndexOf(block: nat): nat {
    block % 1024
  }

  /** The number that alloc_block makes of a file, a byte and a bit. */
  function Number(bf: nat, idx: nat, bit: nat): nat {
    (bf * BLOCK_USE_MAP_SIZE + idx) * 8 + bit
  }

  /** Taking a number apart gives the parts that it was made of, and those find the
      byte and the bit again. */
  lemma SplitJoin(bf: nat, idx: nat, bit: nat)
    requires bf < BLOCK_FILE_COUNT && idx < BLOCK_USE_MAP_SIZE && bit < 8
    ensures var k := Number(bf, idx, bit);
            && k < BLOCKS && FileOf(k) == bf && IndexOf(k) / 8 == idx && IndexOf(k) % 8 == bit
            && k / 8 == bf * BLOCK_USE_MAP_SIZE + idx && k % 8 == bit
  {
  }

  lemma JoinSplit(k: nat)
    requires k < BLOCKS
    ensures FileOf(k) < BLOCK_FILE_COUNT && IndexOf(k) / 8 < BLOCK_USE_MAP_SIZE
    ensures Number(FileOf(k), IndexOf(k) / 8, IndexOf(k) % 8) == k
    ensures FileOf(k) * BLOCK_USE_MAP_SIZE + IndexOf(k) / 8 == k / 8 && IndexOf(k) % 8 == k % 8
  {
  }

  /** Different blocks lie apart. */
  lemma BlocksAreApart(j: nat, k: nat)
    requires j < BLOCKS && k < BLOCKS && j != k
    ensures FileOf(j) != FileOf(k) || IndexOf(j) + 1 <= IndexOf(k) || IndexOf(k) + 1 <= IndexOf(j)
  {
  }

  // ---------------------------------------------------------------------
  // Allocation
  // ---------------------------------------------------------------------

  lemma SetInMap(bits: seq<bv8>, now: seq<bv8>, k: nat)
    requires |bits| == MAP_BYTES && k < BLOCKS
    requires now == bits[k / 8 := bits[k / 8] | Mask(k % 8)]
    ensures UsedSet(now) == UsedSet(bits) + {k}
  {
    forall j: nat | j < BLOCKS ensures Used(now, j) <==> j == k || Used(bits, j) {
      SetBit(bits[k / 8], k % 8, j % 8);
    }
  }

  lemma ClearInMap(bits: seq<bv8>, now: seq<bv8>, k: nat)
    requires |bits| == MAP_BYTES && k < BLOCKS
    requires now == bits[k / 8 := bits[k / 8] & !Mask(k % 8)]
    ensures UsedSet(now) == UsedSet(bits) - {k}
  {
    forall j: nat | j < BLOCKS ensures Used(now, j) <==> j != k && Used(bits, j) {
      ClearBit(bits[k / 8], k % 8, j % 8);
    }
  }

  /** The first clear bit of a byte. */
  method FreeBit(b: bv8) returns (bit: nat)
    requires b != 0xff
    ensures bit < 8 && !Bit(b, bit) && forall i :: 0 <= i < bit ==> Bit(b, i)
  {
    bit := 0;
    while bit < 8
      invariant bit <= 8 && forall i :: 0 <= i < bit ==> Bit(b, i)
    {
      if b & Mask(bit) == 0 { return; }
      bit := bit + 1;
    }
    FullByte(b);
  }

  /** alloc_block: the first free block, which is marked as used, or 0 if all are
      used. Block 0 is never free. */
  method AllocBlock(bits: array<bv8>) returns (block: nat)
    requires bits.Length == MAP_BYTES && Used(bits[..], 0)
    modifies bits
    ensures block < BLOCKS
    ensures block == 0 ==> bits[..] == old(bits[..]) && forall k: nat :: k < BLOCKS ==> Used(bits[..], k)
    ensures block != 0 ==>
              && !Used(old(bits[..]), block) && (forall k: nat :: k < block ==> Used(old(bits[..]), k))
              && UsedSet(bits[..]) == UsedSet(old(bits[..])) + {block}
  {
    var bf := 0;
    while bf < BLOCK_FILE_COUNT
      invariant bf <= BLOCK_FILE_COUNT && bits[..] == old(bits[..])
      invariant AllUsed(bits[..], bf * BLOCK_USE_MAP_SIZE)
    {
      var idx := 0;
      while idx < BLOCK_USE_MAP_SIZE
        invariant idx <= BLOCK_USE_MAP_SIZE && bits[..] == old(bits[..])
        invariant AllUsed(bits[..], bf * BLOCK_USE_MAP_SIZE + idx)
      {
        var at := bf * BLOCK_USE_MAP_SIZE + idx;
        if bits[at] != 0xff {
          var bit := FreeBit(bits[at]);
          SplitJoin(bf, idx, bit);
          block := Number(bf, idx, bit);
          FirstFree(bits[..], at, bit);
          bits[at] := bits[at] | Mask(bit);
          SetInMap(old(bits[..]), bits[..], block);
          return;
        }
        idx := idx + 1;
      }
      bf := bf + 1;
    }
    block := 0;
    AllUsedBlocks(bits[..]);
  }

  /** The blocks of the first `n` bytes are used. */
  predicate AllUsed(bits: seq<bv8>, n: nat)
    requires n <= |bits|
  {
    forall i :: 0 <= i < n ==> bits[i] == 0xff
  }

  lemma AllUsedBlocks(bits: seq<bv8>)
    requires |bits| == MAP_BYTES && AllUsed(bits, MAP_BYTES)
    ensures forall k: nat :: k < BLOCKS ==> Used(bits, k)
  {
    forall k: nat | k < BLOCKS ensures Used(bits, k) {
      FullByte(bits[k / 8]);
    }
  }

  lemma FirstFree(bits: seq<bv8>, at: nat, bit: nat)
    requires |bits| == MAP_BYTES && at < MAP_BYTES && AllUsed(bits, at)
    requires bit < 8 && !Bit(bits[at], bit) && forall i :: 0 <= i < bit ==> Bit(bits[at], i)
    ensures !Used(bits, at * 8 + bit) && forall k: nat :: k < at * 8 + bit ==> Used(bits, k)
  {
    forall k: nat | k < at * 8 + bit ensures Used(bits, k) {
      if k / 8 < at {
        FullByte(bits[k / 8]);
      } else {
        assert k / 8 == at && k % 8 < bit;
      }
    }
  }

  /** Clearing the bit of a block (in invalidate_element). It undoes the
      allocation. */
  method FreeBlock(bits: array<bv8>, block: nat)
    requires bits.Length == MAP_BYTES && block < BLOCKS
    modifies bits
    ensures UsedSet(bits[..]) == UsedSet(old(bits[..])) - {block}
  {
    var bf, bi := FileOf(block), IndexOf(block);
    JoinSplit(block);
    var at := bf * BLOCK_USE_MAP_SIZE + bi / 8;
    bits[at] := bits[at] & !Mask(bi % 8);
    ClearInMap(old(bits[..]), bits[..], block);
  }

  // ---------------------------------------------------------------------
  // A new map
  // ---------------------------------------------------------------------

  function ZeroBytes(n: nat): (s: seq<bv8>)
    ensures |s| == n && forall i :: 0 <= i < n ==> s[i] == 0
  {
    if n == 0 then [] else ZeroBytes(n - 1) + [0]
  }

  /** The use maps of a new store: block 0 is taken. */
  function FreshMap(): (s: seq<bv8>)
    ensures |s| == MAP_BYTES
  {
    [1] + ZeroBytes(MAP_BYTES - 1)
  }

  lemma FreshUse()
    ensures UsedSet(FreshMap()) == {0}
  {
    forall k: nat | k < BLOCKS ensures Used(FreshMap(), k) <==> k == 0 {
      if k / 8 > 0 {
        assert FreshMap()[k / 8] == 0;
      }
    }
  }
}

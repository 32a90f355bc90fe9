/** The entries of the backing store, and what they must have to do with the disk
    for the store to be a map (content/fs_backing_store.c). */
module StoreSpec {
  import opened BlockUse
  import opened StoreDisk

  const SIZE_LIMIT := 0x1_0000_0000
  const REF_LIMIT := 256

  /** struct store_entry_element. `data` counts only while `heap` is set. */
  datatype Elem = Elem(size: nat, block: nat, refs: nat, heap: bool, data: seq<byte>)

  /** struct store_entry */
  datatype Entry = Entry(lastUsed: int, useCount: nat, invalid: bool, dataElem: Elem, metaElem: Elem) {
    function Get(k: Kind): Elem {
      if k.Data? then dataElem else metaElem
    }

    function With(k: Kind, e: Elem): Entry {
      if k.Data? then this.(dataElem := e) else this.(metaElem := e)
    }

    predicate InMemory() {
      dataElem.heap || metaElem.heap
    }

    function Size(): nat {
      dataElem.size + metaElem.size
    }
  }

  const NO_ELEM := Elem(0, 0, 0, false, [])
  const NEW_ENTRY := Entry(0, 0, false, NO_ELEM, NO_ELEM)

  /** The state of a store, and what was last stored for an URL and a kind. */
  datatype View = View(entries: map<Url, Entry>, disk: Disk, usedData: set<nat>, usedMeta: set<nat>,
                       last: map<(Url, Kind), seq<byte>>) {
    function UsedBy(k: Kind): set<nat> {
      if k.Data? then usedData else usedMeta
    }

    function WithUsed(k: Kind, s: set<nat>): View {
      if k.Data? then this.(usedData := s) else this.(usedMeta := s)
    }

    function Read(hash: Url -> nat, u: Url, k: Kind): Result<seq<byte>>
      requires u in entries
    {
      var e := entries[u].Get(k);
      ReadElement(disk, hash(u), k, e.block, e.size)
    }
  }

  // ---------------------------------------------------------------------
  // The invariant
  // ---------------------------------------------------------------------

  /** The element has what was last stored, on disk and in memory. */
  predicate IsStored(v: View, hash: Url -> nat, u: Url, k: Kind)
    requires u in v.entries
  {
    (u, k) in v.last && v.Read(hash, u, k) == Ok(v.last[(u, k)])
  }

  /** Nothing was stored to the element. */
  predicate IsAbsent(v: View, hash: Url -> nat, u: Url, k: Kind)
    requires u in v.entries
  {
    var e := v.entries[u].Get(k);
    !e.heap && e.size == 0 && e.block == 0 && (hash(u), k) !in v.disk.files
  }

  predicate ElemOk(v: View, hash: Url -> nat, u: Url, k: Kind)
    requires u in v.entries
  {
    var e := v.entries[u].Get(k);
    && e.size < SIZE_LIMIT && e.refs < REF_LIMIT
    && (e.heap ==> e.refs > 0 && v.Read(hash, u, k) == Ok(e.data))
    && (e.block != 0 ==> e.block in v.UsedBy(k) && e.block < BLOCKS && e.size <= BLOCK_SIZE)
    && (IsStored(v, hash, u, k) || IsAbsent(v, hash, u, k))
  }

  /** No block and no file name is shared. */
  predicate Distinct(v: View, hash: Url -> nat, u: Url, w: Url)
    requires u in v.entries && w in v.entries
  {
    && hash(u) != hash(w)
    && (v.entries[u].dataElem.block == v.entries[w].dataElem.block ==> v.entries[u].dataElem.block == 0)
    && (v.entries[u].metaElem.block == v.entries[w].metaElem.block ==> v.entries[u].metaElem.block == 0)
  }

  predicate Owns(v: View, hash: Url -> nat, u: Url, h: nat, k: Kind) {
    u in v.entries && hash(u) == h && v.entries[u].Get(k).block == 0
  }

  /** A file belongs to an element that has no block. */
  ghost predicate Owned(v: View, hash: Url -> nat, h: nat, k: Kind) {
    exists u :: Owns(v, hash, u, h, k)
  }

  ghost predicate Inv(v: View, hash: Url -> nat) {
    && (forall u, k :: u in v.entries ==> ElemOk(v, hash, u, k))
    && (forall u, w :: u in v.entries && w in v.entries && u != w ==> Distinct(v, hash, u, w))
    && (forall h, k :: (h, k) in v.disk.files ==> Owned(v, hash, h, k))
    && 0 in v.usedData && 0 in v.usedMeta
  }

  /** An URL without an entry has no file. */
  lemma NoStrayFile(v: View, hash: Url -> nat, u: Url, k: Kind)
    requires Inv(v, hash)
    requires u in v.entries ==> v.entries[u].Get(k).block != 0
    requires u !in v.entries ==> forall w :: w in v.entries ==> hash(w) != hash(u)
    ensures (hash(u), k) !in v.disk.files
  {
    forall w | w in v.entries && w != u ensures hash(w) != hash(u) {
      if u in v.entries { assert Distinct(v, hash, u, w); }
    }
    assert (hash(u), k) in v.disk.files ==> Owned(v, hash, hash(u), k);
  }

  // ---------------------------------------------------------------------
  // Fetching
  // ---------------------------------------------------------------------

  function FetchResult(v: View, hash: Url -> nat, u: Url, k: Kind): Result<seq<byte>> {
    if u !in v.entries then Err(NotFound)
    else if v.entries[u].Get(k).heap then Ok(v.entries[u].Get(k).data)
    else v.Read(hash, u, k)
  }

  /** A fetch gives what was last stored, or else "not found", and that only if the
      URL has no entry or nothing was stored to the element since it got one. */
  lemma FetchIsLast(v: View, hash: Url -> nat, u: Url, k: Kind)
    requires Inv(v, hash)
    ensures FetchResult(v, hash, u, k)
         == if u in v.entries && IsStored(v, hash, u, k) then Ok(v.last[(u, k)]) else Err(NotFound)
  {
    if u in v.entries {
      assert ElemOk(v, hash, u, k);
    }
  }

  // ---------------------------------------------------------------------
  // Changes in memory
  // ---------------------------------------------------------------------

  /** `e` says the same of the disk as the element of `u`, and its bytes in memory
      are those on disk. */
  predicate MemoryOk(v: View, hash: Url -> nat, u: Url, k: Kind, e: Elem)
    requires u in v.entries
  {
    var was := v.entries[u].Get(k);
    && e.size == was.size && e.block == was.block && e.refs < REF_LIMIT
    && (e.heap ==> e.refs > 0 && v.Read(hash, u, k) == Ok(e.data) && IsStored(v, hash, u, k))
  }

  lemma MemoryChange(v: View, hash: Url -> nat, u: Url, x: Entry)
    requires Inv(v, hash) && u in v.entries
    requires MemoryOk(v, hash, u, Data, x.dataElem) && MemoryOk(v, hash, u, Meta, x.metaElem)
    ensures Inv(v.(entries := v.entries[u := x]), hash)
  {
    var now := v.(entries := v.entries[u := x]);
    forall w, k | w in now.entries ensures ElemOk(now, hash, w, k) {
      assert ElemOk(v, hash, w, k);
      assert now.Read(hash, w, k) == v.Read(hash, w, k);
    }
    forall w, y | w in now.entries && y in now.entries && w != y ensures Distinct(now, hash, w, y) {
      assert Distinct(v, hash, w, y);
    }
    forall h, k | (h, k) in now.disk.files ensures Owned(now, hash, h, k) {
      assert Owned(v, hash, h, k);
      var w :| Owns(v, hash, w, h, k);
      assert Owns(now, hash, w, h, k);
    }
  }

  // ---------------------------------------------------------------------
  // Removing an entry
  // ---------------------------------------------------------------------

  /** invalidate_element */
  function WithoutElem(v: View, hash: Url -> nat, u: Url, k: Kind): View
    requires u in v.entries
  {
    var b := v.entries[u].Get(k).block;
    if b != 0 then v.WithUsed(k, v.UsedBy(k) - {b})
    else v.(disk := v.disk.(files := v.disk.files - {(hash(u), k)}))
  }

  function Removed(v: View, hash: Url -> nat, u: Url): View
    requires u in v.entries
  {
    var w := WithoutElem(WithoutElem(v, hash, u, Meta), hash, u, Data);
    w.(entries := v.entries - {u})
  }

  lemma RemovedKeepsElem(v: View, hash: Url -> nat, u: Url, w: Url, k: Kind)
    requires Inv(v, hash) && u in v.entries && w in v.entries && u != w
    ensures ElemOk(Removed(v, hash, u), hash, w, k)
  {
    assert ElemOk(v, hash, w, k) && Distinct(v, hash, u, w);
    var now := Removed(v, hash, u);
    assert now.disk.blocks == v.disk.blocks && now.entries[w] == v.entries[w];
    assert (hash(w), k) in now.disk.files <==> (hash(w), k) in v.disk.files;
    assert now.Read(hash, w, k) == v.Read(hash, w, k);
  }

  lemma RemovedFiles(v: View, hash: Url -> nat, u: Url, h: nat, k: Kind)
    requires Inv(v, hash) && u in v.entries && (h, k) in Removed(v, hash, u).disk.files
    ensures Owned(Removed(v, hash, u), hash, h, k)
  {
    assert Owned(v, hash, h, k);
    var w :| Owns(v, hash, w, h, k);
    assert Owns(Removed(v, hash, u), hash, w, h, k);
  }

  lemma RemovedKeepsInv(v: View, hash: Url -> nat, u: Url)
    requires Inv(v, hash) && u in v.entries
    ensures Inv(Removed(v, hash, u), hash)
  {
    var now := Removed(v, hash, u);
    forall w, k | w in now.entries ensures ElemOk(now, hash, w, k) {
      RemovedKeepsElem(v, hash, u, w, k);
    }
    forall w, y | w in now.entries && y in now.entries && w != y ensures Distinct(now, hash, w, y) {
      assert Distinct(v, hash, w, y);
    }
    forall h, k | (h, k) in now.disk.files ensures Owned(now, hash, h, k) {
      RemovedFiles(v, hash, u, h, k);
    }
    assert ElemOk(v, hash, u, Data) && ElemOk(v, hash, u, Meta);
  }

  // ---------------------------------------------------------------------
  // Storing
  // ---------------------------------------------------------------------

  /** The entry that set_store_entry works on. */
  function EntryOf(v: View, u: Url): Entry {
    if u in v.entries then v.entries[u] else NEW_ENTRY
  }

  /** set_store_entry behind the eviction, and the write. `block` is the block that
      the element has then; it is marked as used. */
  function Put(v: View, hash: Url -> nat, u: Url, k: Kind, data: seq<byte>, block: nat, now: int): View {
    var d := data[..|data| % SIZE_LIMIT];
    var x := EntryOf(v, u).(lastUsed := now, useCount := 1).With(k, Elem(|d|, block, 1, true, d));
    var w := v.(entries := v.entries[u := x], disk := WriteElement(v.disk, hash(u), k, block, d),
                last := v.last[(u, k) := data]);
    w.WithUsed(k, if block != 0 then v.UsedBy(k) + {block} else v.UsedBy(k))
  }

  /** The block that set_store_entry chooses: a small object gets a new one, unless
      all are used. A large one leaves the field as it was. */
  ghost predicate ChoosesBlock(v: View, u: Url, k: Kind, size: nat, block: nat) {
    if size > BLOCK_SIZE then block == EntryOf(v, u).Get(k).block
    else if block == 0 then forall j: nat :: j < BLOCKS ==> j in v.UsedBy(k)
    else block < BLOCKS && block !in v.UsedBy(k)
  }

  /** May these bytes be stored? Not if they are too many for the size field, or
      if the URL shares its hash with another one. An object of more than a block
      must not replace one that has a block, and an object that gets a block must
      not replace one that has a file. */
  ghost predicate MayStore(v: View, hash: Url -> nat, u: Url, k: Kind, data: seq<byte>) {
    && |data| < SIZE_LIMIT
    && (u !in v.entries ==> forall w :: w in v.entries ==> hash(w) != hash(u))
    && (|data| > BLOCK_SIZE ==> EntryOf(v, u).Get(k).block == 0)
    && (|data| <= BLOCK_SIZE && (exists j: nat :: j < BLOCKS && j !in v.UsedBy(k)) ==> (hash(u), k) !in v.disk.files)
  }

  lemma PutElem(v: View, hash: Url -> nat, u: Url, k: Kind, data: seq<byte>, block: nat, now: int)
    requires |data| < SIZE_LIMIT && block < BLOCKS && (block != 0 ==> |data| <= BLOCK_SIZE)
    ensures ElemOk(Put(v, hash, u, k, data, block, now), hash, u, k)
  {
    assert data[..|data|] == data;
    WriteThenRead(v.disk, hash(u), k, block, data);
    hide WriteElement, ReadElement;
  }

  /** What a store does to the disk and to the other elements. */
  lemma PutFields(v: View, hash: Url -> nat, u: Url, k: Kind, data: seq<byte>, block: nat, now: int, w: Url, kw: Kind)
    requires |data| < SIZE_LIMIT && w in v.entries && (w != u || kw != k)
    ensures var z := Put(v, hash, u, k, data, block, now);
            && z.disk == WriteElement(v.disk, hash(u), k, block, data)
            && w in z.entries && z.entries[w].Get(kw) == v.entries[w].Get(kw)
  {
    assert data[..|data|] == data;
  }

  /** What was readable stays as it was. */
  lemma PutKeepsRead(v: View, hash: Url -> nat, u: Url, k: Kind, data: seq<byte>, block: nat, now: int,
                     w: Url, kw: Kind)
    requires Inv(v, hash) && w in v.entries && (w != u || kw != k)
    requires |data| < SIZE_LIMIT && block < BLOCKS && block !in v.UsedBy(k) - {0} && (block != 0 ==> |data| <= BLOCK_SIZE)
    requires w != u ==> hash(w) != hash(u)
    ensures Put(v, hash, u, k, data, block, now).Read(hash, w, kw) == v.Read(hash, w, kw)
  {
    var e := v.entries[w].Get(kw);
    assert ElemOk(v, hash, w, kw);
    PutFields(v, hash, u, k, data, block, now, w, kw);
    WriteKeepsOther(v.disk, hash(u), k, block, data, hash(w), kw, e.block, e.size);
  }

  lemma PutKeepsElem(v: View, hash: Url -> nat, u: Url, k: Kind, data: seq<byte>, block: nat, now: int,
                     w: Url, kw: Kind)
    requires Inv(v, hash) && w in v.entries && (w != u || kw != k)
    requires |data| < SIZE_LIMIT && block < BLOCKS && block !in v.UsedBy(k) - {0} && (block != 0 ==> |data| <= BLOCK_SIZE)
    requires w != u ==> hash(w) != hash(u)
    ensures ElemOk(Put(v, hash, u, k, data, block, now), hash, w, kw)
  {
    assert ElemOk(v, hash, w, kw);
    PutKeepsRead(v, hash, u, k, data, block, now, w, kw);
    var z := Put(v, hash, u, k, data, block, now);
    assert z.entries[w].Get(kw) == v.entries[w].Get(kw);
    assert (hash(w), kw) in z.disk.files ==> (hash(w), kw) in v.disk.files;
  }

  lemma PutDistinct(v: View, hash: Url -> nat, u: Url, k: Kind, data: seq<byte>, block: nat, now: int, w: Url)
    requires Inv(v, hash) && ChoosesBlock(v, u, k, |data|, block) && MayStore(v, hash, u, k, data)
    requires w in v.entries && w != u
    ensures Distinct(Put(v, hash, u, k, data, block, now), hash, u, w)
  {
    assert ElemOk(v, hash, w, Data) && ElemOk(v, hash, w, Meta);
    if u in v.entries {
      assert Distinct(v, hash, u, w);
    }
  }

  lemma PutOtherElem(v: View, hash: Url -> nat, u: Url, k: Kind, data: seq<byte>, block: nat, now: int, kw: Kind)
    requires Inv(v, hash) && ChoosesBlock(v, u, k, |data|, block) && MayStore(v, hash, u, k, data)
    requires u !in v.entries && kw != k
    ensures IsAbsent(Put(v, hash, u, k, data, block, now), hash, u, kw)
  {
    NoStrayFile(v, hash, u, kw);
  }

  lemma PutElements(v: View, hash: Url -> nat, u: Url, k: Kind, data: seq<byte>, block: nat, now: int, w: Url, kw: Kind)
    requires Inv(v, hash) && ChoosesBlock(v, u, k, |data|, block) && MayStore(v, hash, u, k, data)
    requires w in v.entries || w == u
    ensures ElemOk(Put(v, hash, u, k, data, block, now), hash, w, kw)
  {
    if w == u && kw == k {
      PutElem(v, hash, u, k, data, block, now);
    } else if w in v.entries {
      if w != u && u in v.entries { assert Distinct(v, hash, u, w); }
      PutKeepsElem(v, hash, u, k, data, block, now, w, kw);
    } else {
      PutOtherElem(v, hash, u, k, data, block, now, kw);
    }
  }

  lemma PutFiles(v: View, hash: Url -> nat, u: Url, k: Kind, data: seq<byte>, block: nat, now: int, h: nat, kh: Kind)
    requires Inv(v, hash) && ChoosesBlock(v, u, k, |data|, block) && MayStore(v, hash, u, k, data)
    requires (h, kh) in Put(v, hash, u, k, data, block, now).disk.files
    ensures Owned(Put(v, hash, u, k, data, block, now), hash, h, kh)
  {
    var z := Put(v, hash, u, k, data, block, now);
    if h == hash(u) && kh == k {
      assert block == 0;
      assert Owns(z, hash, u, h, kh);
    } else {
      assert Owned(v, hash, h, kh);
      var w :| Owns(v, hash, w, h, kh);
      assert Owns(z, hash, w, h, kh);
    }
  }

  lemma PutKeepsInv(v: View, hash: Url -> nat, u: Url, k: Kind, data: seq<byte>, block: nat, now: int)
    requires Inv(v, hash) && ChoosesBlock(v, u, k, |data|, block) && MayStore(v, hash, u, k, data)
    ensures Inv(Put(v, hash, u, k, data, block, now), hash)
  {
    var z := Put(v, hash, u, k, data, block, now);
    forall w, kw | w in z.entries ensures ElemOk(z, hash, w, kw) {
      PutElements(v, hash, u, k, data, block, now, w, kw);
    }
    forall w, y | w in z.entries && y in z.entries && w != y ensures Distinct(z, hash, w, y) {
      if y == u {
        PutDistinct(v, hash, u, k, data, block, now, w);
      } else if w == u {
        PutDistinct(v, hash, u, k, data, block, now, y);
      } else {
        assert Distinct(v, hash, w, y);
      }
    }
    forall h, kh | (h, kh) in z.disk.files ensures Owned(z, hash, h, kh) {
      PutFiles(v, hash, u, k, data, block, now, h, kh);
    }
  }

  /** Each way not to meet `MayStore` breaks the invariant. */
  lemma PutBreaksInv(v: View, hash: Url -> nat, u: Url, k: Kind, data: seq<byte>, block: nat, now: int)
    requires Inv(v, hash) && ChoosesBlock(v, u, k, |data| % SIZE_LIMIT, block) && !MayStore(v, hash, u, k, data)
    ensures !Inv(Put(v, hash, u, k, data, block, now), hash)
  {
    var z := Put(v, hash, u, k, data, block, now);
    assert u in z.entries && z.entries[u].Get(k).heap;
    if |data| >= SIZE_LIMIT {
      assert !ElemOk(z, hash, u, k);
    } else if u !in v.entries && exists w :: w in v.entries && hash(w) == hash(u) {
      var w :| w in v.entries && hash(w) == hash(u);
      assert !Distinct(z, hash, u, w);
    } else if |data| > BLOCK_SIZE {
      assert data[..|data|] == data && !ElemOk(z, hash, u, k);
    } else {
      assert block != 0 && (hash(u), k) in z.disk.files;
      if Inv(z, hash) {
        NoStrayFile(z, hash, u, k);
      }
    }
  }

  /** Storing keeps the invariant just if the bytes may be stored. */
  lemma PutIsSafeIff(v: View, hash: Url -> nat, u: Url, k: Kind, data: seq<byte>, block: nat, now: int)
    requires Inv(v, hash) && ChoosesBlock(v, u, k, |data| % SIZE_LIMIT, block)
    ensures Inv(Put(v, hash, u, k, data, block, now), hash) <==> MayStore(v, hash, u, k, data)
  {
    if MayStore(v, hash, u, k, data) {
      PutKeepsInv(v, hash, u, k, data, block, now);
    } else {
      PutBreaksInv(v, hash, u, k, data, block, now);
    }
  }

  /** What goes wrong when a large object replaces one with a block: an object in
      the next block is then fetched as bytes of the large one. */
  lemma OverflowIsFetched(v: View, hash: Url -> nat, u: Url, w: Url, k: Kind, data: seq<byte>, block: nat, now: int)
    requires u in v.entries && w in v.entries && u != w && |data| < SIZE_LIMIT
    requires ChoosesBlock(v, u, k, |data|, block)
    requires block != 0 && IndexOf(block) + 1 < 1024
    requires v.entries[w].Get(k).block == block + 1 && !v.entries[w].Get(k).heap
    requires BLOCK_SIZE + v.entries[w].Get(k).size <= |data|
    ensures FetchResult(Put(v, hash, u, k, data, block, now), hash, w, k)
         == Ok(data[BLOCK_SIZE..BLOCK_SIZE + v.entries[w].Get(k).size])
  {
    var z := Put(v, hash, u, k, data, block, now);
    assert z.disk == WriteElement(v.disk, hash(u), k, block, data) && z.entries[w] == v.entries[w] by {
      assert data[..|data|] == data;
    }
    WideWriteOverwrites(v.disk, hash(u), k, block, data, hash(w), v.entries[w].Get(k).size);
  }

  /** What goes wrong when an object with a block replaces one with a file: the file
      stays when the entry is removed. When bytes of the other kind are stored,
      fetching gives no bytes where nothing should be found. */
  lemma StaleFileIsFetched(v: View, hash: Url -> nat, u: Url, k: Kind, other: Kind, data: seq<byte>, block: nat, now: int)
    requires u in v.entries && v.entries[u].Get(k).block != 0 && (hash(u), k) in v.disk.files
    requires k != other
    ensures FetchResult(Put(Removed(v, hash, u), hash, u, other, data, block, now), hash, u, k) == Ok([])
  {
    var w := Removed(v, hash, u);
    assert (hash(u), k) in w.disk.files;
    var z := Put(w, hash, u, other, data, block, now);
    assert z.entries[u].Get(k) == NO_ELEM && (hash(u), k) in z.disk.files;
  }
}

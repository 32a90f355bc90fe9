/** The backing store of the cache (content/fs_backing_store.c): it is a map from
    an URL and a kind to the bytes last stored. */
module BackingStore {
  import opened BlockUse
  import opened StoreDisk
  import opened StoreSpec
  import opened EvictionOrder
  import EntriesFile

  /** get_store_entry: the entry has been used. */
  function Touched(x: Entry, now: int): Entry {
    x.(lastUsed := now, useCount := (x.useCount + 1) % 0x1_0000)
  }

  /** invalidate_entry: an entry that holds memory is only marked. */
  function Invalidated(v: View, hash: Url -> nat, u: Url): View
    requires u in v.entries
  {
    if v.entries[u].InMemory() then v.(entries := v.entries[u := v.entries[u].(invalid := true)])
    else Removed(v, hash, u)
  }

  lemma InvalidatedKeepsInv(v: View, hash: Url -> nat, u: Url)
    requires Inv(v, hash) && u in v.entries
    ensures Inv(Invalidated(v, hash, u), hash)
  {
    if v.entries[u].InMemory() {
      SameMemory(v, hash, u, v.entries[u].(invalid := true));
    } else {
      RemovedKeepsInv(v, hash, u);
    }
  }

  /** A change to an entry that leaves its elements as they are. */
  lemma SameMemory(v: View, hash: Url -> nat, u: Url, x: Entry)
    requires Inv(v, hash) && u in v.entries
    requires x.dataElem == v.entries[u].dataElem && x.metaElem == v.entries[u].metaElem
    ensures Inv(v.(entries := v.entries[u := x]), hash)
  {
    assert ElemOk(v, hash, u, Data) && ElemOk(v, hash, u, Meta);
    MemoryChange(v, hash, u, x);
  }

  /** What eviction does to the entries: those in memory stay and may be marked,
      others are removed, those used less first, or stay as they are. */
  ghost predicate Evicted(was: map<Url, Entry>, now: map<Url, Entry>) {
    && (forall u :: u in now ==> u in was)
    && (forall u :: u in was ==> KeptOrNot(was, now, u))
    && (forall u, w :: u in was && u !in now && w in now && !now[w].InMemory() ==> LessUsed(was[u], was[w]))
  }

  predicate KeptOrNot(was: map<Url, Entry>, now: map<Url, Entry>, u: Url)
    requires u in was
  {
    if was[u].InMemory() then u in now && (now[u] == was[u] || now[u] == was[u].(invalid := true))
    else u in now ==> now[u] == was[u]
  }

  /** The first `i` entries of `order` have been dealt with. */
  ghost predicate Evicting(was: map<Url, Entry>, now: map<Url, Entry>, order: seq<Url>, i: nat)
    requires i <= |order| && IsOrder(order, was)
  {
    && (forall u :: u in now ==> u in was)
    && (forall u :: u in was ==> KeptOrNot(was, now, u))
    && (forall j :: 0 <= j < i ==> order[j] in now ==> was[order[j]].InMemory())
    && (forall j :: i <= j < |order| ==> order[j] in now && now[order[j]] == was[order[j]])
  }

  /** Only the entry `u` changes, and it stays if it is in memory. */
  lemma InvalidatedEntries(v: View, hash: Url -> nat, u: Url)
    requires u in v.entries
    ensures var now := Invalidated(v, hash, u).entries;
            && (forall w :: w != u ==> (w in now <==> w in v.entries) && (w in now ==> now[w] == v.entries[w]))
            && if v.entries[u].InMemory() then u in now && now[u] == v.entries[u].(invalid := true) else u !in now
  {
  }

  lemma EvictNext(was: map<Url, Entry>, v: View, hash: Url -> nat, order: seq<Url>, i: nat)
    requires IsOrder(order, was) && i < |order| && Evicting(was, v.entries, order, i)
    ensures order[i] in v.entries
    ensures Evicting(was, Invalidated(v, hash, order[i]).entries, order, i + 1)
  {
    var now, u := Invalidated(v, hash, order[i]).entries, order[i];
    InvalidatedEntries(v, hash, u);
    hide Invalidated;
    assert KeptOrNot(was, v.entries, u) && v.entries[u] == was[u];
    forall w | w in was ensures KeptOrNot(was, now, w) {
      assert KeptOrNot(was, v.entries, w);
    }
    forall j | i + 1 <= j < |order| ensures order[j] in now && now[order[j]] == was[order[j]] {
      assert order[i] != order[j];
    }
    forall j | 0 <= j < i ensures order[j] in now ==> was[order[j]].InMemory() {
      assert order[j] != order[i];
    }
  }

  lemma EvictingIsEvicted(was: map<Url, Entry>, now: map<Url, Entry>, order: seq<Url>, i: nat)
    requires i <= |order| && IsOrder(order, was) && Evicting(was, now, order, i)
    ensures Evicted(was, now)
  {
    forall u, w | u in was && u !in now && w in now && !now[w].InMemory()
      ensures LessUsed(was[u], was[w])
    {
      assert KeptOrNot(was, now, w) && KeptOrNot(was, now, u);
      var j :| 0 <= j < |order| && order[j] == u;
      var n :| 0 <= n < |order| && order[n] == w;
      assert j < i <= n;
      ComparIsPreorder(was[u], was[w], was[w]);
    }
  }

  /** Has an entry in memory been dealt with? */
  ghost predicate AnyHeld(was: map<Url, Entry>, order: seq<Url>, i: nat)
    requires i <= |order| && IsOrder(order, was)
  {
    exists j :: 0 <= j < i && was[order[j]].InMemory()
  }

  /** Once an entry in memory has been dealt with, or all entries, none is left that
      could be removed. */
  lemma NothingLeft(was: map<Url, Entry>, now: map<Url, Entry>, order: seq<Url>, i: nat, u: Url)
    requires i <= |order| && IsOrder(order, was) && Evicting(was, now, order, i)
    requires i == |order| || AnyHeld(was, order, i)
    requires u in now
    ensures now[u].InMemory()
  {
    assert KeptOrNot(was, now, u);
    var n :| 0 <= n < |order| && order[n] == u;
    if AnyHeld(was, order, i) && !was[u].InMemory() {
      var j :| 0 <= j < i && was[order[j]].InMemory();
      UnreferencedFirst(order, was, j, n);
    }
  }

  /** The entry after set_store_entry. */
  function SetEntry(x: Entry, k: Kind, d: seq<byte>, block: nat, now: int): Entry {
    x.(lastUsed := now, useCount := 1).With(k, Elem(|d|, block, 1, true, d))
  }

  function WithBlock(v: View, k: Kind, block: nat): View {
    v.WithUsed(k, if block != 0 then v.UsedBy(k) + {block} else v.UsedBy(k))
  }

  /** The state after set_store_entry, before the write. */
  function SetView(v: View, u: Url, k: Kind, data: seq<byte>, block: nat, now: int): View {
    var x := SetEntry(EntryOf(v, u), k, data[..|data| % SIZE_LIMIT], block, now);
    WithBlock(v, k, block).(entries := v.entries[u := x])
  }

  /** The block that an element has is marked already. */
  lemma KeptBlock(v: View, hash: Url -> nat, u: Url, k: Kind)
    requires Inv(v, hash)
    ensures WithBlock(v, k, EntryOf(v, u).Get(k).block) == v
  {
    var b := EntryOf(v, u).Get(k).block;
    if u in v.entries { assert ElemOk(v, hash, u, k); }
    assert b != 0 ==> v.UsedBy(k) + {b} == v.UsedBy(k);
  }

  lemma PutIsSetAndWrite(v: View, hash: Url -> nat, u: Url, k: Kind, data: seq<byte>, block: nat, now: int)
    ensures Put(v, hash, u, k, data, block, now)
         == SetView(v, u, k, data, block, now).(
              disk := WriteElement(v.disk, hash(u), k, block, data[..|data| % SIZE_LIMIT]), last := v.last[(u, k) := data])
  {
  }

  lemma PutIsFetched(v: View, hash: Url -> nat, u: Url, k: Kind, data: seq<byte>, block: nat, now: int)
    ensures |data| < SIZE_LIMIT ==> FetchResult(Put(v, hash, u, k, data, block, now), hash, u, k) == Ok(data)
  {
    assert |data| < SIZE_LIMIT ==> data[..|data|] == data;
  }

  /** The flag for memory is set just if the count of references is not 0. */
  ghost predicate CountsOk(entries: map<Url, Entry>) {
    forall u, k :: u in entries ==> CountOk(entries[u].Get(k))
  }

  predicate CountOk(e: Elem) {
    e.heap <==> e.refs > 0
  }

  lemma EvictedKeepsCounts(was: map<Url, Entry>, now: map<Url, Entry>)
    requires Evicted(was, now) && CountsOk(was)
    ensures CountsOk(now)
  {
    forall u, k | u in now ensures CountOk(now[u].Get(k)) {
      assert KeptOrNot(was, now, u) && CountOk(was[u].Get(k));
    }
  }

  lemma UpdateKeepsCounts(was: map<Url, Entry>, u: Url, x: Entry)
    requires CountsOk(was) && CountOk(x.dataElem) && CountOk(x.metaElem)
    ensures CountsOk(was[u := x]) && CountsOk(was - {u})
  {
    forall w, k | w in was ensures CountOk(was[w].Get(k)) {
    }
    forall k ensures CountOk(x.Get(k)) {
    }
  }

  lemma PutKeepsCounts(v: View, hash: Url -> nat, u: Url, k: Kind, data: seq<byte>, block: nat, now: int)
    requires CountsOk(v.entries)
    ensures CountsOk(Put(v, hash, u, k, data, block, now).entries)
  {
    var x := EntryOf(v, u);
    if u in v.entries { assert CountOk(x.Get(Data)) && CountOk(x.Get(Meta)); }
    UpdateKeepsCounts(v.entries, u, SetEntry(x, k, data[..|data| % SIZE_LIMIT], block, now));
  }

  lemma FetchKeepsCounts(v: View, hash: Url -> nat, u: Url, k: Kind, now: int)
    requires Inv(v, hash) && u in v.entries
    ensures CountsOk(v.entries) && !AtLimit(v.entries[u].Get(k)) ==>
              CountsOk(v.entries[u := FetchEntry(v, hash, u, k, now)])
  {
    if CountsOk(v.entries) && !AtLimit(v.entries[u].Get(k)) {
      assert ElemOk(v, hash, u, k);
      assert CountOk(v.entries[u].Get(Data)) && CountOk(v.entries[u].Get(Meta));
      UpdateKeepsCounts(v.entries, u, FetchEntry(v, hash, u, k, now));
    }
  }

  lemma InvalidatedKeepsCounts(v: View, hash: Url -> nat, u: Url)
    requires CountsOk(v.entries) && u in v.entries
    ensures CountsOk(Invalidated(v, hash, u).entries)
  {
    assert CountOk(v.entries[u].Get(Data)) && CountOk(v.entries[u].Get(Meta));
    UpdateKeepsCounts(v.entries, u, v.entries[u].(invalid := true));
  }

  lemma ReleasedKeepsCounts(v: View, hash: Url -> nat, u: Url, k: Kind, now: int)
    requires CountsOk(v.entries) && u in v.entries && v.entries[u].Get(k).refs < REF_LIMIT
    ensures CountsOk(ReleasedView(v, hash, u, k, now).entries)
  {
    assert CountOk(v.entries[u].Get(Data)) && CountOk(v.entries[u].Get(Meta));
    var x := ReleasedEntry(Touched(v.entries[u], now), k);
    UpdateKeepsCounts(v.entries, u, x);
    if x.invalid {
      InvalidatedKeepsCounts(v.(entries := v.entries[u := x]), hash, u);
    }
  }

  lemma TouchedKeepsCounts(v: View, hash: Url -> nat, u: Url, now: int)
    requires CountsOk(v.entries) && u in v.entries
    ensures CountsOk(InvalidatedView(v, hash, u, now).entries)
  {
    assert CountOk(v.entries[u].Get(Data)) && CountOk(v.entries[u].Get(Meta));
    UpdateKeepsCounts(v.entries, u, Touched(v.entries[u], now));
    InvalidatedKeepsCounts(v.(entries := v.entries[u := Touched(v.entries[u], now)]), hash, u);
  }

  predicate SameSizes(x: Entry, y: Entry) {
    x.dataElem.size == y.dataElem.size && x.metaElem.size == y.metaElem.size
  }

  /** All references that can be counted are taken. */
  predicate AtLimit(e: Elem) {
    e.heap && e.refs == REF_LIMIT - 1
  }

  /** The entry after a fetch. */
  function FetchEntry(v: View, hash: Url -> nat, u: Url, k: Kind, now: int): Entry
    requires u in v.entries
  {
    var x, e := Touched(v.entries[u], now), v.entries[u].Get(k);
    if e.heap then x.With(k, e.(refs := (e.refs + 1) % REF_LIMIT))
    else
      var r := v.Read(hash, u, k);
      x.With(k, if r.Ok? then e.(heap := true, refs := 1, data := r.value) else e.(heap := false, refs := 0, data := []))
  }

  /** The count starts again at 0. */
  lemma FetchAtLimit(v: View, hash: Url -> nat, u: Url, k: Kind, now: int)
    requires u in v.entries && AtLimit(v.entries[u].Get(k))
    ensures !Inv(v.(entries := v.entries[u := FetchEntry(v, hash, u, k, now)]), hash)
  {
    var z := v.(entries := v.entries[u := FetchEntry(v, hash, u, k, now)]);
    assert u in z.entries && !ElemOk(z, hash, u, k);
  }

  lemma FetchBelowLimit(v: View, hash: Url -> nat, u: Url, k: Kind, now: int)
    requires Inv(v, hash) && u in v.entries && !AtLimit(v.entries[u].Get(k))
    ensures Inv(v.(entries := v.entries[u := FetchEntry(v, hash, u, k, now)]), hash)
  {
    assert ElemOk(v, hash, u, Data) && ElemOk(v, hash, u, Meta);
    MemoryChange(v, hash, u, FetchEntry(v, hash, u, k, now));
  }

  lemma FetchKeepsInv(v: View, hash: Url -> nat, u: Url, k: Kind, now: int)
    requires Inv(v, hash) && u in v.entries
    ensures Inv(v.(entries := v.entries[u := FetchEntry(v, hash, u, k, now)]), hash)
       <==> !AtLimit(v.entries[u].Get(k))
  {
    hide Inv, AtLimit, FetchEntry;
    if AtLimit(v.entries[u].Get(k)) {
      FetchAtLimit(v, hash, u, k, now);
    } else {
      FetchBelowLimit(v, hash, u, k, now);
    }
  }

  function Other(k: Kind): Kind {
    if k.Data? then Meta else Data
  }

  /** The entry `x` has been used at the time `now`, and has become `y`. At most the memory of
      the element `k` has changed: it has `refs` references, and none means no memory. */
  predicate IsHeld(x: Entry, y: Entry, k: Kind, now: int, refs: nat) {
    var e, f := x.Get(k), y.Get(k);
    && y.lastUsed == now && y.useCount == (x.useCount + 1) % 0x1_0000 && y.invalid == x.invalid
    && y.Get(Other(k)) == x.Get(Other(k)) && f.size == e.size && f.block == e.block
    && (f.heap <==> refs > 0) && (f.heap ==> f.refs == refs) && (e.heap && f.heap ==> f.data == e.data)
  }

  /** entry_release_alloc */
  function ReleasedEntry(x: Entry, k: Kind): Entry {
    var e := x.Get(k);
    if !e.heap then x
    else
      var refs := (e.refs + REF_LIMIT - 1) % REF_LIMIT;
      x.With(k, if refs == 0 then e.(refs := 0, heap := false, data := []) else e.(refs := refs))
  }

  /** The references to the memory of an element. */
  function References(v: View, u: Url, k: Kind): nat
    requires u in v.entries
  {
    if v.entries[u].Get(k).heap then v.entries[u].Get(k).refs else 0
  }

  /** With the last reference the memory goes, and with the last memory an entry that was
      invalidated. */
  /** From `v` to `w` the element has lost one reference. The entry is gone just if it is not
      valid, and this was the last reference to any of its memory. All other entries stay as
      they were. */
  ghost predicate IsReleased(v: View, w: View, u: Url, k: Kind, now: int)
    requires u in v.entries
  {
    var x, refs := v.entries[u], References(v, u, k);
    && (u in w.entries <==> !x.invalid || refs > 1 || x.Get(Other(k)).heap)
    && (u in w.entries ==> IsHeld(x, w.entries[u], k, now, if refs > 0 then refs - 1 else 0))
    && forall z :: z != u ==> (z in w.entries <==> z in v.entries) && (z in w.entries ==> w.entries[z] == v.entries[z])
  }

  lemma ReleasedSizes(x: Entry, k: Kind, now: int)
    ensures SameSizes(x, ReleasedEntry(Touched(x, now), k))
  {
  }

  lemma ReleasedEntryIsHeld(x: Entry, k: Kind, now: int)
    requires x.Get(k).heap ==> 0 < x.Get(k).refs < REF_LIMIT
    ensures var y, refs := ReleasedEntry(Touched(x, now), k), if x.Get(k).heap then x.Get(k).refs else 0;
            && IsHeld(x, y, k, now, if refs > 0 then refs - 1 else 0) && y.invalid == x.invalid
            && (x.invalid ==> y.(invalid := true) == y) && (y.InMemory() <==> refs > 1 || x.Get(Other(k)).heap)
  {
  }

  lemma ReleasedIsHeld(v: View, hash: Url -> nat, u: Url, k: Kind, now: int)
    requires Inv(v, hash) && u in v.entries
    ensures IsReleased(v, ReleasedView(v, hash, u, k, now), u, k, now)
  {
    assert ElemOk(v, hash, u, k);
    ReleasedEntryIsHeld(v.entries[u], k, now);
    hide Inv, Removed, Invalidated, ElemOk, ReleasedEntry, IsHeld;
    var x := ReleasedEntry(Touched(v.entries[u], now), k);
    InvalidatedEntries(v.(entries := v.entries[u := x]), hash, u);
  }

  lemma FetchedIsHeld(v: View, hash: Url -> nat, u: Url, k: Kind, now: int)
    requires Inv(v, hash) && u in v.entries && !AtLimit(v.entries[u].Get(k))
    ensures IsHeld(v.entries[u], FetchEntry(v, hash, u, k, now), k, now,
                   if FetchResult(v, hash, u, k).Ok? then References(v, u, k) + 1 else 0)
  {
    assert ElemOk(v, hash, u, k);
  }

  function ReleasedView(v: View, hash: Url -> nat, u: Url, k: Kind, now: int): View
    requires u in v.entries
  {
    var x := ReleasedEntry(Touched(v.entries[u], now), k);
    var w := v.(entries := v.entries[u := x]);
    if x.invalid then Invalidated(w, hash, u) else w
  }

  function InvalidatedView(v: View, hash: Url -> nat, u: Url, now: int): View
    requires u in v.entries
  {
    Invalidated(v.(entries := v.entries[u := Touched(v.entries[u], now)]), hash, u)
  }

  lemma ReleaseKeepsInv(v: View, hash: Url -> nat, u: Url, k: Kind, now: int)
    requires Inv(v, hash) && u in v.entries
    ensures Inv(v.(entries := v.entries[u := ReleasedEntry(Touched(v.entries[u], now), k)]), hash)
  {
    assert ElemOk(v, hash, u, Data) && ElemOk(v, hash, u, Meta);
    MemoryChange(v, hash, u, ReleasedEntry(Touched(v.entries[u], now), k));
  }

  // ---------------------------------------------------------------------
  // The control files
  // ---------------------------------------------------------------------

  /** The use maps as they are saved. Without a file, only block 0 is used. */
  datatype BlocksFile = NoFile | Maps(data: seq<bv8>, meta: seq<bv8>)

  ghost predicate BlocksFileOk(f: BlocksFile) {
    f.Maps? ==> |f.data| == MAP_BYTES && |f.meta| == MAP_BYTES && Used(f.data, 0) && Used(f.meta, 0)
  }

  /** Are these blocks marked in the file? */
  ghost predicate Covers(f: BlocksFile, v: View)
    requires BlocksFileOk(f)
  {
    && v.usedData <= UsedSet(if f.Maps? then f.data else FreshMap())
    && v.usedMeta <= UsedSet(if f.Maps? then f.meta else FreshMap())
  }

  /** The files that a store leaves behind. */
  datatype Files = Files(entries: seq<byte>, blocks: BlocksFile)

  predicate UsageFits(u: Url, x: Entry) {
    |u| < SIZE_LIMIT && 0 <= x.lastUsed < EntriesFile.TIME_LIMIT && x.useCount < 0x1_0000
  }

  predicate UsageOk(entries: map<Url, Entry>) {
    forall u :: u in entries ==> UsageFits(u, entries[u])
  }

  /** What has not been changed is in the files as it is. */
  ghost predicate FilesAgree(v: View, entriesDirty: bool, blocksDirty: bool, f: Files) {
    && UsageOk(v.entries) && BlocksFileOk(f.blocks)
    && (entriesDirty || HasEntries(f, v.entries))
    && (blocksDirty || Covers(f.blocks, v))
  }

  ghost predicate HasEntries(f: Files, entries: map<Url, Entry>) {
    && EntriesFile.Contents(f.entries) == EntriesFile.Done(EntriesFile.Loaded(entries, Total(entries)))
    && (forall u :: u in entries ==> EntriesFile.Forget(entries[u]) == entries[u])
  }

  lemma EvictedUsage(was: map<Url, Entry>, now: map<Url, Entry>)
    requires Evicted(was, now) && UsageOk(was)
    ensures UsageOk(now)
  {
    forall u | u in now ensures UsageFits(u, now[u]) {
      assert KeptOrNot(was, now, u) && UsageFits(u, was[u]);
    }
  }

  lemma NotDirtyNotInMemory(f: Files, was: map<Url, Entry>, now: map<Url, Entry>, u: Url)
    requires HasEntries(f, was) && Evicted(was, now) && u in now
    ensures !now[u].InMemory()
  {
    assert KeptOrNot(was, now, u) && EntriesFile.Forget(was[u]) == was[u];
  }

  predicate InRange(u: Url, now: int) {
    |u| < SIZE_LIMIT && 0 <= now < EntriesFile.TIME_LIMIT
  }

  lemma InvalidatedAgrees(v: View, hash: Url -> nat, u: Url, b: bool, f: Files)
    requires u in v.entries
    ensures FilesAgree(v, true, b, f) ==> FilesAgree(Invalidated(v, hash, u), true, b, f)
  {
    if FilesAgree(v, true, b, f) {
      assert UsageFits(u, v.entries[u]);
    }
  }

  lemma UpdateAgrees(v: View, u: Url, x: Entry, e: bool, b: bool, f: Files)
    requires UsageFits(u, x)
    ensures FilesAgree(v, e, b, f) ==> FilesAgree(v.(entries := v.entries[u := x]), true, b, f)
  {
  }

  lemma ReleasedAgrees(v: View, hash: Url -> nat, u: Url, k: Kind, now: int, e: bool, b: bool, f: Files)
    requires u in v.entries && InRange(u, now)
    ensures FilesAgree(v, e, b, f) ==> FilesAgree(ReleasedView(v, hash, u, k, now), true, b, f)
  {
    var x := ReleasedEntry(Touched(v.entries[u], now), k);
    UpdateAgrees(v, u, x, e, b, f);
    InvalidatedAgrees(v.(entries := v.entries[u := x]), hash, u, b, f);
  }

  lemma InvalidateAgrees(v: View, hash: Url -> nat, u: Url, now: int, e: bool, b: bool, f: Files)
    requires u in v.entries && InRange(u, now)
    ensures FilesAgree(v, e, b, f) ==> FilesAgree(InvalidatedView(v, hash, u, now), true, b, f)
  {
    var x := Touched(v.entries[u], now);
    UpdateAgrees(v, u, x, e, b, f);
    InvalidatedAgrees(v.(entries := v.entries[u := x]), hash, u, b, f);
  }

  /** If nothing was in memory to start with, a store is not turned down. */
  lemma EvictionAgrees(v: View, mid: View, u: Url, k: Kind, e: bool, b: bool, f: Files)
    requires FilesAgree(v, e, b, f) && Evicted(v.entries, mid.entries)
    requires mid.usedData <= v.usedData && mid.usedMeta <= v.usedMeta
    ensures FilesAgree(mid, true, b, f)
    ensures EntryOf(mid, u).Get(k).heap ==> e
  {
    EvictedUsage(v.entries, mid.entries);
    if !e && u in mid.entries {
      NotDirtyNotInMemory(f, v.entries, mid.entries, u);
    }
  }

  lemma PutAgrees(v: View, w: View, hash: Url -> nat, u: Url, k: Kind, data: seq<byte>, block: nat, now: int,
                  b: bool, b': bool, f: Files)
    requires FilesAgree(v, true, b, f) && InRange(u, now)
    requires w == Put(v, hash, u, k, data, block, now)
    requires b' || (!b && w.usedData <= v.usedData && w.usedMeta <= v.usedMeta)
    ensures FilesAgree(w, true, b', f)
  {
    assert UsageFits(u, w.entries[u]);
    assert forall y :: y in v.entries ==> UsageFits(y, v.entries[y]);
  }

  /** What store does between the eviction, which gives `mid`, and its end. */
  ghost predicate Stores(v: View, mid: View, w: View, hash: Url -> nat, u: Url, k: Kind, data: seq<byte>, block: nat,
                         now: int, b: bool, b': bool)
  {
    && mid.usedData <= v.usedData && mid.usedMeta <= v.usedMeta
    && (if EntryOf(mid, u).Get(k).heap then w == mid && b' == b
        else
          && ChoosesBlock(mid, u, k, |data| % SIZE_LIMIT, block)
          && w == Put(mid, hash, u, k, data, block, now)
          && (b' || (!b && w.usedData <= mid.usedData && w.usedMeta <= mid.usedMeta)))
  }

  /** The element has one reference to these bytes, and its entry was used once, at `now`.
      No other element has changed, and the sum of all sizes has changed by what the size of
      this one has. */
  ghost predicate IsPut(mid: View, w: View, u: Url, k: Kind, data: seq<byte>, now: int) {
    && u in w.entries && w.entries[u].lastUsed == now && w.entries[u].useCount == 1
    && References(w, u, k) == 1 && w.entries[u].Get(k).data == data && w.entries[u].Get(k).size == |data|
    && w.entries[u].Get(Other(k)) == EntryOf(mid, u).Get(Other(k)) && w.entries[u].invalid == EntryOf(mid, u).invalid
    && w.entries - {u} == mid.entries - {u}
    && Total(w.entries) == Total(mid.entries) + |data| - EntryOf(mid, u).Get(k).size
  }

  lemma StoredIsPut(mid: View, hash: Url -> nat, u: Url, k: Kind, data: seq<byte>, block: nat, now: int)
    ensures IsPut(mid, Put(mid, hash, u, k, data, block, now), u, k, data[..|data| % SIZE_LIMIT], now)
  {
    hide WriteElement;
    var z := Put(mid, hash, u, k, data, block, now);
    assert z.entries - {u} == mid.entries - {u};
    TotalUpdate(mid.entries, u, z.entries[u]);
  }

  lemma StoredIsRight(v: View, mid: View, w: View, hash: Url -> nat, u: Url, k: Kind, data: seq<byte>, block: nat,
                      now: int, e: bool, b: bool, b': bool, f: Files)
    requires Inv(mid, hash) && Evicted(v.entries, mid.entries)
    requires Stores(v, mid, w, hash, u, k, data, block, now, b, b')
    ensures Inv(w, hash) <==> EntryOf(mid, u).Get(k).heap || MayStore(mid, hash, u, k, data)
    ensures !EntryOf(mid, u).Get(k).heap && |data| < SIZE_LIMIT ==> FetchResult(w, hash, u, k) == Ok(data)
    ensures CountsOk(v.entries) ==> CountsOk(w.entries)
    ensures FilesAgree(v, e, b, f) && InRange(u, now) ==>
              FilesAgree(w, e || !EntryOf(mid, u).Get(k).heap, b', f)
  {
    if CountsOk(v.entries) { EvictedKeepsCounts(v.entries, mid.entries); }
    if FilesAgree(v, e, b, f) { EvictionAgrees(v, mid, u, k, e, b, f); }
    if !EntryOf(mid, u).Get(k).heap {
      PutIsSafeIff(mid, hash, u, k, data, block, now);
      PutIsFetched(mid, hash, u, k, data, block, now);
      if CountsOk(mid.entries) { PutKeepsCounts(mid, hash, u, k, data, block, now); }
      if FilesAgree(v, e, b, f) && InRange(u, now) { PutAgrees(mid, w, hash, u, k, data, block, now, b, b', f); }
    }
  }

  lemma ReleasedIsRight(v: View, hash: Url -> nat, u: Url, k: Kind, now: int, e: bool, b: bool, f: Files)
    requires Inv(v, hash) && u in v.entries
    ensures Inv(v.(entries := v.entries[u := ReleasedEntry(Touched(v.entries[u], now), k)]), hash)
    ensures CountsOk(v.entries) ==> CountsOk(ReleasedView(v, hash, u, k, now).entries)
    ensures FilesAgree(v, e, b, f) && InRange(u, now) ==> FilesAgree(ReleasedView(v, hash, u, k, now), true, b, f)
  {
    ReleaseKeepsInv(v, hash, u, k, now);
    assert ElemOk(v, hash, u, k);
    if CountsOk(v.entries) { ReleasedKeepsCounts(v, hash, u, k, now); }
    if InRange(u, now) { ReleasedAgrees(v, hash, u, k, now, e, b, f); }
  }

  lemma InvalidatedIsRight(v: View, hash: Url -> nat, u: Url, now: int, e: bool, b: bool, f: Files)
    requires Inv(v, hash) && u in v.entries
    ensures Inv(v.(entries := v.entries[u := Touched(v.entries[u], now)]), hash)
    ensures CountsOk(v.entries) ==> CountsOk(InvalidatedView(v, hash, u, now).entries)
    ensures FilesAgree(v, e, b, f) && InRange(u, now) ==> FilesAgree(InvalidatedView(v, hash, u, now), true, b, f)
  {
    SameMemory(v, hash, u, Touched(v.entries[u], now));
    if CountsOk(v.entries) { TouchedKeepsCounts(v, hash, u, now); }
    if InRange(u, now) { InvalidateAgrees(v, hash, u, now, e, b, f); }
  }

  // ---------------------------------------------------------------------
  // Closing and opening
  // ---------------------------------------------------------------------

  /** The files `f` are what a store in state `v` leaves. */
  ghost predicate LeftBy(f: Files, v: View, hash: Url -> nat) {
    && Inv(v, hash) && UsageOk(v.entries) && BlocksFileOk(f.blocks) && Covers(f.blocks, v)
    && EntriesFile.Contents(f.entries)
         == EntriesFile.Done(EntriesFile.Loaded(EntriesFile.ForgetAll(v.entries), Total(EntriesFile.ForgetAll(v.entries))))
  }

  lemma AllFits(v: View, hash: Url -> nat)
    requires Inv(v, hash) && UsageOk(v.entries)
    ensures EntriesFile.AllFit(v.entries)
  {
    forall u | u in v.entries ensures EntriesFile.Fits(u, v.entries[u]) {
      assert UsageFits(u, v.entries[u]) && ElemOk(v, hash, u, Data) && ElemOk(v, hash, u, Meta);
    }
  }

  /** The state after reading the files. */
  ghost function Reloaded(v: View, usedData: set<nat>, usedMeta: set<nat>): View {
    View(EntriesFile.ForgetAll(v.entries), v.disk, usedData, usedMeta, v.last)
  }

  lemma ReloadKeepsInv(v: View, hash: Url -> nat, usedData: set<nat>, usedMeta: set<nat>)
    requires Inv(v, hash) && v.usedData <= usedData && v.usedMeta <= usedMeta
    ensures Inv(Reloaded(v, usedData, usedMeta), hash)
  {
    var z := Reloaded(v, usedData, usedMeta);
    forall u, k | u in z.entries ensures ElemOk(z, hash, u, k) {
      assert ElemOk(v, hash, u, k) && z.Read(hash, u, k) == v.Read(hash, u, k);
    }
    forall u, w | u in z.entries && w in z.entries && u != w ensures Distinct(z, hash, u, w) {
      assert Distinct(v, hash, u, w);
    }
    forall h, k | (h, k) in z.disk.files ensures Owned(z, hash, h, k) {
      assert Owned(v, hash, h, k);
      var u :| Owns(v, hash, u, h, k);
      assert Owns(z, hash, u, h, k);
    }
  }

  lemma ReloadKeepsFetch(v: View, hash: Url -> nat, usedData: set<nat>, usedMeta: set<nat>, u: Url, k: Kind)
    requires Inv(v, hash)
    ensures FetchResult(Reloaded(v, usedData, usedMeta), hash, u, k) == FetchResult(v, hash, u, k)
  {
    if u in v.entries { assert ElemOk(v, hash, u, k); }
  }

  /** The counts of references are written with the entries, but the flags for memory
      are cleared: count and flag agree only if nothing was in memory. */
  lemma ReloadKeepsCounts(v: View, hash: Url -> nat, usedData: set<nat>, usedMeta: set<nat>)
    requires Inv(v, hash) && CountsOk(v.entries)
    ensures CountsOk(Reloaded(v, usedData, usedMeta).entries)
       <==> forall u :: u in v.entries ==> !v.entries[u].InMemory()
  {
    var now := Reloaded(v, usedData, usedMeta).entries;
    forall u, k | u in v.entries ensures CountOk(now[u].Get(k)) <==> !v.entries[u].Get(k).heap {
      assert CountOk(v.entries[u].Get(k));
    }
    if CountsOk(now) {
      forall u | u in v.entries ensures !v.entries[u].InMemory() {
        assert u in now && CountOk(now[u].Get(Data)) && CountOk(now[u].Get(Meta));
      }
    }
  }

  class Store {
    const hash: Url -> nat
    const limit: nat
    const hysteresis: nat
    const useData: array<bv8>
    const useMeta: array<bv8>
    var entries: map<Url, Entry>
    var disk: Disk
    var total: int
    var entriesDirty: bool
    var blocksDirty: bool
    var files: Files
    ghost var last: map<(Url, Kind), seq<byte>>

    ghost predicate Shape() {
      useData.Length == MAP_BYTES && useMeta.Length == MAP_BYTES && useData != useMeta
    }

    ghost function V(): View
      requires Shape()
      reads this, useData, useMeta
    {
      View(entries, disk, UsedSet(useData[..]), UsedSet(useMeta[..]), last)
    }

    ghost predicate Valid()
      reads this, useData, useMeta
    {
      Shape() && Inv(V(), hash) && total == Total(entries)
    }

    /** The files are as they should be. */
    ghost predicate Synced()
      requires Shape()
      reads this, useData, useMeta
    {
      FilesAgree(V(), entriesDirty, blocksDirty, files)
    }

    method InvalidateElement(u: Url, k: Kind)
      requires Shape() && u in entries && entries[u].Get(k).block < BLOCKS
      modifies this`disk, this`total, useData, useMeta
      ensures V() == WithoutElem(old(V()), hash, u, k)
      ensures total == old(total) - entries[u].Get(k).size
    {
      var e := entries[u].Get(k);
      if e.block != 0 {
        FreeBlock(if k.Data? then useData else useMeta, e.block);
      } else {
        disk := disk.(files := disk.files - {(hash(u), k)});
      }
      total := total - e.size;
    }

    method InvalidateEntry(u: Url)
      requires Valid() && u in entries
      modifies this`entries, this`disk, this`total, useData, useMeta
      ensures Valid() && V() == Invalidated(old(V()), hash, u)
    {
      InvalidatedKeepsInv(V(), hash, u);
      assert ElemOk(V(), hash, u, Data) && ElemOk(V(), hash, u, Meta);
      ghost var was := entries;
      if entries[u].InMemory() {
        entries := entries[u := entries[u].(invalid := true)];
        TotalUpdate(was, u, entries[u]);
        return;
      }
      InvalidateElement(u, Meta);
      InvalidateElement(u, Data);
      entries := entries - {u};
      TotalWithout(was, u);
    }

    /** One entry of the list. `fall` is what the store has become smaller by. */
    method EvictOne(ghost was: map<Url, Entry>, order: seq<Url>, i: nat) returns (size: nat)
      requires Valid() && IsOrder(order, was) && i < |order| && Evicting(was, entries, order, i)
      modifies this`entries, this`disk, this`total, useData, useMeta
      ensures Valid() && last == old(last) && Evicting(was, entries, order, i + 1)
      ensures !was[order[i]].InMemory() ==> total == old(total) - size
      ensures V().usedData <= old(V()).usedData && V().usedMeta <= old(V()).usedMeta
    {
      var u := order[i];
      EvictNext(was, V(), hash, order, i);
      size := entries[u].Size();
      ghost var before := entries;
      InvalidateEntry(u);
      assert entries == Invalidated(old(V()), hash, u).entries;
      TotalWithout(before, u);
    }

    /** store_evict */
    method StoreEvict()
      requires Valid()
      modifies this`entries, this`disk, this`total, useData, useMeta
      ensures Valid() && last == old(last)
      ensures old(total) < limit ==> V() == old(V())
      ensures Evicted(old(entries), entries)
      ensures V().usedData <= old(V()).usedData && V().usedMeta <= old(V()).usedMeta
      ensures old(total) >= limit ==>
                total + hysteresis < old(total) || forall u :: u in entries ==> entries[u].InMemory()
    {
      if total < limit {
        return;
      }
      hide AnyHeld, Evicting, Evicted, Inv;
      ghost var was, before := entries, total;
      var order := ListEntries(entries);
      var removed, i := 0, 0;
      while i < |order| && removed <= hysteresis
        invariant i <= |order| && Valid() && last == old(last) && Evicting(was, entries, order, i)
        invariant AnyHeld(was, order, i) || removed + total == before
        invariant V().usedData <= old(V()).usedData && V().usedMeta <= old(V()).usedMeta
      {
        var size := EvictOne(was, order, i);
        assert !AnyHeld(was, order, i + 1) ==> !AnyHeld(was, order, i) && !was[order[i]].InMemory();
        removed := removed + size;
        i := i + 1;
      }
      EvictingIsEvicted(was, entries, order, i);
      if i == |order| || AnyHeld(was, order, i) {
        forall u | u in entries ensures entries[u].InMemory() {
          NothingLeft(was, entries, order, i, u);
        }
      }
    }

    // -------------------------------------------------------------------
    // Storing
    // -------------------------------------------------------------------

    /** alloc_block for one of the two kinds. */
    method AllocFor(k: Kind) returns (block: nat)
      requires Shape() && 0 in V().usedData && 0 in V().usedMeta
      modifies this`blocksDirty, useData, useMeta
      ensures if block == 0 then forall j: nat :: j < BLOCKS ==> j in old(V()).UsedBy(k)
              else block < BLOCKS && block !in old(V()).UsedBy(k)
      ensures V() == WithBlock(old(V()), k, block)
      ensures blocksDirty == (old(blocksDirty) || block != 0)
    {
      block := AllocBlock(if k.Data? then useData else useMeta);
      if block != 0 {
        blocksDirty := true;
      }
    }

    /** set_store_entry behind the eviction, when no memory is in the way: the
        entry, and the block of the element. */
    method SetElement(u: Url, k: Kind, data: seq<byte>, now: int) returns (block: nat)
      requires Valid() && !EntryOf(V(), u).Get(k).heap
      modifies this`entries, this`total, this`entriesDirty, this`blocksDirty, useData, useMeta
      ensures Shape() && entriesDirty
      ensures ChoosesBlock(old(V()), u, k, |data| % SIZE_LIMIT, block)
      ensures V() == SetView(old(V()), u, k, data, block, now)
      ensures blocksDirty || (!old(blocksDirty) && V().usedData <= old(V()).usedData && V().usedMeta <= old(V()).usedMeta)
      ensures total == Total(entries)
    {
      ghost var was := entries;
      var x := if u in entries then entries[u] else NEW_ENTRY;
      var e := x.Get(k);
      var d := data[..|data| % SIZE_LIMIT];
      block := e.block;
      if |d| <= BLOCK_SIZE {
        block := AllocFor(k);
      } else {
        KeptBlock(V(), hash, u, k);
      }
      var y := SetEntry(x, k, d, block, now);
      total := total - e.size + |d|;
      entries := entries[u := y];
      entriesDirty := true;
      TotalUpdate(was, u, y);
    }

    /** The rest of store: set_store_entry behind the eviction, and the write. */
    method PutObject(u: Url, k: Kind, data: seq<byte>, now: int) returns (ghost block: nat)
      requires Valid() && !EntryOf(V(), u).Get(k).heap
      modifies this`entries, this`disk, this`total, this`entriesDirty, this`blocksDirty, this`last, useData, useMeta
      ensures blocksDirty || (!old(blocksDirty) && V().usedData <= old(V()).usedData && V().usedMeta <= old(V()).usedMeta)
      ensures Shape() && total == Total(entries) && entriesDirty
      ensures ChoosesBlock(old(V()), u, k, |data| % SIZE_LIMIT, block)
      ensures V() == Put(old(V()), hash, u, k, data, block, now)
    {
      var b := SetElement(u, k, data, now);
      disk := WriteElement(disk, hash(u), k, b, data[..|data| % SIZE_LIMIT]);
      last := last[(u, k) := data];
      block := b;
      PutIsSetAndWrite(old(V()), hash, u, k, data, b, now);
    }

    /** store, without the control files. */
    method StoreEntry(u: Url, k: Kind, data: seq<byte>, now: int)
      returns (r: Result<()>, ghost mid: View, ghost block: nat)
      requires Valid()
      modifies this`entries, this`disk, this`total, this`entriesDirty, this`blocksDirty, this`last, useData, useMeta
      ensures Shape() && total == Total(entries)
      ensures Inv(mid, hash) && Evicted(old(entries), mid.entries) && mid.last == old(last)
      ensures old(total) < limit ==> mid == old(V())
      ensures Stores(old(V()), mid, V(), hash, u, k, data, block, now, old(blocksDirty), blocksDirty)
      ensures r == if EntryOf(mid, u).Get(k).heap then Err(Permission) else Ok(())
      ensures entriesDirty == (old(entriesDirty) || r.Ok?)
    {
      StoreEvict();
      mid, block := V(), 0;
      if u in entries && entries[u].Get(k).heap {
        return Err(Permission), mid, block;
      }
      block := PutObject(u, k, data, now);
      r := Ok(());
    }

    /** store. `mid` is the state after the eviction. */
    method StoreObject(u: Url, k: Kind, data: seq<byte>, now: int)
      returns (r: Result<()>, ghost mid: View, ghost block: nat)
      requires Valid()
      modifies this`entries, this`disk, this`total, this`entriesDirty, this`blocksDirty, this`last, useData, useMeta
      ensures Shape() && total == Total(entries)
      ensures Inv(mid, hash) && Evicted(old(entries), mid.entries) && mid.last == old(last)
      ensures old(total) < limit ==> mid == old(V())
      ensures Stores(old(V()), mid, V(), hash, u, k, data, block, now, old(blocksDirty), blocksDirty)
      ensures r == if EntryOf(mid, u).Get(k).heap then Err(Permission) else Ok(())
      ensures r.Err? ==> V() == mid
      ensures r.Ok? ==> IsPut(mid, V(), u, k, data[..|data| % SIZE_LIMIT], now)
      ensures Valid() <==> (r.Err? || MayStore(mid, hash, u, k, data))
      ensures r.Ok? && |data| < SIZE_LIMIT ==> FetchResult(V(), hash, u, k) == Ok(data)
      ensures CountsOk(old(entries)) ==> CountsOk(entries)
      ensures old(Synced()) && InRange(u, now) ==> Synced()
    {
      r, mid, block := StoreEntry(u, k, data, now);
      if r.Ok? { StoredIsPut(mid, hash, u, k, data, block, now); }
      StoredIsRight(old(V()), mid, V(), hash, u, k, data, block, now, old(entriesDirty), old(blocksDirty), blocksDirty, files);
    }

    // -------------------------------------------------------------------
    // Fetching, releasing and invalidating
    // -------------------------------------------------------------------

    /** Change an entry in memory only. */
    method SetInMemory(u: Url, x: Entry)
      requires Valid() && u in entries && SameSizes(entries[u], x)
      modifies this`entries, this`entriesDirty
      ensures V() == old(V()).(entries := old(entries)[u := x]) && entriesDirty
      ensures Shape() && total == Total(entries)
    {
      TotalUpdate(entries, u, x);
      entries := entries[u := x];
      entriesDirty := true;
    }

    /** fetch. There are no more than 255 references, or the count starts again at
        0 and the entry is no longer in order. */
    method Fetch(u: Url, k: Kind, now: int) returns (r: Result<seq<byte>>)
      requires Valid()
      modifies this`entries, this`entriesDirty
      ensures r == if u in old(entries) && IsStored(old(V()), hash, u, k) then Ok(last[(u, k)]) else Err(NotFound)
      ensures V() == old(V()).(entries := entries)
      ensures u in old(entries) ==> entries == old(entries)[u := FetchEntry(old(V()), hash, u, k, now)]
      ensures u !in old(entries) ==> entries == old(entries)
      ensures u in old(entries) && Valid() ==>
                var refs := References(old(V()), u, k);
                u in entries && IsHeld(old(entries)[u], entries[u], k, now, if r.Ok? then refs + 1 else 0)
      ensures Shape() && total == Total(entries)
      ensures Valid() <==> !(u in old(entries) && AtLimit(old(entries)[u].Get(k)))
      ensures CountsOk(old(entries)) && Valid() ==> CountsOk(entries)
      ensures old(Synced()) && InRange(u, now) ==> Synced()
    {
      hide IsHeld, References, IsStored, CountsOk;
      FetchIsLast(V(), hash, u, k);
      if u !in entries {
        return Err(NotFound);
      }
      var x, e := Touched(entries[u], now), entries[u].Get(k);
      if e.heap {
        r := Ok(e.data);
        e := e.(refs := (e.refs + 1) % REF_LIMIT);
      } else {
        r := ReadElement(disk, hash(u), k, e.block, e.size);
        if r.Ok? {
          e := e.(heap := true, refs := 1, data := r.value);
        } else {
          e := e.(heap := false, refs := 0, data := []);
        }
      }
      FetchKeepsInv(V(), hash, u, k, now);
      FetchKeepsCounts(V(), hash, u, k, now);
      if !AtLimit(entries[u].Get(k)) { FetchedIsHeld(V(), hash, u, k, now); }
      SetInMemory(u, x.With(k, e));
    }

    /** release. An entry that was invalidated goes with the last reference to its
        memory. */
    method Release(u: Url, k: Kind, now: int) returns (r: Result<()>)
      requires Valid()
      modifies this`entries, this`disk, this`total, this`entriesDirty, useData, useMeta
      ensures Valid() && (r == if u in old(entries) then Ok(()) else Err(NotFound))
      ensures V() == if u in old(entries) then ReleasedView(old(V()), hash, u, k, now) else old(V())
      ensures u in old(entries) ==> IsReleased(old(V()), V(), u, k, now)
      ensures CountsOk(old(entries)) ==> CountsOk(entries)
      ensures old(Synced()) && InRange(u, now) ==> Synced()
    {
      hide IsReleased, ReleasedEntry, CountsOk;
      if u !in entries {
        return Err(NotFound);
      }
      var x := ReleasedEntry(Touched(entries[u], now), k);
      ReleasedIsRight(V(), hash, u, k, now, entriesDirty, blocksDirty, files);
      ReleasedIsHeld(V(), hash, u, k, now);
      ReleasedSizes(entries[u], k, now);
      SetInMemory(u, x);
      if x.invalid {
        InvalidateEntry(u);
      }
      r := Ok(());
    }

    /** invalidate */
    method Invalidate(u: Url, now: int) returns (r: Result<()>)
      requires Valid()
      modifies this`entries, this`disk, this`total, this`entriesDirty, useData, useMeta
      ensures Valid() && (r == if u in old(entries) then Ok(()) else Err(NotFound))
      ensures u in entries <==> u in old(entries) && old(entries)[u].InMemory()
      ensures u in entries ==>
                var x := old(entries)[u];
                entries[u] == Entry(now, (x.useCount + 1) % 0x1_0000, true, x.dataElem, x.metaElem)
      ensures V() == if u in old(entries) then InvalidatedView(old(V()), hash, u, now) else old(V())
      ensures CountsOk(old(entries)) ==> CountsOk(entries)
      ensures old(Synced()) && InRange(u, now) ==> Synced()
    {
      if u !in entries {
        return Err(NotFound);
      }
      var x := Touched(entries[u], now);
      InvalidatedIsRight(V(), hash, u, now, entriesDirty, blocksDirty, files);
      SetInMemory(u, x);
      InvalidateEntry(u);
      r := Ok(());
    }

    // -------------------------------------------------------------------
    // Closing and opening
    // -------------------------------------------------------------------

    /** write_entries. The mark for changes is never taken away. */
    method WriteEntries()
      requires Valid() && Synced()
      modifies this`files
      ensures Valid() && files.blocks == old(files).blocks
      ensures EntriesFile.Contents(files.entries)
           == EntriesFile.Done(EntriesFile.Loaded(EntriesFile.ForgetAll(entries), Total(EntriesFile.ForgetAll(entries))))
    {
      if !entriesDirty {
        assert EntriesFile.ForgetAll(entries) == entries;
        return;
      }
      AllFits(V(), hash);
      var f := EntriesFile.SaveEntries(entries);
      files := files.(entries := f);
    }

    /** write_blocks */
    method WriteBlocks()
      requires Valid() && BlocksFileOk(files.blocks) && (blocksDirty || Covers(files.blocks, V()))
      modifies this`files
      ensures Valid() && files.entries == old(files).entries
      ensures BlocksFileOk(files.blocks) && Covers(files.blocks, V())
    {
      if blocksDirty {
        files := files.(blocks := Maps(useData[..], useMeta[..]));
      }
    }

    /** finalise: what is left can be read again. */
    method Finalise()
      requires Valid() && Synced()
      modifies this`files
      ensures Valid() && LeftBy(files, V(), hash)
    {
      WriteEntries();
      WriteBlocks();
    }

    constructor (hash: Url -> nat, limit: nat, hysteresis: nat, files: Files, disk: Disk, l: EntriesFile.Loaded,
                 useData: array<bv8>, useMeta: array<bv8>, ghost last: map<(Url, Kind), seq<byte>>)
      ensures this.hash == hash && this.limit == limit && this.hysteresis == hysteresis
      ensures this.files == files && this.disk == disk && entries == l.entries && total == l.total
      ensures this.useData == useData && this.useMeta == useMeta && this.last == last
      ensures !entriesDirty && !blocksDirty
    {
      this.hash, this.limit, this.hysteresis, this.files, this.disk := hash, limit, hysteresis, files, disk;
      entries, total, this.useData, this.useMeta, this.last := l.entries, l.total, useData, useMeta, last;
      entriesDirty, blocksDirty := false, false;
    }
  }

  /** read_blocks, for one of the kinds. */
  method LoadMap(f: BlocksFile, k: Kind) returns (bits: array<bv8>)
    requires BlocksFileOk(f)
    ensures fresh(bits) && bits.Length == MAP_BYTES
    ensures bits[..] == if f.NoFile? then FreshMap() else if k.Data? then f.data else f.meta
  {
    var from := if f.NoFile? then FreshMap() else if k.Data? then f.data else f.meta;
    bits := new bv8[MAP_BYTES](i requires 0 <= i < MAP_BYTES => from[i]);
  }

  /** initialise. A store that left its files in state `was` is opened in a state in
      which each fetch gives what it gave then. */
  method Initialise(hash: Url -> nat, limit: nat, hysteresis: nat, files: Files, disk: Disk, ghost was: View)
    returns (s: Store?)
    requires BlocksFileOk(files.blocks)
    ensures LeftBy(files, was, hash) && was.disk == disk ==>
              && s != null && fresh(s) && s.hash == hash && s.Valid() && s.Synced() && s.last == was.last
              && (forall u, k :: FetchResult(s.V(), hash, u, k) == FetchResult(was, hash, u, k))
              && (CountsOk(was.entries) ==>
                   (CountsOk(s.entries) <==> forall u :: u in was.entries ==> !was.entries[u].InMemory()))
  {
    var l := EntriesFile.LoadEntries(files.entries);
    if l.InitFailed? {
      return null;
    }
    var useData := LoadMap(files.blocks, Data);
    var useMeta := LoadMap(files.blocks, Meta);
    s := new Store(hash, limit, hysteresis, files, disk, l.loaded, useData, useMeta, was.last);
    FreshUse();
    if LeftBy(files, was, hash) && was.disk == disk {
      ghost var v := s.V();
      assert v == Reloaded(was, v.usedData, v.usedMeta);
      ReloadKeepsInv(was, hash, v.usedData, v.usedMeta);
      forall u, k ensures FetchResult(v, hash, u, k) == FetchResult(was, hash, u, k) {
        ReloadKeepsFetch(was, hash, v.usedData, v.usedMeta, u, k);
      }
      if CountsOk(was.entries) { ReloadKeepsCounts(was, hash, v.usedData, v.usedMeta); }
    }
  }

  /** A new store finds nothing. */
  lemma NewStore(hash: Url -> nat)
    ensures LeftBy(Files([], NoFile), View(map[], Disk(map[], map[]), {0}, {0}, map[]), hash)
  {
    FreshUse();
    assert EntriesFile.ForgetAll(map[]) == map[];
    assert EntriesFile.ReadFrames([], []) == EntriesFile.Frames([]);
  }
}

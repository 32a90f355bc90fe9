/** The file with the entries of the backing store (content/fs_backing_store.c): a
    length, that many bytes of URL, and the entry, for each entry. */
module EntriesFile {
  import opened BlockUse
  import opened StoreDisk
  import opened StoreSpec
  import opened EvictionOrder

  // ---------------------------------------------------------------------
  // Numbers
  // ---------------------------------------------------------------------

  function Pow256(width: nat): (p: nat)
    ensures p > 0
  {
    if width == 0 then 1 else 256 * Pow256(width - 1)
  }

  /** The bytes of a number, the low ones first. */
  function Bytes(n: nat, width: nat): (s: seq<byte>)
    ensures |s| == width
  {
    if width == 0 then [] else [(n % 256) as byte] + Bytes(n / 256, width - 1)
  }

  function Number(s: seq<byte>): nat {
    if s == [] then 0 else s[0] as int + 256 * Number(s[1..])
  }

  lemma {:induction false} NumberOfBytes(n: nat, width: nat)
    requires n < Pow256(width)
    ensures Number(Bytes(n, width)) == n
  {
    if width > 0 {
      NumberOfBytes(n / 256, width - 1);
      assert Bytes(n, width)[1..] == Bytes(n / 256, width - 1);
    }
  }

  lemma Widths()
    ensures Pow256(1) == 0x100 && Pow256(2) == 0x1_0000 && Pow256(4) == SIZE_LIMIT
    ensures Pow256(8) == SIZE_LIMIT * SIZE_LIMIT
  {
    assert Pow256(3) == 0x100_0000;
    assert Pow256(5) == 256 * SIZE_LIMIT && Pow256(6) == 0x1_0000 * SIZE_LIMIT;
  }

  /** A field at the front of `s`, and what follows. */
  function Field(s: seq<byte>, width: nat): (nat, seq<byte>)
    requires width <= |s|
  {
    (Number(s[..width]), s[width..])
  }

  lemma FieldOfBytes(n: nat, width: nat, rest: seq<byte>)
    requires n < Pow256(width)
    ensures Field(Bytes(n, width) + rest, width) == (n, rest)
  {
    NumberOfBytes(n, width);
    assert (Bytes(n, width) + rest)[..width] == Bytes(n, width);
  }

  // ---------------------------------------------------------------------
  // Entries
  // ---------------------------------------------------------------------

  const TIME_LIMIT := 0x8000_0000_0000_0000
  const ELEM_SIZE := 8
  const ENTRY_SIZE := 27

  /** Do the fields fit their types? */
  predicate ElemFits(e: Elem) {
    e.size < SIZE_LIMIT && e.block < 0x1_0000 && e.refs < REF_LIMIT
  }

  predicate Fits(u: Url, x: Entry) {
    && |u| < SIZE_LIMIT && 0 <= x.lastUsed < TIME_LIMIT && x.useCount < 0x1_0000
    && ElemFits(x.dataElem) && ElemFits(x.metaElem)
  }

  function EncodeElem(e: Elem): (s: seq<byte>)
    ensures |s| == ELEM_SIZE
  {
    Bytes(e.size, 4) + (Bytes(e.block, 2) + (Bytes(e.refs, 1) + Bytes(if e.heap then 1 else 0, 1)))
  }

  /** Whatever the flags say, nothing is in memory after the read. */
  function DecodeElem(s: seq<byte>): Elem
    requires |s| == ELEM_SIZE
  {
    var (size, s1) := Field(s, 4);
    var (block, s2) := Field(s1, 2);
    var (refs, s3) := Field(s2, 1);
    Elem(size, block, refs, false, [])
  }

  function ForgetElem(e: Elem): Elem {
    e.(heap := false, data := [])
  }

  lemma DecodeEncodeElem(e: Elem)
    requires ElemFits(e)
    ensures DecodeElem(EncodeElem(e)) == ForgetElem(e)
  {
    Widths();
    var flags := Bytes(if e.heap then 1 else 0, 1);
    FieldOfBytes(e.refs, 1, flags);
    FieldOfBytes(e.block, 2, Bytes(e.refs, 1) + flags);
    FieldOfBytes(e.size, 4, Bytes(e.block, 2) + (Bytes(e.refs, 1) + flags));
  }

  function EncodeEntry(x: Entry): (s: seq<byte>)
    ensures |s| == ENTRY_SIZE
  {
    Bytes(if x.lastUsed < 0 then 0 else x.lastUsed, 8)
    + (Bytes(x.useCount, 2) + (Bytes(if x.invalid then 1 else 0, 1) + (EncodeElem(x.dataElem) + EncodeElem(x.metaElem))))
  }

  function DecodeEntry(s: seq<byte>): Entry
    requires |s| == ENTRY_SIZE
  {
    var (lastUsed, s1) := Field(s, 8);
    var (useCount, s2) := Field(s1, 2);
    var (flags, s3) := Field(s2, 1);
    Entry(lastUsed, useCount, flags % 2 == 1, DecodeElem(s3[..ELEM_SIZE]), DecodeElem(s3[ELEM_SIZE..]))
  }

  function Forget(x: Entry): Entry {
    x.(dataElem := ForgetElem(x.dataElem), metaElem := ForgetElem(x.metaElem))
  }

  lemma DecodeEncodeEntry(u: Url, x: Entry)
    requires Fits(u, x)
    ensures DecodeEntry(EncodeEntry(x)) == Forget(x)
  {
    Widths();
    DecodeEncodeElem(x.dataElem);
    DecodeEncodeElem(x.metaElem);
    var invalid := if x.invalid then 1 else 0;
    var elems := EncodeElem(x.dataElem) + EncodeElem(x.metaElem);
    assert elems[..ELEM_SIZE] == EncodeElem(x.dataElem) && elems[ELEM_SIZE..] == EncodeElem(x.metaElem);
    FieldOfBytes(invalid, 1, elems);
    FieldOfBytes(x.useCount, 2, Bytes(invalid, 1) + elems);
    FieldOfBytes(x.lastUsed, 8, Bytes(x.useCount, 2) + (Bytes(invalid, 1) + elems));
  }

  // ---------------------------------------------------------------------
  // The file
  // ---------------------------------------------------------------------

  /** What is written for an entry: the URL with its length in front, and the bytes
      of the entry. */
  datatype Frame = Frame(url: Url, bytes: seq<byte>)

  predicate FrameOk(f: Frame) {
    |f.url| < SIZE_LIMIT && |f.bytes| == ENTRY_SIZE
  }

  predicate AllOk(frames: seq<Frame>) {
    forall i :: 0 <= i < |frames| ==> FrameOk(frames[i])
  }

  /** write_entry */
  function WriteFrame(f: Frame): seq<byte> {
    Bytes(|f.url|, 4) + (f.url + f.bytes)
  }

  function WriteFrames(frames: seq<Frame>): seq<byte> {
    if frames == [] then [] else WriteFrame(frames[0]) + WriteFrames(frames[1..])
  }

  datatype Found = Found(frame: Frame, rest: seq<byte>) | Short

  /** The next URL and entry in the file, if they are complete. */
  function ReadFrame(file: seq<byte>): (r: Found)
    requires |file| >= 4
    ensures r.Found? ==> |r.rest| < |file| && |r.frame.bytes| == ENTRY_SIZE
  {
    var (n, s) := Field(file, 4);
    if |s| < n + ENTRY_SIZE then Short else Found(Frame(s[..n], s[n..n + ENTRY_SIZE]), s[n + ENTRY_SIZE..])
  }

  datatype Frames = Frames(all: seq<Frame>) | Broken

  /** The frames in the file, behind those that have been read. */
  function ReadFrames(file: seq<byte>, read: seq<Frame>): Frames
    decreases |file|
  {
    if |file| < 4 then Frames(read)
    else
      match ReadFrame(file)
      case Short => Broken
      case Found(f, rest) => ReadFrames(rest, read + [f])
  }

  lemma ReadOne(f: Frame, rest: seq<byte>)
    requires FrameOk(f)
    ensures ReadFrame(WriteFrame(f) + rest) == Found(f, rest)
  {
    var s := f.url + f.bytes + rest;
    assert WriteFrame(f) + rest == Bytes(|f.url|, 4) + s;
    Widths();
    FieldOfBytes(|f.url|, 4, s);
    Slices(f.url, f.bytes, rest);
  }

  /** A file that is cut off within an entry cannot be read, unless it has just the front
      of the length, which is passed over. */
  lemma {:induction false} CutOffFails(frames: seq<Frame>, f: Frame, n: nat, read: seq<Frame>)
    requires AllOk(frames) && FrameOk(f) && n < |WriteFrame(f)|
    ensures ReadFrames(WriteFrames(frames) + WriteFrame(f)[..n], read) == if n < 4 then Frames(read + frames) else Broken
  {
    var part := WriteFrame(f)[..n];
    if frames == [] {
      assert WriteFrames(frames) + part == part && read + frames == read;
      if n >= 4 { PartIsShort(f, n); }
    } else {
      hide *;
      CutOffFails(frames[1..], f, n, read + [frames[0]]);
      ReadFirst(frames, part, read);
      assert (read + [frames[0]]) + frames[1..] == read + frames;
    }
  }

  lemma ReadFirst(frames: seq<Frame>, tail: seq<byte>, read: seq<Frame>)
    requires frames != [] && AllOk(frames)
    ensures AllOk(frames[1..])
    ensures ReadFrames(WriteFrames(frames) + tail, read) == ReadFrames(WriteFrames(frames[1..]) + tail, read + [frames[0]])
  {
    var rest := WriteFrames(frames[1..]);
    assert WriteFrames(frames) + tail == WriteFrame(frames[0]) + (rest + tail);
    ReadOne(frames[0], rest + tail);
  }

  lemma PartIsShort(f: Frame, n: nat)
    requires FrameOk(f) && 4 <= n < |WriteFrame(f)|
    ensures ReadFrame(WriteFrame(f)[..n]).Short?
  {
    var s := f.url + f.bytes;
    assert WriteFrame(f)[..n] == Bytes(|f.url|, 4) + s[..n - 4];
    Widths();
    FieldOfBytes(|f.url|, 4, s[..n - 4]);
  }

  lemma Slices(a: seq<byte>, b: seq<byte>, c: seq<byte>)
    ensures var s := a + b + c;
            s[..|a|] == a && s[|a|..|a| + |b|] == b && s[|a| + |b|..] == c
  {
  }

  lemma {:induction false} ReadWrite(frames: seq<Frame>, read: seq<Frame>)
    requires AllOk(frames)
    ensures ReadFrames(WriteFrames(frames), read) == Frames(read + frames)
  {
    if frames == [] {
      assert read + frames == read;
    } else {
      ReadOne(frames[0], WriteFrames(frames[1..]));
      ReadWrite(frames[1..], read + [frames[0]]);
      assert (read + [frames[0]]) + frames[1..] == read + frames;
    }
  }

  // ---------------------------------------------------------------------
  // The table of entries
  // ---------------------------------------------------------------------

  datatype Loaded = Loaded(entries: map<Url, Entry>, total: nat)

  datatype LoadResult = Done(loaded: Loaded) | InitFailed

  predicate AllFit(entries: map<Url, Entry>) {
    forall u :: u in entries ==> Fits(u, entries[u])
  }

  function ForgetAll(entries: map<Url, Entry>): map<Url, Entry> {
    map u | u in entries :: Forget(entries[u])
  }

  /** The table with one more entry. */
  function Add(got: Loaded, f: Frame): Loaded {
    if |f.bytes| != ENTRY_SIZE then got
    else
      var x := DecodeEntry(f.bytes);
      Loaded(got.entries[f.url := x], got.total + x.Size())
  }

  function AddAll(frames: seq<Frame>): Loaded {
    if frames == [] then Loaded(map[], 0)
    else Add(AddAll(frames[..|frames| - 1]), frames[|frames| - 1])
  }

  /** What read_entries makes of the file. */
  function Contents(file: seq<byte>): LoadResult {
    match ReadFrames(file, [])
    case Broken => InitFailed
    case Frames(all) => Done(AddAll(all))
  }

  predicate Listed(order: seq<Url>, entries: map<Url, Entry>) {
    forall i :: 0 <= i < |order| ==> order[i] in entries
  }

  function FramesOf(order: seq<Url>, entries: map<Url, Entry>): (f: seq<Frame>)
    requires Listed(order, entries)
    ensures |f| == |order| && forall i :: 0 <= i < |order| ==> f[i] == Frame(order[i], EncodeEntry(entries[order[i]]))
  {
    seq(|order|, i requires 0 <= i < |order| => Frame(order[i], EncodeEntry(entries[order[i]])))
  }

  lemma FramesAreOk(order: seq<Url>, entries: map<Url, Entry>)
    requires Listed(order, entries) && AllFit(entries)
    ensures AllOk(FramesOf(order, entries))
  {
    forall i | 0 <= i < |order| ensures FrameOk(FramesOf(order, entries)[i]) {
      assert Fits(order[i], entries[order[i]]);
    }
  }

  /** `m` has the first `n` entries of `order`, without their memory. */
  predicate HasFirst(order: seq<Url>, entries: map<Url, Entry>, n: nat, m: map<Url, Entry>)
    requires Listed(order, entries) && n <= |order|
  {
    && (forall i :: 0 <= i < n ==> order[i] in m && m[order[i]] == Forget(entries[order[i]]))
    && (forall u :: u in m ==> exists i :: 0 <= i < n && order[i] == u)
  }

  lemma HasNext(order: seq<Url>, entries: map<Url, Entry>, n: nat, m: map<Url, Entry>)
    requires Listed(order, entries) && NoRepeat(order) && n < |order| && HasFirst(order, entries, n, m)
    ensures order[n] !in m && HasFirst(order, entries, n + 1, m[order[n] := Forget(entries[order[n]])])
  {
  }

  lemma {:induction false} AddFirst(order: seq<Url>, entries: map<Url, Entry>, frames: seq<Frame>)
    requires Listed(order, entries) && NoRepeat(order) && AllFit(entries) && |frames| <= |order|
    requires forall i :: 0 <= i < |frames| ==> frames[i] == Frame(order[i], EncodeEntry(entries[order[i]]))
    ensures var r := AddAll(frames);
            r.total == Total(r.entries) && HasFirst(order, entries, |frames|, r.entries)
  {
    if frames != [] {
      var n := |frames| - 1;
      var was, u := AddAll(frames[..n]), order[n];
      AddFirst(order, entries, frames[..n]);
      HasNext(order, entries, n, was.entries);
      assert Fits(u, entries[u]);
      AddOne(was, u, entries[u]);
    }
  }

  lemma AddOne(was: Loaded, u: Url, x: Entry)
    requires was.total == Total(was.entries) && u !in was.entries && Fits(u, x)
    ensures var r := Add(was, Frame(u, EncodeEntry(x)));
            r.entries == was.entries[u := Forget(x)] && r.total == Total(r.entries)
  {
    DecodeEncodeEntry(u, x);
    TotalUpdate(was.entries, u, Forget(x));
  }

  lemma AllAreForgotten(order: seq<Url>, entries: map<Url, Entry>, r: map<Url, Entry>)
    requires IsOrder(order, entries) && Listed(order, entries) && HasFirst(order, entries, |order|, r)
    ensures r == ForgetAll(entries)
  {
    forall u | u in entries ensures u in r && r[u] == Forget(entries[u]) {
      var i :| 0 <= i < |order| && order[i] == u;
    }
  }

  /** Reading the file gives the entries that were written, without the memory, and
      the sum of their sizes. */
  lemma ReadWritten(order: seq<Url>, entries: map<Url, Entry>)
    requires AllFit(entries) && IsOrder(order, entries) && Listed(order, entries)
    ensures Contents(WriteFrames(FramesOf(order, entries)))
         == Done(Loaded(ForgetAll(entries), Total(ForgetAll(entries))))
  {
    var frames := FramesOf(order, entries);
    FramesAreOk(order, entries);
    ReadWrite(frames, []);
    assert [] + frames == frames;
    AddFirst(order, entries, frames);
    AllAreForgotten(order, entries, AddAll(frames).entries);
  }

  // ---------------------------------------------------------------------
  // Writing and reading
  // ---------------------------------------------------------------------

  lemma {:induction false} WriteAppend(a: seq<Frame>, f: Frame)
    ensures WriteFrames(a + [f]) == WriteFrames(a) + WriteFrame(f)
  {
    if a == [] {
      assert [f][1..] == [];
    } else {
      assert (a + [f])[1..] == a[1..] + [f];
      WriteAppend(a[1..], f);
    }
  }

  /** The loop of write_entries. */
  method WriteInOrder(order: seq<Url>, entries: map<Url, Entry>) returns (file: seq<byte>)
    requires Listed(order, entries)
    ensures file == WriteFrames(FramesOf(order, entries))
  {
    file := [];
    var i := 0;
    ghost var frames := FramesOf(order, entries);
    while i < |order|
      invariant i <= |order| && file == WriteFrames(frames[..i])
    {
      var f := Frame(order[i], EncodeEntry(entries[order[i]]));
      WriteAppend(frames[..i], f);
      assert frames[..i + 1] == frames[..i] + [f];
      file := file + WriteFrame(f);
      i := i + 1;
    }
    assert frames[..i] == frames;
  }

  /** The contents of the file. */
  method SaveEntries(entries: map<Url, Entry>) returns (file: seq<byte>)
    requires AllFit(entries)
    ensures Contents(file) == Done(Loaded(ForgetAll(entries), Total(ForgetAll(entries))))
  {
    var order := ListEntries(entries);
    file := WriteInOrder(order, entries);
    ReadWritten(order, entries);
  }

  /** The loop of read_entries. */
  method LoadEntries(file: seq<byte>) returns (r: LoadResult)
    ensures r == Contents(file)
  {
    var rest, got := file, Loaded(map[], 0);
    ghost var read: seq<Frame> := [];
    while |rest| >= 4
      invariant ReadFrames(rest, read) == ReadFrames(file, []) && got == AddAll(read)
      decreases |rest|
    {
      var next := ReadFrame(rest);
      if next.Short? { return InitFailed; }
      got := Add(got, next.frame);
      assert (read + [next.frame])[..|read|] == read;
      read := read + [next.frame];
      rest := next.rest;
    }
    r := Done(got);
  }
}

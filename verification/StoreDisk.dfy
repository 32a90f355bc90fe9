/** What the backing store has on disk (content/fs_backing_store.c): a file for an
    object that is not small, and block files for small objects. */
module StoreDisk {
  import opened BlockUse

  newtype byte = x: int | 0 <= x < 256

  /** The text of an URL. */
  type Url = seq<byte>

  datatype Kind = Data | Meta

  datatype Error = NotFound | Permission | SaveFailed

  datatype Result<T> = Ok(value: T) | Err(error: Error)

  /** `files` are the files of single objects, named by the hash of the URL.
      `blocks` are the block files. */
  datatype Disk = Disk(files: map<(nat, Kind), seq<byte>>, blocks: map<(Kind, nat), seq<byte>>)

  const BLOCK_SIZE := 8192

  function Zeros(n: nat): (z: seq<byte>)
    ensures |z| == n
  {
    seq(n, _ => 0)
  }

  /** Bytes [at, at + |data|) of the file become `data`. The file grows if need be,
      and is not cut off behind. */
  function PWrite(file: seq<byte>, at: nat, data: seq<byte>): seq<byte> {
    (if |file| <= at then file + Zeros(at - |file|) else file[..at]) + data
    + (if |file| <= at + |data| then [] else file[at + |data|..])
  }

  /** Up to `n` bytes at `at`; fewer at the end of the file. */
  function PRead(file: seq<byte>, at: nat, n: nat): seq<byte> {
    if |file| <= at then [] else if |file| <= at + n then file[at..] else file[at..at + n]
  }

  lemma ReadBack(file: seq<byte>, at: nat, data: seq<byte>)
    ensures PRead(PWrite(file, at, data), at, |data|) == data
  {
    var f := PWrite(file, at, data);
    assert |f| >= at + |data| && f[at..at + |data|] == data;
  }

  /** A write beside an extent leaves it alone. */
  lemma ReadBeside(file: seq<byte>, at: nat, data: seq<byte>, from: nat, n: nat)
    requires at + |data| <= from || from + n <= at
    requires |PRead(file, from, n)| == n
    ensures PRead(PWrite(file, at, data), from, n) == PRead(file, from, n)
  {
    var f := PWrite(file, at, data);
    if n > 0 {
      assert forall i :: from <= i < from + n ==> f[i] == file[i];
      assert f[from..from + n] == file[from..from + n];
    }
  }

  /** A write that runs across an extent replaces its bytes. */
  lemma ReadAcross(file: seq<byte>, at: nat, data: seq<byte>, from: nat, n: nat)
    requires at <= from && from + n <= at + |data|
    ensures PRead(PWrite(file, at, data), from, n) == data[from - at..from - at + n]
  {
    var f := PWrite(file, at, data);
    assert f[from..from + n] == data[from - at..from - at + n];
  }

  // ---------------------------------------------------------------------
  // Elements
  // ---------------------------------------------------------------------

  function BlockFile(d: Disk, k: Kind, bf: nat): seq<byte> {
    if (k, bf) in d.blocks then d.blocks[(k, bf)] else []
  }

  /** store_write_block */
  function WriteBlock(d: Disk, k: Kind, block: nat, data: seq<byte>): Disk {
    var bf := FileOf(block);
    d.(blocks := d.blocks[(k, bf) := PWrite(BlockFile(d, k, bf), IndexOf(block) * BLOCK_SIZE, data)])
  }

  /** store_read_block */
  function ReadBlock(d: Disk, k: Kind, block: nat, size: nat): Result<seq<byte>> {
    var r := PRead(BlockFile(d, k, FileOf(block)), IndexOf(block) * BLOCK_SIZE, size);
    if |r| == size then Ok(r) else Err(SaveFailed)
  }

  /** store_write_file. The file is opened without O_TRUNC. */
  function WriteFile(d: Disk, h: nat, k: Kind, data: seq<byte>): Disk {
    d.(files := d.files[(h, k) := PWrite(if (h, k) in d.files then d.files[(h, k)] else [], 0, data)])
  }

  /** store_read_file */
  function ReadFile(d: Disk, h: nat, k: Kind, size: nat): Result<seq<byte>> {
    if (h, k) !in d.files then Err(NotFound)
    else
      var r := PRead(d.files[(h, k)], 0, size);
      if |r| == size then Ok(r) else Err(NotFound)
  }

  /** The object is in a block, or else in a file. It is read in full or not at all. */
  function ReadElement(d: Disk, h: nat, k: Kind, block: nat, size: nat): (r: Result<seq<byte>>)
    ensures r.Ok? ==> |r.value| == size
  {
    if block != 0 then ReadBlock(d, k, block, size) else ReadFile(d, h, k, size)
  }

  function WriteElement(d: Disk, h: nat, k: Kind, block: nat, data: seq<byte>): Disk {
    if block != 0 then WriteBlock(d, k, block, data) else WriteFile(d, h, k, data)
  }

  /** Block `j` with `size` bytes is not touched by a write to block `b` that fits
      a block, nor by a write of the other kind. */
  predicate BesideBlock(j: nat, size: nat, kj: Kind, b: nat, n: nat, kb: Kind) {
    && j < BLOCKS && size <= BLOCK_SIZE && b < BLOCKS
    && (kj != kb || (j != b && n <= BLOCK_SIZE))
  }

  lemma WriteThenRead(d: Disk, h: nat, k: Kind, block: nat, data: seq<byte>)
    ensures ReadElement(WriteElement(d, h, k, block, data), h, k, block, |data|) == Ok(data)
  {
    if block != 0 {
      ReadBack(BlockFile(d, k, FileOf(block)), IndexOf(block) * BLOCK_SIZE, data);
    } else {
      ReadBack(if (h, k) in d.files then d.files[(h, k)] else [], 0, data);
    }
  }

  /** Writing an element keeps what can be read of another one: of another kind, or
      of another URL whose hash and block differ. */
  lemma WriteKeepsOther(d: Disk, h: nat, k: Kind, block: nat, data: seq<byte>, hj: nat, kj: Kind, j: nat, size: nat)
    requires block == 0 || j == 0 || BesideBlock(j, size, kj, block, |data|, k)
    requires h != hj || k != kj
    requires j != 0 ==> ReadBlock(d, kj, j, size).Ok?
    ensures ReadElement(WriteElement(d, h, k, block, data), hj, kj, j, size) == ReadElement(d, hj, kj, j, size)
  {
    if block != 0 && j != 0 && k == kj && FileOf(block) == FileOf(j) {
      BlocksAreApart(j, block);
      ReadBeside(BlockFile(d, k, FileOf(j)), IndexOf(block) * BLOCK_SIZE, data, IndexOf(j) * BLOCK_SIZE, size);
    }
  }

  lemma NextBlock(b: nat)
    requires IndexOf(b) + 1 < 1024
    ensures FileOf(b + 1) == FileOf(b) && IndexOf(b + 1) == IndexOf(b) + 1
  {
  }

  /** A write of more than a block into block `b` runs on into the next block: what
      is read there now are bytes of the new object. */
  lemma WideWriteOverwrites(d: Disk, h: nat, k: Kind, b: nat, data: seq<byte>, hj: nat, size: nat)
    requires b != 0 && IndexOf(b) + 1 < 1024 && BLOCK_SIZE + size <= |data|
    ensures ReadElement(WriteElement(d, h, k, b, data), hj, k, b + 1, size) == Ok(data[BLOCK_SIZE..BLOCK_SIZE + size])
  {
    NextBlock(b);
    ReadAcross(BlockFile(d, k, FileOf(b)), IndexOf(b) * BLOCK_SIZE, data, IndexOf(b + 1) * BLOCK_SIZE, size);
  }
}

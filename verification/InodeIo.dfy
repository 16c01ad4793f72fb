/** Reading and writing the bytes of a Pintos inode, whose data lie in consecutive sectors of the disk. */
module InodeIo {

  const DISK_SECTOR_SIZE := 512

  type Byte = int
  type Disk = map<nat, seq<Byte>>

  /** The on-disk part of an inode that matters for its data. */
  datatype InodeDisk = InodeDisk(start: nat, length: nat)

  function BytesToSectors(size: nat): nat {
    (size + DISK_SECTOR_SIZE - 1) / DISK_SECTOR_SIZE
  }

  ghost predicate DiskOk(disk: Disk) {
    forall s :: s in disk ==> |disk[s]| == DISK_SECTOR_SIZE
  }

  /** All sectors of the extent exist. */
  ghost predicate HasExtent(disk: Disk, d: InodeDisk) {
    DiskOk(disk) && forall i: nat {:trigger Sector(d, i)} :: i < BytesToSectors(d.length) ==> Sector(d, i) in disk
  }

  function Sector(d: InodeDisk, i: nat): nat {
    d.start + i
  }

  const NOWHERE := -1

  function ByteToSector(d: InodeDisk, pos: nat): int {
    if pos < d.length then d.start + pos / DISK_SECTOR_SIZE else NOWHERE
  }

  // ----- the flat view

  /** The byte at position `pos` of the extent. */
  function ByteAt(disk: Disk, d: InodeDisk, pos: nat): Byte {
    var s := d.start + pos / DISK_SECTOR_SIZE;
    if s in disk && pos % DISK_SECTOR_SIZE < |disk[s]| then disk[s][pos % DISK_SECTOR_SIZE] else 0
  }

  /** The flat extent from `offset` on, `n` bytes of it. */
  function Flat(disk: Disk, d: InodeDisk, offset: nat, n: nat): seq<Byte> {
    seq(n, k requires 0 <= k => ByteAt(disk, d, offset + k))
  }

  lemma FlatConcat(disk: Disk, d: InodeDisk, offset: nat, n: nat, m: nat)
    ensures Flat(disk, d, offset, n + m) == Flat(disk, d, offset, n) + Flat(disk, d, offset + n, m)
  {
    hide ByteAt;
  }

  function Min(a: int, b: int): int {
    if a < b then a else b
  }

  function Max(a: int, b: int): int {
    if a < b then b else a
  }

  /** The bytes between `offset` and the end that a request for `size` bytes covers. */
  function Reach(d: InodeDisk, size: int, offset: nat): nat {
    Max(0, Min(size, d.length - offset))
  }

  /** What a request transfers; without memory for a bounce buffer, only leading whole sectors. */
  function Transferred(d: InodeDisk, size: int, offset: nat, memory: bool): nat {
    if memory then Reach(d, size, offset)
    else if offset % DISK_SECTOR_SIZE == 0 then Reach(d, size, offset) / DISK_SECTOR_SIZE * DISK_SECTOR_SIZE
    else 0
  }

  // ----- one chunk

  /** The chunk that a pass of the loop handles. */
  function Chunk(d: InodeDisk, size: int, offset: nat): int {
    Min(size, Min(d.length - offset, DISK_SECTOR_SIZE - offset % DISK_SECTOR_SIZE))
  }

  predicate Whole(offset: nat, chunk: int) {
    offset % DISK_SECTOR_SIZE == 0 && chunk == DISK_SECTOR_SIZE
  }

  /** Transfers add up chunk by chunk; one that is not a whole sector needs the bounce buffer. */
  lemma TransferStep(d: InodeDisk, size: int, offset: nat, memory: bool)
    requires Chunk(d, size, offset) > 0
    ensures var c := Chunk(d, size, offset);
            if memory || Whole(offset, c) then Transferred(d, size, offset, memory) == c + Transferred(d, size - c, offset + c, memory)
            else Transferred(d, size, offset, memory) == 0
  {
    var c := Chunk(d, size, offset);
    var r := Reach(d, size, offset);
    assert r == c + Reach(d, size - c, offset + c);
    if !memory && offset % DISK_SECTOR_SIZE == 0 {
      if c == DISK_SECTOR_SIZE {
        assert (offset + c) % DISK_SECTOR_SIZE == 0;
        OneSector(r - c);
      } else {
        assert r < DISK_SECTOR_SIZE;
      }
    }
  }

  lemma OneSector(r: nat)
    ensures (r + DISK_SECTOR_SIZE) / DISK_SECTOR_SIZE * DISK_SECTOR_SIZE == r / DISK_SECTOR_SIZE * DISK_SECTOR_SIZE + DISK_SECTOR_SIZE
  {
  }

  /** Within a chunk the sector does not change. */
  lemma ChunkSector(d: InodeDisk, size: int, offset: nat, k: nat)
    requires k < Chunk(d, size, offset)
    ensures (offset + k) / DISK_SECTOR_SIZE == offset / DISK_SECTOR_SIZE
    ensures (offset + k) % DISK_SECTOR_SIZE == offset % DISK_SECTOR_SIZE + k
    ensures offset / DISK_SECTOR_SIZE < BytesToSectors(d.length)
  {
    var q, r := offset / DISK_SECTOR_SIZE, offset % DISK_SECTOR_SIZE;
    assert offset + k == DISK_SECTOR_SIZE * q + (r + k);
  }

  function ZeroSector(): seq<Byte> {
    seq(DISK_SECTOR_SIZE, _ => 0)
  }

  /** Sector contents with `bytes` written over it from `ofs`. */
  function Patched(sector: seq<Byte>, ofs: nat, bytes: seq<Byte>): seq<Byte>
    requires ofs + |bytes| <= |sector|
  {
    sector[..ofs] + bytes + sector[ofs + |bytes|..]
  }

  /** Exactly the positions from `offset` to `offset + n` have changed, to `bytes`. */
  ghost predicate Replaced(disk: Disk, disk': Disk, d: InodeDisk, offset: nat, bytes: seq<Byte>) {
    && disk'.Keys == disk.Keys
    && (forall pos: nat :: ByteAt(disk', d, pos) == if offset <= pos < offset + |bytes| then bytes[pos - offset] else ByteAt(disk, d, pos))
    && forall s :: s in disk && !(d.start <= s < d.start + BytesToSectors(d.length)) ==> disk'[s] == disk[s]
  }

  lemma ReplacedAgain(disk: Disk, disk1: Disk, disk2: Disk, d: InodeDisk, offset: nat, a: seq<Byte>, b: seq<Byte>)
    requires Replaced(disk, disk1, d, offset, a) && Replaced(disk1, disk2, d, offset + |a|, b)
    ensures Replaced(disk, disk2, d, offset, a + b)
  {
    hide ByteAt, BytesToSectors;
    forall pos: nat ensures ByteAt(disk2, d, pos) == if offset <= pos < offset + |a + b| then (a + b)[pos - offset] else ByteAt(disk, d, pos) { }
  }

  /** Writing a chunk into its sector replaces those bytes. */
  lemma ChunkReplaces(disk: Disk, d: InodeDisk, size: int, offset: nat, bytes: seq<Byte>)
    requires HasExtent(disk, d) && |bytes| == Chunk(d, size, offset) > 0
    ensures var s := d.start + offset / DISK_SECTOR_SIZE;
            && s in disk && offset % DISK_SECTOR_SIZE + |bytes| <= |disk[s]|
            && Replaced(disk, disk[s := Patched(disk[s], offset % DISK_SECTOR_SIZE, bytes)], d, offset, bytes)
            && HasExtent(disk[s := Patched(disk[s], offset % DISK_SECTOR_SIZE, bytes)], d)
  {
    var s, ofs := d.start + offset / DISK_SECTOR_SIZE, offset % DISK_SECTOR_SIZE;
    ChunkSector(d, size, offset, 0);
    assert Sector(d, offset / DISK_SECTOR_SIZE) == s;
    var disk' := disk[s := Patched(disk[s], ofs, bytes)];
    forall pos: nat ensures ByteAt(disk', d, pos) == if offset <= pos < offset + |bytes| then bytes[pos - offset] else ByteAt(disk, d, pos) {
      var k: nat := if offset <= pos < offset + |bytes| then pos - offset else 0;
      ChunkSector(d, size, offset, k);
      if pos / DISK_SECTOR_SIZE == offset / DISK_SECTOR_SIZE {
        assert pos == offset - ofs + pos % DISK_SECTOR_SIZE;
      }
    }
  }

  // ----- inodes

  class Inode {
    const sector: nat
    const data: InodeDisk
    var open_cnt: int
    var removed: bool
    var deny_write_cnt: int

    constructor (sector: nat, data: InodeDisk)
      ensures this.sector == sector && this.data == data && open_cnt == 1 && !removed && deny_write_cnt == 0
    {
      this.sector := sector;
      this.data := data;
      open_cnt := 1;
      removed := false;
      deny_write_cnt := 0;
    }
  }

  class FileSystem {
    var disk: Disk

    /** `inode_read_at` delivers exactly the bytes of the flat extent from `offset` on, as many as the request
        and the end of the file allow; `memory` says whether a bounce buffer can be had. */
    method InodeReadAt(inode: Inode, buffer: array<Byte>, size: int, offset: nat, memory: bool) returns (bytes_read: nat)
      requires HasExtent(disk, inode.data) && size <= buffer.Length
      modifies buffer
      ensures bytes_read == Transferred(inode.data, size, offset, memory) <= buffer.Length
      ensures buffer[..] == Flat(disk, inode.data, offset, bytes_read) + old(buffer[..])[bytes_read..]
    {
      hide Transferred, BytesToSectors, HasExtent, Flat, ByteAt, Chunk, Whole;
      var d := inode.data;
      var left, pos := size, offset;
      bytes_read := 0;
      FlatNone(disk, d, offset);
      while left > 0
        invariant pos == offset + bytes_read && left == size - bytes_read && bytes_read <= buffer.Length
        invariant Transferred(d, size, offset, memory) == bytes_read + Transferred(d, left, pos, memory)
        invariant buffer[..] == Flat(disk, d, offset, bytes_read) + old(buffer[..])[bytes_read..]
      {
        ghost var before := buffer[..];
        var chunk_size, done := ReadChunk(d, buffer, bytes_read, left, pos, memory);
        if !done { return; }
        ReadOn(disk, d, old(buffer[..]), before, buffer[..], offset, bytes_read, chunk_size);
        left := left - chunk_size;
        pos := pos + chunk_size;
        bytes_read := bytes_read + chunk_size;
      }
      NothingAsked(d, left, pos, memory);
    }

    /** One pass of the loop of `inode_read_at`; not `done` when the loop ends there. */
    method ReadChunk(d: InodeDisk, buffer: array<Byte>, at: nat, size: int, offset: nat, memory: bool) returns (chunk_size: int, done: bool)
      requires HasExtent(disk, d) && size > 0 && at + size <= buffer.Length
      modifies buffer
      ensures !done ==> buffer[..] == old(buffer[..]) && Transferred(d, size, offset, memory) == 0
      ensures done ==>
                && 0 < chunk_size <= size && Transferred(d, size, offset, memory) == chunk_size + Transferred(d, size - chunk_size, offset + chunk_size, memory)
                && buffer[..] == old(buffer[..at]) + Flat(disk, d, offset, chunk_size) + old(buffer[at + chunk_size..])
    {
      hide Transferred, BytesToSectors, HasExtent, Flat, ByteAt;
      var sector_idx := ByteToSector(d, offset);
      var sector_ofs := offset % DISK_SECTOR_SIZE;
      var inode_left := d.length - offset;
      var sector_left := DISK_SECTOR_SIZE - sector_ofs;
      var min_left := if inode_left < sector_left then inode_left else sector_left;
      chunk_size := if size < min_left then size else min_left;
      if chunk_size <= 0 {
        NothingLeft(d, size, offset, memory);
        return chunk_size, false;
      }
      TransferStep(d, size, offset, memory);
      ChunkInSector(disk, d, size, offset);
      if sector_ofs == 0 && chunk_size == DISK_SECTOR_SIZE {
        CopyInto(buffer, at, disk[sector_idx]);
      } else {
        if !memory { return chunk_size, false; }
        var bounce := disk[sector_idx];
        CopyInto(buffer, at, bounce[sector_ofs..sector_ofs + chunk_size]);
      }
      done := true;
    }

    /** `inode_write_at` replaces exactly the bytes from `offset` on by those of the buffer, as many as the
        request and the end of the file allow, and none while writes are denied. */
    method InodeWriteAt(inode: Inode, buffer: seq<Byte>, size: int, offset: nat, memory: bool) returns (bytes_written: nat)
      requires HasExtent(disk, inode.data) && size <= |buffer|
      modifies this
      ensures HasExtent(disk, inode.data)
      ensures bytes_written == if inode.deny_write_cnt != 0 then 0 else Transferred(inode.data, size, offset, memory)
      ensures bytes_written <= |buffer| && Replaced(old(disk), disk, inode.data, offset, buffer[..bytes_written])
    {
      hide Transferred, BytesToSectors, HasExtent, ByteAt, Chunk, Whole, Replaced;
      var d := inode.data;
      var left, pos := size, offset;
      bytes_written := 0;
      NothingReplaced(disk, d, offset);
      assert buffer[..0] == [];
      if inode.deny_write_cnt != 0 { return; }
      while left > 0
        invariant pos == offset + bytes_written && left == size - bytes_written && bytes_written <= |buffer| && HasExtent(disk, d)
        invariant Transferred(d, size, offset, memory) == bytes_written + Transferred(d, left, pos, memory)
        invariant Replaced(old(disk), disk, d, offset, buffer[..bytes_written])
      {
        ghost var before := disk;
        var chunk_size, done := WriteChunk(d, buffer, bytes_written, left, pos, memory);
        if !done { return; }
        ReplacedAgain(old(disk), before, disk, d, offset, buffer[..bytes_written], buffer[bytes_written..bytes_written + chunk_size]);
        assert buffer[..bytes_written] + buffer[bytes_written..bytes_written + chunk_size] == buffer[..bytes_written + chunk_size];
        left := left - chunk_size;
        pos := pos + chunk_size;
        bytes_written := bytes_written + chunk_size;
      }
      NothingAsked(d, left, pos, memory);
    }

    /** One pass of the loop of `inode_write_at`; not `done` when the loop ends there. */
    method WriteChunk(d: InodeDisk, buffer: seq<Byte>, at: nat, size: int, offset: nat, memory: bool) returns (chunk_size: int, done: bool)
      requires HasExtent(disk, d) && size > 0 && at + size <= |buffer|
      modifies this
      ensures HasExtent(disk, d)
      ensures !done ==> disk == old(disk) && Transferred(d, size, offset, memory) == 0
      ensures done ==>
                && 0 < chunk_size <= size && Transferred(d, size, offset, memory) == chunk_size + Transferred(d, size - chunk_size, offset + chunk_size, memory)
                && Replaced(old(disk), disk, d, offset, buffer[at..at + chunk_size])
    {
      hide Transferred, BytesToSectors, HasExtent, ByteAt, Replaced;
      var sector_idx := ByteToSector(d, offset);
      var sector_ofs := offset % DISK_SECTOR_SIZE;
      var inode_left := d.length - offset;
      var sector_left := DISK_SECTOR_SIZE - sector_ofs;
      var min_left := if inode_left < sector_left then inode_left else sector_left;
      chunk_size := if size < min_left then size else min_left;
      if chunk_size <= 0 {
        NothingLeft(d, size, offset, memory);
        return chunk_size, false;
      }
      TransferStep(d, size, offset, memory);
      ChunkInSector(disk, d, size, offset);
      var bytes := buffer[at..at + chunk_size];
      ChunkReplaces(disk, d, size, offset, bytes);
      if sector_ofs == 0 && chunk_size == DISK_SECTOR_SIZE {
        assert bytes == Patched(disk[sector_idx], sector_ofs, bytes);
        disk := disk[sector_idx := bytes];
      } else {
        if !memory { return chunk_size, false; }
        var bounce := if sector_ofs > 0 || chunk_size < sector_left then disk[sector_idx] else ZeroSector();
        bounce := bounce[..sector_ofs] + bytes + bounce[sector_ofs + chunk_size..];
        disk := disk[sector_idx := bounce];
      }
      done := true;
    }
  }

  /** A request that reaches nothing transfers nothing. */
  lemma NothingLeft(d: InodeDisk, size: int, offset: nat, memory: bool)
    requires Chunk(d, size, offset) <= 0
    ensures Transferred(d, size, offset, memory) == 0
  {
  }

  lemma FlatNone(disk: Disk, d: InodeDisk, offset: nat)
    ensures Flat(disk, d, offset, 0) == []
  {
  }

  lemma ChunkInSector(disk: Disk, d: InodeDisk, size: int, offset: nat)
    requires HasExtent(disk, d) && Chunk(d, size, offset) > 0
    ensures var s, ofs, c := ByteToSector(d, offset), offset % DISK_SECTOR_SIZE, Chunk(d, size, offset);
            && s >= 0 && s in disk && |disk[s]| == DISK_SECTOR_SIZE && ofs + c <= DISK_SECTOR_SIZE
            && disk[s][ofs..ofs + c] == Flat(disk, d, offset, c)
            && (c == DISK_SECTOR_SIZE ==> disk[s] == disk[s][ofs..ofs + c])
  {
    ChunkSector(d, size, offset, 0);
    assert Sector(d, offset / DISK_SECTOR_SIZE) in disk;
    var s, ofs, c := ByteToSector(d, offset), offset % DISK_SECTOR_SIZE, Chunk(d, size, offset);
    forall j | ofs <= j < ofs + c ensures disk[s][j] == ByteAt(disk, d, offset + (j - ofs)) { ChunkSector(d, size, offset, j - ofs); }
    var a, b := disk[s][ofs..ofs + c], Flat(disk, d, offset, c);
    forall k | 0 <= k < c ensures a[k] == b[k] { assert a[k] == disk[s][ofs + k]; }
  }

  /** A chunk copied behind what has been read continues it. */
  lemma ReadOn(disk: Disk, d: InodeDisk, start: seq<Byte>, before: seq<Byte>, after: seq<Byte>, offset: nat, n: nat, c: nat)
    requires n + c <= |start| && before == Flat(disk, d, offset, n) + start[n..]
    requires after == before[..n] + Flat(disk, d, offset + n, c) + before[n + c..]
    ensures after == Flat(disk, d, offset, n + c) + start[n + c..]
  {
    FlatConcat(disk, d, offset, n, c);
    hide ByteAt;
  }

  /** `memcpy` into the caller's buffer. */
  method CopyInto(buffer: array<Byte>, at: nat, bytes: seq<Byte>)
    requires at + |bytes| <= buffer.Length
    modifies buffer
    ensures buffer[..] == old(buffer[..at]) + bytes + old(buffer[at + |bytes|..])
  {
    ghost var start := buffer[..];
    var i := 0;
    while i < |bytes|
      invariant i <= |bytes|
      invariant forall k :: 0 <= k < buffer.Length ==> buffer[k] == if at <= k < at + i then bytes[k - at] else start[k]
    {
      buffer[at + i] := bytes[i];
      i := i + 1;
    }
    CopiedInto(start, buffer[..], at, bytes);
  }

  lemma CopiedInto(start: seq<Byte>, after: seq<Byte>, at: nat, bytes: seq<Byte>)
    requires at + |bytes| <= |start| == |after|
    requires forall k :: 0 <= k < |after| ==> after[k] == if at <= k < at + |bytes| then bytes[k - at] else start[k]
    ensures after == start[..at] + bytes + start[at + |bytes|..]
  {
  }

  lemma NothingAsked(d: InodeDisk, size: int, offset: nat, memory: bool)
    requires size <= 0
    ensures Transferred(d, size, offset, memory) == 0
  {
  }

  lemma NothingReplaced(disk: Disk, d: InodeDisk, offset: nat)
    ensures Replaced(disk, disk, d, offset, [])
  {
    hide ByteAt, BytesToSectors;
  }

  /** What is written is what is read back, whatever the chunks: the bytes in range are the new ones, and the
      others the old ones. */
  lemma ReadsWhatWasWritten(disk: Disk, disk': Disk, d: InodeDisk, offset: nat, bytes: seq<Byte>, from: nat, n: nat)
    requires Replaced(disk, disk', d, offset, bytes)
    ensures Flat(disk', d, offset, |bytes|) == bytes
    ensures from + n <= offset || offset + |bytes| <= from ==> Flat(disk', d, from, n) == Flat(disk, d, from, n)
  {
    hide ByteAt, BytesToSectors;
  }
}

/** The heap of the segregated allocator as an array of 4-byte words.

    Addresses are byte offsets from the start of the heap, exactly as the allocator stores them in
    its link fields; address 0 stands for NULL.  A header is a size, a multiple of 8, with two flag
    bits below it.
 */
module SegWords {

  type Memory = seq<int>

  predicate IsWord(w: int) {
    0 <= w < 0x1_0000_0000
  }

  /** A word address inside the memory. */
  predicate IsCell(m: Memory, p: int) {
    0 <= p && p % 4 == 0 && p + 4 <= 4 * |m|
  }

  /** Reading and writing a word.  The allocator only ever touches cells; the value elsewhere merely
      keeps the two functions total. */
  function Get(m: Memory, p: int): int {
    if IsCell(m, p) then m[p / 4] else 0
  }

  function Put(m: Memory, p: int, v: int): (r: Memory)
    ensures |r| == |m|
    ensures IsCell(m, p) ==> Get(r, p) == v
    ensures forall q :: q != p ==> Get(r, q) == Get(m, q)
  {
    if IsCell(m, p) then m[p / 4 := v] else m
  }

  // ----- headers

  const MAX_SIZE := 0x8000_0000

  /** A header has the size in bits 3 and up, prev_alloc in bit 1 and alloc in bit 0. */
  function SizeOf(w: int): int {
    w / 8 * 8
  }

  predicate AllocBit(w: int) {
    w % 2 == 1
  }

  predicate PrevBit(w: int) {
    w / 2 % 2 == 1
  }

  function Bit(b: bool): int {
    if b then 1 else 0
  }

  lemma Bits(k: int, c: int, p: bool, a: bool)
    requires 0 <= c <= 1
    ensures var w := 8 * k + 4 * c + 2 * Bit(p) + Bit(a);
      SizeOf(w) == 8 * k && PrevBit(w) == p && AllocBit(w) == a && w / 4 == 2 * k + c
  {
    var w := 8 * k + 4 * c + 2 * Bit(p) + Bit(a);
    Split2(4 * k + 2 * c + Bit(p), Bit(a));
    Split2(2 * k + c, Bit(p));
    Split4(2 * k + c, 2 * Bit(p) + Bit(a));
    Split8(k, 4 * c + 2 * Bit(p) + Bit(a));
  }

  lemma Split2(q: int, r: int)
    requires 0 <= r < 2
    ensures (2 * q + r) / 2 == q && (2 * q + r) % 2 == r
  {
  }

  lemma Split4(q: int, r: int)
    requires 0 <= r < 4
    ensures (4 * q + r) / 4 == q
  {
  }

  lemma Split8(q: int, r: int)
    requires 0 <= r < 8
    ensures (8 * q + r) / 8 == q
  {
  }

  function Pack(size: int, prevAlloc: bool, alloc: bool): (w: int)
    ensures 0 <= size <= MAX_SIZE ==> IsWord(w)
    ensures size % 8 == 0 ==> SizeOf(w) == size && PrevBit(w) == prevAlloc && AllocBit(w) == alloc
  {
    Bits(size / 8, 0, prevAlloc, alloc);
    size + 2 * Bit(prevAlloc) + Bit(alloc)
  }

  /** The header `w` with its prev_alloc bit replaced. */
  function WithPrev(w: int, prevAlloc: bool): (r: int)
    ensures SizeOf(r) == SizeOf(w) && AllocBit(r) == AllocBit(w) && PrevBit(r) == prevAlloc
    ensures IsWord(w) ==> IsWord(r)
  {
    Bits(w / 8, w / 4 % 2, prevAlloc, AllocBit(w));
    assert w / 4 == 2 * (w / 8) + w / 4 % 2;
    w / 4 * 4 + 2 * Bit(prevAlloc) + w % 2
  }

  lemma WithPrevOfPack(size: int, before: bool, prevAlloc: bool, alloc: bool)
    requires size % 8 == 0
    ensures WithPrev(Pack(size, before, alloc), prevAlloc) == Pack(size, prevAlloc, alloc)
  {
    Bits(size / 8, 0, before, alloc);
    assert Pack(size, before, alloc) % 2 == Bit(alloc);
  }

  // ----- the two block writers

  /** `m'` differs from `m` only between `lo` and `hi`. */
  ghost predicate SameOutside(m: Memory, m': Memory, lo: int, hi: int) {
    |m'| == |m| && forall q :: q < lo || hi <= q ==> Get(m', q) == Get(m, q)
  }

  /** Room for a block at `bp` and for the header after it. */
  predicate HasRoom(m: Memory, bp: int, size: int) {
    bp % 8 == 0 && 8 <= bp && size % 8 == 0 && 8 <= size && bp + size <= 4 * |m|
  }

  lemma RoomCells(m: Memory, bp: int, size: int)
    requires HasRoom(m, bp, size)
    ensures IsCell(m, bp - 4) && IsCell(m, bp) && IsCell(m, bp + size - 8) && IsCell(m, bp + size - 4)
    ensures 16 <= size ==> IsCell(m, bp + 4)
  {
    var x, y := bp / 8, size / 8;
    CellAt(m, bp - 4, 2 * x - 1);
    CellAt(m, bp, 2 * x);
    CellAt(m, bp + size - 8, 2 * x + 2 * y - 2);
    CellAt(m, bp + size - 4, 2 * x + 2 * y - 1);
    if 16 <= size { CellAt(m, bp + 4, 2 * x + 1); }
  }

  lemma CellAt(m: Memory, p: int, q: int)
    requires p == 4 * q && 0 <= q < |m|
    ensures IsCell(m, p)
  {
  }

  /** What `write_alloc_block` does to the memory. */
  function WriteAlloc(m: Memory, bp: int, size: int, prevAlloc: bool): (r: Memory)
    ensures |r| == |m|
  {
    var m1 := Put(m, bp - 4, Pack(size, prevAlloc, true));
    Put(m1, bp + size - 4, WithPrev(Get(m1, bp + size - 4), true))
  }

  lemma WriteAllocEffect(m: Memory, bp: int, size: int, prevAlloc: bool)
    requires HasRoom(m, bp, size)
    ensures var r := WriteAlloc(m, bp, size, prevAlloc);
      && |r| == |m|
      && Get(r, bp - 4) == Pack(size, prevAlloc, true)
      && Get(r, bp + size - 4) == WithPrev(Get(m, bp + size - 4), true)
      && forall q :: q != bp - 4 && q != bp + size - 4 ==> Get(r, q) == Get(m, q)
  {
    RoomCells(m, bp, size);
    CellsKept(m, Put(m, bp - 4, Pack(size, prevAlloc, true)));
    hide Get, Put, Pack, WithPrev, SizeOf, AllocBit, PrevBit, IsCell;
  }

  lemma CellsKept(m: Memory, m': Memory)
    requires |m| == |m'|
    ensures forall p :: IsCell(m, p) <==> IsCell(m', p)
  {
  }

  /** A boundary tag at either end of the block. */
  function WriteTwo(m: Memory, bp: int, size: int, tag: int): (r: Memory)
    ensures |r| == |m|
  {
    Put(Put(m, bp - 4, tag), bp + size - 8, tag)
  }

  lemma WriteTwoHeader(m: Memory, bp: int, size: int, tag: int)
    requires IsCell(m, bp - 4) && size != 4
    ensures Get(WriteTwo(m, bp, size, tag), bp - 4) == tag
  {
    hide Get, Put, IsCell;
  }

  /** What `write_free_block` does to the memory: five writes in this order. */
  function WriteFree(m: Memory, bp: int, size: int, prevAlloc: bool): (r: Memory)
    ensures |r| == |m|
  {
    WriteTagged(m, bp, size, Pack(size, prevAlloc, false))
  }

  function WriteTagged(m: Memory, bp: int, size: int, tag: int): (r: Memory)
    ensures |r| == |m|
  {
    var m2 := WriteTwo(m, bp, size, tag);
    var m3 := Put(m2, bp, 0);
    var m4 := Put(m3, bp + 4, 0);
    Put(m4, bp + size - 4, WithPrev(Get(m4, bp + size - 4), false))
  }

  lemma WriteFreeEffect(m: Memory, bp: int, size: int, prevAlloc: bool)
    requires HasRoom(m, bp, size) && 16 <= size
    ensures var r := WriteFree(m, bp, size, prevAlloc);
      && |r| == |m|
      && Get(r, bp - 4) == Pack(size, prevAlloc, false)
      && Get(r, bp + size - 8) == Pack(size, prevAlloc, false)
      && Get(r, bp) == 0 && Get(r, bp + 4) == 0
      && Get(r, bp + size - 4) == WithPrev(Get(m, bp + size - 4), false)
      && SameOutside(m, r, bp - 4, bp + size)
  {
    RoomCells(m, bp, size);
    hide Get, Put, Pack, WithPrev, SizeOf, AllocBit, PrevBit;
  }

  /** `write_free_block` leaves the heap readable exactly when the block has 16 bytes or more: in
      a smaller one the links lie over its own footer and over the header that follows. */
  lemma FreeNeedsSixteen(m: Memory, bp: int, size: int, prevAlloc: bool)
    requires HasRoom(m, bp, size) && AllocBit(Get(m, bp + size - 4))
    ensures var r := WriteFree(m, bp, size, prevAlloc);
      size >= 16 <==> SizeOf(Get(r, bp + size - 8)) == size
                      && Get(r, bp + size - 4) == WithPrev(Get(m, bp + size - 4), false)
  {
    if size >= 16 {
      WriteFreeEffect(m, bp, size, prevAlloc);
    } else {
      hide Get, Put, Pack, WithPrev;
      var r := WriteFree(m, bp, size, prevAlloc);
      assert Get(r, bp + size - 8) == 0;
    }
  }

  // ----- bytes

  /** Byte `k` of a word, least significant first. */
  function ByteOf(w: int, k: int): int {
    if k == 0 then w % 256 else if k == 1 then w / 256 % 256 else if k == 2 then w / 65536 % 256 else w / 16777216 % 256
  }

  /** The byte at address `a`. */
  function Byte(m: Memory, a: int): int {
    ByteOf(Get(m, a - a % 4), a % 4)
  }

  function FromBytes(b0: int, b1: int, b2: int, b3: int): int {
    b0 + 256 * b1 + 65536 * b2 + 16777216 * b3
  }

  predicate IsByte(b: int) {
    0 <= b < 256
  }

  lemma FromBytesOf(b0: int, b1: int, b2: int, b3: int)
    requires IsByte(b0) && IsByte(b1) && IsByte(b2) && IsByte(b3)
    ensures var w := FromBytes(b0, b1, b2, b3);
      IsWord(w) && ByteOf(w, 0) == b0 && ByteOf(w, 1) == b1 && ByteOf(w, 2) == b2 && ByteOf(w, 3) == b3
  {
    var w := FromBytes(b0, b1, b2, b3);
    assert w / 256 == b1 + 256 * b2 + 65536 * b3;
    assert w / 65536 == b2 + 256 * b3;
    assert w / 16777216 == b3;
  }

  /** The low `k` bytes of `src` under the high bytes of `dst`: a copy that ends inside a word. */
  function Blend(src: int, dst: int, k: int): int {
    FromBytes(ByteOf(if 0 < k then src else dst, 0), ByteOf(if 1 < k then src else dst, 1),
              ByteOf(if 2 < k then src else dst, 2), ByteOf(if 3 < k then src else dst, 3))
  }

  lemma BlendBytes(src: int, dst: int, k: int, j: int)
    requires 0 <= j < k < 4
    ensures IsWord(Blend(src, dst, k)) && ByteOf(Blend(src, dst, k), j) == ByteOf(src, j)
  {
    FromBytesOf(ByteOf(if 0 < k then src else dst, 0), ByteOf(if 1 < k then src else dst, 1),
                ByteOf(if 2 < k then src else dst, 2), ByteOf(if 3 < k then src else dst, 3));
    hide FromBytes;
  }
}

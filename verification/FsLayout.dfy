/** Blocks, bitmap and block maps of kernel/fs.c: how a file's bytes and the
    allocation bitmap are laid out on disk, who owns each block, and what each
    kind of block write changes. */
module FsLayout {
  import opened DiskBlock

  const NDIRECT: nat := 12
  const MAXFILE: nat := 268
  const BPB: nat := 8192
  const IPB: nat := 16
  const SLOTS: nat := 269   // 12 direct, the indirect pointer, 256 indirect entries

  function Zeros(n: nat): (z: seq<int>)
    ensures |z| == n && forall k :: 0 <= k < n ==> z[k] == 0
  {
    if n == 0 then [] else Zeros(n - 1) + [0]
  }

  function ZeroBlock(): Block { Zeros(BSIZE) }

  // -------------------------------------------------- words of an indirect block

  lemma WordZero(j: nat)
    requires j < NINDIRECT
    ensures Word(ZeroBlock(), j) == 0
  {}

  // ------------------------------------------------------------ bits of a bitmap

  /** 1 << k. */
  function Pow2(k: nat): nat { if k == 0 then 1 else 2 * Pow2(k - 1) }

  /** data[bi/8] & (1 << (bi % 8)). */
  predicate TestBit(b: Block, bi: nat)
    requires bi < BPB
  {
    ByteBit(b[bi / 8], bi % 8)
  }

  /** Bit k of x. */
  predicate ByteBit(x: int, k: nat)
    decreases k
  {
    if k == 0 then x % 2 == 1 else ByteBit(x / 2, k - 1)
  }

  /** data[bi/8] |= m, for a clear bit. */
  function SetBit(b: Block, bi: nat): Block
    requires bi < BPB
  {
    b[bi / 8 := b[bi / 8] + Pow2(bi % 8)]
  }

  /** data[bi/8] &= ~m, for a set bit. */
  function ClearBit(b: Block, bi: nat): Block
    requires bi < BPB
  {
    b[bi / 8 := b[bi / 8] - Pow2(bi % 8)]
  }

  lemma {:induction false} ByteSet(x: int, k: nat, j: nat)
    requires !ByteBit(x, k)
    ensures ByteBit(x + Pow2(k), j) <==> j == k || ByteBit(x, j)
    decreases k
  {
    if k > 0 {
      assert (x + Pow2(k)) / 2 == x / 2 + Pow2(k - 1) && (x + Pow2(k)) % 2 == x % 2;
      if j > 0 {
        ByteSet(x / 2, k - 1, j - 1);
      }
    } else if j > 0 {
      assert (x + 1) / 2 == x / 2;
    }
  }

  lemma {:induction false} ByteClear(x: int, k: nat, j: nat)
    requires ByteBit(x, k)
    ensures ByteBit(x - Pow2(k), j) <==> j != k && ByteBit(x, j)
    decreases k
  {
    if k > 0 {
      assert (x - Pow2(k)) / 2 == x / 2 - Pow2(k - 1) && (x - Pow2(k)) % 2 == x % 2;
      if j > 0 {
        ByteClear(x / 2, k - 1, j - 1);
      }
    } else if j > 0 {
      assert (x - 1) / 2 == x / 2;
    }
  }

  lemma SetBitOk(b: Block, bi: nat, bj: nat)
    requires bi < BPB && bj < BPB && !TestBit(b, bi)
    ensures TestBit(SetBit(b, bi), bj) <==> bj == bi || TestBit(b, bj)
  {
    ByteSet(b[bi / 8], bi % 8, bj % 8);
  }

  lemma ClearBitOk(b: Block, bi: nat, bj: nat)
    requires bi < BPB && bj < BPB && TestBit(b, bi)
    ensures TestBit(ClearBit(b, bi), bj) <==> bj != bi && TestBit(b, bj)
  {
    ByteClear(b[bi / 8], bi % 8, bj % 8);
  }

  // ----------------------------------------------------------- the file system

  /** The superblock's layout: inode blocks, then the bitmap, then data blocks. */
  datatype Super = Super(size: nat, inodestart: nat, ninodes: nat, bmapstart: nat, datastart: nat) {
    predicate Ok() {
      && 0 < datastart <= size
      && inodestart + ninodes / IPB < bmapstart
      && bmapstart + size / BPB < datastart
    }
  }

  datatype Inode = Inode(typ: int, nlink: int, size: nat, addrs: seq<nat>)

  /** What the buffer cache and the in-memory inodes show. */
  datatype Fs = Fs(sb: Super, disk: seq<Block>, inodes: seq<Inode>)

  /** One place that can refer to a block: slot k of inode i.  Slots 0..11 are
      the direct addresses, 12 the indirect block, 13.. its entries. */
  datatype Slot = Slot(i: nat, k: nat)
  type Owner = map<int, Slot>

  ghost predicate Shape(s: Fs) {
    && s.sb.Ok() && |s.disk| == s.sb.size && |s.inodes| == s.sb.ninodes
    && forall i :: 0 <= i < |s.inodes| ==> |s.inodes[i].addrs| == NDIRECT + 1
  }

  /** The block number stored in a slot, 0 if none. */
  function SlotAddr(s: Fs, i: nat, k: nat): int
    requires Shape(s) && i < |s.inodes| && k < SLOTS
  {
    var ind := s.inodes[i].addrs[NDIRECT];
    if k <= NDIRECT then s.inodes[i].addrs[k]
    else if 0 < ind < |s.disk| then Word(s.disk[ind], k - NDIRECT - 1)
    else 0
  }

  /** The slot of the file's block number bn. */
  function DataSlot(bn: nat): nat { if bn < NDIRECT then bn else bn + 1 }

  /** Every referenced block is referenced from exactly one slot, and is a data block. */
  ghost predicate Own(s: Fs, owner: Owner) {
    && Shape(s)
    && (forall i, k :: 0 <= i < |s.inodes| && 0 <= k < SLOTS && SlotAddr(s, i, k) != 0 ==>
          SlotAddr(s, i, k) in owner && owner[SlotAddr(s, i, k)] == Slot(i, k))
    && (forall a :: a in owner ==>
          && s.sb.datastart <= a < s.sb.size && owner[a].i < |s.inodes| && owner[a].k < SLOTS
          && SlotAddr(s, owner[a].i, owner[a].k) == a)
  }

  function BitBlock(sb: Super, b: nat): nat { sb.bmapstart + b / BPB }

  ghost predicate BitAt(s: Fs, b: nat)
    requires Shape(s) && b < s.sb.size
  {
    TestBit(s.disk[BitBlock(s.sb, b)], b % BPB)
  }

  ghost predicate BitsAre(s: Fs, used: iset<int>) {
    Shape(s) && forall b :: 0 <= b < s.sb.size ==> (BitAt(s, b) <==> b in used)
  }

  /** The bitmap's promise: set exactly for metadata and for owned blocks. */
  ghost function InUse(s: Fs, owner: Owner): iset<int> {
    iset b | b < s.sb.datastart || b in owner
  }

  ghost predicate Consistent(s: Fs, owner: Owner) {
    Own(s, owner) && BitsAre(s, InUse(s, owner))
  }

  /** Byte p of file i, size apart: unallocated blocks read as zeros. */
  function RawByte(s: Fs, i: nat, p: nat): int
    requires Shape(s) && i < |s.inodes| && p < MAXFILE * BSIZE
  {
    var a := SlotAddr(s, i, DataSlot(p / BSIZE));
    if 0 < a < |s.disk| then s.disk[a][p % BSIZE] else 0
  }

  ghost predicate SameSlots(s: Fs, t: Fs) {
    && Shape(s) && Shape(t) && t.sb == s.sb
    && forall i, k :: 0 <= i < |s.inodes| && 0 <= k < SLOTS ==> SlotAddr(t, i, k) == SlotAddr(s, i, k)
  }

  /** Slots already filled stay as they are. */
  ghost predicate KeepsSlots(s: Fs, t: Fs) {
    && Shape(s) && Shape(t) && |s.inodes| == |t.inodes|
    && forall j, k :: 0 <= j < |s.inodes| && 0 <= k < SLOTS && SlotAddr(s, j, k) != 0 ==>
         SlotAddr(t, j, k) == SlotAddr(s, j, k)
  }

  ghost predicate SameBytes(s: Fs, t: Fs) {
    && Shape(s) && Shape(t) && t.sb == s.sb
    && forall i, p :: 0 <= i < |s.inodes| && 0 <= p < MAXFILE * BSIZE ==> RawByte(t, i, p) == RawByte(s, i, p)
  }

  // ---------------------------------------------------- effects of block writes

  /** Writing a block that is nobody's indirect block moves no slot. */
  lemma WriteKeepsSlots(s: Fs, owner: Owner, a: nat, blk: Block)
    requires Own(s, owner) && a < s.sb.size
    requires a in owner ==> owner[a].k != NDIRECT
    ensures SameSlots(s, s.(disk := s.disk[a := blk])) && Own(s.(disk := s.disk[a := blk]), owner)
  {
    var t := s.(disk := s.disk[a := blk]);
    forall i, k | 0 <= i < |s.inodes| && 0 <= k < SLOTS ensures SlotAddr(t, i, k) == SlotAddr(s, i, k) {
      assert SlotAddr(s, i, NDIRECT) != 0 ==> owner[SlotAddr(s, i, NDIRECT)] == Slot(i, NDIRECT);
    }
  }

  /** Writing an unowned block changes no file. */
  lemma WriteUnowned(s: Fs, owner: Owner, a: nat, blk: Block)
    requires Own(s, owner) && a < s.sb.size && a !in owner
    ensures var t := s.(disk := s.disk[a := blk]); SameSlots(s, t) && SameBytes(s, t) && Own(t, owner)
  {
    var t := s.(disk := s.disk[a := blk]);
    WriteKeepsSlots(s, owner, a, blk);
    forall i, p | 0 <= i < |s.inodes| && 0 <= p < MAXFILE * BSIZE ensures RawByte(t, i, p) == RawByte(s, i, p) {
      var k := DataSlot(p / BSIZE);
      assert SlotAddr(t, i, k) == SlotAddr(s, i, k);
    }
  }

  /** Writing a file's data block changes the bytes of that block only. */
  lemma WriteData(s: Fs, owner: Owner, i: nat, bn: nat, blk: Block)
    requires Own(s, owner) && i < |s.inodes| && bn < MAXFILE && SlotAddr(s, i, DataSlot(bn)) != 0
    ensures var a := SlotAddr(s, i, DataSlot(bn));
            && 0 < a < s.sb.size
            && var t := s.(disk := s.disk[a := blk]);
               && SameSlots(s, t) && Own(t, owner)
               && forall j, p :: 0 <= j < |s.inodes| && 0 <= p < MAXFILE * BSIZE ==>
                    RawByte(t, j, p) == if j == i && p / BSIZE == bn then blk[p % BSIZE] else RawByte(s, j, p)
  {
    var a := SlotAddr(s, i, DataSlot(bn));
    assert owner[a] == Slot(i, DataSlot(bn));
    var t := s.(disk := s.disk[a := blk]);
    WriteKeepsSlots(s, owner, a, blk);
    forall j, p | 0 <= j < |s.inodes| && 0 <= p < MAXFILE * BSIZE
      ensures RawByte(t, j, p) == if j == i && p / BSIZE == bn then blk[p % BSIZE] else RawByte(s, j, p)
    {
      var k := DataSlot(p / BSIZE);
      assert SlotAddr(t, j, k) == SlotAddr(s, j, k);
      assert SlotAddr(s, j, k) != 0 ==> owner[SlotAddr(s, j, k)] == Slot(j, k);
    }
  }

  /** Writing a data block leaves the bitmap alone. */
  lemma DataKeepsBits(s: Fs, used: iset<int>, a: nat, blk: Block)
    requires BitsAre(s, used) && s.sb.datastart <= a < s.sb.size
    ensures BitsAre(s.(disk := s.disk[a := blk]), used)
  {
    var t := s.(disk := s.disk[a := blk]);
    forall b | 0 <= b < s.sb.size ensures BitAt(t, b) <==> b in used {
      assert BitAt(s, b) <==> b in used;
      BitBlockBound(s.sb, b);
    }
  }

  lemma SameDiskBits(s: Fs, t: Fs, used: iset<int>)
    requires BitsAre(s, used) && Shape(t) && t.sb == s.sb && t.disk == s.disk
    ensures BitsAre(t, used)
  {
    forall b | 0 <= b < s.sb.size ensures BitAt(t, b) <==> b in used {
      assert BitAt(s, b) <==> b in used;
    }
  }

  lemma BitBlockBound(sb: Super, b: nat)
    requires sb.Ok() && b < sb.size
    ensures BitBlock(sb, b) < sb.datastart
  {}

  function MarkDisk(s: Fs, b: nat): seq<Block>
    requires Shape(s) && b < s.sb.size
  {
    s.disk[BitBlock(s.sb, b) := SetBit(s.disk[BitBlock(s.sb, b)], b % BPB)]
  }

  function UnmarkDisk(s: Fs, b: nat): seq<Block>
    requires Shape(s) && b < s.sb.size
  {
    s.disk[BitBlock(s.sb, b) := ClearBit(s.disk[BitBlock(s.sb, b)], b % BPB)]
  }

  lemma MarkBits(s: Fs, used: iset<int>, b: nat)
    requires BitsAre(s, used) && b < s.sb.size && !BitAt(s, b)
    ensures BitsAre(s.(disk := MarkDisk(s, b)), used + iset{b})
  {
    var t := s.(disk := MarkDisk(s, b));
    forall c | 0 <= c < s.sb.size ensures BitAt(t, c) <==> c in used || c == b {
      assert BitAt(s, c) <==> c in used;
      SetBitOk(s.disk[BitBlock(s.sb, b)], b % BPB, c % BPB);
    }
  }

  lemma UnmarkBits(s: Fs, used: iset<int>, b: nat)
    requires BitsAre(s, used) && b < s.sb.size && BitAt(s, b)
    ensures BitsAre(s.(disk := UnmarkDisk(s, b)), used - iset{b})
  {
    var t := s.(disk := UnmarkDisk(s, b));
    forall c | 0 <= c < s.sb.size ensures BitAt(t, c) <==> c in used && c != b {
      assert BitAt(s, c) <==> c in used;
      ClearBitOk(s.disk[BitBlock(s.sb, b)], b % BPB, c % BPB);
    }
  }

  // ------------------------------------------------------------ linking a block

  /** Store a zeroed, unowned block in an empty direct slot or as the indirect block. */
  lemma LinkDirect(s: Fs, owner: Owner, i: nat, k: nat, b: nat)
    requires Own(s, owner) && i < |s.inodes| && k <= NDIRECT && s.inodes[i].addrs[k] == 0
    requires s.sb.datastart <= b < s.sb.size && b !in owner && s.disk[b] == ZeroBlock()
    ensures var t := s.(inodes := s.inodes[i := s.inodes[i].(addrs := s.inodes[i].addrs[k := b])]);
            Own(t, owner[b := Slot(i, k)]) && SameBytes(s, t)
            && forall j, l :: 0 <= j < |s.inodes| && 0 <= l < SLOTS ==>
                 SlotAddr(t, j, l) == if j == i && l == k then b else SlotAddr(s, j, l)
  {
    var t := s.(inodes := s.inodes[i := s.inodes[i].(addrs := s.inodes[i].addrs[k := b])]);
    assert Shape(t);
    forall j, l | 0 <= j < |s.inodes| && 0 <= l < SLOTS
      ensures SlotAddr(t, j, l) == if j == i && l == k then b else SlotAddr(s, j, l)
    {
      if j == i && k == NDIRECT && l > NDIRECT {
        WordZero(l - NDIRECT - 1);
      }
    }
    LinkOwn(s, t, owner, i, k, b);
    LinkBytes(s, t, owner, i, k, b);
  }

  /** Store a zeroed, unowned block in an empty entry of the indirect block. */
  lemma LinkEntry(s: Fs, owner: Owner, i: nat, e: nat, b: nat)
    requires Own(s, owner) && i < |s.inodes| && e < NINDIRECT && s.inodes[i].addrs[NDIRECT] != 0
    requires SlotAddr(s, i, NDIRECT + 1 + e) == 0
    requires s.sb.datastart <= b < s.sb.size && b !in owner && s.disk[b] == ZeroBlock()
    ensures var ind := s.inodes[i].addrs[NDIRECT];
            && ind < s.sb.size
            && var t := s.(disk := s.disk[ind := SetWord(s.disk[ind], e, b)]);
               && Own(t, owner[b := Slot(i, NDIRECT + 1 + e)]) && SameBytes(s, t)
               && forall j, l :: 0 <= j < |s.inodes| && 0 <= l < SLOTS ==>
                    SlotAddr(t, j, l) == if j == i && l == NDIRECT + 1 + e then b else SlotAddr(s, j, l)
  {
    var ind := s.inodes[i].addrs[NDIRECT];
    assert SlotAddr(s, i, NDIRECT) == ind;
    var t := s.(disk := s.disk[ind := SetWord(s.disk[ind], e, b)]);
    assert Shape(t);
    forall j, l | 0 <= j < |s.inodes| && 0 <= l < SLOTS
      ensures SlotAddr(t, j, l) == if j == i && l == NDIRECT + 1 + e then b else SlotAddr(s, j, l)
    {
      assert SlotAddr(s, j, NDIRECT) != 0 ==> owner[SlotAddr(s, j, NDIRECT)] == Slot(j, NDIRECT);
      if j == i && l > NDIRECT {
        WordSet(s.disk[ind], e, b, l - NDIRECT - 1);
      }
    }
    LinkOwn(s, t, owner, i, NDIRECT + 1 + e, b);
    assert owner[ind] == Slot(i, NDIRECT);
    LinkBytes(s, t, owner, i, NDIRECT + 1 + e, b);
  }

  /** Filling one empty slot with an unowned block keeps single ownership. */
  lemma LinkOwn(s: Fs, t: Fs, owner: Owner, i: nat, k: nat, b: nat)
    requires Own(s, owner) && Shape(t) && t.sb == s.sb && |t.inodes| == |s.inodes| && i < |s.inodes| && k < SLOTS
    requires s.sb.datastart <= b < s.sb.size && b !in owner && SlotAddr(s, i, k) == 0
    requires forall j, l :: 0 <= j < |s.inodes| && 0 <= l < SLOTS ==>
               SlotAddr(t, j, l) == if j == i && l == k then b else SlotAddr(s, j, l)
    ensures Own(t, owner[b := Slot(i, k)])
  {}

  /** ... and, the block being zeroed, every byte of every file. */
  lemma LinkBytes(s: Fs, t: Fs, owner: Owner, i: nat, k: nat, b: nat)
    requires Own(s, owner) && Shape(t) && t.sb == s.sb && |t.inodes| == |s.inodes| && i < |s.inodes| && k < SLOTS
    requires 0 < b < s.sb.size && b !in owner && s.disk[b] == t.disk[b] == ZeroBlock() && SlotAddr(s, i, k) == 0
    requires forall j, l :: 0 <= j < |s.inodes| && 0 <= l < SLOTS ==>
               SlotAddr(t, j, l) == if j == i && l == k then b else SlotAddr(s, j, l)
    requires forall a :: 0 <= a < |s.disk| && t.disk[a] != s.disk[a] ==> a in owner && owner[a].k == NDIRECT
    ensures SameBytes(s, t)
  {
    forall j, p | 0 <= j < |s.inodes| && 0 <= p < MAXFILE * BSIZE ensures RawByte(t, j, p) == RawByte(s, j, p) {
      var l := DataSlot(p / BSIZE);
      var a := SlotAddr(s, j, l);
      assert SlotAddr(t, j, l) == if j == i && l == k then b else a;
      assert a != 0 ==> owner[a] == Slot(j, l);
    }
  }

  // ---------------------------------------------------------- unlinking blocks

  /** The blocks that slots k.. of inode i refer to. */
  ghost function Holdings(owner: Owner, i: nat, k: nat): set<int> {
    set a | a in owner && owner[a].i == i && owner[a].k >= k
  }

  /** Emptying the slots that hold the blocks `gone` keeps single ownership. */
  lemma UnlinkOwn(s: Fs, t: Fs, owner: Owner, gone: set<int>)
    requires Own(s, owner) && Shape(t) && t.sb == s.sb && |t.inodes| == |s.inodes|
    requires forall j, l :: 0 <= j < |s.inodes| && 0 <= l < SLOTS ==>
               SlotAddr(t, j, l) == if SlotAddr(s, j, l) in gone then 0 else SlotAddr(s, j, l)
    ensures Own(t, owner - gone)
  {}

  /** Clearing a direct slot gives up exactly its block. */
  lemma UnlinkDirect(s: Fs, owner: Owner, i: nat, k: nat)
    requires Own(s, owner) && i < |s.inodes| && k < NDIRECT && s.inodes[i].addrs[k] != 0
    ensures var t := s.(inodes := s.inodes[i := s.inodes[i].(addrs := s.inodes[i].addrs[k := 0])]);
            && Own(t, owner - {s.inodes[i].addrs[k]})
            && forall j, l :: 0 <= j < |s.inodes| && 0 <= l < SLOTS ==>
                 SlotAddr(t, j, l) == if j == i && l == k then 0 else SlotAddr(s, j, l)
  {
    var a := s.inodes[i].addrs[k];
    assert SlotAddr(s, i, k) == a;
    var t := s.(inodes := s.inodes[i := s.inodes[i].(addrs := s.inodes[i].addrs[k := 0])]);
    assert Shape(t);
    forall j, l | 0 <= j < |s.inodes| && 0 <= l < SLOTS
      ensures SlotAddr(t, j, l) == if SlotAddr(s, j, l) in {a} then 0 else SlotAddr(s, j, l) {}
    UnlinkOwn(s, t, owner, {a});
  }

  /** Clearing the indirect pointer gives up the indirect block and its entries. */
  lemma UnlinkIndirect(s: Fs, owner: Owner, i: nat)
    requires Own(s, owner) && i < |s.inodes|
    ensures var t := s.(inodes := s.inodes[i := s.inodes[i].(addrs := s.inodes[i].addrs[NDIRECT := 0])]);
            && Own(t, owner - Holdings(owner, i, NDIRECT))
            && forall j, l :: 0 <= j < |s.inodes| && 0 <= l < SLOTS ==>
                 SlotAddr(t, j, l) == if j == i && l >= NDIRECT then 0 else SlotAddr(s, j, l)
  {
    var t := s.(inodes := s.inodes[i := s.inodes[i].(addrs := s.inodes[i].addrs[NDIRECT := 0])]);
    assert Shape(t);
    var gone := Holdings(owner, i, NDIRECT);
    forall j, l | 0 <= j < |s.inodes| && 0 <= l < SLOTS
      ensures SlotAddr(t, j, l) == if SlotAddr(s, j, l) in gone then 0 else SlotAddr(s, j, l) {}
    UnlinkOwn(s, t, owner, gone);
  }

  // ------------------------------------------------------------------- contents

  /** The first n raw bytes of file i. */
  ghost function RawBytes(s: Fs, i: nat, n: nat): (c: seq<int>)
    requires Shape(s) && i < |s.inodes| && n <= MAXFILE * BSIZE
    ensures |c| == n && forall p :: 0 <= p < n ==> c[p] == RawByte(s, i, p)
  {
    if n == 0 then [] else RawBytes(s, i, n - 1) + [RawByte(s, i, n - 1)]
  }

  /** The file as its readers see it. */
  ghost function Content(s: Fs, i: nat): (c: seq<int>)
    requires Shape(s) && i < |s.inodes| && s.inodes[i].size <= MAXFILE * BSIZE
    ensures |c| == s.inodes[i].size
  {
    RawBytes(s, i, s.inodes[i].size)
  }

  lemma ContentAt(s: Fs, i: nat, p: nat)
    requires Shape(s) && i < |s.inodes| && p < s.inodes[i].size <= MAXFILE * BSIZE
    ensures Content(s, i)[p] == RawByte(s, i, p)
  {}

  /** No file has a hole below its size. */
  ghost predicate Mapped(s: Fs, i: nat)
    requires Shape(s) && i < |s.inodes|
  {
    && s.inodes[i].size <= MAXFILE * BSIZE
    && forall bn :: 0 <= bn < MAXFILE && bn * BSIZE < s.inodes[i].size ==> SlotAddr(s, i, DataSlot(bn)) != 0
  }

  ghost predicate FsOk(s: Fs, owner: Owner) {
    Consistent(s, owner) && forall i :: 0 <= i < |s.inodes| ==> Mapped(s, i)
  }

  /** c with d written at offset off, extended if needed. */
  function Splice(c: seq<int>, off: nat, d: seq<int>): seq<int>
    requires off <= |c|
  {
    if off + |d| <= |c| then c[..off] + d + c[off + |d|..] else c[..off] + d
  }
}

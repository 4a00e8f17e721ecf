/** balloc, bfree, bmap, itrunc, readi and writei of kernel/fs.c as code over the
    disk, the in-memory inodes and their on-disk copies. */
module FileLayer {
  import opened DiskBlock
  import opened FsLayout
  import opened BlockBudget
  import opened Common

  /** Every block below n is marked in use. */
  ghost predicate AllSet(s: Fs, n: nat) {
    Shape(s) && forall c :: 0 <= c < n && c < s.sb.size ==> BitAt(s, c)
  }

  /** balloc's inner loop: the first clear bit of a bitmap block below `limit`. */
  method ScanBits(bp: Block, limit: nat) returns (bi: nat)
    requires limit <= BPB
    ensures bi <= limit && (bi < limit ==> !TestBit(bp, bi))
    ensures forall k :: 0 <= k < bi ==> TestBit(bp, k)
  {
    bi := 0;
    while bi < limit && TestBit(bp, bi)
      invariant bi <= limit && forall k :: 0 <= k < bi ==> TestBit(bp, k)
    {
      bi := bi + 1;
    }
  }

  lemma FirstSet(s: Fs, owner: Owner)
    requires Consistent(s, owner)
    ensures Shape(s) && BitAt(s, 0)
  {}

  lemma StartSet(s: Fs)
    requires Shape(s)
    ensures AllSet(s, 0) && Aligned(0)
    ensures forall n: nat :: n >= s.sb.size && AllSet(s, n) ==> AllSet(s, s.sb.size)
  {}

  predicate Aligned(base: nat) { base % BPB == 0 }

  /** Bits found set in one bitmap block extend the run of blocks in use. */
  lemma ScannedBits(s: Fs, bp: Block, base: nat, bi: nat)
    requires AllSet(s, base) && Aligned(base) && base < s.sb.size && bi <= BPB && base + bi <= s.sb.size
    requires bp == s.disk[BitBlock(s.sb, base)] && forall k :: 0 <= k < bi ==> TestBit(bp, k)
    ensures AllSet(s, base + bi) && Aligned(base + BPB)
    ensures bi < BPB && base + bi < s.sb.size ==>
              && (BitAt(s, base + bi) <==> TestBit(bp, bi))
              && BitBlock(s.sb, base + bi) == BitBlock(s.sb, base)
    ensures base + bi == s.sb.size ==> AllSet(s, base + BPB)
  {
    forall c | 0 <= c < base + bi && c < s.sb.size ensures BitAt(s, c) {
      if c >= base {
        BitIndex(s.sb, base, c - base);
      }
    }
    if bi < BPB {
      BitIndex(s.sb, base, bi);
    }
  }

  /** t is s with block b taken from the free ones and zeroed. */
  ghost predicate Allocated(s: Fs, t: Fs, owner: Owner, b: nat) {
    && Shape(s) && s.sb.datastart <= b < s.sb.size && b !in owner && !BitAt(s, b)
    && AllSet(s, b)
    && t.inodes == s.inodes && Own(t, owner) && SameSlots(s, t) && SameBytes(s, t)
    && t.disk[b] == ZeroBlock()
    && BitsAre(t, InUse(s, owner) + iset{b})
  }

  lemma AllocOk(s: Fs, owner: Owner, b: nat)
    requires Consistent(s, owner) && b < s.sb.size && !BitAt(s, b) && AllSet(s, b)
    ensures Allocated(s, s.(disk := MarkDisk(s, b)[b := ZeroBlock()]), owner, b)
  {
    assert b !in InUse(s, owner);
    var m := s.(disk := MarkDisk(s, b));
    BitBlockBound(s.sb, b);
    WriteUnowned(s, owner, BitBlock(s.sb, b), SetBit(s.disk[BitBlock(s.sb, b)], b % BPB));
    MarkBits(s, InUse(s, owner), b);
    WriteUnowned(m, owner, b, ZeroBlock());
    DataKeepsBits(m, InUse(s, owner) + iset{b}, b, ZeroBlock());
  }

  lemma BitIndex(sb: Super, base: nat, bi: nat)
    requires base % BPB == 0 && bi < BPB
    ensures BitBlock(sb, base + bi) == sb.bmapstart + base / BPB && (base + bi) % BPB == bi
  {}

  predicate IsBitmap(sb: Super, x: nat) { sb.bmapstart <= x <= sb.bmapstart + sb.size / BPB }

  /** Besides bitmap blocks, only blocks of `more` were newly logged, and only those
      have changed. */
  ghost predicate LogsOnly(sb: Super, d0: seq<Block>, d1: seq<Block>, before: set<nat>, after: set<nat>,
          more: set<nat>) {
    && before <= after && |d1| == |d0|
    && (forall x :: x in after ==> x in before || IsBitmap(sb, x) || x in more)
    && (forall b: nat :: b < |d0| && d1[b] != d0[b] ==> IsBitmap(sb, b) || b in more)
  }

  /** The indirect block, if there is one, and some data blocks. */
  function More(ind: nat, data: set<nat>): set<nat> { {ind} + data - {0} }

  /** Every block whose contents changed was passed to log_write. */
  ghost predicate Covered(before: seq<Block>, after: seq<Block>, logged: set<nat>) {
    |after| == |before| && forall b: nat :: b < |before| && after[b] != before[b] ==> b in logged
  }

  lemma CoveredMore(d0: seq<Block>, d1: seq<Block>, d2: seq<Block>, l1: set<nat>, l2: set<nat>)
    requires Covered(d0, d1, l1) && Covered(d1, d2, l2) && l1 <= l2
    ensures Covered(d0, d2, l2)
  {}

  /** Inode j is untouched, or (for j == i) has only new block addresses. */
  ghost predicate OnlyAddrs(old_: seq<Inode>, new_: seq<Inode>, i: nat) {
    && |new_| == |old_|
    && (forall j :: 0 <= j < |old_| && j != i ==> new_[j] == old_[j])
    && (i < |old_| ==> new_[i] == old_[i].(addrs := new_[i].addrs))
  }

  /** Slot k of inode i alone may have changed, and for an indirect one the pointer
      to the indirect block. */
  ghost predicate SlotsBut(s: Fs, t: Fs, i: nat, k: nat) {
    && Shape(s) && Shape(t) && |s.inodes| == |t.inodes|
    && forall j, l :: 0 <= j < |s.inodes| && 0 <= l < SLOTS && !(j == i && (l == k || l == NDIRECT < k)) ==>
         SlotAddr(t, j, l) == SlotAddr(s, j, l)
  }

  const U32: nat := 0x1_0000_0000

  /** 32-bit addition. */
  function Add32(a: nat, b: nat): nat { (a + b) % U32 }

  lemma Add32Wraps(a: nat, b: nat)
    requires a < U32 && b < U32
    ensures Add32(a, b) < a <==> a + b >= U32
    ensures a + b < U32 ==> Add32(a, b) == a + b
  {}

  function Max(a: nat, b: nat): nat { if a < b then b else a }

  function Min(a: nat, b: nat): nat { if a < b then a else b }

  /** min(n - tot, BSIZE - off % BSIZE): how far one turn of a transfer loop goes. */
  function Chunk(left: nat, off: nat): (m: nat)
    requires left > 0
    ensures 0 < m <= left && m <= BSIZE - off % BSIZE
  {
    Min(left, BSIZE - off % BSIZE)
  }

  function InodeBlock(sb: Super, i: nat): nat { sb.inodestart + i / IPB }

  /** Block b with d copied over it at offset lo. */
  function Overlay(b: Block, lo: nat, d: seq<int>): Block
    requires lo + |d| <= BSIZE
  {
    b[..lo] + d + b[lo + |d|..]
  }

  /** t is s with the first k bytes of d stored in file i at offset off, and every
      other byte of every file as before. */
  ghost predicate Wrote(s: Fs, t: Fs, i: nat, off: nat, d: seq<int>, k: nat) {
    && Shape(s) && Shape(t) && |s.inodes| == |t.inodes| && k <= |d|
    && forall j, p :: 0 <= j < |s.inodes| && 0 <= p < MAXFILE * BSIZE ==>
         RawByte(t, j, p) == if j == i && off <= p < off + k then d[p - off] else RawByte(s, j, p)
  }

  /** What writei of src at `start` makes of s, with `avail` bytes of the source
      readable: refused (-1), or the first r bytes written, plus the bytes a
      failed copy left behind. */
  ghost predicate WriteDone(s: Fs, t: Fs, i: nat, start: nat, src: seq<int>, avail: nat, r: int, part: nat) {
    && Shape(s) && Shape(t) && i < |s.inodes| == |t.inodes| && -1 <= r
    && (r == -1 <==> start > s.inodes[i].size || start + |src| > MAXFILE * BSIZE)
    && (r == -1 ==> t == s)
    && (r != -1 ==>
          && Wrote(s, t, i, start, src, r + part) && KeepsSlots(s, t)
          && Stops(t, i, start, src, avail, r, part) && Within(s, t, i, start, start + |src|)
          && (forall j :: 0 <= j < |t.inodes| && j != i ==> t.inodes[j] == s.inodes[j])
          && t.inodes[i] == s.inodes[i].(addrs := t.inodes[i].addrs, size := Max(s.inodes[i].size, start + r))
          && (r == 0 || r == |src| || (start + r) % BSIZE == 0))
  }

  /** Where writei stops: when the source ends, or where it can no longer be
      read, or, for lack of a block, when the disk is full.  A fault inside a
      block leaves the bytes before it in that block. */
  ghost predicate Stops(t: Fs, i: nat, start: nat, src: seq<int>, avail: nat, r: nat, part: nat) {
    var goal := Min(avail, |src|);
    && r + part <= goal
    && (r + part < goal ==> part == 0 && AllSet(t, t.sb.size) && !MappedRange(t, i, start, start + |src|))
    && (r + part == goal ==> (part > 0 <==> 0 < avail < |src| && (start + avail) % BSIZE != 0))
  }

  /** The block in which a failed copy left bytes; log_write was not called for it. */
  ghost function Torn(t: Fs, i: nat, end: nat): int
    requires Shape(t) && i < |t.inodes| && end < MAXFILE * BSIZE
  {
    SlotAddr(t, i, DataSlot(end / BSIZE))
  }

  /** What is logged: every block changed but the torn one, and the torn one only
      if this operation had logged it before or has just allocated it. */
  ghost predicate LogsChanges(s: Fs, t: Fs, i: nat, end: nat, part: nat, before: set<nat>, after: set<nat>) {
    && Shape(s) && Shape(t) && i < |s.inodes| == |t.inodes| && end < MAXFILE * BSIZE
    && if part == 0 then Covered(s.disk, t.disk, after)
       else var a := Torn(t, i, end);
         && 0 < a < |t.disk| && Covered(s.disk, t.disk, after + {a})
         && (a in after <==> a in before || SlotAddr(s, i, DataSlot(end / BSIZE)) == 0)
  }

  /** Block x is part of what a write to file i from lo to hi is about: the bitmap, the
      inode's block, the indirect block, or a block that holds those bytes. */
  ghost predicate FileBlock(t: Fs, i: nat, lo: nat, hi: nat, x: nat)
    requires Shape(t) && i < |t.inodes|
  {
    || IsBitmap(t.sb, x) || x == InodeBlock(t.sb, i) || Holder(t, i, lo, hi, x)
    || (x != 0 && x == t.inodes[i].addrs[NDIRECT])
  }

  /** Only such blocks have changed or were newly logged. */
  ghost predicate Footprint(t: Fs, i: nat, lo: nat, hi: nat, d0: seq<Block>, before: set<nat>, after: set<nat>) {
    && Shape(t) && i < |t.inodes| && before <= after && |d0| == |t.disk|
    && (forall x :: x in after && x !in before ==> FileBlock(t, i, lo, hi, x))
    && (forall b: nat :: b < |d0| && t.disk[b] != d0[b] ==> FileBlock(t, i, lo, hi, b))
  }

  /** d is the bytes of file i from lo to hi. */
  ghost predicate IsSlice(s: Fs, i: nat, lo: nat, hi: nat, d: seq<int>) {
    && Shape(s) && i < |s.inodes| && s.inodes[i].size <= MAXFILE * BSIZE
    && lo <= hi <= s.inodes[i].size && d == Content(s, i)[lo..hi]
  }

  /** How many blocks the byte range from lo to hi touches. */
  function Span(lo: nat, hi: nat): int {
    if hi <= lo then 0 else (hi - 1) / BSIZE - lo / BSIZE + 1
  }

  class FileSystem {
    const sb: Super
    var disk: seq<Block>       // block contents as the buffer cache shows them
    var inodes: seq<Inode>     // the in-memory inodes
    var dinodes: seq<Inode>    // the inodes as last copied to their blocks by iupdate
    var logged: set<nat>       // the blocks passed to log_write by this operation
    ghost var ended: seq<set<nat>>   // what each operation that has ended had logged
    ghost var owner: Owner

    ghost function St(): Fs
      reads this
    {
      Fs(sb, disk, inodes)
    }

    /** balloc: the lowest free block, zeroed, or 0 if the bitmap is full. */
    method Balloc() returns (b: nat)
      requires Consistent(St(), owner)
      modifies this`disk, this`logged
      ensures b == 0 ==> disk == old(disk) && logged == old(logged)
      ensures b == 0 ==> AllSet(St(), sb.size)
      ensures b != 0 ==> Allocated(old(St()), St(), owner, b)
      ensures b != 0 ==> logged == old(logged) + {BitBlock(sb, b), b} && Covered(old(disk), disk, {BitBlock(sb, b), b})
    {
      hide Consistent, Own, Allocated, AllSet, BitAt, Aligned;
      ghost var s := St();
      FirstSet(s, owner);
      StartSet(s);
      var base: nat := 0;
      b := 0;
      while base < sb.size && b == 0
        invariant Aligned(base) && disk == old(disk) && logged == old(logged)
        invariant if b == 0 then AllSet(s, base) else b < sb.size && !BitAt(s, b) && AllSet(s, b)
        decreases b == 0, sb.size - base
      {
        b := BallocBlock(base);
        base := base + BPB;
      }
      if b != 0 {
        MarkAndZero(b);
      }
    }

    /** balloc's search in the bitmap block that starts at `base`; 0 if it is full. */
    method BallocBlock(base: nat) returns (b: nat)
      requires Shape(St()) && BitAt(St(), 0) && AllSet(St(), base) && Aligned(base) && base < sb.size
      ensures Aligned(base + BPB)
      ensures if b == 0 then AllSet(St(), base + BPB)
              else b < sb.size && !BitAt(St(), b) && AllSet(St(), b)
    {
      BitBlockBound(sb, base);
      var bp := disk[BitBlock(sb, base)];
      var bi := ScanBits(bp, Min(BPB, sb.size - base));
      ScannedBits(St(), bp, base, bi);
      b := if bi < BPB && base + bi < sb.size then base + bi else 0;
    }

    /** Mark the block in use, log the bitmap block, and zero it. */
    method MarkAndZero(b: nat)
      requires Consistent(St(), owner) && b < sb.size && !BitAt(St(), b) && AllSet(St(), b)
      modifies this`disk, this`logged
      ensures Allocated(old(St()), St(), owner, b)
      ensures logged == old(logged) + {BitBlock(sb, b), b} && Covered(old(disk), disk, {BitBlock(sb, b), b})
    {
      AllocOk(St(), owner, b);
      hide Allocated, Consistent, AllSet, BitAt;
      BitBlockBound(sb, b);
      disk := disk[BitBlock(sb, b) := SetBit(disk[BitBlock(sb, b)], b % BPB)];
      disk := disk[b := ZeroBlock()];
      logged := logged + {BitBlock(sb, b), b};
    }

    /** bfree: clear the block's bit, or panic if it is clear already. */
    method Bfree(b: nat) returns (panic: bool)
      requires Shape(St()) && b < sb.size
      modifies this`disk, this`logged
      ensures panic <==> !BitAt(old(St()), b)
      ensures panic ==> disk == old(disk) && logged == old(logged)
      ensures !panic ==> disk == UnmarkDisk(old(St()), b) && logged == old(logged) + {BitBlock(sb, b)}
    {
      var bp := disk[BitBlock(sb, b)];
      if !TestBit(bp, b % BPB) {
        return true;
      }
      disk := disk[BitBlock(sb, b) := ClearBit(bp, b % BPB)];
      logged := logged + {BitBlock(sb, b)};
      return false;
    }

    /** The part of bmap that finds a block already there; 0 if there is none. */
    method LookupBlock(i: nat, bn: nat) returns (addr: int)
      requires Own(St(), owner) && i < |inodes| && bn < MAXFILE
      ensures addr == SlotAddr(St(), i, DataSlot(bn)) && 0 <= addr < sb.size
    {
      assert SlotAddr(St(), i, DataSlot(bn)) != 0 ==> SlotAddr(St(), i, DataSlot(bn)) in owner;
      if bn < NDIRECT {
        addr := inodes[i].addrs[bn];
      } else {
        var ind := inodes[i].addrs[NDIRECT];
        assert ind == SlotAddr(St(), i, NDIRECT);
        addr := 0;
        if ind != 0 {
          addr := Word(disk[ind], bn - NDIRECT);
        }
      }
    }

    /** bmap: the disk block of the file's block bn, allocated if missing; 0 if
        the disk is full.  No byte of any file changes. */
    method Bmap(i: nat, bn: nat) returns (addr: nat)
      requires Consistent(St(), owner) && i < |inodes| && bn < MAXFILE
      modifies this`disk, this`inodes, this`logged, this`owner
      ensures Consistent(St(), owner) && SameBytes(old(St()), St())
      ensures OnlyAddrs(old(inodes), inodes, i) && KeepsSlots(old(St()), St())
      ensures addr == SlotAddr(St(), i, DataSlot(bn)) && SlotsBut(old(St()), St(), i, DataSlot(bn))
      ensures addr == 0 ==> AllSet(St(), sb.size)
      ensures SlotAddr(old(St()), i, DataSlot(bn)) != 0 ==>
                disk == old(disk) && inodes == old(inodes) && logged == old(logged) && owner == old(owner)
      ensures LogsOnly(sb, old(disk), disk, old(logged), logged, More(inodes[i].addrs[NDIRECT], {addr}))
      ensures Covered(old(disk), disk, logged) && |inodes| == |old(inodes)|
      ensures addr != 0 && SlotAddr(old(St()), i, DataSlot(bn)) == 0 ==> addr in logged
    {
      hide Consistent, Own, LogsOnly, Covered, SameBytes, OnlyAddrs, KeepsSlots, AllSet;
      ghost var s := St();
      if bn < NDIRECT {
        addr := BmapDirect(i, bn);
        LogsDirect(sb, s.disk, disk, old(logged), logged, inodes[i].addrs[NDIRECT], addr);
        return;
      }
      addr := BmapDirect(i, NDIRECT);
      ghost var t, l := St(), logged;
      assert SlotAddr(t, i, DataSlot(bn)) == SlotAddr(s, i, DataSlot(bn));
      if addr != 0 {
        addr := BmapIndirect(i, bn - NDIRECT);
        TwoSteps(s, t, St(), i, DataSlot(bn));
        LogsTwice(s, t, St(), i, old(logged), l, logged, addr);
      } else {
        LogsDirect(sb, s.disk, disk, old(logged), logged, inodes[i].addrs[NDIRECT], addr);
        assert SlotAddr(s, i, DataSlot(bn)) == 0;
      }
    }

    /** bmap for a direct block. */
    method BmapDirect(i: nat, k: nat) returns (addr: nat)
      requires Consistent(St(), owner) && i < |inodes| && k <= NDIRECT
      modifies this`disk, this`inodes, this`logged, this`owner
      ensures Consistent(St(), owner) && SameBytes(old(St()), St())
      ensures OnlyAddrs(old(inodes), inodes, i) && KeepsSlots(old(St()), St())
      ensures addr == inodes[i].addrs[k] && SlotsBut(old(St()), St(), i, k) && Shape(St())
      ensures addr == 0 ==> AllSet(St(), sb.size)
      ensures addr == 0 || old(inodes)[i].addrs[k] != 0 ==>
                disk == old(disk) && inodes == old(inodes) && logged == old(logged) && owner == old(owner)
      ensures LogsOnly(sb, old(disk), disk, old(logged), logged, {addr} - {0})
      ensures Covered(old(disk), disk, logged) && (addr != 0 && old(inodes)[i].addrs[k] == 0 ==> addr in logged)
    {
      hide Consistent, Own, Allocated, LogsOnly, Covered, SameBytes, SameSlots, KeepsSlots, SlotsBut, AllSet;
      hide OnlyAddrs, BitsAre;
      ghost var s := St();
      Unmoved(s, owner, i, k, logged);
      addr := inodes[i].addrs[k];
      if addr == 0 {
        addr := Balloc();
        if addr == 0 {
          return 0;
        }
        ghost var t := St();
        Usable(s, t, owner, addr, i, k);
        LinkInode(i, k, addr);
        LinkedOn(s, t, St(), i, k);
        LogsPair(sb, s.disk, disk, old(logged), addr);
        CoveredMeta(s.disk, disk, {BitBlock(sb, addr), addr}, old(logged));
        assert {BitBlock(sb, addr), addr} + old(logged) == logged;
      }
    }

    /** ip->addrs[k] = b for a block just allocated. */
    method LinkInode(i: nat, k: nat, b: nat)
      requires Own(St(), owner) && i < |inodes| && k <= NDIRECT && inodes[i].addrs[k] == 0
      requires sb.datastart <= b < sb.size && b !in owner && disk[b] == ZeroBlock()
      requires BitsAre(St(), InUse(St(), owner) + iset{b})
      modifies this`inodes, this`owner
      ensures Consistent(St(), owner) && SameBytes(old(St()), St())
      ensures OnlyAddrs(old(inodes), inodes, i) && KeepsSlots(old(St()), St())
      ensures SlotAddr(St(), i, k) == b == inodes[i].addrs[k] && SlotsBut(old(St()), St(), i, k)
      ensures forall l :: 0 <= l <= NDIRECT && l != k ==> inodes[i].addrs[l] == old(inodes)[i].addrs[l]
    {
      ghost var s, used := St(), InUse(St(), owner) + iset{b};
      LinkDirect(s, owner, i, k, b);
      inodes := inodes[i := inodes[i].(addrs := inodes[i].addrs[k := b])];
      owner := owner[b := Slot(i, k)];
      SameDiskBits(s, St(), used);
      assert InUse(St(), owner) == used;
    }

    /** The second half of bmap: entry e of the inode's indirect block. */
    method BmapIndirect(i: nat, e: nat) returns (addr: nat)
      requires Consistent(St(), owner) && i < |inodes| && e < NINDIRECT && inodes[i].addrs[NDIRECT] != 0
      modifies this`disk, this`logged, this`owner
      ensures Consistent(St(), owner) && SameBytes(old(St()), St()) && KeepsSlots(old(St()), St())
      ensures addr == SlotAddr(St(), i, NDIRECT + 1 + e) && SlotsBut(old(St()), St(), i, NDIRECT + 1 + e)
      ensures addr == 0 ==> AllSet(St(), sb.size)
      ensures SlotAddr(old(St()), i, NDIRECT + 1 + e) != 0 ==>
                disk == old(disk) && logged == old(logged) && owner == old(owner)
      ensures LogsOnly(sb, old(disk), disk, old(logged), logged, More(inodes[i].addrs[NDIRECT], {addr}))
      ensures Covered(old(disk), disk, logged)
      ensures addr != 0 && SlotAddr(old(St()), i, NDIRECT + 1 + e) == 0 ==> addr in logged
    {
      hide Consistent, Own, Allocated, LogsOnly, Covered, SameBytes, SameSlots, KeepsSlots, SlotsBut, AllSet;
      hide BitsAre, SlotAddr;
      hide Word;
      ghost var s := St();
      Unmoved(s, owner, i, NDIRECT + 1 + e, logged);
      EntryAddr(s, owner, i, e);
      var ind := inodes[i].addrs[NDIRECT];
      addr := Word(disk[ind], e);
      if addr == 0 {
        addr := Balloc();
        if addr != 0 {
          ghost var t, l := St(), logged;
          Usable(s, t, owner, addr, i, NDIRECT + 1 + e);
          LinkIndirect(i, e, addr);
          LinkedOn(s, t, St(), i, NDIRECT + 1 + e);
          LogsThree(sb, s.disk, t.disk, disk, old(logged), ind, addr);
        }
      }
    }

    /** a[e] = b in the indirect block, for a block just allocated. */
    method LinkIndirect(i: nat, e: nat, b: nat)
      requires Own(St(), owner) && i < |inodes| && e < NINDIRECT && inodes[i].addrs[NDIRECT] != 0
      requires SlotAddr(St(), i, NDIRECT + 1 + e) == 0
      requires sb.datastart <= b < sb.size && b !in owner && disk[b] == ZeroBlock()
      requires BitsAre(St(), InUse(St(), owner) + iset{b})
      modifies this`disk, this`owner, this`logged
      ensures Consistent(St(), owner) && SameBytes(old(St()), St()) && KeepsSlots(old(St()), St())
      ensures SlotAddr(St(), i, NDIRECT + 1 + e) == b && SlotsBut(old(St()), St(), i, NDIRECT + 1 + e)
      ensures logged == old(logged) + {inodes[i].addrs[NDIRECT]} && Covered(old(disk), disk, {inodes[i].addrs[NDIRECT]})
    {
      ghost var s, used := St(), InUse(St(), owner) + iset{b};
      var ind := inodes[i].addrs[NDIRECT];
      LinkEntry(s, owner, i, e, b);
      assert SlotAddr(s, i, NDIRECT) == ind;
      DataKeepsBits(s, used, ind, SetWord(disk[ind], e, b));
      disk := disk[ind := SetWord(disk[ind], e, b)];
      logged := logged + {ind};
      owner := owner[b := Slot(i, NDIRECT + 1 + e)];
      assert InUse(St(), owner) == used;
    }

    /** iupdate: copy the in-memory inode to its block. */
    method Iupdate(i: nat)
      requires i < |inodes| == |dinodes|
      modifies this`dinodes, this`logged
      ensures dinodes == old(dinodes)[i := inodes[i]]
      ensures logged == old(logged) + {InodeBlock(sb, i)}
    {
      dinodes := dinodes[i := inodes[i]];
      logged := logged + {InodeBlock(sb, i)};
    }

    /** Copy d into the file's block bn, mapped at addr, at offset lo. */
    method CopyIn(i: nat, bn: nat, addr: nat, lo: nat, d: seq<int>)
      requires Consistent(St(), owner) && i < |inodes| && bn < MAXFILE
      requires addr == SlotAddr(St(), i, DataSlot(bn)) != 0 && lo + |d| <= BSIZE
      modifies this`disk
      ensures Consistent(St(), owner) && SameSlots(old(St()), St())
      ensures Covered(old(disk), disk, if d == [] then {} else {addr})
      ensures forall j, p :: 0 <= j < |inodes| && 0 <= p < MAXFILE * BSIZE ==>
                RawByte(St(), j, p) == if j == i && p / BSIZE == bn && lo <= p % BSIZE < lo + |d| then d[p % BSIZE - lo]
                                       else RawByte(old(St()), j, p)
    {
      ghost var s := St();
      var blk := Overlay(disk[addr], lo, d);
      WriteData(s, owner, i, bn, blk);
      DataKeepsBits(s, InUse(s, owner), addr, blk);
      disk := disk[addr := blk];
      assert InUse(St(), owner) == InUse(s, owner);
      forall j, p | 0 <= j < |inodes| && 0 <= p < MAXFILE * BSIZE
        ensures RawByte(St(), j, p) == if j == i && p / BSIZE == bn && lo <= p % BSIZE < lo + |d| then d[p % BSIZE - lo]
                                       else RawByte(s, j, p)
      {
        assert RawByte(St(), j, p) == if j == i && p / BSIZE == bn then blk[p % BSIZE] else RawByte(s, j, p);
      }
    }

    /** One turn of writei's loop, for the bytes d at offset off of a single block:
        map the block and copy; ok if all of d arrived and was logged. */
    method WriteChunk(i: nat, d: seq<int>, avail: nat, off: nat) returns (ok: bool, k: nat, addr: nat)
      requires Consistent(St(), owner) && i < |inodes| && off < MAXFILE * BSIZE
      requires 0 < |d| <= BSIZE - off % BSIZE
      modifies this`disk, this`inodes, this`logged, this`owner
      ensures Consistent(St(), owner) && OnlyAddrs(old(inodes), inodes, i) && KeepsSlots(old(St()), St())
      ensures k <= |d| && Wrote(old(St()), St(), i, off, d, k) && (ok <==> k == |d|)
      ensures addr == SlotAddr(St(), i, DataSlot(off / BSIZE)) && addr < sb.size
      ensures SlotsBut(old(St()), St(), i, DataSlot(off / BSIZE)) && old(logged) <= logged
      ensures if addr != 0 then k == Min(|d|, avail)
              else k == 0 && AllSet(St(), sb.size) && SlotAddr(old(St()), i, DataSlot(off / BSIZE)) == 0
      ensures LogsOnly(sb, old(disk), disk, old(logged), logged, More(inodes[i].addrs[NDIRECT], {addr}))
      ensures Covered(old(disk), disk, if k == 0 then logged else logged + {addr})
      ensures ok ==> addr in logged
      ensures !ok && addr != 0 ==>
                (addr in logged <==> addr in old(logged) || SlotAddr(old(St()), i, DataSlot(off / BSIZE)) == 0)
    {
      hide Wrote, LogsOnly, Consistent, Own, OnlyAddrs, KeepsSlots, SameBytes, SameSlots, AllSet, Covered, SlotAddr;
      hide SlotsBut;
      ghost var s := St();
      OwnedBelow(s, owner, i, off / BSIZE);
      addr := Bmap(i, off / BSIZE);
      ghost var t, l := St(), logged;
      OwnedBelow(t, owner, i, off / BSIZE);
      LogsGrow(sb, s.disk, disk, old(logged), logged, More(inodes[i].addrs[NDIRECT], {addr}));
      if addr == 0 {
        NothingWrote(s, t, i, off, d);
        return false, 0, 0;
      }
      k := Min(|d|, avail);
      CopyIn(i, off / BSIZE, addr, off % BSIZE, d[..k]);
      CopiedIs(s, t, St(), i, off, d, k);
      KeptBoth(s, t, St(), i, DataSlot(off / BSIZE));
      ghost var touched := if k == 0 then {} else {addr};
      CoveredMeta(t.disk, disk, touched, l);
      CoveredMore(s.disk, t.disk, disk, l, touched + l);
      assert touched + l == if k == 0 then l else l + {addr};
      ok := k == |d|;
      LogsAddr(sb, s.disk, t.disk, disk, old(logged), l, inodes[i].addrs[NDIRECT], addr, touched);
      if ok {
        logged := logged + {addr};
        assert logged + {addr} == l + {addr};
      }
    }

    /** writei's loop. */
    method WriteLoop(i: nat, src: seq<int>, avail: nat, start: nat) returns (tot: nat, part: nat, ghost data: set<nat>)
      requires Consistent(St(), owner) && i < |inodes| && start + |src| <= MAXFILE * BSIZE
      modifies this`disk, this`inodes, this`logged, this`owner
      ensures Consistent(St(), owner) && OnlyAddrs(old(inodes), inodes, i) && KeepsSlots(old(St()), St())
      ensures tot + part <= |src| && Wrote(old(St()), St(), i, start, src, tot + part)
      ensures Stops(St(), i, start, src, avail, tot, part)
      ensures tot == 0 || tot == |src| || (start + tot) % BSIZE == 0
      ensures MappedRange(St(), i, start, start + tot)
      ensures LogsOnly(sb, old(disk), disk, old(logged), logged, More(inodes[i].addrs[NDIRECT], data))
      ensures |data| <= Span(start, start + |src|) && Within(old(St()), St(), i, start, start + |src|)
      ensures DataWithin(St(), i, start, start + |src|, data)
      ensures if part == 0 then Covered(old(disk), disk, logged)
              else start + tot < MAXFILE * BSIZE && LogsChanges(old(St()), St(), i, start + tot, part, old(logged), logged)
    {
      hide Wrote, LogsOnly, KeepsSlots, Consistent, OnlyAddrs, MappedRange, More, Span, Chunk, Covered, DataOf, Stops;
      hide LogsChanges, Ahead, SlotsBut, SlotAddr, Within, AllSet, DataSlot, DataWithin;
      LoopStart(St(), i, start, src, owner, logged);
      WithinNone(St(), i, start, start + |src|);
      tot, part, data := 0, 0, {};
      var n := |src|;
      while tot < n
        invariant 0 <= tot <= n && part == 0 && i < |inodes| && Shape(St()) && tot <= avail
        invariant Consistent(St(), owner) && OnlyAddrs(old(inodes), inodes, i) && KeepsSlots(old(St()), St())
        invariant Wrote(old(St()), St(), i, start, src, tot) && Covered(old(disk), disk, logged)
        invariant MappedRange(St(), i, start, start + tot) && DataOf(St(), i, start, tot, data)
        invariant tot == 0 || tot == n || (start + tot) % BSIZE == 0
        invariant LogsOnly(sb, old(disk), disk, old(logged), logged, More(inodes[i].addrs[NDIRECT], data))
        invariant |data| <= Span(start, start + tot) && Within(old(St()), St(), i, start, start + n)
        invariant tot < n ==> Ahead(old(St()), St(), i, (start + tot) / BSIZE)
      {
        var off := start + tot;
        var m := Chunk(n - tot, off);
        ghost var t, l := St(), logged;
        SpanGrows(start, tot, m, n);
        var ok, k, addr := WriteChunk(i, src[tot..tot + m], avail - tot, off);
        WroteMore(old(St()), t, St(), i, start, src, tot, m, k);
        KeepsMore(old(St()), t, St(), i);
        ChunkWithin(old(St()), t, St(), i, start, tot, n);
        LogsMore(old(St()), t, St(), i, old(logged), l, logged, data, addr);
        if !ok {
          part := k;
          LoopEnds(St(), i, start, src, avail, tot, part, m, addr);
          TornLogs(old(St()), t, St(), owner, i, start, tot, part, addr, old(logged), l, logged, data);
          DataEnds(t, St(), i, start, tot, n, data, addr);
          data := data + {addr};
          MappedKept(t, St(), i, start, start + tot);
          return;
        }
        CoveredTurn(old(St()), t, St(), l, logged, addr);
        AheadMore(old(St()), t, St(), i, off / BSIZE);
        if tot + m < n { NextBlock(start, tot, m); }
        DataMore(t, St(), i, start, tot, m, data, addr);
        data := data + {addr};
        MappedMore(t, St(), i, start, tot, m);
        tot := tot + m;
      }
      LoopDone(St(), i, start, src, avail);
      DataIsWithin(St(), i, start, tot, data);
    }

    /** writei.  `avail` bytes of the source can be read before a fault, so a copy
        that crosses that point fails after moving the bytes before it.  The
        result says how many bytes were written, `part` how many more the failed
        copy left behind. */
    method Writei(i: nat, src: seq<int>, avail: nat, start: nat) returns (r: int, part: nat)
      requires FsOk(St(), owner) && i < |inodes| == |dinodes|
      requires |src| < U32 && start < U32
      modifies this`disk, this`inodes, this`dinodes, this`logged, this`owner
      ensures FsOk(St(), owner) && |inodes| == |old(inodes)|
      ensures WriteDone(old(St()), St(), i, start, src, avail, r, part)
      ensures if r == -1 then dinodes == old(dinodes) && logged == old(logged)
              else dinodes == old(dinodes)[i := inodes[i]] && InodeBlock(sb, i) in logged
      ensures r != -1 && part == 0 ==> Covered(old(disk), disk, logged)
      ensures r != -1 && part > 0 ==> LogsChanges(old(St()), St(), i, start + r, part, old(logged), logged)
      ensures r != -1 ==> Footprint(St(), i, start, start + |src|, old(disk), old(logged), logged)
      ensures sb.size < BPB ==> |logged - old(logged)| <= 3 + Span(start, start + |src|)
    {
      hide DataWithin, Footprint, LogsOnly, Wrote, KeepsSlots, MappedRange, AllSet, Add32, Covered, LogsChanges, Stops;
      assert Mapped(St(), i);
      var n := |src|;
      Add32Wraps(start, n);
      if start > inodes[i].size || Add32(start, n) < start {
        return -1, 0;
      }
      if Add32(start, n) > MAXFILE * BSIZE {
        return -1, 0;
      }
      ghost var s := St();
      ghost var data;
      r, part, data := WriteLoop(i, src, avail, start);
      ghost var t, l := St(), logged;
      if start + r > inodes[i].size {
        inodes := inodes[i := inodes[i].(size := start + r)];
      }
      Grown(s, t, St(), i, start, src, avail, r, part, owner);
      FootprintIs(s, t, St(), i, start, start + n, old(logged), l, data);
      LoggedCount(sb, s.disk, disk, old(logged), logged, inodes[i].addrs[NDIRECT], data, InodeBlock(sb, i));
      Iupdate(i);
      if part == 0 {
        CoveredMeta(s.disk, disk, l, {InodeBlock(sb, i)});
      } else {
        LogsMeta(s, t, St(), owner, i, start + r, part, old(logged), l);
      }
    }

    /** One turn of readi's loop: m more bytes, from one block. */
    method ReadChunk(i: nat, start: nat, off: nat, m: nat, got: seq<int>) returns (out: seq<int>)
      requires FsOk(St(), owner) && i < |inodes| && Mapped(St(), i) && start <= off
      requires off + m <= inodes[i].size && 0 < m <= BSIZE - off % BSIZE && IsSlice(St(), i, start, off, got)
      ensures IsSlice(St(), i, start, off + m, out)
    {
      BlockSlice(St(), owner, i, off, m);
      JoinSlices(Content(St(), i), start, off, off + m);
      assert SlotAddr(St(), i, DataSlot(off / BSIZE)) != 0;
      hide Content, FsOk, Mapped;
      var addr := LookupBlock(i, off / BSIZE);
      if addr == 0 {
        assert false;   // bmap would allocate: not below the file's size
      }
      out := got + disk[addr][off % BSIZE..off % BSIZE + m];
    }

    /** readi: the bytes from `start`, at most n and not beyond the end of file.
        `avail` bytes of the destination can be written before a fault.  Although
        it goes through bmap, a read never allocates: it changes nothing. */
    method Readi(i: nat, avail: nat, start: nat, n0: nat) returns (r: int, out: seq<int>)
      requires FsOk(St(), owner) && i < |inodes| && start < U32 && n0 < U32
      ensures Mapped(St(), i)
      ensures start > inodes[i].size || start + n0 >= U32 ==> r == 0 && out == []
      ensures start <= inodes[i].size && start + n0 < U32 ==>
                var want := Min(n0, inodes[i].size - start);
                if avail >= want then r == want && out == Content(St(), i)[start..start + want]
                else r == -1 && |out| <= want && out == Content(St(), i)[start..start + |out|]
    {
      assert Mapped(St(), i);
      Add32Wraps(start, n0);
      hide Add32, FsOk, Content;
      if start > inodes[i].size || Add32(start, n0) < start {
        return 0, [];
      }
      var n := n0;
      if Add32(start, n) > inodes[i].size {
        n := inodes[i].size - start;
      }
      var tot;
      tot, out := ReadLoop(i, avail, start, n);
      r := if tot < n then -1 else tot;
    }

    /** readi's loop: stops early only where the destination cannot be written. */
    method ReadLoop(i: nat, avail: nat, start: nat, n: nat) returns (tot: nat, out: seq<int>)
      requires FsOk(St(), owner) && i < |inodes| && Mapped(St(), i) && start + n <= inodes[i].size
      ensures tot <= n && IsSlice(St(), i, start, start + tot, out)
      ensures if tot == n then n <= avail else avail < n
    {
      tot, out := 0, [];
      assert IsSlice(St(), i, start, start, []);
      hide IsSlice, FsOk, Mapped, Chunk, Shape;
      var failed := false;
      while tot < n && !failed
        invariant 0 <= tot <= n && IsSlice(St(), i, start, start + tot, out)
        invariant if failed then avail < n && tot < n else tot <= avail
        decreases !failed, n - tot
      {
        var m := Chunk(n - tot, start + tot);
        var more := ReadChunk(i, start, start + tot, m, out);
        if tot + m > avail {
          failed := true;
        } else {
          out, tot := more, tot + m;
        }
      }
    }

    /** bfree of a block that is in use: no panic, and no file changes. */
    method Release(b: nat, ghost used: iset<int>) returns (panic: bool)
      requires Own(St(), owner) && BitsAre(St(), used) && b in used && sb.datastart <= b < sb.size
      modifies this`disk, this`logged
      ensures !panic
      ensures Own(St(), owner) && SameSlots(old(St()), St()) && SameBytes(old(St()), St())
      ensures BitsAre(St(), used - iset{b}) && Logs(sb, old(disk), disk, old(logged), logged)
    {
      FreeOk(St(), owner, used, b);
      BitBlockBound(sb, b);
      panic := Bfree(b);
    }

    /** itrunc's turn for direct block k. */
    method FreeDirect(i: nat, k: nat) returns (panic: bool)
      requires Consistent(St(), owner) && i < |inodes| && k < NDIRECT
      modifies this`disk, this`inodes, this`logged, this`owner
      ensures !panic && Consistent(St(), owner) && |inodes| == |old(inodes)|
      ensures inodes == old(inodes)[i := old(inodes)[i].(addrs := old(inodes)[i].addrs[k := 0])]
      ensures OthersKept(old(St()), St(), i) && Logs(sb, old(disk), disk, old(logged), logged)
    {
      var a := inodes[i].addrs[k];
      panic := false;
      if a != 0 {
        assert SlotAddr(St(), i, k) == a;
        ghost var used := InUse(St(), owner);
        panic := Release(a, used);
        ghost var t := St();
        UnlinkDirect(t, owner, i, k);
        inodes := inodes[i := inodes[i].(addrs := inodes[i].addrs[k := 0])];
        owner := owner - {a};
        assert InUse(St(), owner) == used - iset{a};
        SameDiskBits(t, St(), used - iset{a});
        UnlinkedOthers(old(St()), t, St(), old(owner), i);
      } else {
        assert inodes[i].addrs[k := 0] == inodes[i].addrs;
        OthersSelf(St(), i);
      }
    }

    /** itrunc's loop over the entries of the indirect block: every block they
        name is freed exactly once; the entries themselves stay. */
    method FreeEntries(i: nat) returns (panic: bool)
      requires Consistent(St(), owner) && i < |inodes| && inodes[i].addrs[NDIRECT] != 0
      modifies this`disk, this`logged
      ensures !panic && Own(St(), owner) && SameSlots(old(St()), St()) && SameBytes(old(St()), St())
      ensures BitsAre(St(), InUse(St(), owner) - Entries(owner, i, NINDIRECT))
      ensures Logs(sb, old(disk), disk, old(logged), logged)
    {
      ghost var s := St();
      panic := false;
      var ind := inodes[i].addrs[NDIRECT];
      assert SlotAddr(s, i, NDIRECT) == ind;
      ghost var used := InUse(s, owner);
      assert used - Entries(owner, i, 0) == used;
      var j := 0;
      while j < NINDIRECT && !panic
        invariant 0 <= j <= NINDIRECT && !panic
        invariant Own(St(), owner) && SameSlots(s, St()) && SameBytes(s, St())
        invariant BitsAre(St(), used - Entries(owner, i, j))
        invariant Logs(sb, s.disk, disk, old(logged), logged)
      {
        ghost var t, l := St(), logged;
        assert SlotAddr(St(), i, NDIRECT + 1 + j) == Word(disk[ind], j);
        var a := Word(disk[ind], j);
        if a != 0 {
          panic := Release(a, used - Entries(owner, i, j));
          LogsOn(sb, s.disk, t.disk, disk, old(logged), l, logged);
        }
        EntriesNext(St(), owner, i, j, used, a);
        j := j + 1;
      }
    }

    /** itrunc: the file gives up all its blocks and its size; nothing is freed
        twice, and no other file changes. */
    method Itrunc(i: nat) returns (panic: bool)
      requires FsOk(St(), owner) && i < |inodes| == |dinodes|
      modifies this`disk, this`inodes, this`dinodes, this`logged, this`owner
      ensures !panic && FsOk(St(), owner) && |inodes| == |old(inodes)|
      ensures inodes == old(inodes)[i := old(inodes)[i].(size := 0, addrs := Zeros(NDIRECT + 1))]
      ensures forall k :: 0 <= k < SLOTS ==> SlotAddr(St(), i, k) == 0
      ensures OthersKept(old(St()), St(), i)
      ensures dinodes == old(dinodes)[i := inodes[i]]
      ensures Covered(old(disk), disk, logged) && InodeBlock(sb, i) in logged
      ensures LogsOnly(sb, old(disk), disk, old(logged), logged, {InodeBlock(sb, i)})
    {
      hide OthersKept, Consistent, Own, SlotAddr, Logs;
      ghost var s := St();
      FirstSet(s, owner);
      OthersSelf(s, i);
      LogsNone(sb, disk, logged);
      var k := 0;
      panic := false;
      while k < NDIRECT && !panic
        invariant 0 <= k <= NDIRECT && !panic && Consistent(St(), owner) && |inodes| == |old(inodes)|
        invariant inodes == old(inodes)[i := old(inodes)[i].(addrs := inodes[i].addrs)]
        invariant |inodes[i].addrs| == NDIRECT + 1 && dinodes == old(dinodes)
        invariant forall l :: 0 <= l < k ==> inodes[i].addrs[l] == 0
        invariant OthersKept(s, St(), i) && Logs(sb, s.disk, disk, old(logged), logged)
      {
        ghost var t, l := St(), logged;
        panic := FreeDirect(i, k);
        LogsOn(sb, s.disk, t.disk, disk, old(logged), l, logged);
        OthersTrans(s, t, St(), i);
        k := k + 1;
      }
      if inodes[i].addrs[NDIRECT] != 0 {
        ghost var t, l := St(), logged;
        panic := FreeIndirect(i);
        LogsOn(sb, s.disk, t.disk, disk, old(logged), l, logged);
        OthersTrans(s, t, St(), i);
      }
      ghost var u := St();
      inodes := inodes[i := inodes[i].(size := 0)];
      assert inodes[i].addrs == Zeros(NDIRECT + 1);
      Emptied(s, u, St(), i, owner);
      LogsInode(sb, s.disk, disk, old(logged), logged, InodeBlock(sb, i));
      Iupdate(i);
    }

    /** itrunc's second part: the indirect block and everything it names. */
    method FreeIndirect(i: nat) returns (panic: bool)
      requires Consistent(St(), owner) && i < |inodes| && inodes[i].addrs[NDIRECT] != 0
      modifies this`disk, this`inodes, this`logged, this`owner
      ensures !panic && Consistent(St(), owner) && |inodes| == |old(inodes)|
      ensures inodes == old(inodes)[i := old(inodes)[i].(addrs := old(inodes)[i].addrs[NDIRECT := 0])]
      ensures OthersKept(old(St()), St(), i) && Logs(sb, old(disk), disk, old(logged), logged)
    {
      hide Consistent, Own, BitsAre, SameSlots, SameBytes, OthersKept, Entries, Holdings, InUse, Logs;
      ghost var s := St();
      IndirectUsed(s, owner, i);
      var ind := inodes[i].addrs[NDIRECT];
      ghost var used := InUse(s, owner) - Entries(owner, i, NINDIRECT);
      panic := FreeEntries(i);
      ghost var r, l := St(), logged;
      SameUse(s, r, owner);
      panic := Release(ind, used);
      LogsOn(sb, s.disk, r.disk, disk, old(logged), l, logged);
      ghost var t := St();
      SlotsTrans(s, r, t);
      IndirectGone(s, t, owner, i, used);
      inodes := inodes[i := inodes[i].(addrs := inodes[i].addrs[NDIRECT := 0])];
      owner := owner - Holdings(owner, i, NDIRECT);
    }
  }

  // ---------------------------------------------------------------- steps of itrunc

  /** Every inode but i keeps its fields, its slots and its bytes. */
  ghost predicate OthersKept(s: Fs, t: Fs, i: nat) {
    && Shape(s) && Shape(t) && t.sb == s.sb
    && forall j :: 0 <= j < |s.inodes| && j != i ==> SameFile(s, t, j)
  }

  ghost predicate SameFile(s: Fs, t: Fs, j: nat)
    requires Shape(s) && Shape(t) && t.sb == s.sb && j < |s.inodes|
  {
    && t.inodes[j] == s.inodes[j]
    && (forall k :: 0 <= k < SLOTS ==> SlotAddr(t, j, k) == SlotAddr(s, j, k))
    && (forall p :: 0 <= p < MAXFILE * BSIZE ==> RawByte(t, j, p) == RawByte(s, j, p))
  }

  /** Every block that changed was logged, and only bitmap blocks changed or were
      newly logged. */
  ghost predicate Logs(sb: Super, d0: seq<Block>, d1: seq<Block>, before: set<nat>, after: set<nat>) {
    LogsOnly(sb, d0, d1, before, after, {}) && Covered(d0, d1, after)
  }

  lemma LogsNone(sb: Super, d: seq<Block>, logged: set<nat>)
    ensures Logs(sb, d, d, logged, logged)
  {}

  lemma LogsOn(sb: Super, d0: seq<Block>, d1: seq<Block>, d2: seq<Block>, l0: set<nat>, l1: set<nat>, l2: set<nat>)
    requires Logs(sb, d0, d1, l0, l1) && Logs(sb, d1, d2, l1, l2)
    ensures Logs(sb, d0, d2, l0, l2)
  {}

  lemma LogsInode(sb: Super, d0: seq<Block>, d1: seq<Block>, l0: set<nat>, l1: set<nat>, iblock: nat)
    requires Logs(sb, d0, d1, l0, l1)
    ensures LogsOnly(sb, d0, d1, l0, l1 + {iblock}, {iblock}) && Covered(d0, d1, l1 + {iblock})
  {}

  lemma OthersSelf(s: Fs, i: nat)
    requires Shape(s)
    ensures OthersKept(s, s, i)
  {}

  lemma OthersTrans(s: Fs, t: Fs, u: Fs, i: nat)
    requires OthersKept(s, t, i) && OthersKept(t, u, i)
    ensures OthersKept(s, u, i)
  {
    forall j | 0 <= j < |s.inodes| && j != i ensures SameFile(s, u, j) {
      assert SameFile(s, t, j) && SameFile(t, u, j);
    }
  }

  lemma FreeOk(s: Fs, owner: Owner, used: iset<int>, b: nat)
    requires Own(s, owner) && BitsAre(s, used) && b in used && s.sb.datastart <= b < s.sb.size
    ensures BitAt(s, b)
    ensures var t := s.(disk := UnmarkDisk(s, b));
            Own(t, owner) && SameSlots(s, t) && SameBytes(s, t) && BitsAre(t, used - iset{b})
  {
    UnmarkBits(s, used, b);
    BitBlockBound(s.sb, b);
    WriteUnowned(s, owner, BitBlock(s.sb, b), ClearBit(s.disk[BitBlock(s.sb, b)], b % BPB));
  }

  /** The blocks named by the first j entries of inode i's indirect block. */
  ghost function Entries(owner: Owner, i: nat, j: nat): iset<int> {
    iset a | a in owner && owner[a].i == i && NDIRECT < owner[a].k <= NDIRECT + j
  }

  lemma EntriesNext(s: Fs, owner: Owner, i: nat, j: nat, used: iset<int>, a: int)
    requires Own(s, owner) && i < |s.inodes| && j < NINDIRECT && a == SlotAddr(s, i, NDIRECT + 1 + j)
    ensures a != 0 ==> used - Entries(owner, i, j + 1) == used - Entries(owner, i, j) - iset{a}
    ensures a == 0 ==> used - Entries(owner, i, j + 1) == used - Entries(owner, i, j)
    ensures a != 0 ==> a in owner && a !in Entries(owner, i, j)
  {
    forall x | x in owner && owner[x] == Slot(i, NDIRECT + 1 + j) ensures x == a {
      assert SlotAddr(s, owner[x].i, owner[x].k) == x;
    }
    if a != 0 {
      assert Entries(owner, i, j + 1) == Entries(owner, i, j) + iset{a};
    } else {
      assert Entries(owner, i, j + 1) == Entries(owner, i, j);
    }
  }

  /** Emptying slots of inode i alone leaves the other inodes' files alone. */
  lemma UnlinkedOthers(s: Fs, t: Fs, u: Fs, owner: Owner, i: nat)
    requires SameSlots(s, t) && SameBytes(s, t) && t.inodes == s.inodes
    requires Shape(u) && u.sb == s.sb && u.disk == t.disk
    requires forall j :: 0 <= j < |s.inodes| && j != i ==> u.inodes[j] == s.inodes[j]
    ensures OthersKept(s, u, i)
  {
    forall j | 0 <= j < |s.inodes| && j != i ensures SameFile(s, u, j) {
      forall k | 0 <= k < SLOTS ensures SlotAddr(u, j, k) == SlotAddr(s, j, k) {
        assert SlotAddr(t, j, k) == SlotAddr(s, j, k);
      }
      forall p | 0 <= p < MAXFILE * BSIZE ensures RawByte(u, j, p) == RawByte(s, j, p) {
        assert RawByte(t, j, p) == RawByte(s, j, p);
        assert SlotAddr(u, j, DataSlot(p / BSIZE)) == SlotAddr(t, j, DataSlot(p / BSIZE));
      }
    }
  }

  lemma IndirectUsed(s: Fs, owner: Owner, i: nat)
    requires Consistent(s, owner) && i < |s.inodes| && s.inodes[i].addrs[NDIRECT] != 0
    ensures Shape(s)
    ensures var ind := s.inodes[i].addrs[NDIRECT];
            && s.sb.datastart <= ind < s.sb.size && ind in InUse(s, owner) - Entries(owner, i, NINDIRECT)
  {
    assert SlotAddr(s, i, NDIRECT) == s.inodes[i].addrs[NDIRECT];
  }

  lemma SameUse(s: Fs, t: Fs, owner: Owner)
    requires t.sb == s.sb
    ensures InUse(t, owner) == InUse(s, owner)
  {}

  lemma SlotsTrans(s: Fs, t: Fs, u: Fs)
    requires SameSlots(s, t) && SameSlots(t, u) && SameBytes(s, t) && SameBytes(t, u) && |s.inodes| == |t.inodes|
    ensures SameSlots(s, u) && SameBytes(s, u)
  {
    hide SlotAddr, RawByte;
  }

  /** With the indirect block and its entries freed, dropping the pointer to it
      leaves a sound file system. */
  lemma IndirectGone(s: Fs, t: Fs, owner: Owner, i: nat, used: iset<int>)
    requires Consistent(s, owner) && Own(t, owner) && SameSlots(s, t) && SameBytes(s, t) && t.inodes == s.inodes
    requires i < |s.inodes| && s.inodes[i].addrs[NDIRECT] != 0 && used == InUse(s, owner) - Entries(owner, i, NINDIRECT)
    requires BitsAre(t, used - iset{s.inodes[i].addrs[NDIRECT]})
    ensures var u := t.(inodes := t.inodes[i := t.inodes[i].(addrs := t.inodes[i].addrs[NDIRECT := 0])]);
            Consistent(u, owner - Holdings(owner, i, NDIRECT)) && OthersKept(s, u, i)
  {
    var ind := s.inodes[i].addrs[NDIRECT];
    var u := t.(inodes := t.inodes[i := t.inodes[i].(addrs := t.inodes[i].addrs[NDIRECT := 0])]);
    UnlinkIndirect(t, owner, i);
    HeldThere(t, owner, i);
    hide Own, SlotAddr, RawByte;
    assert InUse(u, owner - Holdings(owner, i, NDIRECT)) == used - iset{ind};
    SameDiskBits(t, u, used - iset{ind});
    UnlinkedOthers(s, t, u, owner, i);
  }

  lemma HeldThere(s: Fs, owner: Owner, i: nat)
    requires Own(s, owner) && i < |s.inodes| && s.inodes[i].addrs[NDIRECT] != 0
    ensures var ind := s.inodes[i].addrs[NDIRECT]; ind in owner && owner[ind] == Slot(i, NDIRECT)
    ensures forall a :: a in owner && owner[a] == Slot(i, NDIRECT) ==> a == s.inodes[i].addrs[NDIRECT]
    ensures forall a :: a in owner ==> a >= s.sb.datastart && owner[a].k < SLOTS
  {
    assert SlotAddr(s, i, NDIRECT) == s.inodes[i].addrs[NDIRECT];
  }

  /** With all addresses zero, dropping the size makes an empty, sound file. */
  lemma Emptied(s: Fs, t: Fs, u: Fs, i: nat, owner: Owner)
    requires Shape(s) && (forall j :: 0 <= j < |s.inodes| ==> Mapped(s, j)) && i < |s.inodes|
    requires Consistent(t, owner) && OthersKept(s, t, i) && t.inodes[i].addrs == Zeros(NDIRECT + 1)
    requires u == t.(inodes := t.inodes[i := t.inodes[i].(size := 0)])
    ensures FsOk(u, owner) && OthersKept(s, u, i)
    ensures forall k :: 0 <= k < SLOTS ==> SlotAddr(u, i, k) == 0
  {
    SameAddrs(t, u, owner);
    forall j | 0 <= j < |s.inodes| && j != i ensures SameFile(s, u, j) {
      assert SameFile(s, t, j);
    }
    forall j | 0 <= j < |u.inodes| ensures Mapped(u, j) {
      if j != i {
        assert SameFile(s, u, j) && Mapped(s, j);
      }
    }
  }

  lemma JoinSlices(c: seq<int>, lo: nat, mid: nat, hi: nat)
    requires lo <= mid <= hi <= |c|
    ensures c[lo..mid] + c[mid..hi] == c[lo..hi]
  {}

  /** A stretch of a mapped block is a stretch of the file. */
  lemma BlockSlice(s: Fs, owner: Owner, i: nat, off: nat, m: nat)
    requires Own(s, owner) && i < |s.inodes| && s.inodes[i].size <= MAXFILE * BSIZE
    requires off + m <= s.inodes[i].size && 0 < m <= BSIZE - off % BSIZE && Mapped(s, i)
    ensures SlotAddr(s, i, DataSlot(off / BSIZE)) != 0
    ensures var a := SlotAddr(s, i, DataSlot(off / BSIZE));
            0 < a < |s.disk| && s.disk[a][off % BSIZE..off % BSIZE + m] == Content(s, i)[off..off + m]
  {
    var a := SlotAddr(s, i, DataSlot(off / BSIZE));
    var d, c := s.disk[a][off % BSIZE..off % BSIZE + m], Content(s, i)[off..off + m];
    forall q | 0 <= q < m ensures d[q] == c[q] {
      BlockByte(s, owner, i, off, m, q);
      ContentAt(s, i, off + q);
    }
  }

  lemma BlockByte(s: Fs, owner: Owner, i: nat, off: nat, m: nat, q: nat)
    requires Own(s, owner) && i < |s.inodes| && off + m <= MAXFILE * BSIZE && q < m <= BSIZE - off % BSIZE
    requires SlotAddr(s, i, DataSlot(off / BSIZE)) != 0
    ensures var a := SlotAddr(s, i, DataSlot(off / BSIZE));
            0 < a < |s.disk| && RawByte(s, i, off + q) == s.disk[a][off % BSIZE + q]
  {
    SameBlock(off, m, off + q);
  }

  // ------------------------------------------------------------ what a write means

  /** A complete write replaces exactly the bytes it names, extending the file if
      needed, and leaves every other file alone. */
  lemma WriteMeaning(s: Fs, t: Fs, i: nat, off: nat, d: seq<int>)
    requires Shape(s) && Shape(t) && i < |s.inodes| == |t.inodes|
    requires forall j :: 0 <= j < |s.inodes| ==> s.inodes[j].size <= MAXFILE * BSIZE
    requires off <= s.inodes[i].size && off + |d| <= MAXFILE * BSIZE && Wrote(s, t, i, off, d, |d|)
    requires t.inodes[i].size == Max(s.inodes[i].size, off + |d|)
    requires forall j :: 0 <= j < |s.inodes| && j != i ==> t.inodes[j] == s.inodes[j]
    ensures Content(t, i) == Splice(Content(s, i), off, d)
    ensures forall j :: 0 <= j < |s.inodes| && j != i ==> Content(t, j) == Content(s, j)
  {
    hide RawByte, SlotAddr, Content;
    forall j | 0 <= j < |s.inodes| && j != i ensures Content(t, j) == Content(s, j) {
      forall p | 0 <= p < s.inodes[j].size ensures Content(t, j)[p] == Content(s, j)[p] {
        assert RawByte(t, j, p) == RawByte(s, j, p);
        ContentAt(s, j, p);
        ContentAt(t, j, p);
      }
    }
    var c := Splice(Content(s, i), off, d);
    forall p | 0 <= p < t.inodes[i].size ensures Content(t, i)[p] == c[p] {
      assert RawByte(t, i, p) == if off <= p < off + |d| then d[p - off] else RawByte(s, i, p);
      ContentAt(t, i, p);
      if p < s.inodes[i].size {
        ContentAt(s, i, p);
      }
    }
  }

  /** With the range mapped, writei stops where the source can no longer be read,
      and leaves bytes in a block it does not log exactly when that point is
      inside the source and inside a block. */
  lemma TornExactly(s: Fs, t: Fs, i: nat, start: nat, src: seq<int>, avail: nat, r: int, part: nat)
    requires WriteDone(s, t, i, start, src, avail, r, part) && r != -1 && MappedRange(s, i, start, start + |src|)
    ensures r + part == Min(avail, |src|)
    ensures part > 0 <==> 0 < avail < |src| && (start + avail) % BSIZE != 0
  {
    hide Wrote, KeepsSlots, MappedRange, AllSet, Within;
    MappedKept(s, t, i, start, start + |src|);
  }

  /** The bytes from lo to hi have all the blocks they need. */
  lemma NothingLacks(t: Fs, i: nat, lo: nat, hi: nat)
    requires Shape(t) && i < |t.inodes| && MappedRange(t, i, lo, hi) && hi <= MAXFILE * BSIZE
    ensures Lack(t, i, lo, hi) == {}
  {
    forall k: nat | k < SLOTS && Wants(k, lo, hi) ensures SlotAddr(t, i, k) != 0 {
      if k == NDIRECT {
        var bn := (hi - 1) / BSIZE;
        assert SlotAddr(t, i, DataSlot(bn)) != 0;
      } else {
        var bn := if k < NDIRECT then k else k - 1;
        assert SlotAddr(t, i, DataSlot(bn)) != 0;
      }
    }
  }

  lemma SomethingLacks(t: Fs, i: nat, lo: nat, hi: nat) returns (k: nat)
    requires Shape(t) && i < |t.inodes| && !MappedRange(t, i, lo, hi)
    ensures k in Lack(t, i, lo, hi)
  {
    var bn: nat :| lo < hi && lo / BSIZE <= bn < MAXFILE && bn * BSIZE < hi && SlotAddr(t, i, DataSlot(bn)) == 0;
    WantsBlock(bn, lo, hi);
    k := DataSlot(bn);
  }

  lemma NoneFree(t: Fs)
    requires AllSet(t, t.sb.size)
    ensures FreeBlocks(t) == {}
  {
    hide BitAt;
  }

  /** A full disk leaves something lacking exactly when there were too few blocks. */
  lemma BlocksDecide(s: Fs, t: Fs, o: Owner, o': Owner, i: nat, lo: nat, hi: nat)
    requires Consistent(s, o) && Consistent(t, o') && KeepsSlots(s, t) && Within(s, t, i, lo, hi) && i < |s.inodes|
    requires hi <= MAXFILE * BSIZE && (MappedRange(t, i, lo, hi) || AllSet(t, t.sb.size))
    ensures MappedRange(t, i, lo, hi) <==> |FreeBlocks(s)| >= |Lack(s, i, lo, hi)|
  {
    hide KeepsSlots, AllSet, Lack, FreeBlocks, BitsAre, Own, SlotAddr;
    if MappedRange(t, i, lo, hi) {
      NothingLacks(t, i, lo, hi);
      Enough(s, t, o, o', i, lo, hi);
    } else {
      var k := SomethingLacks(t, i, lo, hi);
      NoneFree(t);
      TooFew(s, t, o, o', i, lo, hi, k);
    }
  }

  lemma SizeMapped(t: Fs, owner: Owner, i: nat, lo: nat, hi: nat)
    requires FsOk(t, owner) && i < |t.inodes| && hi <= t.inodes[i].size
    ensures MappedRange(t, i, lo, hi)
  {
    assert Mapped(t, i);
  }

  /** writei completes exactly when the source can be read and the free blocks cover
      the data blocks that are missing and a missing indirect block. */
  lemma WriteExactly(s: Fs, t: Fs, o: Owner, o': Owner, i: nat, start: nat, src: seq<int>, avail: nat, r: int,
                     part: nat)
    requires FsOk(s, o) && FsOk(t, o') && WriteDone(s, t, i, start, src, avail, r, part) && r != -1
    ensures r == |src| <==> avail >= |src| && |FreeBlocks(s)| >= |Lack(s, i, start, start + |src|)|
  {
    hide Wrote, KeepsSlots, MappedRange, AllSet, Within, Consistent, Lack, FreeBlocks;
    if r == |src| {
      SizeMapped(t, o', i, start, start + r);
    }
    if avail >= |src| {
      BlocksDecide(s, t, o, o', i, start, start + |src|);
    }
  }

  /** Two bytes written over a file that has them, of which only the first can be
      read: none is reported as written, the first is in the file's block all the
      same, and the block is not logged. */
  method TornByte(fs: FileSystem, i: nat, x: int) returns (r: int, part: nat)
    requires FsOk(fs.St(), fs.owner) && i < |fs.inodes| == |fs.dinodes| && fs.inodes[i].size >= 2 && fs.logged == {}
    modifies fs`disk, fs`inodes, fs`dinodes, fs`logged, fs`owner
    ensures r == 0 && part == 1 && Shape(fs.St()) && i < |fs.inodes|
    ensures RawByte(fs.St(), i, 0) == x && Torn(fs.St(), i, 0) !in fs.logged
  {
    hide FsOk, KeepsSlots, Within, MappedRange, Stops, RawByte;
    TwoMapped(fs.St(), fs.owner, i);
    ghost var s := fs.St();
    r, part := fs.Writei(i, [x, x], 1, 0);
    TornExactly(s, fs.St(), i, 0, [x, x], 1, r, part);
    assert RawByte(fs.St(), i, 0) == [x, x][0];
  }

  lemma TwoMapped(s: Fs, owner: Owner, i: nat)
    requires FsOk(s, owner) && i < |s.inodes| && s.inodes[i].size >= 2
    ensures Shape(s) && MappedRange(s, i, 0, 2) && SlotAddr(s, i, DataSlot(0)) != 0 && s.inodes[i].size <= MAXFILE * BSIZE
  {
    assert Mapped(s, i);
    assert 0 * BSIZE < s.inodes[i].size;
  }

  // ------------------------------------------------------- steps of the write loop

  lemma OwnedBelow(s: Fs, owner: Owner, i: nat, bn: nat)
    requires Consistent(s, owner) && i < |s.inodes| && bn < MAXFILE
    ensures Own(s, owner) && Shape(s)
    ensures 0 <= SlotAddr(s, i, DataSlot(bn)) < s.sb.size
  {}

  lemma NothingWrote(s: Fs, t: Fs, i: nat, off: nat, d: seq<int>)
    requires SameBytes(s, t) && |s.inodes| == |t.inodes|
    ensures Wrote(s, t, i, off, d, 0)
  {
    hide RawByte;
  }

  lemma Unmoved(s: Fs, owner: Owner, i: nat, k: nat, logged: set<nat>)
    requires Consistent(s, owner) && i < |s.inodes|
    ensures Shape(s) && SameBytes(s, s) && KeepsSlots(s, s) && SlotsBut(s, s, i, k) && OnlyAddrs(s.inodes, s.inodes, i)
    ensures Covered(s.disk, s.disk, logged) && forall more :: LogsOnly(s.sb, s.disk, s.disk, logged, logged, more)
  {}

  lemma EntryAddr(s: Fs, owner: Owner, i: nat, e: nat)
    requires Consistent(s, owner) && i < |s.inodes| && e < NINDIRECT && s.inodes[i].addrs[NDIRECT] != 0
    ensures Shape(s) && s.inodes[i].addrs[NDIRECT] < |s.disk|
    ensures SlotAddr(s, i, NDIRECT + 1 + e) == Word(s.disk[s.inodes[i].addrs[NDIRECT]], e) >= 0
  {
    assert SlotAddr(s, i, NDIRECT) == s.inodes[i].addrs[NDIRECT];
    assert SlotAddr(s, i, NDIRECT + 1 + e) != 0 ==> SlotAddr(s, i, NDIRECT + 1 + e) in owner;
  }

  /** A block just allocated can be linked into an empty slot. */
  lemma Usable(s: Fs, t: Fs, owner: Owner, b: nat, i: nat, k: nat)
    requires Allocated(s, t, owner, b) && i < |s.inodes| && k < SLOTS
    ensures Shape(t) && Own(t, owner) && t.inodes == s.inodes && SlotAddr(t, i, k) == SlotAddr(s, i, k)
    ensures t.sb.datastart <= b < t.sb.size && b !in owner && t.disk[b] == ZeroBlock() && b > 0
    ensures BitsAre(t, InUse(t, owner) + iset{b}) && SameSlots(s, t) && SameBytes(s, t)
  {
    hide Own, BitsAre, SlotAddr, SameBytes, AllSet;
    assert InUse(t, owner) == InUse(s, owner);
  }

  lemma LinkedOn(s: Fs, t: Fs, u: Fs, i: nat, k: nat)
    requires SameSlots(s, t) && SameBytes(s, t) && |s.inodes| == |t.inodes| == |u.inodes|
    requires KeepsSlots(t, u) && SameBytes(t, u) && SlotsBut(t, u, i, k)
    ensures KeepsSlots(s, u) && SameBytes(s, u) && SlotsBut(s, u, i, k)
  {
    hide SlotAddr, RawByte;
  }

  lemma LogsPair(sb: Super, d0: seq<Block>, d1: seq<Block>, logged: set<nat>, b: nat)
    requires sb.Ok() && b < sb.size && b != 0 && Covered(d0, d1, {BitBlock(sb, b), b})
    ensures LogsOnly(sb, d0, d1, logged, logged + {BitBlock(sb, b), b}, {b} - {0})
  {}

  lemma LogsThree(sb: Super, d0: seq<Block>, d1: seq<Block>, d2: seq<Block>, logged: set<nat>, ind: nat, b: nat)
    requires sb.Ok() && b < sb.size && b != 0 && ind != 0
    requires Covered(d0, d1, {BitBlock(sb, b), b}) && Covered(d1, d2, {ind})
    ensures var l := logged + {BitBlock(sb, b), b} + {ind}; LogsOnly(sb, d0, d2, logged, l, More(ind, {b})) && Covered(d0, d2, l)
  {}

  /** Logging through BmapDirect and then BmapIndirect, or through the first alone. */
  lemma LogsTwice(s: Fs, t: Fs, u: Fs, i: nat, l0: set<nat>, l1: set<nat>, l2: set<nat>, addr: nat)
    requires Shape(t) && Shape(u) && i < |t.inodes| && u.inodes == t.inodes && t.inodes[i].addrs[NDIRECT] != 0
    requires LogsOnly(t.sb, s.disk, t.disk, l0, l1, {t.inodes[i].addrs[NDIRECT]} - {0})
    requires LogsOnly(t.sb, t.disk, u.disk, l1, l2, More(u.inodes[i].addrs[NDIRECT], {addr}))
    requires Covered(s.disk, t.disk, l1) && Covered(t.disk, u.disk, l2)
    ensures LogsOnly(t.sb, s.disk, u.disk, l0, l2, More(u.inodes[i].addrs[NDIRECT], {addr})) && Covered(s.disk, u.disk, l2)
  {
    CoveredMore(s.disk, t.disk, u.disk, l1, l2);
  }

  lemma LogsDirect(sb: Super, d0: seq<Block>, d1: seq<Block>, l0: set<nat>, l1: set<nat>, ind: nat, addr: nat)
    requires LogsOnly(sb, d0, d1, l0, l1, {addr} - {0})
    ensures LogsOnly(sb, d0, d1, l0, l1, More(ind, {addr}))
  {}

  lemma LogsGrow(sb: Super, d0: seq<Block>, d1: seq<Block>, l0: set<nat>, l1: set<nat>, more: set<nat>)
    requires LogsOnly(sb, d0, d1, l0, l1, more)
    ensures l0 <= l1
  {}

  lemma TwoSteps(s: Fs, t: Fs, u: Fs, i: nat, k: nat)
    requires SameBytes(s, t) && SameBytes(t, u) && KeepsSlots(s, t) && KeepsSlots(t, u)
    requires SlotsBut(s, t, i, NDIRECT) && SlotsBut(t, u, i, k) && k > NDIRECT
    ensures SameBytes(s, u) && KeepsSlots(s, u) && SlotsBut(s, u, i, k)
  {
    hide SlotAddr, RawByte;
  }

  lemma KeptBoth(s: Fs, t: Fs, u: Fs, i: nat, k: nat)
    requires KeepsSlots(s, t) && SameSlots(t, u) && |t.inodes| == |u.inodes| && SlotsBut(s, t, i, k)
    ensures KeepsSlots(s, u) && SlotsBut(s, u, i, k)
    ensures forall i, k :: 0 <= i < |t.inodes| && 0 <= k < SLOTS ==> SlotAddr(u, i, k) == SlotAddr(t, i, k)
  {
    hide SlotAddr;
  }

  lemma LogsAddr(sb: Super, d0: seq<Block>, d1: seq<Block>, d2: seq<Block>, l0: set<nat>, l1: set<nat>, ind: nat,
                 addr: nat, touched: set<nat>)
    requires LogsOnly(sb, d0, d1, l0, l1, More(ind, {addr})) && addr != 0 && Covered(d1, d2, touched)
    requires touched <= {addr}
    ensures LogsOnly(sb, d0, d2, l0, l1, More(ind, {addr})) && LogsOnly(sb, d0, d2, l0, l1 + {addr}, More(ind, {addr}))
  {}

  /** data: the blocks of the file that hold its bytes from `start`, for `tot` bytes. */
  ghost predicate DataOf(s: Fs, i: nat, start: nat, tot: nat, data: set<nat>) {
    && Shape(s) && i < |s.inodes| && (tot == 0 ==> data == {})
    && forall x :: x in data ==> Holder(s, i, start, start + tot, x)
  }

  /** Block x holds bytes of file i between lo and hi. */
  ghost predicate Holder(s: Fs, i: nat, lo: nat, hi: nat, x: nat)
    requires Shape(s) && i < |s.inodes|
  {
    x != 0 && exists bn :: lo / BSIZE <= bn < MAXFILE && bn * BSIZE < hi && SlotAddr(s, i, DataSlot(bn)) == x
  }

  /** The blocks in `data` hold bytes between lo and hi; 0 stands for a missing one. */
  ghost predicate DataWithin(s: Fs, i: nat, lo: nat, hi: nat, data: set<nat>) {
    Shape(s) && i < |s.inodes| && forall x :: x in data && x != 0 ==> Holder(s, i, lo, hi, x)
  }

  lemma DataIsWithin(s: Fs, i: nat, start: nat, tot: nat, data: set<nat>)
    requires DataOf(s, i, start, tot, data)
    ensures DataWithin(s, i, start, start + tot, data)
  {
    hide Holder;
  }

  lemma DataEnds(t: Fs, u: Fs, i: nat, start: nat, tot: nat, n: nat, data: set<nat>, addr: nat)
    requires DataOf(t, i, start, tot, data) && KeepsSlots(t, u) && tot < n && start + n <= MAXFILE * BSIZE
    requires addr == SlotAddr(u, i, DataSlot((start + tot) / BSIZE))
    ensures DataWithin(u, i, start, start + n, data + {addr})
  {
    hide SlotAddr;
    forall x | x in data ensures Holder(u, i, start, start + n, x) {
      assert Holder(t, i, start, start + tot, x);
      var bn :| start / BSIZE <= bn < MAXFILE && bn * BSIZE < start + tot && SlotAddr(t, i, DataSlot(bn)) == x;
      assert SlotAddr(u, i, DataSlot(bn)) == x;
    }
    var bn := (start + tot) / BSIZE;
    assert addr != 0 ==> SlotAddr(u, i, DataSlot(bn)) == addr && bn * BSIZE < start + n;
  }

  lemma DataMore(t: Fs, u: Fs, i: nat, start: nat, tot: nat, m: nat, data: set<nat>, addr: nat)
    requires DataOf(t, i, start, tot, data) && KeepsSlots(t, u) && 0 < m && start + tot < MAXFILE * BSIZE
    requires addr == SlotAddr(u, i, DataSlot((start + tot) / BSIZE)) != 0
    ensures DataOf(u, i, start, tot + m, data + {addr})
  {
    hide SlotAddr;
    forall x | x in data ensures Holder(u, i, start, start + tot + m, x) {
      assert Holder(t, i, start, start + tot, x);
      var bn :| start / BSIZE <= bn < MAXFILE && bn * BSIZE < start + tot && SlotAddr(t, i, DataSlot(bn)) == x;
      assert SlotAddr(u, i, DataSlot(bn)) == x;
    }
    var bn := (start + tot) / BSIZE;
    assert SlotAddr(u, i, DataSlot(bn)) == addr && bn * BSIZE < start + tot + m;
    assert Holder(u, i, start, start + tot + m, addr);
  }

  lemma CoveredTurn(s: Fs, t: Fs, u: Fs, l: set<nat>, l': set<nat>, addr: nat)
    requires Covered(s.disk, t.disk, l) && Covered(t.disk, u.disk, l' + {addr}) && l <= l'
    requires addr in l'
    ensures Covered(s.disk, u.disk, l')
  {
    assert l' + {addr} == l';
    CoveredMore(s.disk, t.disk, u.disk, l, l');
  }

  /** The loop gives up in the middle: where the source faults or the disk is full. */
  lemma LoopEnds(u: Fs, i: nat, start: nat, src: seq<int>, avail: nat, tot: nat, part: nat, m: nat, addr: nat)
    requires Shape(u) && i < |u.inodes| && start + |src| <= MAXFILE * BSIZE
    requires tot < |src| && tot <= avail && m == Chunk(|src| - tot, start + tot) && part < m
    requires tot == 0 || (start + tot) % BSIZE == 0
    requires addr == SlotAddr(u, i, DataSlot((start + tot) / BSIZE))
    requires if addr != 0 then part == Min(m, avail - tot) else part == 0 && AllSet(u, u.sb.size)
    ensures Stops(u, i, start, src, avail, tot, part)
  {
    hide SlotAddr, AllSet;
    if addr != 0 {
      Boundary(start, tot, avail, m, |src|);
    } else if tot == avail {
      BoundaryHere(start, tot);
    }
  }

  lemma BoundaryHere(start: nat, tot: nat)
    requires tot == 0 || (start + tot) % BSIZE == 0
    ensures !(0 < tot && (start + tot) % BSIZE != 0)
  {}

  lemma Boundary(start: nat, tot: nat, avail: nat, m: nat, n: nat)
    requires tot <= avail < tot + m && m <= BSIZE - (start + tot) % BSIZE && (tot == 0 || (start + tot) % BSIZE == 0)
    requires tot + m <= n
    ensures avail > tot <==> 0 < avail < n && (start + avail) % BSIZE != 0
  {
    var x, y := (start + tot) % BSIZE, avail - tot;
    assert (start + avail) % BSIZE == (x + y) % BSIZE;
  }

  lemma LoopDone(t: Fs, i: nat, start: nat, src: seq<int>, avail: nat)
    requires |src| <= avail
    ensures Stops(t, i, start, src, avail, |src|, 0)
  {
    hide AllSet, MappedRange;
  }

  /** A data block of the file is no bitmap block, not the indirect block, and
      holds no other block of the file. */
  lemma Apart(s: Fs, owner: Owner, i: nat, bn: nat, x: nat)
    requires Consistent(s, owner) && i < |s.inodes| && bn < MAXFILE && x == SlotAddr(s, i, DataSlot(bn)) != 0
    ensures !IsBitmap(s.sb, x) && x != s.inodes[i].addrs[NDIRECT] && s.sb.datastart <= x < s.sb.size
    ensures forall b :: 0 <= b < MAXFILE && b != bn ==> SlotAddr(s, i, DataSlot(b)) != x
  {
    assert owner[x] == Slot(i, DataSlot(bn));
    assert SlotAddr(s, i, NDIRECT) == s.inodes[i].addrs[NDIRECT];
    forall b | 0 <= b < MAXFILE && b != bn ensures SlotAddr(s, i, DataSlot(b)) != x {
      assert SlotAddr(s, i, DataSlot(b)) != 0 ==> owner[SlotAddr(s, i, DataSlot(b))] == Slot(i, DataSlot(b));
    }
  }

  /** The torn block was not logged by an earlier turn. */
  lemma TornFresh(t: Fs, owner: Owner, i: nat, start: nat, tot: nat, data: set<nat>, x: nat, d0: seq<Block>,
                  d1: seq<Block>, l0: set<nat>, l: set<nat>)
    requires Consistent(t, owner) && i < |t.inodes| && start + tot < MAXFILE * BSIZE
    requires x == SlotAddr(t, i, DataSlot((start + tot) / BSIZE)) != 0
    requires DataOf(t, i, start, tot, data) && (tot == 0 || (start + tot) % BSIZE == 0)
    requires LogsOnly(t.sb, d0, d1, l0, l, More(t.inodes[i].addrs[NDIRECT], data))
    ensures x in l <==> x in l0
  {
    var bn := (start + tot) / BSIZE;
    Apart(t, owner, i, bn, x);
    hide Consistent, SlotAddr;
    assert x !in data;
  }

  lemma TornLogs(s: Fs, t: Fs, u: Fs, owner: Owner, i: nat, start: nat, tot: nat, part: nat, addr: nat,
                 l0: set<nat>, l: set<nat>, l': set<nat>, data: set<nat>)
    requires Consistent(u, owner) && KeepsSlots(s, t) && KeepsSlots(t, u) && s.sb == t.sb == u.sb
    requires i < |s.inodes| && start + tot < MAXFILE * BSIZE && (tot == 0 || (start + tot) % BSIZE == 0)
    requires addr == SlotAddr(u, i, DataSlot((start + tot) / BSIZE)) && (addr == 0 ==> part == 0)
    requires Covered(s.disk, t.disk, l) && Covered(t.disk, u.disk, if part == 0 then l' else l' + {addr}) && l <= l'
    requires addr != 0 ==> (addr in l' <==> addr in l || SlotAddr(t, i, DataSlot((start + tot) / BSIZE)) == 0)
    requires DataOf(t, i, start, tot, data) && Ahead(s, t, i, (start + tot) / BSIZE)
    requires LogsOnly(s.sb, s.disk, t.disk, l0, l, More(t.inodes[i].addrs[NDIRECT], data))
    ensures part == 0 ==> Covered(s.disk, u.disk, l')
    ensures part > 0 ==> LogsChanges(s, u, i, start + tot, part, l0, l')
  {
    hide SlotAddr, LogsOnly, KeepsSlots, DataOf, Covered, Consistent;
    CoveredMore(s.disk, t.disk, u.disk, l, if part == 0 then l' else l' + {addr});
    if part > 0 {
      DataKept(t, u, i, start, tot, data, s.disk, t.disk, l0, l);
      TornFresh(u, owner, i, start, tot, data, addr, s.disk, t.disk, l0, l);
      OwnedBelow(u, owner, i, (start + tot) / BSIZE);
    }
  }

  /** The file's blocks from number lo on are mapped as before. */
  ghost predicate Ahead(s: Fs, t: Fs, i: nat, lo: nat) {
    && Shape(s) && Shape(t) && i < |s.inodes| == |t.inodes|
    && forall bn :: lo <= bn < MAXFILE ==> SlotAddr(t, i, DataSlot(bn)) == SlotAddr(s, i, DataSlot(bn))
  }

  lemma AheadMore(s: Fs, t: Fs, u: Fs, i: nat, bn: nat)
    requires Ahead(s, t, i, bn) && SlotsBut(t, u, i, DataSlot(bn))
    ensures Ahead(s, u, i, bn + 1)
  {
    hide SlotAddr;
    forall b | bn + 1 <= b < MAXFILE ensures SlotAddr(u, i, DataSlot(b)) == SlotAddr(s, i, DataSlot(b)) {
      assert SlotAddr(t, i, DataSlot(b)) == SlotAddr(s, i, DataSlot(b));
      assert DataSlot(b) != DataSlot(bn) && DataSlot(b) != NDIRECT && DataSlot(b) < SLOTS;
    }
  }

  lemma NextBlock(start: nat, tot: nat, m: nat)
    requires 0 < m <= BSIZE - (start + tot) % BSIZE && (start + tot + m) % BSIZE == 0
    ensures (start + tot + m) / BSIZE == (start + tot) / BSIZE + 1
  {}

  lemma DataKept(t: Fs, u: Fs, i: nat, start: nat, tot: nat, data: set<nat>, d0: seq<Block>, d1: seq<Block>,
                 l0: set<nat>, l: set<nat>)
    requires DataOf(t, i, start, tot, data) && KeepsSlots(t, u) && t.sb == u.sb
    requires LogsOnly(t.sb, d0, d1, l0, l, More(t.inodes[i].addrs[NDIRECT], data))
    ensures i < |u.inodes| && Shape(u)
    ensures DataOf(u, i, start, tot, data) && LogsOnly(u.sb, d0, d1, l0, l, More(u.inodes[i].addrs[NDIRECT], data))
  {
    assert SlotAddr(t, i, NDIRECT) == t.inodes[i].addrs[NDIRECT];
    assert SlotAddr(u, i, NDIRECT) == u.inodes[i].addrs[NDIRECT];
    hide SlotAddr;
    forall x | x in data ensures Holder(u, i, start, start + tot, x) {
      assert Holder(t, i, start, start + tot, x);
      var bn :| start / BSIZE <= bn < MAXFILE && bn * BSIZE < start + tot && SlotAddr(t, i, DataSlot(bn)) == x;
      assert SlotAddr(u, i, DataSlot(bn)) == x;
    }
  }

  lemma CoveredMeta(before: seq<Block>, after: seq<Block>, logged: set<nat>, more: set<nat>)
    requires Covered(before, after, logged)
    ensures Covered(before, after, logged + more)
  {}

  /** Logging the inode's block besides. */
  lemma LogsMeta(s: Fs, t: Fs, u: Fs, owner: Owner, i: nat, end: nat, part: nat, before: set<nat>, after: set<nat>)
    requires LogsChanges(s, t, i, end, part, before, after) && part > 0 && Consistent(t, owner)
    requires Shape(u) && u.sb == t.sb && u.disk == t.disk && |u.inodes| == |t.inodes|
    requires u.inodes[i].addrs == t.inodes[i].addrs
    ensures LogsChanges(s, u, i, end, part, before, after + {InodeBlock(u.sb, i)})
  {
    var a := Torn(t, i, end);
    Apart(t, owner, i, end / BSIZE, a);
    assert Torn(u, i, end) == a;
    assert InodeBlock(u.sb, i) != a;
    hide SlotAddr, Consistent, Shape;
    CoveredMeta(s.disk, u.disk, after + {a}, {InodeBlock(u.sb, i)});
    assert after + {a} + {InodeBlock(u.sb, i)} == after + {InodeBlock(u.sb, i)} + {a};
  }

  /** Raising the size after the loop keeps the file system sound. */
  lemma Grown(s: Fs, t: Fs, u: Fs, i: nat, start: nat, src: seq<int>, avail: nat, r: nat, part: nat, owner: Owner)
    requires Shape(s) && (forall j :: 0 <= j < |s.inodes| ==> Mapped(s, j)) && i < |s.inodes|
    requires Consistent(t, owner) && OnlyAddrs(s.inodes, t.inodes, i) && KeepsSlots(s, t) && t.sb == s.sb
    requires start <= s.inodes[i].size && start + r <= MAXFILE * BSIZE && MappedRange(t, i, start, start + r)
    requires r + part <= |src| && Wrote(s, t, i, start, src, r + part)
    requires Stops(t, i, start, src, avail, r, part) && Within(s, t, i, start, start + |src|)
    requires u == t.(inodes := t.inodes[i := t.inodes[i].(size := Max(t.inodes[i].size, start + r))])
    ensures FsOk(u, owner) && Wrote(s, u, i, start, src, r + part) && KeepsSlots(s, u)
    ensures Stops(u, i, start, src, avail, r, part) && Within(s, u, i, start, start + |src|)
  {
    SameAddrs(t, u, owner);
    if AllSet(t, t.sb.size) {
      forall c | 0 <= c < u.sb.size ensures BitAt(u, c) {
        assert BitAt(t, c);
      }
    }
    forall j | 0 <= j < |u.inodes| ensures Mapped(u, j) {
      assert Mapped(s, j);
      forall bn | 0 <= bn < MAXFILE && bn * BSIZE < u.inodes[j].size ensures SlotAddr(u, j, DataSlot(bn)) != 0 {
        assert SlotAddr(u, j, DataSlot(bn)) == SlotAddr(t, j, DataSlot(bn));
        if bn * BSIZE < s.inodes[j].size {
          assert SlotAddr(s, j, DataSlot(bn)) != 0;
        }
      }
    }
  }

  /** Sizes play no part in ownership, bits or raw bytes. */
  lemma SameAddrs(t: Fs, u: Fs, owner: Owner)
    requires Consistent(t, owner) && u.sb == t.sb && u.disk == t.disk && |u.inodes| == |t.inodes|
    requires forall j :: 0 <= j < |t.inodes| ==> u.inodes[j].addrs == t.inodes[j].addrs
    ensures Consistent(u, owner) && SameSlots(t, u) && SameBytes(t, u)
  {
    assert Shape(u);
    forall j, k | 0 <= j < |t.inodes| && 0 <= k < SLOTS ensures SlotAddr(u, j, k) == SlotAddr(t, j, k) {}
    assert InUse(u, owner) == InUse(t, owner);
    SameDiskBits(t, u, InUse(t, owner));
  }

  lemma FootprintIs(s: Fs, t: Fs, u: Fs, i: nat, lo: nat, hi: nat, l0: set<nat>, l1: set<nat>, data: set<nat>)
    requires Shape(t) && Shape(u) && i < |t.inodes| == |u.inodes| && u.sb == t.sb && u.disk == t.disk
    requires u.inodes[i].addrs == t.inodes[i].addrs
    requires LogsOnly(t.sb, s.disk, t.disk, l0, l1, More(t.inodes[i].addrs[NDIRECT], data))
    requires DataWithin(t, i, lo, hi, data)
    ensures Footprint(u, i, lo, hi, s.disk, l0, l1 + {InodeBlock(u.sb, i)})
  {
    forall k | 0 <= k < SLOTS ensures SlotAddr(u, i, k) == SlotAddr(t, i, k) {}
    hide SlotAddr;
    forall x | x in data && x != 0 ensures Holder(u, i, lo, hi, x) {
      assert Holder(t, i, lo, hi, x);
      var bn :| lo / BSIZE <= bn < MAXFILE && bn * BSIZE < hi && SlotAddr(t, i, DataSlot(bn)) == x;
      assert SlotAddr(u, i, DataSlot(bn)) == x;
    }
    hide Holder;
  }

  lemma LoggedCount(sb: Super, d0: seq<Block>, d1: seq<Block>, before: set<nat>, after: set<nat>, ind: nat,
                    data: set<nat>, iblock: nat)
    requires LogsOnly(sb, d0, d1, before, after, More(ind, data))
    ensures sb.size < BPB ==> |after + {iblock} - before| <= 3 + |data|
  {
    if sb.size < BPB {
      assert after + {iblock} - before <= {sb.bmapstart} + {ind} + data + {iblock};
      Larger(after + {iblock} - before, {sb.bmapstart} + {ind} + data + {iblock});
    }
  }

  /** Blocks covering the bytes from lo to hi are mapped. */
  ghost predicate MappedRange(s: Fs, i: nat, lo: nat, hi: nat) {
    && Shape(s) && i < |s.inodes|
    && forall bn :: lo < hi && lo / BSIZE <= bn < MAXFILE && bn * BSIZE < hi ==> SlotAddr(s, i, DataSlot(bn)) != 0
  }

  lemma LoopStart(s: Fs, i: nat, start: nat, src: seq<int>, owner: Owner, logged: set<nat>)
    requires Consistent(s, owner) && i < |s.inodes|
    ensures Shape(s) && KeepsSlots(s, s) && OnlyAddrs(s.inodes, s.inodes, i) && Span(start, start) == 0
    ensures Wrote(s, s, i, start, src, 0) && MappedRange(s, i, start, start)
    ensures LogsOnly(s.sb, s.disk, s.disk, logged, logged, More(s.inodes[i].addrs[NDIRECT], {}))
    ensures Covered(s.disk, s.disk, logged) && DataOf(s, i, start, 0, {}) && Ahead(s, s, i, start / BSIZE)
  {}

  lemma KeepsMore(s: Fs, t: Fs, u: Fs, i: nat)
    requires KeepsSlots(s, t) && KeepsSlots(t, u)
    requires OnlyAddrs(s.inodes, t.inodes, i) && OnlyAddrs(t.inodes, u.inodes, i)
    ensures KeepsSlots(s, u) && OnlyAddrs(s.inodes, u.inodes, i)
    ensures |u.inodes| == |t.inodes| && Shape(u)
  {}

  /** A turn of the loop fills no slot but those its block needs. */
  lemma ChunkWithin(s: Fs, t: Fs, u: Fs, i: nat, start: nat, tot: nat, n: nat)
    requires Within(s, t, i, start, start + n) && SlotsBut(t, u, i, DataSlot((start + tot) / BSIZE)) && t.sb == u.sb
    requires tot < n
    ensures Within(s, u, i, start, start + n)
  {
    hide SlotAddr;
    var off := start + tot;
    WantsBlock(off / BSIZE, off, off + 1);
    assert Within(t, u, i, off, off + 1) by {
      hide Wants;
    }
    WithinMore(s, t, u, i, start, start + n, off, off + 1);
  }

  /** The log grows by bitmap blocks, the indirect block and one data block. */
  lemma LogsMore(s: Fs, t: Fs, u: Fs, i: nat, l0: set<nat>, l1: set<nat>, l2: set<nat>, data: set<nat>, addr: nat)
    requires KeepsSlots(t, u) && t.sb == u.sb && i < |t.inodes|
    requires LogsOnly(t.sb, s.disk, t.disk, l0, l1, More(t.inodes[i].addrs[NDIRECT], data))
    requires LogsOnly(t.sb, t.disk, u.disk, l1, l2, More(u.inodes[i].addrs[NDIRECT], {addr}))
    ensures LogsOnly(t.sb, s.disk, u.disk, l0, l2, More(u.inodes[i].addrs[NDIRECT], data + {addr}))
  {
    assert SlotAddr(t, i, NDIRECT) == t.inodes[i].addrs[NDIRECT];
    assert SlotAddr(u, i, NDIRECT) == u.inodes[i].addrs[NDIRECT];
  }

  lemma MappedKept(s: Fs, t: Fs, i: nat, lo: nat, hi: nat)
    requires MappedRange(s, i, lo, hi) && KeepsSlots(s, t)
    ensures MappedRange(t, i, lo, hi)
  {}

  lemma MappedMore(s: Fs, t: Fs, i: nat, start: nat, tot: nat, m: nat)
    requires MappedRange(s, i, start, start + tot) && KeepsSlots(s, t)
    requires 0 < m <= BSIZE - (start + tot) % BSIZE
    requires (start + tot) / BSIZE < MAXFILE && SlotAddr(t, i, DataSlot((start + tot) / BSIZE)) != 0
    ensures MappedRange(t, i, start, start + tot + m)
  {
    forall bn | start / BSIZE <= bn < MAXFILE && bn * BSIZE < start + tot + m ensures SlotAddr(t, i, DataSlot(bn)) != 0 {
      if bn * BSIZE >= start + tot || tot == 0 {
        assert bn == (start + tot) / BSIZE;
      } else {
        assert SlotAddr(s, i, DataSlot(bn)) != 0;
      }
    }
  }

  lemma SpanGrows(start: nat, tot: nat, m: nat, n: nat)
    requires tot < n && m == Chunk(n - tot, start + tot)
    requires tot == 0 || (start + tot) % BSIZE == 0
    ensures Span(start, start + tot) + 1 == Span(start, start + tot + m) <= Span(start, start + n)
    ensures tot + m == n || (start + tot + m) % BSIZE == 0
  {
    var off := start + tot;
    assert off == off / BSIZE * BSIZE + off % BSIZE;
  }

  /** A copy into one block is a write of consecutive bytes of the file. */
  lemma CopiedIs(s: Fs, t: Fs, u: Fs, i: nat, off: nat, d: seq<int>, k: nat)
    requires SameBytes(s, t) && Shape(u) && |s.inodes| == |t.inodes| == |u.inodes| && i < |s.inodes|
    requires k <= |d| <= BSIZE - off % BSIZE
    requires forall j, p :: 0 <= j < |t.inodes| && 0 <= p < MAXFILE * BSIZE ==>
               RawByte(u, j, p) == if j == i && p / BSIZE == off / BSIZE && off % BSIZE <= p % BSIZE < off % BSIZE + k
                                   then d[..k][p % BSIZE - off % BSIZE] else RawByte(t, j, p)
    ensures Wrote(s, u, i, off, d, k)
  {
    forall j, p | 0 <= j < |s.inodes| && 0 <= p < MAXFILE * BSIZE
      ensures RawByte(u, j, p) == if j == i && off <= p < off + k then d[p - off] else RawByte(s, j, p)
    {
      assert RawByte(t, j, p) == RawByte(s, j, p);
      SameBlock(off, k, p);
    }
  }

  lemma SameBlock(off: nat, k: nat, p: nat)
    requires off % BSIZE + k <= BSIZE
    ensures off <= p < off + k <==> p / BSIZE == off / BSIZE && off % BSIZE <= p % BSIZE < off % BSIZE + k
    ensures off <= p < off + k ==> p - off == p % BSIZE - off % BSIZE
  {}

  /** Two consecutive writes make one. */
  lemma WroteMore(s: Fs, t: Fs, u: Fs, i: nat, start: nat, src: seq<int>, tot: nat, m: nat, k: nat)
    requires tot + m <= |src| && k <= m
    requires Wrote(s, t, i, start, src, tot) && Wrote(t, u, i, start + tot, src[tot..tot + m], k)
    ensures Wrote(s, u, i, start, src, tot + k)
  {
    forall j, p | 0 <= j < |s.inodes| && 0 <= p < MAXFILE * BSIZE
      ensures RawByte(u, j, p) == if j == i && start <= p < start + tot + k then src[p - start] else RawByte(s, j, p)
    {
      assert RawByte(t, j, p) == if j == i && start <= p < start + tot then src[p - start] else RawByte(s, j, p);
    }
  }
}

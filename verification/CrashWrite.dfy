/** writei inside a transaction, and a crash at any point of its commit: the
    layers of kernel/fs.c and kernel/log.c put together. */
module CrashWrite {
  import opened DiskBlock
  import opened FsLayout
  import opened FileLayer
  import opened RedoLog

  /** The log lies before the inode blocks. */
  predicate Layout(g: Geometry, sb: Super) {
    g.Ok() && sb.Ok() && g.blocks == sb.size && g.start + g.size <= sb.inodestart
  }

  predicate InodeArea(sb: Super, b: nat) { sb.inodestart <= b < sb.bmapstart }

  /** How the inode blocks spell the inodes is a parameter; only those blocks count. */
  ghost predicate Decodes(ino: seq<Block> -> seq<Inode>, sb: Super) {
    forall d: seq<Block>, e: seq<Block> :: SameInodes(sb, d, e) ==> ino(d) == ino(e)
  }

  ghost predicate SameInodes(sb: Super, d: seq<Block>, e: seq<Block>) {
    |d| == |e| == sb.size && forall b: nat :: b < sb.size && InodeArea(sb, b) ==> d[b] == e[b]
  }

  /** The file system on a disk. */
  ghost function OnDisk(ino: seq<Block> -> seq<Inode>, sb: Super, d: seq<Block>): Fs { Fs(sb, d, ino(d)) }

  /** Both show the same files, and both are sound. */
  ghost predicate SameFiles(s: Fs, t: Fs, owner: Owner) {
    && FsOk(s, owner) && FsOk(t, owner) && t.inodes == s.inodes
    && forall i :: 0 <= i < |s.inodes| ==> FileAt(s, t, i)
  }

  ghost predicate FileAt(s: Fs, t: Fs, i: nat) {
    && Shape(s) && Shape(t) && i < |s.inodes| == |t.inodes|
    && s.inodes[i].size <= MAXFILE * BSIZE && t.inodes[i].size <= MAXFILE * BSIZE && Content(t, i) == Content(s, i)
  }

  // ------------------------------------------------- blocks that matter to a file system

  /** t has the inodes of s, and its bitmap and data blocks. */
  ghost predicate SameBlocks(s: Fs, t: Fs) {
    && Shape(s) && t.sb == s.sb && t.inodes == s.inodes && |t.disk| == |s.disk|
    && forall b :: s.sb.bmapstart <= b < |s.disk| ==> t.disk[b] == s.disk[b]
  }

  lemma SameSlotsHere(s: Fs, t: Fs, owner: Owner)
    requires SameBlocks(s, t) && Own(s, owner)
    ensures SameSlots(s, t) && Own(t, owner)
  {
    assert Shape(t);
    forall i, k | 0 <= i < |s.inodes| && 0 <= k < SLOTS ensures SlotAddr(t, i, k) == SlotAddr(s, i, k) {
      assert SlotAddr(s, i, NDIRECT) != 0 ==> SlotAddr(s, i, NDIRECT) in owner;
    }
  }

  lemma SameBytesHere(s: Fs, t: Fs, owner: Owner)
    requires SameBlocks(s, t) && Own(s, owner)
    ensures SameBytes(s, t)
  {
    SameSlotsHere(s, t, owner);
    forall i, p | 0 <= i < |s.inodes| && 0 <= p < MAXFILE * BSIZE ensures RawByte(t, i, p) == RawByte(s, i, p) {
      var k := DataSlot(p / BSIZE);
      assert SlotAddr(t, i, k) == SlotAddr(s, i, k);
      assert SlotAddr(s, i, k) != 0 ==> SlotAddr(s, i, k) in owner;
    }
  }

  lemma SameBitsHere(s: Fs, t: Fs, used: iset<int>)
    requires SameBlocks(s, t) && Shape(t) && BitsAre(s, used)
    ensures BitsAre(t, used)
  {
    forall b | 0 <= b < t.sb.size ensures BitAt(t, b) <==> b in used {
      assert BitAt(s, b) <==> b in used;
    }
  }

  lemma SameFilesHere(s: Fs, t: Fs, owner: Owner)
    requires SameBlocks(s, t) && FsOk(s, owner)
    ensures SameFiles(s, t, owner)
  {
    SameSlotsHere(s, t, owner);
    SameBytesHere(s, t, owner);
    SameBitsHere(s, t, InUse(s, owner));
    assert InUse(t, owner) == InUse(s, owner);
    hide RawByte, SlotAddr, BitsAre, Own;
    forall i | 0 <= i < |s.inodes| ensures Mapped(t, i) && FileAt(s, t, i) {
      assert Mapped(s, i);
      forall bn | 0 <= bn < MAXFILE && bn * BSIZE < t.inodes[i].size ensures SlotAddr(t, i, DataSlot(bn)) != 0 {
        assert SlotAddr(t, i, DataSlot(bn)) == SlotAddr(s, i, DataSlot(bn));
      }
      forall p | 0 <= p < s.inodes[i].size ensures Content(t, i)[p] == Content(s, i)[p] {
        assert RawByte(t, i, p) == RawByte(s, i, p);
      }
    }
  }

  // ------------------------------------------------------------------ commit and crash

  /** A disk that agrees with d outside the log holds d's file system. */
  lemma HomeIsFs(g: Geometry, ino: seq<Block> -> seq<Inode>, s: Fs, d: seq<Block>, r: Disk, owner: Owner)
    requires Layout(g, s.sb) && Decodes(ino, s.sb) && FsOk(s, owner)
    requires SameHome(g, r, d) && ino(d) == s.inodes && |d| == |s.disk|
    requires forall b :: s.sb.bmapstart <= b < |d| ==> d[b] == s.disk[b]
    ensures SameFiles(s, OnDisk(ino, s.sb, r), owner)
  {
    forall b: nat | b < s.sb.size && InodeArea(s.sb, b) ensures r[b] == d[b] {
      assert g.Home(b);
    }
    assert SameInodes(s.sb, r, d);
    forall b | s.sb.bmapstart <= b < |s.disk| ensures r[b] == s.disk[b] {
      assert g.Home(b);
    }
    SameFilesHere(s, OnDisk(ino, s.sb, r), owner);
  }

  /** The transaction of an operation that takes the file system s, as it is on
      disk, to t, whose inodes and blocks the cache shows as `view`, with every
      changed block logged. */
  ghost predicate Transaction(g: Geometry, ino: seq<Block> -> seq<Inode>, s: Fs, t: Fs, view: Disk, bs: seq<int>) {
    && Layout(g, s.sb) && Decodes(ino, s.sb) && t.sb == s.sb && |s.disk| == |t.disk| == |view| == s.sb.size
    && GoodHead(g, s.disk) && Head(g, s.disk) == [] && Loggable(g, bs)
    && ino(s.disk) == s.inodes && ino(view) == t.inodes
    && (forall b :: s.sb.bmapstart <= b < |view| ==> view[b] == t.disk[b])
    && (forall b: nat :: b < |view| && view[b] != s.disk[b] ==> b in bs)
  }

  /** A crash at any point of the commit: recovery finds, sound, the files from
      before the operation or, from the header write on, those from after it. */
  lemma CommitSurvives(g: Geometry, ino: seq<Block> -> seq<Inode>, s: Fs, t: Fs, view: Disk, bs: seq<int>,
                       before: Owner, after: Owner, k: nat)
    requires Transaction(g, ino, s, t, view, bs) && FsOk(s, before) && FsOk(t, after) && k <= CommitLength(|bs|)
    ensures GoodHead(g, CommitDisk(g, s.disk, bs, view, k))
    ensures var u := OnDisk(ino, s.sb, Redo(g, CommitDisk(g, s.disk, bs, view, k)));
            if k <= |bs| then SameFiles(s, u, before) else SameFiles(t, u, after)
  {
    hide CommitDisk, Redo, Head, GoodHead, Loggable, FsOk, SameFiles;
    assert ViewOf(g, s.disk, bs, view);
    CommitCrash(g, s.disk, bs, view, k);
    var r := Redo(g, CommitDisk(g, s.disk, bs, view, k));
    if k <= |bs| {
      HomeIsFs(g, ino, s, s.disk, r, before);
    } else {
      HomeIsFs(g, ino, t, view, r, after);
    }
  }

  /** What writei leaves in the cache for its commit: its data, bitmap and indirect
      blocks, and the inode's block, with the inodes as iupdate left them. */
  ghost predicate Cached(ino: seq<Block> -> seq<Inode>, t: Fs, dinodes: seq<Inode>, i: nat, view: Disk) {
    && |view| == |t.disk| && ino(view) == dinodes
    && forall b: nat :: b < |view| && b != InodeBlock(t.sb, i) ==> view[b] == t.disk[b]
  }

  /** A write that was not torn is a transaction. */
  lemma WriteIsTransaction(g: Geometry, ino: seq<Block> -> seq<Inode>, s: Fs, t: Fs, i: nat, view: Disk, bs: seq<int>,
                           logged: set<nat>)
    requires Layout(g, s.sb) && Decodes(ino, s.sb) && t.sb == s.sb && Shape(s) && Shape(t) && i < |s.inodes|
    requires GoodHead(g, s.disk) && Head(g, s.disk) == [] && Loggable(g, bs) && ino(s.disk) == s.inodes
    requires Covered(s.disk, t.disk, logged) && InodeBlock(s.sb, i) in logged && Cached(ino, t, t.inodes, i, view)
    requires forall b :: b in logged ==> b in bs
    ensures Transaction(g, ino, s, t, view, bs)
  {
    hide Head, GoodHead, Loggable, Decodes;
    assert InodeBlock(s.sb, i) < s.sb.bmapstart;
  }

  /** After k block writes of the commit and a crash, recovery finds a sound file
      system in which file i is as in s or has all of src written at `start`, and
      every other file is as in s. */
  ghost predicate Survives(g: Geometry, ino: seq<Block> -> seq<Inode>, s: Fs, i: nat, start: nat, src: seq<int>,
                           view: Disk, bs: seq<int>, before: Owner, after: Owner, k: nat) {
    && g.Ok() && |s.disk| == |view| == g.blocks && Loggable(g, bs) && k <= CommitLength(|bs|)
    && GoodHead(g, CommitDisk(g, s.disk, bs, view, k))
    && var u, done := OnDisk(ino, s.sb, Redo(g, CommitDisk(g, s.disk, bs, view, k))), k > |bs|;
       && FsOk(u, if done then after else before)
       && forall j :: 0 <= j < |s.inodes| ==> Outcome(s, u, i, start, src, j, done)
  }

  lemma WriteAtomic(g: Geometry, ino: seq<Block> -> seq<Inode>, s: Fs, t: Fs, i: nat, start: nat, src: seq<int>,
                    avail: nat, view: Disk, bs: seq<int>, before: Owner, after: Owner, k: nat)
    requires FsOk(s, before) && FsOk(t, after) && WriteDone(s, t, i, start, src, avail, |src|, 0)
    requires Transaction(g, ino, s, t, view, bs) && k <= CommitLength(|bs|)
    ensures Survives(g, ino, s, i, start, src, view, bs, before, after, k)
  {
    hide CommitDisk, Redo, Head, GoodHead, Loggable;
    CommitSurvives(g, ino, s, t, view, bs, before, after, k);
    var u, done := OnDisk(ino, s.sb, Redo(g, CommitDisk(g, s.disk, bs, view, k))), k > |bs|;
    WrittenFiles(s, t, before, i, start, src, avail);
    hide WriteDone, Transaction;
    forall j | 0 <= j < |s.inodes| ensures Outcome(s, u, i, start, src, j, done) {
      if done { assert FileAt(t, u, j) && Outcome(s, t, i, start, src, j, true); } else { assert FileAt(s, u, j); }
    }
  }

  /** k block writes of a commit of the blocks bs, all that the operation logged
      among them, from a cache that shows what the operation made of the disk. */
  ghost predicate Commits(g: Geometry, ino: seq<Block> -> seq<Inode>, t: Fs, dinodes: seq<Inode>, i: nat,
                          logged: set<nat>, view: Disk, bs: seq<int>, k: nat) {
    && Cached(ino, t, dinodes, i, view) && Loggable(g, bs) && (forall b :: b in logged ==> b in bs) && k <= CommitLength(|bs|)
  }

  /** The layers together: a write on a file system whose inodes are all on disk.
      If it reports all of src as written, then whenever it is committed and
      wherever the commit is cut short, recovery finds all of it or none. */
  method WriteCommitted(fs: FileSystem, i: nat, src: seq<int>, avail: nat, start: nat, ghost g: Geometry,
                        ghost ino: seq<Block> -> seq<Inode>)
    returns (r: int, part: nat)
    requires FsOk(fs.St(), fs.owner) && i < |fs.inodes| && fs.inodes == fs.dinodes == ino(fs.disk) && fs.logged == {}
    requires |src| < U32 && start < U32
    requires Layout(g, fs.sb) && Decodes(ino, fs.sb) && GoodHead(g, fs.disk) && Head(g, fs.disk) == []
    modifies fs`disk, fs`inodes, fs`dinodes, fs`logged, fs`owner
    ensures FsOk(fs.St(), fs.owner) && WriteDone(old(fs.St()), fs.St(), i, start, src, avail, r, part)
    ensures r == |src| ==>
      forall view: Disk, bs: seq<int>, k: nat :: Commits(g, ino, fs.St(), fs.dinodes, i, fs.logged, view, bs, k) ==>
              Survives(g, ino, old(fs.St()), i, start, src, view, bs, old(fs.owner), fs.owner, k)
  {
    hide FsOk, WriteDone, LogsChanges, Covered, Survives, Commits, Decodes, GoodHead, Head;
    ghost var s, before := fs.St(), fs.owner;
    r, part := fs.Writei(i, src, avail, start);
    ghost var t := fs.St();
    if r == |src| {
      WholeWrite(s, t, i, start, src, avail, r, part);
      forall view: Disk, bs: seq<int>, k: nat | Commits(g, ino, t, fs.dinodes, i, fs.logged, view, bs, k)
        ensures Survives(g, ino, s, i, start, src, view, bs, before, fs.owner, k)
      {
        CommitsAll(g, ino, s, t, i, start, src, avail, view, bs, fs.logged, before, fs.owner, k);
      }
    }
  }

  lemma WholeWrite(s: Fs, t: Fs, i: nat, start: nat, src: seq<int>, avail: nat, r: int, part: nat)
    requires WriteDone(s, t, i, start, src, avail, r, part) && r == |src|
    ensures part == 0 && |t.inodes| == |s.inodes| && i < |s.inodes| && s.inodes[i := t.inodes[i]] == t.inodes
  {
    hide Wrote, KeepsSlots, AllSet, MappedRange;
  }

  lemma CommitsAll(g: Geometry, ino: seq<Block> -> seq<Inode>, s: Fs, t: Fs, i: nat, start: nat, src: seq<int>,
                   avail: nat, view: Disk, bs: seq<int>, logged: set<nat>, before: Owner, after: Owner, k: nat)
    requires FsOk(s, before) && FsOk(t, after) && WriteDone(s, t, i, start, src, avail, |src|, 0) && t.sb == s.sb
    requires Layout(g, s.sb) && Decodes(ino, s.sb) && GoodHead(g, s.disk) && Head(g, s.disk) == []
    requires ino(s.disk) == s.inodes
    requires Covered(s.disk, t.disk, logged) && i < |s.inodes| && InodeBlock(s.sb, i) in logged
    requires Commits(g, ino, t, t.inodes, i, logged, view, bs, k)
    ensures Survives(g, ino, s, i, start, src, view, bs, before, after, k)
  {
    hide Decodes, GoodHead, Head, Covered, Cached, Survives;
    WriteIsTransaction(g, ino, s, t, i, view, bs, logged);
    WriteAtomic(g, ino, s, t, i, start, src, avail, view, bs, before, after, k);
  }

  /** File j of u is that of s, with src written at `start` if it is file i and the
      write is done. */
  ghost predicate Outcome(s: Fs, u: Fs, i: nat, start: nat, src: seq<int>, j: nat, done: bool) {
    && Shape(s) && Shape(u) && j < |s.inodes| == |u.inodes|
    && s.inodes[j].size <= MAXFILE * BSIZE && u.inodes[j].size <= MAXFILE * BSIZE
    && if done && j == i then start <= s.inodes[i].size && Content(u, j) == Splice(Content(s, j), start, src)
       else Content(u, j) == Content(s, j)
  }

  lemma WrittenFiles(s: Fs, t: Fs, owner: Owner, i: nat, start: nat, src: seq<int>, avail: nat)
    requires FsOk(s, owner) && WriteDone(s, t, i, start, src, avail, |src|, 0)
    ensures forall j :: 0 <= j < |s.inodes| ==> Outcome(s, t, i, start, src, j, true)
  {
    hide Wrote, KeepsSlots, Stops, Content, Consistent;
    forall j | 0 <= j < |s.inodes| ensures s.inodes[j].size <= MAXFILE * BSIZE {
      assert Mapped(s, j);
    }
    WriteMeaning(s, t, i, start, src);
  }
}

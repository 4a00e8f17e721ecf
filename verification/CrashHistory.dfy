/** filewrite and a crash at any point of any run of the log: its transactions, the
    operations of other processes between them, the groups they are committed in,
    and recovery. */
module CrashHistory {
  import opened DiskBlock
  import opened FsLayout
  import opened BlockBudget
  import opened FileLayer
  import opened RedoLog
  import opened CrashWrite
  import GroupCommit

  /** The changes h were made by operations one after the other, `cuts` being where
      one ends and the next begins. */
  ghost predicate Serial(h: seq<GroupCommit.Change>, cuts: seq<nat>) {
    && |cuts| > 0 && cuts[0] == 0 && cuts[|cuts| - 1] == |h|
    && (forall x, y :: 0 <= x <= y < |cuts| ==> cuts[x] <= cuts[y])
    && (forall x, p, q :: 0 <= x < |cuts| - 1 && cuts[x] <= p < q < cuts[x + 1] ==> h[p].op == h[q].op)
  }

  /** A cut between two of these splits an operation. */
  lemma Splits(h: seq<GroupCommit.Change>, cuts: seq<nat>, x: nat, c: nat)
    requires Serial(h, cuts) && 0 < x < |cuts| && cuts[x - 1] < c < cuts[x]
    ensures !GroupCommit.NoneSplit(h, c)
  {
    assert h[c - 1].op == h[c].op;
  }

  /** A cut that splits no operation is one of these. */
  lemma BoundaryCut(h: seq<GroupCommit.Change>, cuts: seq<nat>, c: nat) returns (x: nat)
    requires Serial(h, cuts) && c <= |h| && GroupCommit.NoneSplit(h, c)
    ensures x < |cuts| && cuts[x] == c
  {
    x := 0;
    while cuts[x] < c
      invariant x < |cuts| && (x > 0 ==> cuts[x - 1] < c)
      decreases |cuts| - x
    {
      x := x + 1;
    }
    if c < cuts[x] { Splits(h, cuts, x, c); }
  }

  // ---------------------------------------------------------------- one operation

  /** c with d written at offset off, if that is within it. */
  function Written(c: seq<int>, off: nat, d: seq<int>): seq<int> {
    if d == [] || off > |c| then c else Splice(c, off, d)
  }

  /** Two writes one after the other are one. */
  lemma WrittenMore(c: seq<int>, off: nat, d: seq<int>, e: seq<int>)
    requires off <= |c|
    ensures off + |d| <= |Written(c, off, d)| && Written(Written(c, off, d), off + |d|, e) == Written(c, off, d + e)
  {
    var w := Written(c, off, d);
    if e != [] && d != [] {
      assert Splice(w, off + |d|, e) == Splice(c, off, d + e);
    } else {
      assert d + [] == d && [] + e == e;
    }
  }

  /** File i of s, if s is sound. */
  ghost predicate HasFile(s: Fs, i: nat) { Shape(s) && i < |s.inodes| && s.inodes[i].size <= MAXFILE * BSIZE }

  /** One operation took s to t: a transaction of a filewrite of src to file i at
      `off`, which brought it from p bytes to q, or another that left the file. */
  ghost predicate Effect(s: Fs, t: Fs, owner: Owner, i: nat, off: nat, src: seq<int>, p: nat, q: nat) {
    && FsOk(t, owner) && HasFile(s, i) && HasFile(t, i) && p <= q <= |src|
    && (p < q ==> off + p <= |Content(s, i)|)
    && Content(t, i) == Written(Content(s, i), off + p, src[p..q])
  }

  /** After q bytes. */
  ghost predicate Reached(s: Fs, t: Fs, i: nat, off: nat, src: seq<int>, q: nat) {
    && HasFile(s, i) && HasFile(t, i) && q <= |src| && (q > 0 ==> off <= |Content(s, i)|)
    && Content(t, i) == Written(Content(s, i), off, src[..q])
  }

  lemma ReachedStart(s: Fs, i: nat, off: nat, src: seq<int>)
    requires HasFile(s, i)
    ensures Reached(s, s, i, off, src, 0)
  {
    assert src[..0] == [];
  }

  lemma ReachedMore(s: Fs, t: Fs, u: Fs, owner: Owner, i: nat, off: nat, src: seq<int>, p: nat, q: nat)
    requires Reached(s, t, i, off, src, p) && Effect(t, u, owner, i, off, src, p, q)
    ensures Reached(s, u, i, off, src, q)
  {
    hide Content, FsOk, Shape;
    var c := Content(s, i);
    assert src[..q] == src[..p] + src[p..q];
    if q > 0 && p < q {
      assert p == 0 ==> src[..p] == [];
      WrittenMore(c, off, src[..p], src[p..q]);
    } else {
      assert src[p..q] == [];
    }
  }

  // ---------------------------------------------------------------------- a crash

  /** The file system of the first c changes. */
  ghost function After(ino: seq<Block> -> seq<Inode>, sb: Super, s: GroupCommit.State, c: nat): Fs
    requires c <= |s.hist|
  {
    OnDisk(ino, sb, GroupCommit.Apply(s.init, s.hist[..c]))
  }

  /** The operations committed so far: from a sound file system each led to a sound
      one, and file i came from pos[x] to pos[x + 1] bytes of src. */
  ghost predicate History(ino: seq<Block> -> seq<Inode>, sb: Super, s: GroupCommit.State, cuts: seq<nat>,
                          owners: seq<Owner>, i: nat, off: nat, src: seq<int>, pos: seq<nat>) {
    && s.done <= |s.hist| && Serial(s.hist, cuts) && |owners| == |pos| == |cuts| && pos[0] == 0
    && FsOk(After(ino, sb, s, 0), owners[0]) && HasFile(After(ino, sb, s, 0), i)
    && forall x :: 0 <= x < |cuts| - 1 && cuts[x + 1] <= s.done ==>
         Effect(After(ino, sb, s, cuts[x]), After(ino, sb, s, cuts[x + 1]), owners[x + 1], i, off, src,
                pos[x], pos[x + 1])
  }

  lemma {:induction false} HistoryReached(ino: seq<Block> -> seq<Inode>, sb: Super, s: GroupCommit.State,
                                          cuts: seq<nat>, owners: seq<Owner>, i: nat, off: nat, src: seq<int>,
                                          pos: seq<nat>, x: nat)
    requires History(ino, sb, s, cuts, owners, i, off, src, pos) && x < |cuts|
    requires cuts[x] <= s.done
    ensures FsOk(After(ino, sb, s, cuts[x]), owners[x])
    ensures Reached(After(ino, sb, s, 0), After(ino, sb, s, cuts[x]), i, off, src, pos[x])
    decreases x
  {
    hide FsOk, Content, Written, Reached, OnDisk, HasFile;
    if x == 0 {
      ReachedStart(After(ino, sb, s, 0), i, off, src);
    } else {
      HistoryReached(ino, sb, s, cuts, owners, i, off, src, pos, x - 1);
      var y := x - 1;
      assert cuts[y + 1] <= s.done;
      ReachedMore(After(ino, sb, s, 0), After(ino, sb, s, cuts[y]), After(ino, sb, s, cuts[y + 1]), owners[y + 1],
                  i, off, src, pos[y], pos[y + 1]);
    }
  }

  /** A crash at any step of any run: recovery finds a sound file system, that of the
      operations up to some point, and in it the file that filewrite was writing
      has all the bytes of the transactions up to there, and none of the next. */
  lemma CrashAnywhere(g: Geometry, limit: nat, run: seq<GroupCommit.State>, n: nat,
                      ino: seq<Block> -> seq<Inode>, sb: Super, cuts: seq<nat>, owners: seq<Owner>, i: nat, off: nat,
                      src: seq<int>, pos: seq<nat>)
    returns (x: nat)
    requires GroupCommit.Run(g, limit, run) && n < |run| && Layout(g, sb) && Decodes(ino, sb)
    requires History(ino, sb, run[n], cuts, owners, i, off, src, pos)
    ensures x < |cuts| && cuts[x] == run[n].done && GoodHead(g, run[n].disk)
    ensures var u := OnDisk(ino, sb, Redo(g, run[n].disk));
            && SameFiles(After(ino, sb, run[n], cuts[x]), u, owners[x])
            && Reached(After(ino, sb, run[n], 0), u, i, off, src, pos[x])
  {
    hide FsOk, Decodes, Redo, GoodHead, Head, Content;
    var s := run[n];
    GroupCommit.CrashAtomicity(g, limit, run, n);
    x := BoundaryCut(s.hist, cuts, s.done);
    HistoryReached(ino, sb, s, cuts, owners, i, off, src, pos, x);
    var d := GroupCommit.Apply(s.init, s.hist[..s.done]);
    HomeIsFs(g, ino, After(ino, sb, s, s.done), d, Redo(g, s.disk), owners[x]);
    assert FileAt(After(ino, sb, s, s.done), OnDisk(ino, sb, Redo(g, s.disk)), i);
  }

  // ---------------------------------------------------- filewrite's transactions

  /** A transaction of filewrite that was not torn, of the m bytes from p on, is such
      an operation: it brings the file from p bytes to p + r. */
  lemma TurnEffect(ino: seq<Block> -> seq<Inode>, s: Fs, t: Fs, before: Owner, owner: Owner, i: nat, off: nat,
                   src: seq<int>, p: nat, m: nat, avail: nat, r: nat, view: Disk)
    requires FsOk(s, before) && FsOk(t, owner) && t.sb == s.sb && p + m <= |src| && i < |s.inodes|
    requires WriteDone(s, t, i, off + p, src[p..p + m], avail, r, 0)
    requires Cached(ino, t, s.inodes[i := t.inodes[i]], i, view)
    ensures Effect(s, OnDisk(ino, s.sb, view), owner, i, off, src, p, p + r)
  {
    hide FsOk, Content, WriteDone, Written;
    var d := src[p..p + m];
    PrefixWritten(s, t, before, i, off + p, d, avail, r);
    assert d[..r] == src[p..p + r] && s.inodes[i := t.inodes[i]] == t.inodes;
    var u := OnDisk(ino, s.sb, view);
    CachedFiles(ino, s, t, owner, i, view);
    assert FileAt(t, u, i);
  }

  lemma CachedFiles(ino: seq<Block> -> seq<Inode>, s: Fs, t: Fs, owner: Owner, i: nat, view: Disk)
    requires FsOk(t, owner) && t.sb == s.sb && i < |t.inodes| && Cached(ino, t, t.inodes, i, view)
    ensures SameFiles(t, OnDisk(ino, s.sb, view), owner)
  {
    assert InodeBlock(t.sb, i) < t.sb.bmapstart;
    SameFilesHere(t, OnDisk(ino, s.sb, view), owner);
  }

  lemma PrefixWritten(s: Fs, t: Fs, owner: Owner, i: nat, start: nat, d: seq<int>, avail: nat, r: nat)
    requires FsOk(s, owner) && i < |s.inodes| && WriteDone(s, t, i, start, d, avail, r, 0)
    ensures HasFile(s, i) && HasFile(t, i) && r <= |d| && start <= |Content(s, i)|
    ensures |t.inodes| == |s.inodes| && forall j :: 0 <= j < |s.inodes| && j != i ==> t.inodes[j] == s.inodes[j]
    ensures Content(t, i) == Written(Content(s, i), start, d[..r])
  {
    hide KeepsSlots, Within, Consistent, Content;
    forall j | 0 <= j < |s.inodes| ensures s.inodes[j].size <= MAXFILE * BSIZE {
      assert Mapped(s, j);
    }
    assert Wrote(s, t, i, start, d[..r], r) by {
      hide RawByte;
    }
    hide Wrote, Stops;
    WriteMeaning(s, t, i, start, d[..r]);
  }
}

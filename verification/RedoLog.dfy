/** The physical redo log of kernel/log.c: the on-disk header, the block writes a
    commit and a recovery perform, and what recovery makes of the disk when the
    machine stops between any two of those writes. */
module RedoLog {
  import opened DiskBlock

  // kernel/param.h
  const MAXOPBLOCKS: nat := 10
  const LOGSIZE: nat := 30

  type Disk = seq<Block>

  /** Where the log lives: header at `start`, data slots up to `start + size`,
      on a disk of `blocks` blocks. */
  datatype Geometry = Geometry(start: nat, size: nat, blocks: nat) {
    predicate Ok() { 2 <= size && start + size <= blocks }

    predicate Home(b: int) { 0 <= b < blocks && !(start <= b < start + size) }

    /** log_write refuses to go beyond this many logged blocks. */
    function Capacity(): int { if LOGSIZE < size - 1 then LOGSIZE else size - 1 }
  }

  ghost predicate AllHome(g: Geometry, bs: seq<int>) {
    forall i :: 0 <= i < |bs| ==> g.Home(bs[i])
  }

  ghost predicate Distinct(bs: seq<int>) {
    forall i, j :: 0 <= i < j < |bs| ==> bs[i] != bs[j]
  }

  /** The blocks a transaction may log. */
  ghost predicate Loggable(g: Geometry, bs: seq<int>) {
    |bs| <= g.Capacity() && AllHome(g, bs) && Distinct(bs)
  }

  /** Two disks that hold the same file system: equal outside the log. */
  ghost predicate SameHome(g: Geometry, d: Disk, e: Disk) {
    && |d| == |e| == g.blocks
    && forall b :: g.Home(b) ==> d[b] == e[b]
  }

  // ---------------------------------------------------------------- header

  /** The block with the first k of bs as its words from the second on. */
  function SetWords(b: Block, bs: seq<int>, k: nat): Block
    requires k <= |bs| <= LOGSIZE
    decreases k
  {
    if k == 0 then b else SetWord(SetWords(b, bs, k - 1), k, bs[k - 1])
  }

  /** write_head stores the count and that many block numbers; the rest of the
      header block keeps whatever it held. */
  function EncodeHead(was: Block, bs: seq<int>): (r: Block)
    requires |bs| <= LOGSIZE
  {
    SetWords(SetWord(was, 0, |bs|), bs, |bs|)
  }

  ghost predicate GoodHead(g: Geometry, d: Disk) {
    && g.Ok() && |d| == g.blocks
    && 0 <= Word(d[g.start], 0) <= g.Capacity()
    && Loggable(g, Head(g, d))
  }

  /** The n words of a block after the first. */
  function Words(b: Block, n: nat): (r: seq<int>)
    requires n <= LOGSIZE
    ensures |r| == n && forall i :: 0 <= i < n ==> r[i] == Word(b, i + 1)
  {
    if n == 0 then [] else Words(b, n - 1) + [Word(b, n)]
  }

  /** read_head: the block numbers the on-disk header records. */
  function Head(g: Geometry, d: Disk): (r: seq<int>)
    requires g.Ok() && |d| == g.blocks && 0 <= Word(d[g.start], 0) <= g.Capacity()
  {
    Words(d[g.start], Word(d[g.start], 0))
  }

  lemma {:induction false} SetWordsAt(b: Block, bs: seq<int>, k: nat, i: nat)
    requires k <= |bs| <= LOGSIZE && i < NINDIRECT
    ensures Word(SetWords(b, bs, k), i) == if 0 < i <= k then bs[i - 1] else Word(b, i)
    decreases k
  {
    hide Word, SetWord;
    if k > 0 {
      SetWordsAt(b, bs, k - 1, i);
      WordSet(SetWords(b, bs, k - 1), k, bs[k - 1], i);
    }
  }

  lemma EncodedWords(was: Block, bs: seq<int>)
    requires |bs| <= LOGSIZE
    ensures Word(EncodeHead(was, bs), 0) == |bs| && Words(EncodeHead(was, bs), |bs|) == bs
  {
    hide Word, SetWord, SetWords;
    var h, n := EncodeHead(was, bs), |bs|;
    SetWordsAt(SetWord(was, 0, n), bs, n, 0);
    WordSet(was, 0, n, 0);
    forall i | 0 <= i < n ensures Words(h, n)[i] == bs[i] {
      SetWordsAt(SetWord(was, 0, n), bs, n, i + 1);
    }
  }

  lemma HeadRoundTrip(g: Geometry, d: Disk, was: Block, bs: seq<int>)
    requires g.Ok() && |d| == g.blocks && Loggable(g, bs)
    requires d[g.start] == EncodeHead(was, bs)
    ensures GoodHead(g, d) && Head(g, d) == bs
  {
    hide Word, Words, EncodeHead;
    EncodedWords(was, bs);
  }

  lemma PutHead(g: Geometry, p: Disk, bs: seq<int>)
    requires g.Ok() && |p| == g.blocks && Loggable(g, bs)
    ensures var h := p[g.start := EncodeHead(p[g.start], bs)];
            GoodHead(g, h) && Head(g, h) == bs && SameHome(g, h, p)
  {
    HeadRoundTrip(g, p[g.start := EncodeHead(p[g.start], bs)], p[g.start], bs);
  }

  /** The last write of a commit and of a recovery: an empty header. */
  function PutEmpty(g: Geometry, p: Disk): (r: Disk)
    requires g.Ok() && |p| == g.blocks
    ensures |r| == |p|
  {
    p[g.start := EncodeHead(p[g.start], [])]
  }

  // -------------------------------------------------------------- recovery

  /** install_trans: copy the first k log slots to their home blocks. */
  function Install(g: Geometry, d: Disk, bs: seq<int>, k: nat): (r: Disk)
    requires g.Ok() && |d| == g.blocks && k <= |bs| && Loggable(g, bs)
    ensures |r| == |d|
    decreases k
  {
    if k == 0 then d else
    var p := Install(g, d, bs, k - 1);
    p[bs[k - 1] := p[g.start + k]]
  }

  /** What a completed recovery leaves on disk, the header apart. */
  function Redo(g: Geometry, d: Disk): (r: Disk)
    requires GoodHead(g, d)
    ensures |r| == |d|
  {
    Install(g, d, Head(g, d), |Head(g, d)|)
  }

  lemma {:induction false} InstallElsewhere(g: Geometry, d: Disk, bs: seq<int>, k: nat, b: nat)
    requires g.Ok() && |d| == g.blocks && k <= |bs| && Loggable(g, bs)
    requires b < |d| && forall i :: 0 <= i < k ==> bs[i] != b
    ensures Install(g, d, bs, k)[b] == d[b]
    decreases k
  {
    if k > 0 {
      InstallElsewhere(g, d, bs, k - 1, b);
    }
  }

  lemma {:induction false} InstallAt(g: Geometry, d: Disk, bs: seq<int>, k: nat, i: nat)
    requires g.Ok() && |d| == g.blocks && k <= |bs| && Loggable(g, bs)
    requires i < k
    ensures Install(g, d, bs, k)[bs[i]] == d[g.start + 1 + i]
    decreases k
  {
    if i == k - 1 {
      InstallElsewhere(g, d, bs, k - 1, g.start + k);
    } else {
      InstallAt(g, d, bs, k - 1, i);
    }
  }

  lemma ReinstallAt(g: Geometry, d: Disk, bs: seq<int>, j: nat, b: nat)
    requires g.Ok() && |d| == g.blocks && j <= |bs| && Loggable(g, bs) && g.Home(b)
    ensures Install(g, Install(g, d, bs, j), bs, |bs|)[b] == Install(g, d, bs, |bs|)[b]
  {
    hide Install;
    var e := Install(g, d, bs, j);
    if i :| 0 <= i < |bs| && bs[i] == b {
      InstallAt(g, e, bs, |bs|, i);
      InstallAt(g, d, bs, |bs|, i);
      InstallElsewhere(g, d, bs, j, g.start + 1 + i);
    } else {
      InstallElsewhere(g, e, bs, |bs|, b);
      InstallElsewhere(g, d, bs, |bs|, b);
      InstallElsewhere(g, d, bs, j, b);
    }
  }

  /** Installing is idempotent from any intermediate point: redoing after j
      installs gives the same home blocks as redoing from the start. */
  lemma ReinstallSame(g: Geometry, d: Disk, bs: seq<int>, j: nat)
    requires g.Ok() && |d| == g.blocks && j <= |bs| && Loggable(g, bs)
    ensures SameHome(g, Install(g, Install(g, d, bs, j), bs, |bs|), Install(g, d, bs, |bs|))
  {
    forall b | g.Home(b)
      ensures Install(g, Install(g, d, bs, j), bs, |bs|)[b] == Install(g, d, bs, |bs|)[b]
    {
      ReinstallAt(g, d, bs, j, b);
    }
  }

  /** Redo looks only at the home blocks, the header and the slots in use. */
  lemma RedoEmpty(g: Geometry, d: Disk)
    requires GoodHead(g, d) && Head(g, d) == []
    ensures Redo(g, d) == d
  {}

  datatype BlockWrite = BlockWrite(at: nat, data: Block)

  /** Block write number k of recover_from_log, given the disk p before it and
      the header's block numbers bs: the home blocks, then the cleared header. */
  function RecoverWrite(g: Geometry, p: Disk, bs: seq<int>, k: nat): (w: BlockWrite)
    requires g.Ok() && |p| == g.blocks && Loggable(g, bs) && k <= |bs|
    ensures w.at < |p|
  {
    if k < |bs| then BlockWrite(bs[k], p[g.start + 1 + k])
    else BlockWrite(g.start, EncodeHead(p[g.start], []))
  }

  /** The disk after the first k block writes of recover_from_log on d. */
  function RecoverDisk(g: Geometry, d: Disk, k: nat): (r: Disk)
    requires GoodHead(g, d) && k <= |Head(g, d)| + 1
    ensures |r| == |d|
  {
    if k <= |Head(g, d)| then Install(g, d, Head(g, d), k) else PutEmpty(g, Redo(g, d))
  }

  /** Those disks are reached one block write at a time. */
  lemma {:induction false} RecoverDiskStep(g: Geometry, d: Disk, k: nat)
    requires GoodHead(g, d) && k <= |Head(g, d)|
    ensures var p := RecoverDisk(g, d, k);
            var w := RecoverWrite(g, p, Head(g, d), k);
            RecoverDisk(g, d, k + 1) == p[w.at := w.data]
  {
    hide Install, EncodeHead, Head;
    if k < |Head(g, d)| { InstallStep(g, d, Head(g, d), k); }
  }

  /** A crash after any number of recovery's own writes loses nothing: what is
      then on disk recovers to the same file system. */
  lemma RecoveryCrash(g: Geometry, d: Disk, k: nat)
    requires GoodHead(g, d) && k <= |Head(g, d)| + 1
    ensures GoodHead(g, RecoverDisk(g, d, k))
    ensures SameHome(g, Redo(g, RecoverDisk(g, d, k)), Redo(g, d))
  {
    var bs := Head(g, d);
    if k <= |bs| {
      InstallElsewhere(g, d, bs, k, g.start);
      assert Head(g, RecoverDisk(g, d, k)) == bs;
      ReinstallSame(g, d, bs, k);
    } else {
      RecoveryDone(g, d);
      RedoEmpty(g, RecoverDisk(g, d, k));
    }
  }

  /** The last write of a recovery leaves an empty log and the redone blocks. */
  lemma RecoveryDone(g: Geometry, d: Disk)
    requires GoodHead(g, d)
    ensures var e := RecoverDisk(g, d, |Head(g, d)| + 1);
            GoodHead(g, e) && Head(g, e) == [] && SameHome(g, e, Redo(g, d))
  {
    PutHead(g, Redo(g, d), []);
  }

  /** Recovery restarted again and again: attempt i stops after ks[i] writes. */
  ghost predicate CrashySequence(g: Geometry, ds: seq<Disk>, ks: seq<nat>) {
    && |ds| == |ks| + 1
    && (forall i :: 0 <= i < |ds| ==> GoodHead(g, ds[i]))
    && (forall i :: 0 <= i < |ks| ==>
          ks[i] <= |Head(g, ds[i])| + 1 && ds[i + 1] == RecoverDisk(g, ds[i], ks[i]))
  }

  lemma {:induction false} RepeatedCrashes(g: Geometry, ds: seq<Disk>, ks: seq<nat>)
    requires CrashySequence(g, ds, ks)
    ensures SameHome(g, Redo(g, ds[|ks|]), Redo(g, ds[0]))
    decreases |ks|
  {
    if |ks| > 0 {
      var m := |ks| - 1;
      assert ds[..|ks|][m] == ds[m];
      RepeatedCrashes(g, ds[..|ks|], ks[..m]);
      RecoveryCrash(g, ds[m], ks[m]);
      assert ds[m + 1] == RecoverDisk(g, ds[m], ks[m]);
    }
  }

  // ---------------------------------------------------------------- commit

  /** Number of block writes commit() performs for n logged blocks. */
  function CommitLength(n: nat): nat { if n == 0 then 0 else n + 1 + n + 1 }

  /** Block write number k of commit(), given the disk p before it: n log slots
      copied from the cache, the header, n home blocks copied from the log
      slots, and the cleared header. */
  function CommitWrite(g: Geometry, p: Disk, bs: seq<int>, view: Disk, k: nat): (w: BlockWrite)
    requires g.Ok() && |p| == |view| == g.blocks && Loggable(g, bs)
    requires k < CommitLength(|bs|)
    ensures w.at < |p|
  {
    var n := |bs|;
    if k < n then BlockWrite(g.start + 1 + k, view[bs[k]])
    else if k == n then BlockWrite(g.start, EncodeHead(p[g.start], bs))
    else if k <= 2 * n then BlockWrite(bs[k - n - 1], p[g.start + k - n])
    else BlockWrite(g.start, EncodeHead(p[g.start], []))
  }

  /** The disk after the first k log slots have been written. */
  function LogDisk(g: Geometry, d: Disk, bs: seq<int>, view: Disk, k: nat): (r: Disk)
    requires g.Ok() && |d| == |view| == g.blocks && Loggable(g, bs) && k <= |bs|
    ensures |r| == |d|
    decreases k
  {
    if k == 0 then d else LogDisk(g, d, bs, view, k - 1)[g.start + k := view[bs[k - 1]]]
  }

  /** The disk after the committing header write. */
  function HeadDisk(g: Geometry, d: Disk, bs: seq<int>, view: Disk): (r: Disk)
    requires g.Ok() && |d| == |view| == g.blocks && Loggable(g, bs)
    ensures |r| == |d|
  {
    var p := LogDisk(g, d, bs, view, |bs|);
    p[g.start := EncodeHead(p[g.start], bs)]
  }

  /** The disk after the first k block writes of commit(). */
  function CommitDisk(g: Geometry, d: Disk, bs: seq<int>, view: Disk, k: nat): (r: Disk)
    requires g.Ok() && |d| == |view| == g.blocks && Loggable(g, bs)
    requires k <= CommitLength(|bs|)
    ensures |r| == |d|
  {
    var n := |bs|;
    if k <= n then LogDisk(g, d, bs, view, k)
    else if k <= n + 1 + n then Install(g, HeadDisk(g, d, bs, view), bs, k - n - 1)
    else PutEmpty(g, Install(g, HeadDisk(g, d, bs, view), bs, n))
  }

  /** Those disks are reached one block write at a time. */
  lemma {:induction false} CommitDiskStep(g: Geometry, d: Disk, bs: seq<int>, view: Disk, k: nat)
    requires g.Ok() && |d| == |view| == g.blocks && Loggable(g, bs) && k < CommitLength(|bs|)
    ensures var p := CommitDisk(g, d, bs, view, k);
            var w := CommitWrite(g, p, bs, view, k);
            CommitDisk(g, d, bs, view, k + 1) == p[w.at := w.data]
  {
    hide EncodeHead, LogDisk, Install;
    var n := |bs|;
    if k < n {
      LogDiskStep(g, d, bs, view, k);
    } else if n < k <= 2 * n {
      InstallStep(g, HeadDisk(g, d, bs, view), bs, k - n - 1);
    }
    if k >= n {
      LogDiskNone(g, d, bs, view);
    }
  }

  lemma {:induction false} LogDiskStep(g: Geometry, d: Disk, bs: seq<int>, view: Disk, k: nat)
    requires g.Ok() && |d| == |view| == g.blocks && Loggable(g, bs) && k < |bs|
    ensures LogDisk(g, d, bs, view, k + 1) == LogDisk(g, d, bs, view, k)[g.start + 1 + k := view[bs[k]]]
  {}

  lemma {:induction false} InstallStep(g: Geometry, d: Disk, bs: seq<int>, k: nat)
    requires g.Ok() && |d| == g.blocks && Loggable(g, bs) && k < |bs|
    ensures Install(g, d, bs, k + 1) == Install(g, d, bs, k)[bs[k] := Install(g, d, bs, k)[g.start + k + 1]]
  {}

  lemma {:induction false} LogDiskNone(g: Geometry, d: Disk, bs: seq<int>, view: Disk)
    requires g.Ok() && |d| == |view| == g.blocks && Loggable(g, bs)
    ensures Install(g, HeadDisk(g, d, bs, view), bs, 0) == HeadDisk(g, d, bs, view)
  {
    hide HeadDisk;
  }

  /** While the log slots are being written, nothing outside them changes. */
  lemma {:induction false} LogDiskElsewhere(g: Geometry, d: Disk, bs: seq<int>, view: Disk, k: nat, b: nat)
    requires g.Ok() && |d| == |view| == g.blocks && Loggable(g, bs) && k <= |bs|
    requires b < |d| && !(g.start < b <= g.start + k)
    ensures LogDisk(g, d, bs, view, k)[b] == d[b]
    decreases k
  {
    if k > 0 {
      LogDiskElsewhere(g, d, bs, view, k - 1, b);
    }
  }

  lemma {:induction false} LogDiskSlot(g: Geometry, d: Disk, bs: seq<int>, view: Disk, k: nat, i: nat)
    requires g.Ok() && |d| == |view| == g.blocks && Loggable(g, bs) && i < k <= |bs|
    ensures LogDisk(g, d, bs, view, k)[g.start + 1 + i] == view[bs[i]]
    decreases k
  {
    if i < k - 1 {
      LogDiskSlot(g, d, bs, view, k - 1, i);
    }
  }

  lemma LogDiskHome(g: Geometry, d: Disk, bs: seq<int>, view: Disk, k: nat)
    requires g.Ok() && |d| == |view| == g.blocks && Loggable(g, bs) && k <= |bs|
    ensures SameHome(g, LogDisk(g, d, bs, view, k), d)
  {
    hide LogDisk;
    forall b | g.Home(b) ensures LogDisk(g, d, bs, view, k)[b] == d[b] {
      LogDiskElsewhere(g, d, bs, view, k, b);
    }
  }

  lemma HeadDiskOk(g: Geometry, d: Disk, bs: seq<int>, view: Disk)
    requires g.Ok() && |d| == |view| == g.blocks && Loggable(g, bs)
    ensures var h := HeadDisk(g, d, bs, view);
            GoodHead(g, h) && Head(g, h) == bs && SameHome(g, h, d)
  {
    hide LogDisk, EncodeHead;
    LogDiskHome(g, d, bs, view, |bs|);
    PutHead(g, LogDisk(g, d, bs, view, |bs|), bs);
  }

  lemma HeadDiskSlot(g: Geometry, d: Disk, bs: seq<int>, view: Disk, i: nat)
    requires g.Ok() && |d| == |view| == g.blocks && Loggable(g, bs) && i < |bs|
    ensures HeadDisk(g, d, bs, view)[g.start + 1 + i] == view[bs[i]]
  {
    hide LogDisk, EncodeHead;
    LogDiskSlot(g, d, bs, view, |bs|, i);
  }

  /** `view` is what the buffer cache shows: the disk except for logged blocks. */
  ghost predicate ViewOf(g: Geometry, d: Disk, bs: seq<int>, view: Disk) {
    && |d| == |view| == g.blocks
    && forall b :: g.Home(b) && b !in bs ==> view[b] == d[b]
  }

  lemma HeadDiskRedo(g: Geometry, d: Disk, bs: seq<int>, view: Disk)
    requires g.Ok() && Loggable(g, bs) && ViewOf(g, d, bs, view)
    ensures var h := HeadDisk(g, d, bs, view);
            GoodHead(g, h) && Head(g, h) == bs && SameHome(g, Redo(g, h), view)
  {
    hide HeadDisk, Install;
    var h := HeadDisk(g, d, bs, view);
    HeadDiskOk(g, d, bs, view);
    forall b | g.Home(b) ensures Redo(g, h)[b] == view[b] {
      if i :| 0 <= i < |bs| && bs[i] == b {
        HeadDiskSlot(g, d, bs, view, i);
        InstallAt(g, h, bs, |bs|, i);
      } else {
        InstallElsewhere(g, h, bs, |bs|, b);
      }
    }
  }

  /** Stopping before the header write loses the transaction. */
  lemma CrashBefore(g: Geometry, d: Disk, bs: seq<int>, view: Disk, k: nat)
    requires GoodHead(g, d) && Head(g, d) == [] && Loggable(g, bs) && |view| == g.blocks && k <= |bs|
    ensures var e := LogDisk(g, d, bs, view, k);
            GoodHead(g, e) && Head(g, e) == [] && SameHome(g, Redo(g, e), d)
  {
    hide LogDisk;
    LogDiskElsewhere(g, d, bs, view, k, g.start);
    LogDiskHome(g, d, bs, view, k);
    RedoEmpty(g, LogDisk(g, d, bs, view, k));
  }

  /** Stopping while the home blocks are being installed keeps it. */
  lemma CrashInstalling(g: Geometry, d: Disk, bs: seq<int>, view: Disk, j: nat)
    requires g.Ok() && Loggable(g, bs) && ViewOf(g, d, bs, view) && j <= |bs|
    ensures var e := Install(g, HeadDisk(g, d, bs, view), bs, j);
            GoodHead(g, e) && SameHome(g, Redo(g, e), view)
  {
    hide HeadDisk, Redo, Install;
    HeadDiskRedo(g, d, bs, view);
    RecoveryCrash(g, HeadDisk(g, d, bs, view), j);
  }

  /** The cleared header comes after everything has reached home. */
  lemma CrashCleared(g: Geometry, d: Disk, bs: seq<int>, view: Disk)
    requires g.Ok() && Loggable(g, bs) && ViewOf(g, d, bs, view)
    ensures var e := PutEmpty(g, Install(g, HeadDisk(g, d, bs, view), bs, |bs|));
            GoodHead(g, e) && Head(g, e) == [] && SameHome(g, e, view)
  {
    hide HeadDisk, Install, EncodeHead;
    HeadDiskRedo(g, d, bs, view);
    PutHead(g, Redo(g, HeadDisk(g, d, bs, view)), []);
  }

  /** Crash atomicity of one commit: stop after any number k of its block
      writes, and recovery yields the old file system when the header write
      (write n + 1) has not happened and the new one when it has. */
  lemma CommitCrash(g: Geometry, d: Disk, bs: seq<int>, view: Disk, k: nat)
    requires GoodHead(g, d) && Head(g, d) == [] && Loggable(g, bs) && ViewOf(g, d, bs, view)
    requires k <= CommitLength(|bs|)
    ensures GoodHead(g, CommitDisk(g, d, bs, view, k))
    ensures SameHome(g, Redo(g, CommitDisk(g, d, bs, view, k)), if k <= |bs| then d else view)
  {
    hide LogDisk, HeadDisk, Install, PutEmpty, Redo;
    if k <= |bs| {
      CrashBefore(g, d, bs, view, k);
    } else if k <= |bs| + 1 + |bs| {
      CrashInstalling(g, d, bs, view, k - |bs| - 1);
    } else {
      CrashCleared(g, d, bs, view);
      RedoEmpty(g, CommitDisk(g, d, bs, view, k));
    }
  }

  /** The cache's content of the listed blocks, the disk's of the others. */
  ghost function Masked(d: Disk, bs: seq<int>, view: Disk): (r: Disk)
    requires |d| == |view|
    ensures |r| == |d| && forall b :: 0 <= b < |d| ==> r[b] == if b in bs then view[b] else d[b]
  {
    seq(|d|, b requires 0 <= b < |d| => if b in bs then view[b] else d[b])
  }

  lemma {:induction false} LogDiskMasked(g: Geometry, d: Disk, bs: seq<int>, view: Disk, k: nat)
    requires g.Ok() && |d| == |view| == g.blocks && Loggable(g, bs) && k <= |bs|
    ensures LogDisk(g, d, bs, Masked(d, bs, view), k) == LogDisk(g, d, bs, view, k)
    decreases k
  {
    hide Masked;
    if k > 0 {
      LogDiskMasked(g, d, bs, view, k - 1);
      assert bs[k - 1] in bs;
    }
  }

  lemma CommitMasked(g: Geometry, d: Disk, bs: seq<int>, view: Disk, k: nat)
    requires g.Ok() && |d| == |view| == g.blocks && Loggable(g, bs) && k <= CommitLength(|bs|)
    ensures CommitDisk(g, d, bs, Masked(d, bs, view), k) == CommitDisk(g, d, bs, view, k)
  {
    hide LogDisk, Masked, Install, PutEmpty;
    LogDiskMasked(g, d, bs, view, if k <= |bs| then k else |bs|);
  }

  /** Whatever the cache holds, a crash of a commit recovers to the old disk, or,
      from the header write on, to the old disk with the logged blocks replaced. */
  lemma CommitLogged(g: Geometry, d: Disk, bs: seq<int>, view: Disk, k: nat)
    requires GoodHead(g, d) && Head(g, d) == [] && Loggable(g, bs) && |view| == g.blocks
    requires k <= CommitLength(|bs|)
    ensures GoodHead(g, CommitDisk(g, d, bs, view, k))
    ensures SameHome(g, Redo(g, CommitDisk(g, d, bs, view, k)), if k <= |bs| then d else Masked(d, bs, view))
  {
    hide CommitDisk, Redo, Head, GoodHead, Loggable;
    GoodHeadSize(g, d);
    CommitMasked(g, d, bs, view, k);
    CommitCrash(g, d, bs, Masked(d, bs, view), k);
  }

  lemma GoodHeadSize(g: Geometry, d: Disk)
    requires GoodHead(g, d)
    ensures g.Ok() && |d| == g.blocks
  {}

  /** A commit makes the cached file system durable exactly when every block that
      differs from the disk was logged. */
  lemma DurableIfLogged(g: Geometry, d: Disk, bs: seq<int>, view: Disk, k: nat)
    requires GoodHead(g, d) && Head(g, d) == [] && Loggable(g, bs) && |view| == g.blocks
    requires |bs| < k <= CommitLength(|bs|)
    ensures GoodHead(g, CommitDisk(g, d, bs, view, k))
    ensures SameHome(g, Redo(g, CommitDisk(g, d, bs, view, k)), view) <==> ViewOf(g, d, bs, view)
  {
    hide CommitDisk, Redo, Head, GoodHead, Loggable, Masked;
    GoodHeadSize(g, d);
    CommitLogged(g, d, bs, view, k);
    var r, m := Redo(g, CommitDisk(g, d, bs, view, k)), Masked(d, bs, view);
    forall b | g.Home(b) && b !in bs ensures m[b] == d[b] {}
    if SameHome(g, r, view) {
      forall b | g.Home(b) && b !in bs ensures view[b] == d[b] {
        assert r[b] == m[b];
      }
    }
    if ViewOf(g, d, bs, view) {
      forall b | g.Home(b) ensures r[b] == view[b] {
        assert r[b] == m[b];
      }
    }
  }

  /** After its last write the commit has put the cached blocks at home and
      emptied the log. */
  lemma CommitDone(g: Geometry, d: Disk, bs: seq<int>, view: Disk)
    requires GoodHead(g, d) && Head(g, d) == [] && Loggable(g, bs) && ViewOf(g, d, bs, view)
    ensures var e := CommitDisk(g, d, bs, view, CommitLength(|bs|));
            GoodHead(g, e) && Head(g, e) == [] && SameHome(g, e, view)
  {
    if bs == [] {
      assert CommitDisk(g, d, bs, view, 0) == d;
    } else {
      hide LogDisk, HeadDisk, Install, PutEmpty;
      CrashCleared(g, d, bs, view);
    }
  }

  /** The log slot install_trans copies from holds exactly what the cache holds
      for that block: installing changes no cached content. */
  lemma InstalledIsCached(g: Geometry, d: Disk, bs: seq<int>, view: Disk, j: nat)
    requires g.Ok() && |d| == |view| == g.blocks && Loggable(g, bs) && j < |bs|
    ensures Install(g, HeadDisk(g, d, bs, view), bs, j)[g.start + 1 + j] == view[bs[j]]
  {
    hide HeadDisk, Install;
    HeadDiskSlot(g, d, bs, view, j);
    InstallElsewhere(g, HeadDisk(g, d, bs, view), bs, j, g.start + 1 + j);
  }
}

/** filewrite of kernel/file.c: a write cut into transactions, each small enough
    for the log. */
module FileWrite {
  import opened DiskBlock
  import opened FsLayout
  import opened BlockBudget
  import opened FileLayer
  import RedoLog
  import LogReservation

  /** ((MAXOPBLOCKS-1-1-2) / 2) * BSIZE. */
  const MAX_CHUNK: nat := ((RedoLog.MAXOPBLOCKS - 1 - 1 - 2) / 2) * BSIZE

  /** An open file on an inode, in write mode. */
  class File {
    const ip: nat
    var off: nat

    constructor (ip: nat, off: nat)
      ensures this.ip == ip && this.off == off
    {
      this.ip, this.off := ip, off;
    }
  }

  /** What a write of the first k bytes of src at offset off makes of the inodes. */
  ghost predicate Extended(s: Fs, t: Fs, i: nat, off: nat, k: nat) {
    && |t.inodes| == |s.inodes| && i < |s.inodes|
    && (forall j :: 0 <= j < |s.inodes| && j != i ==> t.inodes[j] == s.inodes[j])
    && t.inodes[i] == s.inodes[i].(
         addrs := t.inodes[i].addrs, size := if k == 0 then s.inodes[i].size else Max(s.inodes[i].size, off + k))
  }

  /** A chunk touches at most four data blocks. */
  lemma ChunkSpan(off: nat, n: nat)
    requires n <= MAX_CHUNK
    ensures Span(off, off + n) <= 4
  {}

  /** One transaction: begin_op, writei, advance the offset, end_op. */
  method WriteOnce(fs: FileSystem, f: File, d: seq<int>, avail: nat) returns (r: int, part: nat)
    requires FsOk(fs.St(), fs.owner) && f.ip < |fs.inodes| == |fs.dinodes|
    requires |d| <= MAX_CHUNK && f.off < U32
    modifies fs, f
    ensures FsOk(fs.St(), fs.owner) && f.ip < |fs.inodes| == |fs.dinodes|
    ensures WriteDone(old(fs.St()), fs.St(), f.ip, old(f.off), d, avail, r, part)
    ensures f.off == old(f.off) + (if r == -1 then 0 else r)
    ensures fs.ended == old(fs.ended) + [fs.logged] && (fs.sb.size < BPB ==> |fs.logged| <= 7)
    ensures r != -1 && part > 0 ==> LogsChanges(old(fs.St()), fs.St(), f.ip, old(f.off) + r, part, {}, fs.logged)
    ensures r == -1 || part == 0 ==> Covered(old(fs.disk), fs.disk, fs.logged)
    ensures if r == -1 then fs.dinodes == old(fs.dinodes) && fs.logged == {}
            else fs.dinodes == old(fs.dinodes)[f.ip := fs.inodes[f.ip]] && InodeBlock(fs.sb, f.ip) in fs.logged
    ensures r != -1 ==> Footprint(fs.St(), f.ip, old(f.off), old(f.off) + |d|, old(fs.disk), {}, fs.logged)
  {
    hide WriteDone, LogsChanges, FsOk, Footprint;
    fs.logged := {};
    r, part := fs.Writei(f.ip, d, avail, f.off);
    Refusal(old(fs.St()), fs.St(), f.ip, f.off, d, avail, r, part);
    ChunkSpan(f.off, |d|);
    assert fs.logged - {} == fs.logged;
    if r > 0 {
      f.off := f.off + r;
    }
    fs.ended := fs.ended + [fs.logged];
  }

  lemma Refusal(s: Fs, t: Fs, i: nat, off: nat, d: seq<int>, avail: nat, r: int, part: nat)
    requires WriteDone(s, t, i, off, d, avail, r, part)
    ensures r == -1 ==> t == s
    ensures -1 <= r
  {
    hide Wrote, KeepsSlots, Stops;
  }

  lemma ExtendedMore(s: Fs, t: Fs, u: Fs, i: nat, off: nat, k: nat, m: nat)
    requires Extended(s, t, i, off, k) && Extended(t, u, i, off + k, m)
    ensures Extended(s, u, i, off, k + m)
  {}

  /** t is s with `done` bytes of src written at `off`, and `part` more left behind. */
  ghost predicate Progress(s: Fs, t: Fs, i: nat, off: nat, src: seq<int>, done: nat, part: nat) {
    && done + part <= |src| && Wrote(s, t, i, off, src, done + part) && Extended(s, t, i, off, done)
    && KeepsSlots(s, t) && Within(s, t, i, off, off + |src|)
    && (done > 0 ==> off <= s.inodes[i].size && off + done <= MAXFILE * BSIZE)
  }

  lemma NoProgress(s: Fs, i: nat, off: nat, src: seq<int>)
    requires Shape(s) && i < |s.inodes|
    ensures Progress(s, s, i, off, src, 0, 0)
  {}

  lemma MoreProgress(s: Fs, t: Fs, u: Fs, i: nat, off: nat, src: seq<int>, done: nat, m: nat, avail: nat, r: nat,
          p: nat)
    requires Progress(s, t, i, off, src, done, 0) && done + m <= |src|
    requires WriteDone(t, u, i, off + done, src[done..done + m], avail, r, p)
    ensures Progress(s, u, i, off, src, done + r, p)
  {
    hide Wrote, KeepsSlots, AllSet, MappedRange, Within;
    WroteMore(s, t, u, i, off, src, done, m, r + p);
    WithinMore(s, t, u, i, off, off + |src|, off + done, off + done + m);
    KeepsSlotsMore(s, t, u);
    ExtendedMore(s, t, u, i, off, done, r);
  }

  lemma KeepsSlotsMore(s: Fs, t: Fs, u: Fs)
    requires KeepsSlots(s, t) && KeepsSlots(t, u)
    ensures KeepsSlots(s, u)
  {
    hide SlotAddr;
  }

  /** Something other than a full disk keeps a write of n bytes from completing. */
  ghost predicate Refused(s: Fs, i: nat, off: nat, n: nat, avail: nat)
    requires i < |s.inodes|
  {
    off > s.inodes[i].size || off + n > MAXFILE * BSIZE || avail < n
  }

  /** ... or the disk is full, and a block is missing. */
  ghost predicate OutOfBlocks(t: Fs, i: nat, off: nat, n: nat) {
    AllSet(t, t.sb.size) && !MappedRange(t, i, off, off + n)
  }

  /** Why a turn that falls short does. */
  lemma FellShort(s: Fs, t: Fs, u: Fs, i: nat, off: nat, src: seq<int>, done: nat, m: nat, avail: nat, r: int, p: nat)
    requires Progress(s, t, i, off, src, done, 0) && 0 < m && done + m <= |src| && done <= avail && r != m
    requires WriteDone(t, u, i, off + done, src[done..done + m], avail - done, r, p)
    ensures Refused(s, i, off, |src|, avail) || OutOfBlocks(u, i, off, |src|)
  {
    hide Wrote, KeepsSlots, AllSet, MappedRange, Within;
    if r != -1 && MappedRange(u, i, off, off + |src|) {
      MappedPart(u, i, off, |src|, done, m);
    }
  }

  lemma MappedPart(t: Fs, i: nat, off: nat, n: nat, done: nat, m: nat)
    requires MappedRange(t, i, off, off + n) && done + m <= n
    ensures MappedRange(t, i, off + done, off + done + m)
  {
    forall bn | 0 < m && (off + done) / BSIZE <= bn < MAXFILE && bn * BSIZE < off + done + m
      ensures SlotAddr(t, i, DataSlot(bn)) != 0
    {
      assert SlotAddr(t, i, DataSlot(bn)) != 0;
    }
  }

  /** All the blocks logged by some transactions. */
  ghost function Logs(txs: seq<set<nat>>): set<nat> {
    if txs == [] then {} else Logs(txs[..|txs| - 1]) + txs[|txs| - 1]
  }

  /** Between two states, with e0 and e1 the transactions ended by then: those
      since e0 logged every block that changed, the torn block apart, and none
      of them, on a disk with one bitmap block, logged more than seven. */
  ghost predicate Accounted(d0: seq<Block>, d1: seq<Block>, e0: seq<set<nat>>, e1: seq<set<nat>>, torn: set<nat>,
          one: bool) {
    && e0 <= e1 && Covered(d0, d1, Logs(e1[|e0|..]) + torn)
    && (one ==> forall k :: |e0| <= k < |e1| ==> |e1[k]| <= 7)
  }

  lemma AccountedNone(d: seq<Block>, e: seq<set<nat>>, one: bool)
    ensures Accounted(d, d, e, e, {}, one)
  {}

  lemma AccountedMore(d0: seq<Block>, d1: seq<Block>, d2: seq<Block>, e0: seq<set<nat>>, e1: seq<set<nat>>, l: set<nat>,
                      torn: set<nat>, one: bool)
    requires Accounted(d0, d1, e0, e1, {}, one) && Covered(d1, d2, l + torn) && (one ==> |l| <= 7)
    ensures Accounted(d0, d2, e0, e1 + [l], torn, one)
  {
    var e2 := e1 + [l];
    var was, now := e1[|e0|..], e2[|e0|..];
    assert now == was + [l];
    assert now[..|now| - 1] == was;
    assert Logs(now) == Logs(was) + l;
    hide Logs;
    CoveredMeta(d1, d2, l + torn, Logs(was));
    assert l + torn + Logs(was) == Logs(now) + torn;
    assert Logs(was) + {} <= Logs(now) + torn;
    CoveredMore(d0, d1, d2, Logs(was) + {}, Logs(now) + torn);
  }

  /** The block a torn write left unlogged: mapped before, so not logged. */
  ghost predicate TornAt(s: Fs, t: Fs, i: nat, end: nat, part: nat, torn: set<nat>, last: set<nat>) {
    if part == 0 then torn == {}
    else
      && Shape(s) && Shape(t) && i < |s.inodes| == |t.inodes| && end < MAXFILE * BSIZE && torn == {Torn(t, i, end)}
      && (SlotAddr(s, i, DataSlot(end / BSIZE)) != 0 ==> torn !! last)
  }

  /** filewrite has come this far: `done` bytes written and `part` left behind, all
      that changed logged by the transactions since e0 but for the torn block. */
  ghost predicate Sofar(s: Fs, t: Fs, e0: seq<set<nat>>, e: seq<set<nat>>, i: nat, start: nat, src: seq<int>,
                        avail: nat, done: nat, part: nat, torn: set<nat>) {
    && Progress(s, t, i, start, src, done, part) && i < |s.inodes|
    && done + part <= Min(avail, |src|) && (part > 0 ==> done + part == avail < |src|)
    && Accounted(s.disk, t.disk, e0, e, torn, t.sb.size < BPB)
    && TornAt(s, t, i, start + done, part, torn, LastOf(e)) && Inside(t, i, start, start + |src|, |e0|, e)
  }

  /** The transactions from number n on logged nothing but blocks that the write is
      about, and, unless refused, the inode's block among them. */
  ghost predicate Inside(t: Fs, i: nat, lo: nat, hi: nat, n: nat, e: seq<set<nat>>) {
    && Shape(t) && i < |t.inodes| && n <= |e|
    && forall k :: n <= k < |e| ==> LogsMine(t, i, lo, hi, e[k])
  }

  ghost predicate LogsMine(t: Fs, i: nat, lo: nat, hi: nat, l: set<nat>)
    requires Shape(t) && i < |t.inodes|
  {
    (l == {} || InodeBlock(t.sb, i) in l) && forall x :: x in l ==> FileBlock(t, i, lo, hi, x)
  }

  lemma MineNone(t: Fs, i: nat, lo: nat, hi: nat)
    requires Shape(t) && i < |t.inodes|
    ensures LogsMine(t, i, lo, hi, {})
  {}

  lemma MineStill(t: Fs, u: Fs, i: nat, lo: nat, hi: nat, l: set<nat>)
    requires KeepsSlots(t, u) && t.sb == u.sb && i < |t.inodes| && LogsMine(t, i, lo, hi, l)
    ensures Shape(u) && i < |u.inodes| && LogsMine(u, i, lo, hi, l)
  {
    assert SlotAddr(t, i, NDIRECT) == t.inodes[i].addrs[NDIRECT];
    assert SlotAddr(u, i, NDIRECT) == u.inodes[i].addrs[NDIRECT];
    hide SlotAddr;
    forall x | x in l ensures FileBlock(u, i, lo, hi, x) {
      assert FileBlock(t, i, lo, hi, x);
      if Holder(t, i, lo, hi, x) {
        var bn :| lo / BSIZE <= bn < MAXFILE && bn * BSIZE < hi && SlotAddr(t, i, DataSlot(bn)) == x;
        assert SlotAddr(u, i, DataSlot(bn)) == x;
      }
    }
  }

  lemma MineWider(t: Fs, i: nat, lo: nat, hi: nat, lo': nat, hi': nat, d: seq<Block>, l: set<nat>)
    requires Footprint(t, i, lo', hi', d, {}, l) && InodeBlock(t.sb, i) in l && lo <= lo' && hi' <= hi
    ensures LogsMine(t, i, lo, hi, l)
  {
    hide SlotAddr;
    forall x | x in l ensures FileBlock(t, i, lo, hi, x) {
      assert FileBlock(t, i, lo', hi', x);
      if Holder(t, i, lo', hi', x) {
        var bn :| lo' / BSIZE <= bn < MAXFILE && bn * BSIZE < hi' && SlotAddr(t, i, DataSlot(bn)) == x;
        assert lo / BSIZE <= bn;
      }
    }
  }

  lemma InsideMore(t: Fs, u: Fs, i: nat, lo: nat, hi: nat, n: nat, e: seq<set<nat>>, l: set<nat>)
    requires Inside(t, i, lo, hi, n, e) && KeepsSlots(t, u) && t.sb == u.sb && i < |t.inodes|
    requires Shape(u) && i < |u.inodes| && LogsMine(u, i, lo, hi, l)
    ensures Inside(u, i, lo, hi, n, e + [l])
  {
    hide LogsMine, KeepsSlots;
    var e' := e + [l];
    forall k | n <= k < |e'| ensures LogsMine(u, i, lo, hi, e'[k]) {
      if k < |e| { MineStill(t, u, i, lo, hi, e[k]); }
    }
  }

  lemma SofarNone(s: Fs, e: seq<set<nat>>, i: nat, start: nat, src: seq<int>, avail: nat)
    requires Shape(s) && i < |s.inodes|
    ensures Sofar(s, s, e, e, i, start, src, avail, 0, 0, {})
  {
    hide Wrote, KeepsSlots, Covered;
    NoProgress(s, i, start, src);
    AccountedNone(s.disk, e, s.sb.size < BPB);
  }

  lemma SofarMore(s: Fs, t: Fs, u: Fs, e0: seq<set<nat>>, e: seq<set<nat>>, l: set<nat>, i: nat, start: nat,
                  src: seq<int>, avail: nat, done: nat, m: nat, r: nat, part: nat)
    returns (torn: set<nat>)
    requires Sofar(s, t, e0, e, i, start, src, avail, done, 0, {}) && done + m <= |src| && t.sb == u.sb
    requires WriteDone(t, u, i, start + done, src[done..done + m], avail - done, r, part)
    requires part > 0 ==> LogsChanges(t, u, i, start + done + r, part, {}, l)
    requires part == 0 ==> Covered(t.disk, u.disk, l)
    requires t.sb.size < BPB ==> |l| <= 7
    requires Footprint(u, i, start + done, start + done + m, t.disk, {}, l) && InodeBlock(u.sb, i) in l
    ensures Sofar(s, u, e0, e + [l], i, start, src, avail, done + r, part, torn)
  {
    hide Wrote, Progress, Accounted, WriteDone, LogsChanges, Covered, TornAt, Inside, Footprint, LogsMine;
    MineWider(u, i, start, start + |src|, start + done, start + done + m, t.disk, l);
    TurnKeeps(t, u, i, start + done, src[done..done + m], avail - done, r, part);
    InsideMore(t, u, i, start, start + |src|, |e0|, e, l);
    TurnBound(t, u, i, start + done, src[done..done + m], avail - done, r, part);
    MoreProgress(s, t, u, i, start, src, done, m, avail - done, r, part);
    torn := {};
    if part > 0 {
      torn := TornOf(s, t, u, i, start, src, done, done + r, part, l);
    } else {
      TornNone(s, u, i, start + done + r, l);
      assert l + {} == l;
    }
    AccountedMore(s.disk, t.disk, u.disk, e0, e, l, torn, t.sb.size < BPB);
  }

  lemma TurnKeeps(t: Fs, u: Fs, i: nat, off: nat, d: seq<int>, avail: nat, r: nat, part: nat)
    requires WriteDone(t, u, i, off, d, avail, r, part)
    ensures KeepsSlots(t, u) && Shape(u) && i < |t.inodes| == |u.inodes|
  {
    hide Wrote, KeepsSlots, Stops, Within;
  }

  lemma SofarRefused(s: Fs, t: Fs, e0: seq<set<nat>>, e: seq<set<nat>>, l: set<nat>, i: nat, start: nat, src: seq<int>,
                     avail: nat, done: nat)
    requires Sofar(s, t, e0, e, i, start, src, avail, done, 0, {}) && l == {}
    ensures Sofar(s, t, e0, e + [l], i, start, src, avail, done, 0, {})
  {
    hide Wrote, Progress, Accounted, LogsChanges, LogsMine;
    assert Covered(t.disk, t.disk, l + {});
    assert LogsMine(t, i, start, start + |src|, l) by { MineNone(t, i, start, start + |src|); }
    AccountedMore(s.disk, t.disk, t.disk, e0, e, l, {}, t.sb.size < BPB);
  }

  /** writei does not refuse m bytes at off. */
  ghost predicate AcceptsAt(t: Fs, i: nat, off: nat, m: nat) {
    i < |t.inodes| && off <= t.inodes[i].size && off + m <= MAXFILE * BSIZE
  }

  /** A write of n bytes gets as far as a first writei that is not refused. */
  ghost predicate Accepts(t: Fs, i: nat, off: nat, n: nat) { n > 0 && AcceptsAt(t, i, off, Min(MAX_CHUNK, n)) }

  /** One turn of filewrite's loop. */
  method WriteTurn(fs: FileSystem, f: File, src: seq<int>, avail: nat, start: nat, done: nat, ghost s: Fs,
                   ghost e0: seq<set<nat>>)
    returns (now: nat, part: nat, error: bool, ghost torn: set<nat>, ghost taken: bool)
    requires FsOk(fs.St(), fs.owner) && f.ip < |fs.inodes| == |fs.dinodes|
    requires done < |src| < U32 / 2 && start < U32 / 2 && f.off == start + done && f.ip < |s.inodes|
    requires Sofar(s, fs.St(), e0, fs.ended, f.ip, start, src, avail, done, 0, {})
    modifies fs, f
    ensures FsOk(fs.St(), fs.owner) && f.ip < |fs.inodes| == |fs.dinodes|
    ensures Sofar(s, fs.St(), e0, fs.ended, f.ip, start, src, avail, now, part, torn)
    ensures f.off == start + now && |fs.ended| == |old(fs.ended)| + 1
    ensures if error then done <= now < done + Min(MAX_CHUNK, |src| - done)
            else now == done + Min(MAX_CHUNK, |src| - done) && part == 0 && torn == {}
    ensures error ==> Refused(s, f.ip, start, |src|, avail) || OutOfBlocks(fs.St(), f.ip, start, |src|)
    ensures taken <==> Accepts(old(fs.St()), f.ip, start + done, |src| - done)
    ensures !error ==> taken
    ensures if taken then fs.dinodes == old(fs.dinodes)[f.ip := fs.inodes[f.ip]]
            else fs.dinodes == old(fs.dinodes) && fs.St() == old(fs.St())
    ensures fs.ended == old(fs.ended) + [fs.logged]
  {
    hide FsOk, Sofar, Refused, OutOfBlocks, WriteDone, LogsChanges, Covered, Footprint;
    ghost var t, e := fs.St(), fs.ended;
    var n1 := Min(MAX_CHUNK, |src| - done);
    SofarBound(s, t, e0, e, f.ip, start, src, avail, done);
    var r, p := WriteOnce(fs, f, src[done..done + n1], if avail < done then 0 else avail - done);
    torn := Turned(s, t, fs.St(), e0, e, fs.logged, f.ip, start, src, avail, done, n1, r, p);
    error := r != n1;
    taken := r != -1;
    now, part := done, 0;
    if r != -1 {
      now, part := done + r, p;
    }
  }

  /** What one turn comes to. */
  lemma Turned(s: Fs, t: Fs, u: Fs, e0: seq<set<nat>>, e: seq<set<nat>>, l: set<nat>, i: nat, start: nat, src: seq<int>,
               avail: nat, done: nat, m: nat, r: int, p: nat)
    returns (torn: set<nat>)
    requires Sofar(s, t, e0, e, i, start, src, avail, done, 0, {}) && 0 < m && done + m <= |src| && t.sb == u.sb
    requires done <= avail && i < |s.inodes|
    requires WriteDone(t, u, i, start + done, src[done..done + m], avail - done, r, p)
    requires r != -1 && p > 0 ==> LogsChanges(t, u, i, start + done + r, p, {}, l)
    requires r == -1 || p == 0 ==> Covered(t.disk, u.disk, l)
    requires t.sb.size < BPB ==> |l| <= 7
    requires if r == -1 then l == {}
             else Footprint(u, i, start + done, start + done + m, t.disk, {}, l) && InodeBlock(u.sb, i) in l
    ensures -1 <= r <= m && (r == -1 ==> u == t) && (r == -1 <==> !AcceptsAt(t, i, start + done, m))
    ensures var k, part := if r == -1 then 0 else r, if r == -1 then 0 else p;
            && Sofar(s, u, e0, e + [l], i, start, src, avail, done + k, part, torn) && (part == 0 ==> torn == {})
            && (r == m ==> part == 0)
    ensures r != m ==> Refused(s, i, start, |src|, avail) || OutOfBlocks(u, i, start, |src|)
  {
    hide Sofar, Refused, OutOfBlocks, WriteDone, LogsChanges, Covered, Footprint;
    TurnBound(t, u, i, start + done, src[done..done + m], avail - done, r, p);
    SofarBound(s, t, e0, e, i, start, src, avail, done);
    if r != m {
      FellShort(s, t, u, i, start, src, done, m, avail, r, p);
    }
    if r == -1 {
      torn := {};
      SofarRefused(s, t, e0, e, l, i, start, src, avail, done);
    } else {
      torn := SofarMore(s, t, u, e0, e, l, i, start, src, avail, done, m, r, p);
      SofarTorn(s, u, e0, e + [l], i, start, src, avail, done + r, p, torn);
    }
  }

  lemma SofarBound(s: Fs, t: Fs, e0: seq<set<nat>>, e: seq<set<nat>>, i: nat, start: nat, src: seq<int>, avail: nat,
          done: nat)
    requires Sofar(s, t, e0, e, i, start, src, avail, done, 0, {})
    ensures done <= avail && Progress(s, t, i, start, src, done, 0)
  {
    hide Progress, Accounted, TornAt;
  }

  lemma SofarTorn(s: Fs, t: Fs, e0: seq<set<nat>>, e: seq<set<nat>>, i: nat, start: nat, src: seq<int>, avail: nat,
                  done: nat, part: nat, torn: set<nat>)
    requires Sofar(s, t, e0, e, i, start, src, avail, done, part, torn)
    ensures part == 0 ==> torn == {}
  {
    hide Progress, Accounted, SlotAddr;
  }

  lemma TurnBound(t: Fs, u: Fs, i: nat, off: nat, d: seq<int>, avail: nat, r: int, part: nat)
    requires WriteDone(t, u, i, off, d, avail, r, part)
    ensures -1 <= r && (r == -1 ==> u == t) && (r == -1 <==> !AcceptsAt(t, i, off, |d|))
    ensures r != -1 ==> r + part <= Min(avail, |d|) && (part > 0 ==> r + part == avail < |d|)
  {
    hide Wrote, KeepsSlots, AllSet, MappedRange;
  }

  lemma TornNone(s: Fs, t: Fs, i: nat, end: nat, last: set<nat>)
    ensures TornAt(s, t, i, end, 0, {}, last)
  {}

  lemma TornOf(s: Fs, t: Fs, u: Fs, i: nat, start: nat, src: seq<int>, done: nat, now: nat, part: nat, l: set<nat>)
    returns (torn: set<nat>)
    requires Progress(s, t, i, start, src, done, 0) && LogsChanges(t, u, i, start + now, part, {}, l) && part > 0
    ensures Covered(t.disk, u.disk, l + torn) && TornAt(s, u, i, start + now, part, torn, l)
  {
    hide Wrote, Extended, SlotAddr, Covered;
    torn := {Torn(u, i, start + now)};
    var k := DataSlot((start + now) / BSIZE);
    assert SlotAddr(s, i, k) != 0 ==> SlotAddr(t, i, k) == SlotAddr(s, i, k);
  }

  /** filewrite.  `done` counts the bytes the file offset advanced by; `part` more
      bytes were left behind by a failed copy, in the block `torn`. */
  method Filewrite(fs: FileSystem, f: File, src: seq<int>, avail: nat)
    returns (ret: int, done: nat, part: nat, ghost torn: set<nat>)
    requires FsOk(fs.St(), fs.owner) && f.ip < |fs.inodes| == |fs.dinodes|
    requires |src| < U32 / 2 && f.off < U32 / 2
    modifies fs, f
    ensures FsOk(fs.St(), fs.owner)
    ensures ret == (if done == |src| then |src| else -1)
    ensures f.off == old(f.off) + done
    ensures Sofar(old(fs.St()), fs.St(), old(fs.ended), fs.ended, f.ip, old(f.off), src, avail, done, part, torn)
    ensures |fs.ended| - |old(fs.ended)| == Turns(done, |src|) && (src != [] ==> fs.logged == LastOf(fs.ended))
    ensures if Accepts(old(fs.St()), f.ip, old(f.off), |src|) then fs.dinodes == old(fs.dinodes)[f.ip := fs.inodes[f.ip]]
            else fs.dinodes == old(fs.dinodes) && fs.St() == old(fs.St())
    ensures Shape(old(fs.St())) && f.ip < |old(fs.inodes)|
    ensures src != [] ==>
              (done == |src| <==>
                 && !Refused(old(fs.St()), f.ip, old(f.off), |src|, avail)
                 && |FreeBlocks(old(fs.St()))| >= |Lack(old(fs.St()), f.ip, old(f.off), old(f.off) + |src|)|)
  {
    hide Sofar, FsOk, Refused, OutOfBlocks, Turns, Paced, FreeBlocks, Lack, Accepts;
    var n, start := |src|, f.off;
    ghost var s, e := fs.St(), fs.ended;
    Sound(s, fs.owner);
    SofarNone(s, e, f.ip, start, src, avail);
    done, part, torn := 0, 0, {};
    var error := false;
    ghost var turns: nat, taken := 0, false;
    PacedStart(n);
    EmptyTaken(s, f.ip, start);
    while done < n && !error
      invariant FsOk(fs.St(), fs.owner) && f.ip < |fs.inodes| == |fs.dinodes| && f.ip < |s.inodes|
      invariant Sofar(s, fs.St(), e, fs.ended, f.ip, start, src, avail, done, part, torn) && f.off == start + done
      invariant Paced(turns, done, n, error) && |fs.ended| == |e| + turns
      invariant if error then done < n else done <= n && part == 0 && torn == {}
      invariant error ==> Refused(s, f.ip, start, n, avail) || OutOfBlocks(fs.St(), f.ip, start, n)
      invariant turns == 0 ==> !error && !taken && done == 0 && fs.St() == s && fs.dinodes == old(fs.dinodes)
      invariant turns > 0 ==> fs.logged == LastOf(fs.ended) && (!error ==> taken) && (taken <==> Accepts(s, f.ip, start, n))
      invariant turns > 0 ==> if taken then fs.dinodes == old(fs.dinodes)[f.ip := fs.inodes[f.ip]]
                              else fs.dinodes == old(fs.dinodes) && fs.St() == s
      decreases !error, n - done
    {
      ghost var was := done;
      ghost var now;
      done, part, error, torn, now := WriteTurn(fs, f, src, avail, start, done, s, e);
      taken := taken || now;
      PacedMore(turns, was, n, done, error);
      turns := turns + 1;
    }
    PacedEnd(turns, done, n, error);
    if n > 0 { Decided(s, fs.St(), old(fs.owner), fs.owner, e, fs.ended, f.ip, start, src, avail, done, part, torn); }
    ret := if done == n then n else -1;
  }

  lemma EmptyTaken(s: Fs, i: nat, off: nat)
    ensures !Accepts(s, i, off, 0)
  {}

  lemma Sound(s: Fs, owner: Owner)
    requires FsOk(s, owner)
    ensures Shape(s)
  {}

  /** After some turns, each but one that failed has written a full chunk, or all
      that was left. */
  predicate Paced(turns: nat, done: nat, n: nat, error: bool) {
    if error then done < n && turns > 0 && (turns - 1) * MAX_CHUNK <= done < turns * MAX_CHUNK
    else done == Min(turns * MAX_CHUNK, n) && turns * MAX_CHUNK < n + MAX_CHUNK
  }

  lemma PacedStart(n: nat)
    ensures Paced(0, 0, n, false)
  {}

  lemma PacedMore(turns: nat, done: nat, n: nat, now: nat, error: bool)
    requires Paced(turns, done, n, false) && done < n
    requires if error then done <= now < done + Min(MAX_CHUNK, n - done) else now == done + Min(MAX_CHUNK, n - done)
    ensures Paced(turns + 1, now, n, error)
  {}

  lemma PacedEnd(turns: nat, done: nat, n: nat, error: bool)
    requires Paced(turns, done, n, error) && (done >= n || error)
    ensures turns == Turns(done, n)
  {}

  ghost function LastOf(e: seq<set<nat>>): set<nat> { if e == [] then {} else e[|e| - 1] }

  /** How many transactions a write of n bytes takes that gets as far as done. */
  function Turns(done: nat, n: nat): nat {
    if done < n then done / MAX_CHUNK + 1 else (n + MAX_CHUNK - 1) / MAX_CHUNK
  }

  lemma Completed(s: Fs, t: Fs, e0: seq<set<nat>>, e: seq<set<nat>>, i: nat, start: nat, src: seq<int>, avail: nat,
                  done: nat, part: nat, torn: set<nat>)
    requires Sofar(s, t, e0, e, i, start, src, avail, done, part, torn) && src != []
    ensures i < |s.inodes| == |t.inodes| && KeepsSlots(s, t) && Within(s, t, i, start, start + |src|)
    ensures done == |src| ==> !Refused(s, i, start, |src|, avail) && start + |src| <= t.inodes[i].size
  {
    hide Wrote, KeepsSlots, Accounted, TornAt, Within;
  }

  /** filewrite completes exactly when nothing refuses it and the free blocks cover
      what the whole range lacks, however many transactions it is cut into. */
  lemma Decided(s: Fs, t: Fs, o: Owner, o': Owner, e0: seq<set<nat>>, e: seq<set<nat>>, i: nat, start: nat,
                src: seq<int>, avail: nat, done: nat, part: nat, torn: set<nat>)
    requires FsOk(s, o) && FsOk(t, o') && Sofar(s, t, e0, e, i, start, src, avail, done, part, torn) && src != []
    requires done <= |src| && i < |s.inodes|
    requires done < |src| ==> Refused(s, i, start, |src|, avail) || OutOfBlocks(t, i, start, |src|)
    ensures done == |src| <==>
            !Refused(s, i, start, |src|, avail) && |FreeBlocks(s)| >= |Lack(s, i, start, start + |src|)|
  {
    hide Sofar, Consistent, AllSet, MappedRange, Within, KeepsSlots, FreeBlocks, Lack;
    Completed(s, t, e0, e, i, start, src, avail, done, part, torn);
    if done == |src| {
      SizeMapped(t, o', i, start, start + |src|);
    }
    if !Refused(s, i, start, |src|, avail) {
      BlocksDecide(s, t, o, o', i, start, start + |src|);
    }
  }

  /** Every transaction of filewrite fits begin_op's reservation on the log that
      mkfs builds: seven blocks are within the exact limit. */
  lemma ChunkFitsLog(g: RedoLog.Geometry)
    requires g.size == RedoLog.LOGSIZE
    ensures LogReservation.Peak(7) < g.Capacity()
  {}

  /** A write that succeeds completely changes the file as one splice, whatever
      the number of transactions, and no other file. */
  lemma FilewriteMeaning(s: Fs, t: Fs, i: nat, off: nat, src: seq<int>)
    requires Shape(s) && Shape(t) && i < |s.inodes| && off + |src| <= MAXFILE * BSIZE && src != []
    requires forall j :: 0 <= j < |s.inodes| ==> s.inodes[j].size <= MAXFILE * BSIZE
    requires off <= s.inodes[i].size && Progress(s, t, i, off, src, |src|, 0)
    ensures t.inodes[i].size <= MAXFILE * BSIZE
    ensures Content(t, i) == Splice(Content(s, i), off, src)
    ensures forall j :: 0 <= j < |s.inodes| && j != i ==> t.inodes[j] == s.inodes[j] && Content(t, j) == Content(s, j)
  {
    WriteMeaning(s, t, i, off, src);
  }
}

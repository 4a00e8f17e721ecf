/** kernel/log.c as code: the in-memory `log` structure, the loops that copy
    blocks and headers, and the disk they write.  `trace` records every state the
    disk passes through, so that a contract can speak of a crash after each one. */
module LogDriver {
  import opened DiskBlock
  import opened RedoLog
  import GroupCommit

  /** The disk states commit() passes through while it writes k log slots. */
  ghost function LogTrace(g: Geometry, d: Disk, bs: seq<int>, view: Disk, k: nat): seq<Disk>
    requires g.Ok() && |d| == |view| == g.blocks && Loggable(g, bs) && k <= |bs|
  {
    if k == 0 then [] else LogTrace(g, d, bs, view, k - 1) + [LogDisk(g, d, bs, view, k)]
  }

  /** The disk states install_trans passes through while it copies k blocks. */
  ghost function InstallTrace(g: Geometry, d: Disk, bs: seq<int>, k: nat): seq<Disk>
    requires g.Ok() && |d| == g.blocks && Loggable(g, bs) && k <= |bs|
  {
    if k == 0 then [] else InstallTrace(g, d, bs, k - 1) + [Install(g, d, bs, k)]
  }

  lemma {:induction false} LogTraceAt(g: Geometry, d: Disk, bs: seq<int>, view: Disk, k: nat, i: nat)
    requires g.Ok() && |d| == |view| == g.blocks && Loggable(g, bs) && k <= |bs|
    ensures |LogTrace(g, d, bs, view, k)| == k
    ensures i < k ==> LogTrace(g, d, bs, view, k)[i] == LogDisk(g, d, bs, view, i + 1)
    decreases k
  {
    hide LogDisk;
    if k > 0 {
      LogTraceAt(g, d, bs, view, k - 1, i);
    }
  }

  lemma {:induction false} InstallTraceAt(g: Geometry, d: Disk, bs: seq<int>, k: nat, i: nat)
    requires g.Ok() && |d| == g.blocks && Loggable(g, bs) && k <= |bs|
    ensures |InstallTrace(g, d, bs, k)| == k
    ensures i < k ==> InstallTrace(g, d, bs, k)[i] == Install(g, d, bs, i + 1)
    decreases k
  {
    hide Install;
    if k > 0 {
      InstallTraceAt(g, d, bs, k - 1, i);
    }
  }

  /** `trace` goes on from tr with the disk states of a whole commit, one for each of
      its block writes. */
  ghost predicate Commits(g: Geometry, d: Disk, bs: seq<int>, view: Disk, tr: seq<Disk>, trace: seq<Disk>)
    requires g.Ok() && |d| == |view| == g.blocks && Loggable(g, bs)
  {
    && |trace| == |tr| + CommitLength(|bs|) && tr <= trace
    && forall i :: |tr| <= i < |trace| ==> trace[i] == CommitDisk(g, d, bs, view, i - |tr| + 1)
  }

  /** ... or of a whole recovery. */
  ghost predicate Recovers(g: Geometry, d: Disk, tr: seq<Disk>, trace: seq<Disk>)
    requires GoodHead(g, d)
  {
    && |trace| == |tr| + |Head(g, d)| + 1 && tr <= trace
    && forall i :: |tr| <= i < |trace| ==> trace[i] == RecoverDisk(g, d, i - |tr| + 1)
  }

  datatype Outcome = Done | Sleep | Panic

  class Log {
    const g: Geometry
    var disk: Disk
    var view: Disk            // the buffer cache's content, block by block
    var n: int                // log.lh.n
    const block: array<int>   // log.lh.block
    var outstanding: int
    var committing: bool
    ghost var trace: seq<Disk>

    constructor (g: Geometry, disk: Disk)
      requires g.Ok() && |disk| == g.blocks
      ensures Valid() && this.g == g && this.disk == disk && view == disk && n == 0
      ensures outstanding == 0 && !committing && trace == [] && fresh(block)
    {
      this.g, this.disk, view, n := g, disk, disk, 0;
      block := new int[LOGSIZE];
      outstanding, committing, trace := 0, false, [];
    }

    ghost predicate Valid()
      reads this, block
    {
      && g.Ok() && |disk| == |view| == g.blocks
      && block.Length == LOGSIZE && 0 <= n <= LOGSIZE
      && Loggable(g, Lh())
    }

    ghost function Lh(): seq<int>
      reads this, block
      requires block.Length == LOGSIZE && 0 <= n <= LOGSIZE
    {
      block[..n]
    }

    /** The structure is that of the protocol state s, outside of recovery. */
    ghost predicate Mirrors(s: GroupCommit.State)
      reads this, block
    {
      && Valid() && s.disk == disk && s.view == view && s.lh == Lh()
      && GroupCommit.Outstanding(s.procs) == outstanding
      && !s.mode.Recovering? && (s.mode.Committing? <==> committing)
    }

    method Bwrite(at: nat, data: Block)
      requires at < |disk|
      modifies this`disk, this`trace
      ensures disk == old(disk)[at := data] && trace == old(trace) + [disk]
    {
      disk := disk[at := data];
      trace := trace + [disk];
    }

    /** Copy the in-memory header into the header block and write it. */
    method WriteHead()
      requires Valid()
      modifies this`disk, this`trace
      ensures Valid()
      ensures disk == old(disk)[g.start := EncodeHead(old(disk[g.start]), Lh())]
      ensures trace == old(trace) + [disk]
    {
      hide SetWord;
      var hb: Block := SetWord(disk[g.start], 0, n);
      var i := 0;
      while i < n
        invariant 0 <= i <= n && hb == SetWords(SetWord(disk[g.start], 0, n), Lh(), i)
      {
        hb := SetWord(hb, i + 1, block[i]);
        i := i + 1;
      }
      Bwrite(g.start, hb);
    }

    /** Copy the header on disk into memory. */
    method ReadHead()
      requires Valid() && GoodHead(g, disk)
      modifies this`n, block
      ensures Valid() && Lh() == Head(g, disk)
    {
      hide Word;
      var lh := disk[g.start];
      n := Word(lh, 0);
      var i := 0;
      while i < n
        invariant 0 <= i <= n == Word(lh, 0)
        invariant forall j :: 0 <= j < i ==> block[j] == Word(lh, j + 1)
      {
        block[i] := Word(lh, i + 1);
        i := i + 1;
      }
      assert Lh() == Words(lh, n);
    }

    /** write_log: one log slot after another takes the cached content of its block. */
    method WriteLog()
      requires Valid()
      modifies this`disk, this`trace
      ensures Valid()
      ensures disk == LogDisk(g, old(disk), Lh(), view, n)
      ensures trace == old(trace) + LogTrace(g, old(disk), Lh(), view, n)
    {
      var tail := 0;
      while tail < n
        invariant 0 <= tail <= n && |disk| == g.blocks && Valid()
        invariant disk == LogDisk(g, old(disk), Lh(), view, tail)
        invariant trace == old(trace) + LogTrace(g, old(disk), Lh(), view, tail)
      {
        Bwrite(g.start + tail + 1, view[block[tail]]);
        tail := tail + 1;
      }
    }

    /** install_trans: each block named by the header takes the content of its log
        slot, on disk and in the cache. */
    method InstallTrans()
      requires Valid()
      modifies this`disk, this`view, this`trace
      ensures Valid()
      ensures disk == Install(g, old(disk), Lh(), n)
      ensures view == Refresh(g, old(view), old(disk), Lh(), n)
      ensures trace == old(trace) + InstallTrace(g, old(disk), Lh(), n)
    {
      ghost var d := disk;
      var tail := 0;
      while tail < n
        invariant 0 <= tail <= n && Valid()
        invariant disk == Install(g, d, Lh(), tail)
        invariant view == Refresh(g, old(view), d, Lh(), tail)
        invariant trace == old(trace) + InstallTrace(g, d, Lh(), tail)
      {
        var lbuf, home := disk[g.start + tail + 1], block[tail];
        InstallElsewhere(g, d, Lh(), tail, g.start + tail + 1);
        assert Lh()[tail] == home;
        view := view[home := lbuf];
        Bwrite(home, lbuf);
        tail := tail + 1;
      }
    }

    /** Recovery at boot.  The disk ends as the redone file system with an empty
        log, and a crash after any of the writes on the way would recover to the
        same file system again. */
    method RecoverFromLog()
      requires Valid() && GoodHead(g, disk) && view == disk
      modifies this`disk, this`view, this`trace, this`n, block
      ensures Valid() && n == 0
      ensures GoodHead(g, disk) && Head(g, disk) == [] && SameHome(g, disk, Redo(g, old(disk)))
      ensures SameHome(g, view, disk)
      ensures Recovers(g, old(disk), old(trace), trace) && disk == trace[|trace| - 1]
      ensures forall i :: |old(trace)| <= i < |trace| ==>
                GoodHead(g, trace[i]) && SameHome(g, Redo(g, trace[i]), Redo(g, old(disk)))
    {
      ghost var d, tr := disk, trace;
      ReadHead();
      InstallTrans();
      n := 0;
      assert Lh() == [];
      WriteHead();
      assert disk == PutEmpty(g, Redo(g, d));
      RefreshRecovered(g, d, Head(g, d), |Head(g, d)|);
      RecoveryDone(g, d);
      RecoverTraceSafe(g, d, tr, trace);
    }

    /** commit(): the cached blocks reach home, the log is empty again, and a
        crash after any block write recovers to the old file system before the
        header write (number n + 1) and to the new one from it on. */
    method Commit()
      requires Valid() && GoodHead(g, disk) && Head(g, disk) == []
      requires ViewOf(g, disk, Lh(), view)
      modifies this`disk, this`view, this`trace, this`n
      ensures Valid() && n == 0 && view == old(view)
      ensures GoodHead(g, disk) && Head(g, disk) == [] && SameHome(g, disk, view)
      ensures Commits(g, old(disk), old(Lh()), view, old(trace), trace)
      ensures disk == CommitDisk(g, old(disk), old(Lh()), view, CommitLength(old(n)))
      ensures forall i :: |old(trace)| <= i < |trace| ==>
                && GoodHead(g, trace[i])
                && SameHome(g, Redo(g, trace[i]), if i - |old(trace)| < old(n) then old(disk) else view)
    {
      ghost var d, tr, bs, v := disk, trace, Lh(), view;
      if n > 0 {
        WriteLog();
        WriteHead();
        assert disk == HeadDisk(g, d, bs, v);
        InstallTrans();
        RefreshCommitted(g, d, bs, v, n);
        n := 0;
        assert Lh() == [];
        WriteHead();
        CrashCleared(g, d, bs, v);
        CommitTraceSafe(g, d, bs, v, tr, trace);
      }
    }

    /** log_write of a buffer whose content is now `data`: absorb a block already in the
        log, append a new one, or panic.  For a process p inside an operation of the
        protocol these are its steps Modify and LogWrite, by way of u to t. */
    method LogWrite(b: int, data: Block, ghost s: GroupCommit.State, ghost p: nat, ghost limit: nat)
      returns (r: Outcome, ghost u: GroupCommit.State, ghost t: GroupCommit.State)
      requires Valid() && g.Home(b)
      modifies this`n, this`view, block
      ensures r == if old(n) >= g.Capacity() || outstanding < 1 then Panic else Done
      ensures r.Panic? ==> n == old(n) && view == old(view) && block[..] == old(block[..])
      ensures r.Done? ==> Valid() && Lh() == (if b in old(Lh()) then old(Lh()) else old(Lh()) + [b])
      ensures r.Done? ==> view == old(view)[b := data]
      ensures old(Mirrors(s)) ==> (r.Panic? <==> GroupCommit.LogWritePanics(g, s))
      ensures r.Done? && old(Mirrors(s)) && MayLog(s, p, b, limit) ==>
        GroupCommit.Modify(g, s, u, p, b, data) && GroupCommit.LogWrite(g, limit, u, t, p, b) && Mirrors(t)
    {
      u, t := s, s;
      if n >= LOGSIZE || n >= g.size - 1 {
        return Panic, s, s;
      }
      if outstanding < 1 {
        return Panic, s, s;
      }
      var i := 0;
      while i < n && block[i] != b
        invariant 0 <= i <= n
        invariant forall j :: 0 <= j < i ==> block[j] != b
      {
        i := i + 1;
      }
      ghost var was := Lh();
      assert i < n ==> was[i] == b;
      block[i] := b;
      if i == n {
        n := n + 1;
        assert Lh() == was + [b];
      } else {
        assert Lh() == was;
      }
      view := view[b := data];
      r := Done;
      if old(Mirrors(s)) && MayLog(s, p, b, limit) {
        u, t := Changed(s, p, b, data), LoggedBy(Changed(s, p, b, data), p, b);
        LogSteps(g, s, p, b, data, limit);
      }
    }

    /** One turn of begin_op's loop, for the process p of the protocol: it takes
        the protocol's begin step, or sleeps because that step is not enabled.
        With it, every operation in progress has room for its ten blocks. */
    method BeginOp(ghost s: GroupCommit.State, ghost p: nat) returns (r: Outcome, ghost t: GroupCommit.State)
      requires Mirrors(s) && p < |s.procs| && s.procs[p].Outside?
      modifies this`outstanding
      ensures r.Done? ==> GroupCommit.Begin(s, t, p) && Mirrors(t) && n + outstanding * MAXOPBLOCKS <= LOGSIZE
      ensures !r.Done? ==> r.Sleep? && outstanding == old(outstanding) && forall u :: !GroupCommit.Begin(s, u, p)
    {
      t := s;
      if committing {
        r := Sleep;
      } else if n + (outstanding + 1) * MAXOPBLOCKS > LOGSIZE {
        r := Sleep;
      } else {
        t := s.(procs := s.procs[p := GroupCommit.Inside(GroupCommit.Op(s.nextOp, {}, {}, 0))], nextOp := s.nextOp + 1);
        OneMoreInside(s.procs, p, t.procs[p]);
        outstanding := outstanding + 1;
        r := Done;
      }
    }

    /** end_op, for the process p of the protocol.  It takes the protocol's end step.
        The last operation out commits everything logged so far: one block write
        after the other, each the protocol's own, and then the finishing step. */
    method EndOp(ghost s: GroupCommit.State, ghost p: nat) returns (r: Outcome, ghost t: GroupCommit.State)
      requires Mirrors(s) && GroupCommit.InsideAt(s, p) && s.procs[p].op.dirty == {}
      requires !committing && outstanding == 1 ==> GoodHead(g, disk) && Head(g, disk) == [] && ViewOf(g, disk, Lh(), view)
      modifies this
      ensures r == if old(committing) then Panic else Done
      ensures outstanding == old(outstanding) - 1 && view == old(view)
      ensures r.Panic? ==> GroupCommit.EndPanics(s) && committing && disk == old(disk) && n == old(n) && trace == old(trace)
      ensures r.Done? ==> Mirrors(t) && !committing
      ensures r.Done? && outstanding != 0 ==>
        GroupCommit.End(s, t, p) && disk == old(disk) && n == old(n) && trace == old(trace)
      ensures r.Done? && outstanding == 0 ==>
        && n == 0 && Commits(g, old(disk), old(Lh()), view, old(trace), trace)
        && disk == CommitDisk(g, old(disk), old(Lh()), view, CommitLength(old(n)))
        && SameHome(g, disk, view) && GoodHead(g, disk) && Head(g, disk) == []
      ensures r.Done? && outstanding == 0 ==> CommitRun(g, s, t, p) && |s.lh| == old(n)
    {
      hide CommitDisk, CommitRun, Commits, Head, GoodHead, ViewOf, Redo;
      var doCommit;
      r, doCommit, t := LeaveOp(s, p);
      if doCommit {
        CommitRunOk(g, s, p);
        Commit();
        committing := false;
        t := Finished(g, t);
      }
    }

    /** The section of end_op under log.lock: the protocol's end step, after which the
        last operation out is to commit, and nobody else begins. */
    method LeaveOp(ghost s: GroupCommit.State, ghost p: nat)
      returns (r: Outcome, doCommit: bool, ghost t: GroupCommit.State)
      requires Mirrors(s) && GroupCommit.InsideAt(s, p) && s.procs[p].op.dirty == {}
      modifies this`outstanding, this`committing
      ensures r == (if old(committing) then Panic else Done) && outstanding == old(outstanding) - 1
      ensures r.Panic? ==> GroupCommit.EndPanics(s) && committing && !doCommit
      ensures r.Done? ==> GroupCommit.End(s, t, p) && t == Ended(s, p) && Mirrors(t) && doCommit == committing
    {
      OneLessInside(s.procs, p);
      t := Ended(s, p);
      doCommit := false;
      outstanding := outstanding - 1;
      if committing {
        return Panic, false, t;
      }
      if outstanding == 0 {
        doCommit := true;
        committing := true;
      }
      r := Done;
    }
  }

  // ------------------------------------------------------ log_write in the protocol

  /** Process p is inside an operation that may change block b, and log it. */
  ghost predicate MayLog(s: GroupCommit.State, p: nat, b: nat, limit: nat) {
    && GroupCommit.InsideAt(s, p) && !GroupCommit.DirtyIn(s.procs[p := GroupCommit.Outside], b)
    && |s.procs[p].op.logged + {b}| <= limit
  }

  ghost function Changed(s: GroupCommit.State, p: nat, b: nat, v: Block): GroupCommit.State
    requires GroupCommit.InsideAt(s, p) && b < |s.view|
  {
    var op := s.procs[p].op;
    s.(view := s.view[b := v], hist := s.hist + [GroupCommit.Change(op.id, b, v)],
       procs := s.procs[p := GroupCommit.Inside(op.(dirty := op.dirty + {b}))])
  }

  ghost function LoggedBy(s: GroupCommit.State, p: nat, b: nat): GroupCommit.State
    requires GroupCommit.InsideAt(s, p)
  {
    s.(lh := if b in s.lh then s.lh else s.lh + [b],
       procs := s.procs[p := GroupCommit.Inside(GroupCommit.Logged(s.procs[p].op, b, b !in s.lh))])
  }

  lemma LogSteps(g: Geometry, s: GroupCommit.State, p: nat, b: nat, v: Block, limit: nat)
    requires g.Home(b) && b < |s.view| == g.blocks && MayLog(s, p, b, limit) && !GroupCommit.LogWritePanics(g, s)
    ensures var u := Changed(s, p, b, v); var t := LoggedBy(u, p, b);
      && GroupCommit.Modify(g, s, u, p, b, v) && GroupCommit.LogWrite(g, limit, u, t, p, b)
      && GroupCommit.Outstanding(t.procs) == GroupCommit.Outstanding(s.procs)
  {
    var u := Changed(s, p, b, v);
    SameInside(s.procs, p, u.procs[p]);
    SameInside(u.procs, p, LoggedBy(u, p, b).procs[p]);
    assert u.procs[p := GroupCommit.Outside] == s.procs[p := GroupCommit.Outside];
  }

  lemma {:induction false} SameInside(ps: seq<GroupCommit.Proc>, p: nat, q: GroupCommit.Proc)
    requires p < |ps| && ps[p].Inside? && q.Inside?
    ensures GroupCommit.Outstanding(ps[p := q]) == GroupCommit.Outstanding(ps)
  {
    var n := |ps| - 1;
    if p < n {
      SameInside(ps[..n], p, q);
      assert ps[p := q][..n] == ps[..n][p := q];
    } else {
      assert ps[p := q][..n] == ps[..n];
    }
  }

  // --------------------------------------------------------- end_op in the protocol

  /** The state after the protocol's end step of process p. */
  ghost function Ended(s: GroupCommit.State, p: nat): GroupCommit.State
    requires GroupCommit.InsideAt(s, p)
  {
    var ps := s.procs[p := GroupCommit.Outside];
    s.(procs := ps, mode := if GroupCommit.Outstanding(ps) == 0 then GroupCommit.Committing(0, s.disk) else s.mode)
  }

  /** The state after k block writes of the commit that begins in e. */
  ghost function Halfway(g: Geometry, e: GroupCommit.State, k: nat): GroupCommit.State
    requires g.Ok() && |e.disk| == |e.view| == g.blocks && Loggable(g, e.lh) && k <= CommitLength(|e.lh|)
  {
    e.(disk := CommitDisk(g, e.disk, e.lh, e.view, k), mode := GroupCommit.Committing(k, e.disk),
       done := if k > |e.lh| then |e.hist| else e.done)
  }

  ghost function Finished(g: Geometry, e: GroupCommit.State): GroupCommit.State
    requires g.Ok() && |e.disk| == |e.view| == g.blocks && Loggable(g, e.lh)
  {
    Halfway(g, e, CommitLength(|e.lh|)).(lh := [], mode := GroupCommit.Running)
  }

  /** From s to t the protocol ends the operation of p, makes every block write of
      the commit and finishes it. */
  ghost predicate CommitRun(g: Geometry, s: GroupCommit.State, t: GroupCommit.State, p: nat) {
    && GroupCommit.InsideAt(s, p) && g.Ok() && |s.disk| == |s.view| == g.blocks && Loggable(g, s.lh)
    && var e, n := Ended(s, p), CommitLength(|s.lh|);
       && GroupCommit.End(s, e, p) && e == Halfway(g, e, 0)
       && (forall k: nat :: k < n ==> GroupCommit.CommitStep(g, Halfway(g, e, k), Halfway(g, e, k + 1)))
       && GroupCommit.Finish(Halfway(g, e, n), t)
  }

  lemma HalfwayStep(g: Geometry, e: GroupCommit.State, k: nat)
    requires g.Ok() && |e.disk| == |e.view| == g.blocks && Loggable(g, e.lh) && k < CommitLength(|e.lh|)
    ensures GroupCommit.CommitStep(g, Halfway(g, e, k), Halfway(g, e, k + 1))
  {
    hide LogDisk, HeadDisk, Install, PutEmpty, EncodeHead;
    var n := |e.lh|;
    CommitDiskStep(g, e.disk, e.lh, e.view, k);
    if n < k <= 2 * n {
      InstalledIsCached(g, e.disk, e.lh, e.view, k - n - 1);
      assert e.view[e.lh[k - n - 1] := e.view[e.lh[k - n - 1]]] == e.view;
    }
  }

  lemma CommitRunOk(g: Geometry, s: GroupCommit.State, p: nat)
    requires GroupCommit.InsideAt(s, p) && g.Ok() && |s.disk| == |s.view| == g.blocks && Loggable(g, s.lh)
    requires s.mode.Running? && s.procs[p].op.dirty == {}
    requires GroupCommit.Outstanding(s.procs[p := GroupCommit.Outside]) == 0
    ensures CommitRun(g, s, Finished(g, Ended(s, p)), p)
  {
    hide CommitDisk, GroupCommit.CommitStep;
    var e := Ended(s, p);
    forall k: nat | k < CommitLength(|s.lh|) ensures GroupCommit.CommitStep(g, Halfway(g, e, k), Halfway(g, e, k + 1)) {
      HalfwayStep(g, e, k);
    }
    CommitDiskNone(g, e.disk, e.lh, e.view);
  }

  lemma CommitDiskNone(g: Geometry, d: Disk, bs: seq<int>, view: Disk)
    requires g.Ok() && |d| == |view| == g.blocks && Loggable(g, bs)
    ensures CommitDisk(g, d, bs, view, 0) == d
  {}

  /** What end_op needs of the disk and the cache when the last operation leaves
      holds in every state the protocol reaches. */
  lemma LastOut(g: Geometry, limit: nat, s: GroupCommit.State, p: nat)
    requires GroupCommit.Inv(g, limit, s) && GroupCommit.InsideAt(s, p) && s.procs[p].op.dirty == {}
    requires GroupCommit.Outstanding(s.procs) == 1
    ensures s.mode.Running? && GoodHead(g, s.disk) && Head(g, s.disk) == [] && ViewOf(g, s.disk, s.lh, s.view)
  {
    hide GoodHead, Head, GroupCommit.Apply, GroupCommit.NoneSplit;
    GroupCommit.BusyRuns(g, limit, s, p);
    OneLessInside(s.procs, p);
    var ps := s.procs[p := GroupCommit.Outside];
    GroupCommit.QuietIsZero(ps);
    forall q | 0 <= q < |s.procs| && q != p ensures s.procs[q].Outside? {
      assert ps[q] == s.procs[q];
    }
    assert forall b: nat :: !GroupCommit.DirtyIn(s.procs, b);
  }

  lemma OneLessInside(ps: seq<GroupCommit.Proc>, p: nat)
    requires p < |ps| && ps[p].Inside?
    ensures GroupCommit.Outstanding(ps[p := GroupCommit.Outside]) == GroupCommit.Outstanding(ps) - 1
  {
    var qs := ps[p := GroupCommit.Outside];
    OneMoreInside(qs, p, ps[p]);
    assert qs[p := ps[p]] == ps;
  }

  lemma {:induction false} OneMoreInside(ps: seq<GroupCommit.Proc>, p: nat, q: GroupCommit.Proc)
    requires p < |ps| && ps[p].Outside? && q.Inside?
    ensures GroupCommit.Outstanding(ps[p := q]) == GroupCommit.Outstanding(ps) + 1
    decreases |ps|
  {
    var k := |ps| - 1;
    if p == k {
      assert ps[p := q][..k] == ps[..k];
    } else {
      OneMoreInside(ps[..k], p, q);
      assert ps[p := q][..k] == ps[..k][p := q];
    }
  }

  // ------------------------------------------------------- safety of traces

  /** Every traced state of a recovery recovers to the same file system. */
  lemma RecoverTraceSafe(g: Geometry, d: Disk, tr: seq<Disk>, trace: seq<Disk>)
    requires GoodHead(g, d)
    requires trace == tr + InstallTrace(g, d, Head(g, d), |Head(g, d)|) + [PutEmpty(g, Redo(g, d))]
    ensures Recovers(g, d, tr, trace)
    ensures forall i :: |tr| <= i < |trace| ==>
              GoodHead(g, trace[i]) && SameHome(g, Redo(g, trace[i]), Redo(g, d))
  {
    hide InstallTrace, Install, PutEmpty, Redo;
    var n := |Head(g, d)|;
    InstallTraceAt(g, d, Head(g, d), n, 0);
    forall i | |tr| <= i < |trace|
      ensures trace[i] == RecoverDisk(g, d, i - |tr| + 1)
      ensures GoodHead(g, trace[i]) && SameHome(g, Redo(g, trace[i]), Redo(g, d))
    {
      InstallTraceAt(g, d, Head(g, d), n, i - |tr|);
      RecoveryCrash(g, d, i - |tr| + 1);
    }
  }

  /** Every traced state of a commit recovers to the old or the new file system. */
  lemma CommitTraceSafe(g: Geometry, d: Disk, bs: seq<int>, view: Disk, tr: seq<Disk>, trace: seq<Disk>)
    requires GoodHead(g, d) && Head(g, d) == [] && Loggable(g, bs) && ViewOf(g, d, bs, view) && bs != []
    requires var h := HeadDisk(g, d, bs, view);
             trace == tr + LogTrace(g, d, bs, view, |bs|) + [h] + InstallTrace(g, h, bs, |bs|)
                      + [PutEmpty(g, Install(g, h, bs, |bs|))]
    ensures Commits(g, d, bs, view, tr, trace)
    ensures forall i :: |tr| <= i < |trace| ==>
              && GoodHead(g, trace[i])
              && SameHome(g, Redo(g, trace[i]), if i - |tr| < |bs| then d else view)
  {
    hide LogTrace, InstallTrace, LogDisk, HeadDisk, Install, PutEmpty, Redo, Loggable;
    var h, n := HeadDisk(g, d, bs, view), |bs|;
    LogTraceAt(g, d, bs, view, n, 0);
    InstallTraceAt(g, h, bs, n, 0);
    forall i | |tr| <= i < |trace|
      ensures trace[i] == CommitDisk(g, d, bs, view, i - |tr| + 1)
      ensures GoodHead(g, trace[i])
      ensures SameHome(g, Redo(g, trace[i]), if i - |tr| < |bs| then d else view)
    {
      var k := i - |tr|;
      TraceIsCommit(g, d, bs, view, n, tr, trace, k);
      CommitCrash(g, d, bs, view, k + 1);
    }
  }

  lemma TraceIsCommit(g: Geometry, d: Disk, bs: seq<int>, view: Disk, n: nat, tr: seq<Disk>, trace: seq<Disk>, k: nat)
    requires g.Ok() && |d| == |view| == g.blocks && Loggable(g, bs) && bs != [] && n == |bs|
    requires var h := HeadDisk(g, d, bs, view);
             trace == tr + LogTrace(g, d, bs, view, n) + [h] + InstallTrace(g, h, bs, n)
                      + [PutEmpty(g, Install(g, h, bs, n))]
    requires |tr| + k < |trace|
    ensures k < CommitLength(n) && trace[|tr| + k] == CommitDisk(g, d, bs, view, k + 1)
  {
    hide LogTrace, InstallTrace, LogDisk, HeadDisk, PutEmpty, Loggable;
    var h := HeadDisk(g, d, bs, view);
    LogTraceAt(g, d, bs, view, n, k);
    InstallTraceAt(g, h, bs, n, if k <= n then 0 else k - n - 1);
  }

  /** The cache after install_trans has copied the first k log slots of d into it. */
  ghost function Refresh(g: Geometry, view: Disk, d: Disk, bs: seq<int>, k: nat): (r: Disk)
    requires g.Ok() && |d| == |view| == g.blocks && Loggable(g, bs) && k <= |bs|
    ensures |r| == |view|
  {
    if k == 0 then view else Refresh(g, view, d, bs, k - 1)[bs[k - 1] := d[g.start + k]]
  }

  /** The installs of a commit leave the cache as it was. */
  lemma {:induction false} RefreshCommitted(g: Geometry, d: Disk, bs: seq<int>, view: Disk, k: nat)
    requires g.Ok() && |d| == |view| == g.blocks && Loggable(g, bs) && k <= |bs|
    ensures Refresh(g, view, HeadDisk(g, d, bs, view), bs, k) == view
    decreases k
  {
    hide HeadDisk;
    if k > 0 {
      RefreshCommitted(g, d, bs, view, k - 1);
      HeadDiskSlot(g, d, bs, view, k - 1);
    }
  }

  /** Those of a recovery make it agree with the redone disk. */
  lemma {:induction false} RefreshRecovered(g: Geometry, d: Disk, bs: seq<int>, k: nat)
    requires g.Ok() && |d| == g.blocks && Loggable(g, bs) && k <= |bs|
    ensures Refresh(g, d, d, bs, k) == Install(g, d, bs, k)
    decreases k
  {
    if k > 0 {
      RefreshRecovered(g, d, bs, k - 1);
      InstallElsewhere(g, d, bs, k - 1, g.start + k);
    }
  }
}

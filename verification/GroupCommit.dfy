/** begin_op, log_write, end_op, commit and recovery (kernel/log.c) as a system of
    interleaved steps: any number of processes inside operations, one block write
    of a commit or of a recovery per step, and a crash possible at every point.

    `view` is what the buffer cache shows for each home block.  `init`, `hist`,
    `done` and the operation numbers are history: every change an operation made
    to a cached block, in order, and how many of them have been committed. */
module GroupCommit {
  import opened DiskBlock
  import opened RedoLog

  datatype Change = Change(op: nat, b: nat, v: Block)

  /** An operation between begin_op and end_op: the blocks it has changed but
      not yet passed to log_write, those it has logged, and how many of these
      extended the in-memory header. */
  datatype Op = Op(id: nat, dirty: set<nat>, logged: set<nat>, added: nat)

  datatype Proc = Outside | Inside(op: Op)

  /** k counts the block writes done so far; base is the disk before the first. */
  datatype Mode = Running | Committing(k: nat, base: Disk) | Recovering(k: nat, base: Disk)

  datatype State = State(disk: Disk, view: Disk, lh: seq<int>, procs: seq<Proc>, mode: Mode,
                         init: Disk, hist: seq<Change>, done: nat, nextOp: nat)

  /** log.outstanding. */
  function Outstanding(ps: seq<Proc>): (n: nat) {
    if ps == [] then 0
    else Outstanding(ps[..|ps| - 1]) + (if ps[|ps| - 1].Inside? then 1 else 0)
  }

  ghost predicate DirtyIn(ps: seq<Proc>, b: nat) {
    exists p :: 0 <= p < |ps| && ps[p].Inside? && b in ps[p].op.dirty
  }

  ghost predicate InsideAt(s: State, p: nat) { p < |s.procs| && s.procs[p].Inside? }

  // ----------------------------------------------------------------- panics

  /** The panics of log_write: lines 220-223. */
  predicate LogWritePanics(g: Geometry, s: State) {
    |s.lh| >= LOGSIZE || |s.lh| >= g.size - 1 || Outstanding(s.procs) < 1
  }

  /** The panic of end_op: line 154. */
  predicate EndPanics(s: State) { s.mode.Committing? }

  // ------------------------------------------------------------------ steps

  ghost predicate Begin(s: State, t: State, p: nat) {
    && s.mode.Running? && p < |s.procs| && s.procs[p].Outside?
    && |s.lh| + (Outstanding(s.procs) + 1) * MAXOPBLOCKS <= LOGSIZE
    && t == s.(procs := s.procs[p := Inside(Op(s.nextOp, {}, {}, 0))], nextOp := s.nextOp + 1)
  }

  /** Change a buffer whose sleep-lock the process holds. */
  ghost predicate Modify(g: Geometry, s: State, t: State, p: nat, b: nat, v: Block) {
    && InsideAt(s, p) && g.Home(b) && |s.view| == g.blocks
    && !DirtyIn(s.procs[p := Outside], b)
    && var op := s.procs[p].op;
       t == s.(view := s.view[b := v], hist := s.hist + [Change(op.id, b, v)],
               procs := s.procs[p := Inside(op.(dirty := op.dirty + {b}))])
  }

  /** log_write of block b by an operation that logs at most `limit` blocks. */
  ghost predicate LogWrite(g: Geometry, limit: nat, s: State, t: State, p: nat, b: nat) {
    && InsideAt(s, p) && g.Home(b) && !LogWritePanics(g, s)
    && !DirtyIn(s.procs[p := Outside], b)
    && var op := s.procs[p].op;
       && |op.logged + {b}| <= limit
       && t == s.(lh := if b in s.lh then s.lh else s.lh + [b],
                  procs := s.procs[p := Inside(Logged(op, b, b !in s.lh))])
  }

  function Logged(op: Op, b: nat, isNew: bool): Op {
    Op(op.id, op.dirty - {b}, op.logged + {b}, if isNew then op.added + 1 else op.added)
  }

  ghost predicate End(s: State, t: State, p: nat) {
    && InsideAt(s, p) && s.procs[p].op.dirty == {} && !EndPanics(s)
    && var ps := s.procs[p := Outside];
       t == s.(procs := ps, mode := if Outstanding(ps) == 0 then Committing(0, s.disk) else s.mode)
  }

  /** One block write of commit(); installing also refreshes the cached copy. */
  ghost predicate CommitStep(g: Geometry, s: State, t: State) {
    && s.mode.Committing? && g.Ok() && |s.disk| == |s.view| == g.blocks && Loggable(g, s.lh)
    && var k := s.mode.k;
       && k < CommitLength(|s.lh|)
       && var w := CommitWrite(g, s.disk, s.lh, s.view, k);
          t == s.(disk := s.disk[w.at := w.data],
                  view := if g.Home(w.at) then s.view[w.at := w.data] else s.view,
                  mode := Committing(k + 1, s.mode.base),
                  done := if k == |s.lh| then |s.hist| else s.done)
  }

  ghost predicate Finish(s: State, t: State) {
    && s.mode.Committing? && s.mode.k == CommitLength(|s.lh|)
    && t == s.(lh := [], mode := Running)
  }

  /** Everything in memory is lost, the uncommitted changes included. */
  ghost predicate Crash(s: State, t: State) {
    && s.done <= |s.hist|
    && t == s.(view := s.disk, lh := [], procs := seq(|s.procs|, _ => Outside),
               mode := Recovering(0, s.disk), hist := s.hist[..s.done])
  }

  ghost predicate RecoverStep(g: Geometry, s: State, t: State) {
    && s.mode.Recovering? && GoodHead(g, s.mode.base) && |s.disk| == g.blocks
    && var bs, k := Head(g, s.mode.base), s.mode.k;
       && k <= |bs|
       && var w := RecoverWrite(g, s.disk, bs, k);
          var d := s.disk[w.at := w.data];
          t == s.(disk := d, view := d, mode := Recovering(k + 1, s.mode.base))
  }

  ghost predicate Booted(g: Geometry, s: State, t: State) {
    && s.mode.Recovering? && GoodHead(g, s.mode.base)
    && s.mode.k == |Head(g, s.mode.base)| + 1
    && t == s.(mode := Running)
  }

  datatype Step = BeginStep(p: nat) | ModifyStep(p: nat, b: nat, v: Block) | LogStep(p: nat, b: nat)
                | EndStep(p: nat) | WriteStep | FinishStep | CrashStep | RedoStep | BootedStep

  ghost predicate NextStep(g: Geometry, limit: nat, s: State, t: State, a: Step) {
    match a
    case BeginStep(p) => Begin(s, t, p)
    case ModifyStep(p, b, v) => Modify(g, s, t, p, b, v)
    case LogStep(p, b) => LogWrite(g, limit, s, t, p, b)
    case EndStep(p) => End(s, t, p)
    case WriteStep => CommitStep(g, s, t)
    case FinishStep => Finish(s, t)
    case CrashStep => Crash(s, t)
    case RedoStep => RecoverStep(g, s, t)
    case BootedStep => Booted(g, s, t)
  }

  ghost predicate Next(g: Geometry, limit: nat, s: State, t: State) {
    exists a :: NextStep(g, limit, s, t, a)
  }

  /** The machine starts on any disk with a sound log header, about to recover. */
  ghost predicate Init(g: Geometry, s: State) {
    && GoodHead(g, s.disk)
    && s == State(s.disk, s.disk, [], seq(|s.procs|, _ => Outside), Recovering(0, s.disk),
                  Redo(g, s.disk), [], 0, s.nextOp)
  }

  ghost predicate Run(g: Geometry, limit: nat, run: seq<State>) {
    && run != [] && Init(g, run[0])
    && forall i :: 0 <= i < |run| - 1 ==> Next(g, limit, run[i], run[i + 1])
  }

  // -------------------------------------------------------------- invariant

  /** The file system after a sequence of changes. */
  function Apply(d: Disk, h: seq<Change>): (r: Disk)
    ensures |r| == |d|
  {
    if h == [] then d else
    var p, c := Apply(d, h[..|h| - 1]), h[|h| - 1];
    if c.b < |p| then p[c.b := c.v] else p
  }

  lemma ApplySnoc(d: Disk, h: seq<Change>, c: Change)
    ensures Apply(d, h + [c]) == if c.b < |d| then Apply(d, h)[c.b := c.v] else Apply(d, h)
  {
    assert (h + [c])[..|h|] == h;
  }

  ghost function Durable(s: State): Disk
    requires s.done <= |s.hist|
  {
    Apply(s.init, s.hist[..s.done])
  }

  /** No operation has changes on both sides of the commit point c. */
  ghost predicate NoneSplit(h: seq<Change>, c: nat) {
    forall i, j :: 0 <= i < c <= j < |h| ==> h[i].op != h[j].op
  }

  ghost predicate OpOk(g: Geometry, limit: nat, s: State, op: Op) {
    && op.id < s.nextOp
    && (forall b :: b in op.dirty ==> g.Home(b))
    && (forall b :: b in op.logged ==> b in s.lh)
    && op.added <= |op.logged| <= limit
    && (forall j :: 0 <= j < s.done && j < |s.hist| ==> s.hist[j].op != op.id)
  }

  ghost predicate Shape(g: Geometry, limit: nat, s: State) {
    && g.Ok() && |s.disk| == |s.view| == |s.init| == g.blocks
    && Loggable(g, s.lh)
    && s.done <= |s.hist|
    && (forall p :: 0 <= p < |s.procs| && s.procs[p].Inside? ==> OpOk(g, limit, s, s.procs[p].op))
    && (forall j :: 0 <= j < |s.hist| ==> s.hist[j].op < s.nextOp)
    && NoneSplit(s.hist, s.done)
  }

  ghost predicate Quiet(s: State) {
    forall p :: 0 <= p < |s.procs| ==> s.procs[p].Outside?
  }

  ghost predicate RunningOk(g: Geometry, s: State)
    requires s.done <= |s.hist|
  {
    && GoodHead(g, s.disk) && Head(g, s.disk) == []
    && SameHome(g, s.disk, Durable(s))
    && SameHome(g, s.view, Apply(s.init, s.hist))
    && (forall b: nat :: g.Home(b) ==> s.view[b] == s.disk[b] || b in s.lh || DirtyIn(s.procs, b))
    && (forall j :: s.done <= j < |s.hist| ==> s.hist[j].b in s.lh || DirtyIn(s.procs, s.hist[j].b))
    && (Quiet(s) ==> s.lh == [])
  }

  ghost predicate CommittingOk(g: Geometry, s: State)
    requires s.done <= |s.hist| && s.mode.Committing?
  {
    var k, base := s.mode.k, s.mode.base;
    && g.Ok() && Loggable(g, s.lh)
    && Quiet(s)
    && GoodHead(g, base) && Head(g, base) == [] && ViewOf(g, base, s.lh, s.view)
    && k <= CommitLength(|s.lh|)
    && s.disk == CommitDisk(g, base, s.lh, s.view, k)
    && SameHome(g, s.view, Apply(s.init, s.hist))
    && (k <= |s.lh| ==> SameHome(g, base, Durable(s)))
    && (k > |s.lh| || s.lh == [] ==> s.done == |s.hist|)
  }

  ghost predicate RecoveringOk(g: Geometry, s: State)
    requires s.done <= |s.hist| && s.mode.Recovering?
  {
    var k, base := s.mode.k, s.mode.base;
    && Quiet(s) && s.lh == [] && s.view == s.disk && s.done == |s.hist|
    && GoodHead(g, base) && k <= |Head(g, base)| + 1
    && s.disk == RecoverDisk(g, base, k)
    && SameHome(g, Redo(g, base), Durable(s))
  }

  ghost predicate Inv(g: Geometry, limit: nat, s: State) {
    && Shape(g, limit, s)
    && match s.mode
       case Running => RunningOk(g, s)
       case Committing(_, _) => CommittingOk(g, s)
       case Recovering(_, _) => RecoveringOk(g, s)
  }

  // ------------------------------------------------------------ preservation

  lemma InitInv(g: Geometry, limit: nat, s: State)
    requires Init(g, s)
    ensures Inv(g, limit, s)
  {}

  lemma {:induction false} QuietIsZero(ps: seq<Proc>)
    ensures Outstanding(ps) == 0 <==> forall p :: 0 <= p < |ps| ==> ps[p].Outside?
  {
    if ps != [] {
      var qs := ps[..|ps| - 1];
      QuietIsZero(qs);
      assert forall p :: 0 <= p < |qs| ==> qs[p] == ps[p];
      assert forall p :: 0 <= p < |ps| ==> p == |ps| - 1 || ps[p] == qs[p];
    }
  }

  /** Setting one process's entry keeps what the others have dirty. */
  lemma DirtySet(ps: seq<Proc>, p: nat, q: Proc, b: nat)
    requires p < |ps|
    ensures DirtyIn(ps[p := q], b) <==>
            DirtyIn(ps[p := Outside], b) || (q.Inside? && b in q.op.dirty)
  {
    var rs, os := ps[p := q], ps[p := Outside];
    if DirtyIn(rs, b) {
      var i :| 0 <= i < |rs| && rs[i].Inside? && b in rs[i].op.dirty;
      assert i != p ==> os[i] == rs[i];
    }
    if DirtyIn(os, b) {
      var i :| 0 <= i < |os| && os[i].Inside? && b in os[i].op.dirty;
      assert rs[i] == os[i];
    }
    if q.Inside? && b in q.op.dirty {
      assert rs[p] == q;
    }
  }

  lemma BeginInv(g: Geometry, limit: nat, s: State, t: State, p: nat)
    requires Inv(g, limit, s) && Begin(s, t, p)
    ensures Inv(g, limit, t)
  {
    hide Head, GoodHead, Redo;
    forall b: nat ensures DirtyIn(t.procs, b) <==> DirtyIn(s.procs, b) {
      assert s.procs[p := s.procs[p]] == s.procs;
      DirtySet(s.procs, p, s.procs[p], b);
      DirtySet(s.procs, p, t.procs[p], b);
    }
    assert t.procs[p].Inside?;
  }

  lemma ModifyInv(g: Geometry, limit: nat, s: State, t: State, p: nat, b: nat, v: Block)
    requires Inv(g, limit, s) && Modify(g, s, t, p, b, v)
    ensures Inv(g, limit, t)
  {
    hide RunningOk, CommittingOk, RecoveringOk;
    ModifyShape(g, limit, s, t, p, b, v);
    BusyRuns(g, limit, s, p);
    ModifyRunning(g, limit, s, t, p, b, v);
  }

  /** A process inside an operation: the system is neither committing nor recovering. */
  lemma BusyRuns(g: Geometry, limit: nat, s: State, p: nat)
    requires Inv(g, limit, s) && InsideAt(s, p)
    ensures s.mode.Running? && RunningOk(g, s) && !Quiet(s)
  {
    hide Shape, Head, GoodHead, Redo, SameHome, Apply;
    assert s.procs[p].Inside?;
  }

  lemma DirtyMore(ps: seq<Proc>, p: nat, b: nat, x: nat)
    requires p < |ps| && ps[p].Inside?
    ensures DirtyIn(ps[p := Inside(ps[p].op.(dirty := ps[p].op.dirty + {b}))], x) <==> DirtyIn(ps, x) || x == b
  {
    assert ps[p := ps[p]] == ps;
    DirtySet(ps, p, ps[p], x);
    DirtySet(ps, p, Inside(ps[p].op.(dirty := ps[p].op.dirty + {b})), x);
  }

  lemma ModifyRunning(g: Geometry, limit: nat, s: State, t: State, p: nat, b: nat, v: Block)
    requires Shape(g, limit, s) && RunningOk(g, s) && Modify(g, s, t, p, b, v) && t.done <= |t.hist|
    ensures RunningOk(g, t)
  {
    hide Head, GoodHead, Redo, OpOk, NoneSplit, DirtyIn;
    var op := s.procs[p].op;
    forall x: nat ensures DirtyIn(t.procs, x) <==> DirtyIn(s.procs, x) || x == b {
      DirtyMore(s.procs, p, b, x);
    }
    assert t.procs[p].Inside?;
    ApplySnoc(s.init, s.hist, Change(op.id, b, v));
    assert t.hist[..t.done] == s.hist[..s.done];
  }

  lemma ModifyShape(g: Geometry, limit: nat, s: State, t: State, p: nat, b: nat, v: Block)
    requires Shape(g, limit, s) && Modify(g, s, t, p, b, v)
    ensures Shape(g, limit, t)
  {
    assert OpOk(g, limit, s, s.procs[p].op);
    forall q | 0 <= q < |t.procs| && t.procs[q].Inside? ensures OpOk(g, limit, t, t.procs[q].op) {
      assert OpOk(g, limit, s, s.procs[q].op);
    }
  }

  lemma LogInv(g: Geometry, limit: nat, s: State, t: State, p: nat, b: nat)
    requires Inv(g, limit, s) && LogWrite(g, limit, s, t, p, b)
    ensures Inv(g, limit, t)
  {
    hide RunningOk, CommittingOk, RecoveringOk;
    LogShape(g, limit, s, t, p, b);
    BusyRuns(g, limit, s, p);
    LogRunning(g, limit, s, t, p, b);
  }

  lemma LogRunning(g: Geometry, limit: nat, s: State, t: State, p: nat, b: nat)
    requires s.done <= |s.hist| && RunningOk(g, s) && LogWrite(g, limit, s, t, p, b)
    ensures t.done <= |t.hist| && RunningOk(g, t)
  {
    hide Head, GoodHead, Redo, SameHome, Apply, LogWritePanics;
    assert t.procs[p].Inside?;
    forall x: nat ensures x != b ==> (DirtyIn(t.procs, x) <==> DirtyIn(s.procs, x)) {
      assert s.procs[p := s.procs[p]] == s.procs;
      DirtySet(s.procs, p, s.procs[p], x);
      DirtySet(s.procs, p, t.procs[p], x);
    }
  }

  lemma LogShape(g: Geometry, limit: nat, s: State, t: State, p: nat, b: nat)
    requires Shape(g, limit, s) && LogWrite(g, limit, s, t, p, b)
    ensures Shape(g, limit, t)
  {
    var op := s.procs[p].op;
    assert OpOk(g, limit, s, op);
    assert b !in s.lh ==> b !in op.logged;
    forall q | 0 <= q < |t.procs| && t.procs[q].Inside? ensures OpOk(g, limit, t, t.procs[q].op) {
      assert OpOk(g, limit, s, s.procs[q].op);
    }
  }

  lemma EndInv(g: Geometry, limit: nat, s: State, t: State, p: nat)
    requires Inv(g, limit, s) && End(s, t, p)
    ensures Inv(g, limit, t)
  {
    hide Head, GoodHead, Redo;
    assert !Quiet(s);
    assert s.mode.Running?;
    forall x: nat ensures DirtyIn(t.procs, x) <==> DirtyIn(s.procs, x) {
      assert s.procs[p := s.procs[p]] == s.procs;
      DirtySet(s.procs, p, s.procs[p], x);
    }
    QuietIsZero(t.procs);
    if t.mode.Committing? {
      assert forall x: nat :: !DirtyIn(t.procs, x);
      assert forall j :: s.done <= j < |s.hist| ==> s.hist[j].b in s.lh;
    } else {
      assert !Quiet(t);
    }
  }

  /** Installing a logged block writes back the content the cache already has. */
  lemma CommitKeepsView(g: Geometry, limit: nat, s: State, t: State)
    requires Inv(g, limit, s) && CommitStep(g, s, t)
    ensures t.view == s.view
  {
    hide Redo, Apply, NoneSplit, EncodeHead, RunningOk, RecoveringOk, Install, HeadDisk, LogDisk;
    var k, base, n := s.mode.k, s.mode.base, |s.lh|;
    if n < k <= 2 * n {
      InstalledIsCached(g, base, s.lh, s.view, k - n - 1);
      assert s.view[s.lh[k - n - 1] := s.view[s.lh[k - n - 1]]] == s.view;
    }
  }

  lemma CommitInv(g: Geometry, limit: nat, s: State, t: State)
    requires Inv(g, limit, s) && CommitStep(g, s, t)
    ensures Inv(g, limit, t)
  {
    CommitKeepsView(g, limit, s, t);
    CommitDiskStep(g, s.mode.base, s.lh, s.view, s.mode.k);
    hide CommitWrite, CommitDisk, Loggable, Head;
    assert t.hist[..|t.hist|] == t.hist;
    assert CommittingOk(g, t);
  }

  lemma FinishInv(g: Geometry, limit: nat, s: State, t: State)
    requires Inv(g, limit, s) && Finish(s, t)
    ensures Inv(g, limit, t)
  {
    CommitDone(g, s.mode.base, s.lh, s.view);
    assert s.hist[..s.done] == s.hist;
  }

  /** The key fact: at every moment, what recovery would make of the disk is
      exactly the committed changes. */
  lemma RedoIsDurable(g: Geometry, limit: nat, s: State)
    requires Inv(g, limit, s)
    ensures GoodHead(g, s.disk) && SameHome(g, Redo(g, s.disk), Durable(s))
  {
    match s.mode
    case Running => RedoEmpty(g, s.disk);
    case Committing(k, base) =>
      CommitCrash(g, base, s.lh, s.view, k);
      if s.done == |s.hist| {
        assert s.hist[..s.done] == s.hist;
      }
    case Recovering(k, base) => RecoveryCrash(g, base, k);
  }

  lemma CrashInv(g: Geometry, limit: nat, s: State, t: State)
    requires Inv(g, limit, s) && Crash(s, t)
    ensures Inv(g, limit, t)
  {
    RedoIsDurable(g, limit, s);
    assert t.hist[..t.done] == s.hist[..s.done];
  }

  lemma RecoverInv(g: Geometry, limit: nat, s: State, t: State)
    requires Inv(g, limit, s) && RecoverStep(g, s, t)
    ensures Inv(g, limit, t)
  {
    RecoverDiskStep(g, s.mode.base, s.mode.k);
    hide RecoverDisk, RecoverWrite;
  }

  lemma BootedInv(g: Geometry, limit: nat, s: State, t: State)
    requires Inv(g, limit, s) && Booted(g, s, t)
    ensures Inv(g, limit, t)
  {
    RecoveryDone(g, s.mode.base);
    assert s.hist[..s.done] == s.hist;
  }

  lemma NextInv(g: Geometry, limit: nat, s: State, t: State)
    requires Inv(g, limit, s) && Next(g, limit, s, t)
    ensures Inv(g, limit, t)
  {
    var a :| NextStep(g, limit, s, t, a);
    match a
    case BeginStep(p) => BeginInv(g, limit, s, t, p);
    case ModifyStep(p, b, v) => ModifyInv(g, limit, s, t, p, b, v);
    case LogStep(p, b) => LogInv(g, limit, s, t, p, b);
    case EndStep(p) => EndInv(g, limit, s, t, p);
    case WriteStep => CommitInv(g, limit, s, t);
    case FinishStep => FinishInv(g, limit, s, t);
    case CrashStep => CrashInv(g, limit, s, t);
    case RedoStep => RecoverInv(g, limit, s, t);
    case BootedStep => BootedInv(g, limit, s, t);
  }

  lemma {:induction false} RunInv(g: Geometry, limit: nat, run: seq<State>, i: nat)
    requires Run(g, limit, run) && i < |run|
    ensures Inv(g, limit, run[i])
    decreases i
  {
    if i == 0 {
      InitInv(g, limit, run[0]);
    } else {
      RunInv(g, limit, run, i - 1);
      assert Next(g, limit, run[i - 1], run[i - 1 + 1]);
      NextInv(g, limit, run[i - 1], run[i]);
    }
  }

  // ---------------------------------------------------------- main theorems

  /** Crash atomicity over whole runs.  At every moment of every run, whatever
      the interleaving and however often the machine has crashed, recovery would
      produce exactly the file system of the first `done` changes, and no
      operation has some of its changes committed and others not. */
  lemma CrashAtomicity(g: Geometry, limit: nat, run: seq<State>, i: nat)
    requires Run(g, limit, run) && i < |run|
    ensures var s := run[i];
            && s.done <= |s.hist|
            && GoodHead(g, s.disk) && SameHome(g, Redo(g, s.disk), Apply(s.init, s.hist[..s.done]))
            && NoneSplit(s.hist, s.done)
  {
    RunInv(g, limit, run, i);
    RedoIsDurable(g, limit, run[i]);
  }

  /** Only the header write of a commit changes the committed prefix. */
  lemma CommittedPrefix(g: Geometry, limit: nat, s: State, t: State, a: Step)
    requires s.done <= |s.hist| && NextStep(g, limit, s, t, a)
    ensures t.done <= |t.hist| && t.init == s.init
    ensures t.hist[..t.done] == if a.WriteStep? && s.mode.k == |s.lh| then s.hist else s.hist[..s.done]
  {}

  /** The committed state moves in one step only: the header write that ends
      write_log.  Just before it nothing of the transaction survives a crash,
      just after it all of it does, and no operation is then in progress. */
  lemma CommitPoint(g: Geometry, limit: nat, s: State, t: State, a: Step)
    requires Inv(g, limit, s) && NextStep(g, limit, s, t, a)
    ensures GoodHead(g, s.disk) && GoodHead(g, t.disk)
    ensures if a.WriteStep? && s.mode.k == |s.lh|
            then SameHome(g, Redo(g, t.disk), s.view) && SameHome(g, s.view, Apply(s.init, s.hist)) && Quiet(s)
            else SameHome(g, Redo(g, t.disk), Redo(g, s.disk))
  {
    hide Redo, Head, GoodHead, Loggable;
    assert Next(g, limit, s, t);
    NextInv(g, limit, s, t);
    RedoIsDurable(g, limit, s);
    RedoIsDurable(g, limit, t);
    CommittedPrefix(g, limit, s, t, a);
    if a.WriteStep? && s.mode.k == |s.lh| {
      assert SameHome(g, s.view, Apply(s.init, s.hist));
    }
  }

  /** A booted machine with an empty log shows the committed file system. */
  lemma BootShowsCommitted(g: Geometry, limit: nat, s: State, t: State)
    requires Inv(g, limit, s) && Booted(g, s, t)
    ensures SameHome(g, t.disk, Redo(g, s.mode.base)) && t.view == t.disk
    ensures SameHome(g, t.disk, Apply(t.init, t.hist))
  {
    BootedInv(g, limit, s, t);
    RecoveryDone(g, s.mode.base);
  }

  /** Group-commit isolation: while a commit runs, no operation is in progress,
      and until it finishes no step adds a block to the log or changes a cached
      block; what is installed is what was logged. */
  lemma CommitIsolation(g: Geometry, limit: nat, s: State, t: State, a: Step)
    requires Inv(g, limit, s) && s.mode.Committing? && NextStep(g, limit, s, t, a)
    ensures Outstanding(s.procs) == 0
    ensures a.WriteStep? || a.FinishStep? || a.CrashStep?
    ensures a.WriteStep? ==> t.lh == s.lh && t.view == s.view
    ensures a.FinishStep? ==> t.view == s.view && SameHome(g, t.disk, s.view)
  {
    QuietIsZero(s.procs);
    if a.WriteStep? {
      CommitKeepsView(g, limit, s, t);
    } else if a.FinishStep? {
      CommitDone(g, s.mode.base, s.lh, s.view);
    }
  }

  /** The panics "log.committing" and "log_write outside of trans" cannot happen
      to a process between its begin_op and end_op, and logged block numbers
      never repeat. */
  lemma BracketsHold(g: Geometry, limit: nat, run: seq<State>, i: nat, p: nat)
    requires Run(g, limit, run) && i < |run| && InsideAt(run[i], p)
    ensures !EndPanics(run[i]) && Outstanding(run[i].procs) >= 1
    ensures Distinct(run[i].lh)
  {
    RunInv(g, limit, run, i);
    QuietIsZero(run[i].procs);
  }

  /** A run with the steps it takes. */
  ghost predicate Traced(g: Geometry, limit: nat, run: seq<State>, steps: seq<Step>) {
    && |run| == |steps| + 1 && Init(g, run[0])
    && forall i :: 0 <= i < |steps| ==> NextStep(g, limit, run[i], run[i + 1], steps[i])
  }

  ghost predicate Changes(a: Step, p: nat, b: nat) { a.ModifyStep? && a.p == p && a.b == b }

  lemma DirtyStep(g: Geometry, limit: nat, s: State, t: State, a: Step, p: nat, b: nat)
    requires NextStep(g, limit, s, t, a) && InsideAt(t, p)
    ensures InsideAt(s, p) <==> a != BeginStep(p)
    ensures b in t.procs[p].op.dirty <==>
      Changes(a, p, b) || (InsideAt(s, p) && b in s.procs[p].op.dirty && a != LogStep(p, b))
    ensures b in t.procs[p].op.logged <==> a == LogStep(p, b) || (InsideAt(s, p) && b in s.procs[p].op.logged)
  {
  }

  // From state m on to state n process p begins no operation, nor logs block b.
  ghost predicate Unlogged(steps: seq<Step>, m: nat, n: nat, p: nat, b: nat)
    requires n <= |steps|
  {
    forall j :: m <= j < n ==> steps[j] != LogStep(p, b) && steps[j] != BeginStep(p)
  }

  /** What an operation has yet to log is exactly what it has changed since it last
      logged it; so the guard of end_op is met exactly when each changed block was
      logged after its last change. */
  lemma {:induction false} DirtyExactly(g: Geometry, limit: nat, run: seq<State>, steps: seq<Step>, n: nat, p: nat,
          b: nat)
    requires Traced(g, limit, run, steps) && n <= |steps| && InsideAt(run[n], p)
    ensures b in run[n].procs[p].op.dirty <==>
      exists m: nat :: m < n && Changes(steps[m], p, b) && Unlogged(steps, m + 1, n, p, b)
  {
    hide NextStep, Init, Changes, Unlogged, InsideAt;
    if n > 0 {
      var m := n - 1;
      DirtyStep(g, limit, run[m], run[m + 1], steps[m], p, b);
      if InsideAt(run[m], p) { DirtyExactly(g, limit, run, steps, m, p, b); }
      forall j: nat | j <= m ensures Unlogged(steps, j, n, p, b) <==>
        Unlogged(steps, j, m, p, b) && steps[m] != LogStep(p, b) && steps[m] != BeginStep(p)
      {
        UnloggedMore(steps, j, m, p, b);
      }
      UnloggedMore(steps, n, m, p, b);
    } else {
      NoneInside(g, run[0], p);
    }
  }

  lemma UnloggedMore(steps: seq<Step>, j: nat, m: nat, p: nat, b: nat)
    requires m < |steps|
    ensures j <= m ==> (Unlogged(steps, j, m + 1, p, b) <==>
              Unlogged(steps, j, m, p, b) && steps[m] != LogStep(p, b) && steps[m] != BeginStep(p))
    ensures j > m ==> Unlogged(steps, j, m + 1, p, b)
  {
  }

  lemma NoneInside(g: Geometry, s: State, p: nat)
    requires Init(g, s)
    ensures !InsideAt(s, p)
  {
  }

  /** What a process that ended its operation without logging a block it changed
      would do, as writei does when a copy fails inside a block: the group then
      commits, from the header write on, the blocks the operation logged, and not
      that one.  Such an end is no step of the runs above. */
  lemma UnloggedEnd(g: Geometry, limit: nat, s: State, p: nat, b: nat, c: nat, k: nat)
    requires Inv(g, limit, s) && s.mode.Running? && InsideAt(s, p)
    requires b in s.procs[p].op.dirty && b !in s.lh && s.view[b] != s.disk[b] && c in s.procs[p].op.logged
    requires |s.lh| < k <= CommitLength(|s.lh|)
    ensures var d := CommitDisk(g, s.disk, s.lh, s.view, k);
            && GoodHead(g, d) && Redo(g, d)[b] == s.disk[b] != s.view[b] && Redo(g, d)[c] == s.view[c]
            && !SameHome(g, Redo(g, d), s.view)
  {
    hide CommitDisk, Redo, Head, GoodHead;
    assert OpOk(g, limit, s, s.procs[p].op);
    assert g.Home(b) && g.Home(c) by {
      var i :| 0 <= i < |s.lh| && s.lh[i] == c;
      assert g.Home(s.lh[i]);
    }
    CommitLogged(g, s.disk, s.lh, s.view, k);
  }
}

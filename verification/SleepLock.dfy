/**
 * sleep, wakeup and kill of proc.c and the sleep lock built on them, as a step
 * system over any number of processes.  A step is one access to shared state;
 * a section under another process's p->lock in wakeup and kill is one step that
 * needs that lock to be free.
 */
module SleepLock {
  const NONE := -1
  const CHAN := 1      // the channel &lk of the sleep lock; 0 is no channel

  datatype Sched = Running | Runnable | Sleeping

  // Where a process is.
  datatype Pc =
    | Out                   // not using the lock
    | Want                  // acquire(&lk->lk), on entry or at the end of sleep
    | Check                 // while(lk->locked)
    | SleepAcq              // sleep: acquire(&p->lock)
    | SleepRel              // sleep: release(lk)
    | SleepSet              // sleep: set chan and state
    | Switching             // sched, p->lock still held
    | Asleep                // off the CPU
    | Awake                 // back from sched with p->lock held
    | Taken                 // locked and pid set, lk->lk still held
    | Own                   // holds the sleep lock
    | RelWant               // releasesleep: acquire(&lk->lk)
    | RelClear              // releasesleep: clear locked
    | Waking(next: nat)     // wakeup(lk): process `next` is to be looked at

  datatype State = State(
    pc: seq<Pc>, sched: seq<Sched>, chan: seq<nat>, killed: seq<bool>,
    plock: seq<bool>,      // p->lock held by the process or on its behalf
    lk: int,               // holder of lk->lk
    locked: bool, pid: int)

  datatype Step =
    | Enter | AcqLk | SeeBusy | SeeFree | EndTake
    | SAcq | SRel | SSet | SSwitch | Dispatch | Tidy
    | Leave | RAcq | RClear | WakeOne | EndWake
    | Kill(victim: nat) | Other(sched: Sched, chan: nat, held: bool)

  predicate Shape(s: State)
  {
    |s.sched| == |s.pc| && |s.chan| == |s.pc| && |s.killed| == |s.pc| && |s.plock| == |s.pc|
  }

  // Steps -------------------------------------------------------------------------

  function Go(s: State, i: nat, pc: Pc): State
    requires i < |s.pc|
  {
    s.(pc := s.pc[i := pc])
  }

  // What wakeup makes of process j, if it sleeps on the channel, and kill if it sleeps at all.
  function Rouse(s: State, j: nat, any: bool): State
    requires Shape(s) && j < |s.pc|
  {
    if s.sched[j] == Sleeping && (any || s.chan[j] == CHAN) then s.(sched := s.sched[j := Runnable]) else s
  }

  predicate NextStep(s: State, t: State, i: nat, step: Step)
    requires Shape(s) && i < |s.pc|
  {
    match step
    case Enter => s.pc[i] == Out && s.sched[i] == Running && !s.plock[i] && t == Go(s, i, Want)
    case AcqLk => s.pc[i] == Want && s.lk == NONE && t == Go(s, i, Check).(lk := i)
    case SeeBusy => s.pc[i] == Check && s.locked && t == Go(s, i, SleepAcq)
    case SeeFree => s.pc[i] == Check && !s.locked && t == Go(s, i, Taken).(locked := true, pid := i)
    case EndTake => s.pc[i] == Taken && t == Go(s, i, Own).(lk := NONE)
    case SAcq => s.pc[i] == SleepAcq && !s.plock[i] && t == Go(s, i, SleepRel).(plock := s.plock[i := true])
    case SRel => s.pc[i] == SleepRel && t == Go(s, i, SleepSet).(lk := NONE)
    case SSet =>
      s.pc[i] == SleepSet && t == Go(s, i, Switching).(chan := s.chan[i := CHAN], sched := s.sched[i := Sleeping])
    case SSwitch => s.pc[i] == Switching && t == Go(s, i, Asleep).(plock := s.plock[i := false])
    case Dispatch =>
      && s.pc[i] == Asleep && s.sched[i] == Runnable && !s.plock[i]
      && t == Go(s, i, Awake).(plock := s.plock[i := true], sched := s.sched[i := Running])
    case Tidy => s.pc[i] == Awake && t == Go(s, i, Want).(chan := s.chan[i := 0], plock := s.plock[i := false])
    case Leave => s.pc[i] == Own && s.sched[i] == Running && !s.plock[i] && t == Go(s, i, RelWant)
    case RAcq => s.pc[i] == RelWant && s.lk == NONE && t == Go(s, i, RelClear).(lk := i)
    case RClear => s.pc[i] == RelClear && t == Go(s, i, Waking(0)).(locked := false, pid := 0)
    case WakeOne =>
      && s.pc[i].Waking? && s.pc[i].next < |s.pc|
      && var j := s.pc[i].next;
      && (j == i || !s.plock[j])
      && t == Go(if j == i then s else Rouse(s, j, false), i, Waking(j + 1))
    case EndWake => s.pc[i] == Waking(|s.pc|) && t == Go(s, i, Out).(lk := NONE)
    case Kill(v) =>
      v < |s.pc| && !s.plock[v] && t == Rouse(s, v, true).(killed := s.killed[v := true])
    case Other(sched, chan, held) =>      // anything a process does elsewhere, on other channels, the holder too
      && (s.pc[i] == Out || s.pc[i] == Own) && chan != CHAN
      && t == s.(sched := s.sched[i := sched], chan := s.chan[i := chan], plock := s.plock[i := held])
  }

  // Invariant ------------------------------------------------------------------------

  predicate HoldsLk(pc: Pc)
  {
    pc.Check? || pc.SleepAcq? || pc.SleepRel? || pc.Taken? || pc.RelClear? || pc.Waking?
  }

  predicate HoldsPlock(pc: Pc) { pc.SleepRel? || pc.SleepSet? || pc.Switching? || pc.Awake? }

  // In code of the lock, and not asleep.
  predicate Runs(pc: Pc) { !pc.Out? && !pc.Own? && !pc.Switching? && !pc.Asleep? }

  predicate Owns(pc: Pc) { pc.Taken? || pc.Own? || pc.RelWant? || pc.RelClear? }

  // Committed to sleep: lk->locked was seen set and no wakeup has come yet.
  predicate Committed(s: State, i: nat)
    requires Shape(s) && i < |s.pc|
  {
    || s.pc[i].SleepAcq? || s.pc[i].SleepRel? || s.pc[i].SleepSet? || s.pc[i].Switching?
    || (s.pc[i].Asleep? && s.sched[i].Sleeping?)
  }

  // Some process is in wakeup(lk) and has not yet come to process i.
  predicate Coming(s: State, i: nat)
    requires Shape(s)
  {
    0 <= s.lk < |s.pc| && s.pc[s.lk].Waking? && s.pc[s.lk].next <= i && s.lk != i
  }

  predicate ProcAt(s: State, i: nat)
    requires Shape(s) && i < |s.pc|
  {
    && (HoldsLk(s.pc[i]) <==> s.lk == i)
    && (s.pc[i] == Out || s.pc[i] == Own || (HoldsPlock(s.pc[i]) <==> s.plock[i]))
    && (Owns(s.pc[i]) <==> s.locked && s.pid == i)
    && (s.pc[i].Waking? ==> !s.locked)
    && (s.pc[i].SleepAcq? || s.pc[i].SleepRel? ==> s.locked)
    && (s.pc[i].Switching? || s.pc[i].Asleep? ==> s.chan[i] == CHAN && s.sched[i] != Running)
    && (s.pc[i].Switching? ==> s.sched[i] == Sleeping)
    && (s.chan[i] == CHAN ==> s.pc[i].Switching? || s.pc[i].Asleep? || s.pc[i].Awake?)
    && (Runs(s.pc[i]) ==> s.sched[i] == Running)
    && (Committed(s, i) ==> s.locked || Coming(s, i))
  }

  predicate Frame(s: State)
  {
    && Shape(s) && NONE <= s.lk < |s.pc|
    && (s.lk != NONE ==> HoldsLk(s.pc[s.lk]))
    && (if s.locked then 0 <= s.pid < |s.pc| && Owns(s.pc[s.pid]) else s.pid == 0)
  }

  ghost predicate Inv(s: State)
  {
    Frame(s) && forall i: nat {:trigger ProcAt(s, i)} :: i < |s.pc| ==> ProcAt(s, i)
  }

  lemma Taking(s: State, t: State, i: nat, step: Step)
    requires Frame(s) && i < |s.pc| && NextStep(s, t, i, step) && ProcAt(s, i)
    requires step.Enter? || step.AcqLk? || step.SeeBusy? || step.SeeFree? || step.EndTake?
    ensures Frame(t) && ProcAt(t, i)
  {
  }

  lemma TakingOthers(s: State, t: State, i: nat, step: Step, k: nat)
    requires Frame(s) && i < |s.pc| && NextStep(s, t, i, step) && ProcAt(s, i) && Shape(t)
    requires k < |s.pc| && k != i && ProcAt(s, k)
    requires step.Enter? || step.AcqLk? || step.SeeBusy? || step.SeeFree? || step.EndTake?
    ensures ProcAt(t, k)
  {
  }

  lemma Falling(s: State, t: State, i: nat, step: Step)
    requires Frame(s) && i < |s.pc| && NextStep(s, t, i, step) && ProcAt(s, i)
    requires step.SAcq? || step.SRel? || step.SSet?
    ensures Frame(t) && ProcAt(t, i)
  {
  }

  lemma FallingOthers(s: State, t: State, i: nat, step: Step, k: nat)
    requires Frame(s) && i < |s.pc| && NextStep(s, t, i, step) && ProcAt(s, i) && Shape(t)
    requires k < |s.pc| && k != i && ProcAt(s, k)
    requires step.SAcq? || step.SRel? || step.SSet?
    ensures ProcAt(t, k)
  {
  }

  lemma Rising(s: State, t: State, i: nat, step: Step)
    requires Frame(s) && i < |s.pc| && NextStep(s, t, i, step) && ProcAt(s, i)
    requires step.SSwitch? || step.Dispatch? || step.Tidy?
    ensures Frame(t) && ProcAt(t, i)
  {
  }

  lemma RisingOthers(s: State, t: State, i: nat, step: Step, k: nat)
    requires Frame(s) && i < |s.pc| && NextStep(s, t, i, step) && ProcAt(s, i) && Shape(t)
    requires k < |s.pc| && k != i && ProcAt(s, k)
    requires step.SSwitch? || step.Dispatch? || step.Tidy?
    ensures ProcAt(t, k)
  {
  }

  lemma Leaving(s: State, t: State, i: nat, step: Step)
    requires Frame(s) && i < |s.pc| && NextStep(s, t, i, step) && ProcAt(s, i)
    requires step.Leave? || step.RAcq? || step.RClear? || step.EndWake?
    ensures Frame(t) && ProcAt(t, i)
  {
  }

  lemma LeavingOthers(s: State, t: State, i: nat, step: Step, k: nat)
    requires Frame(s) && i < |s.pc| && NextStep(s, t, i, step) && ProcAt(s, i) && Shape(t)
    requires k < |s.pc| && k != i && ProcAt(s, k)
    requires step.Leave? || step.RAcq? || step.RClear? || step.EndWake?
    ensures ProcAt(t, k)
  {
  }

  lemma Rousing(s: State, t: State, i: nat, step: Step)
    requires Frame(s) && i < |s.pc| && NextStep(s, t, i, step) && ProcAt(s, i)
    requires step.WakeOne?
    ensures Frame(t) && ProcAt(t, i)
  {
  }

  lemma RousingOthers(s: State, t: State, i: nat, step: Step, k: nat)
    requires Frame(s) && i < |s.pc| && NextStep(s, t, i, step) && ProcAt(s, i) && Shape(t)
    requires k < |s.pc| && k != i && ProcAt(s, k)
    requires step.WakeOne?
    ensures ProcAt(t, k)
  {
  }

  lemma Killing(s: State, t: State, i: nat, step: Step)
    requires Frame(s) && i < |s.pc| && NextStep(s, t, i, step) && ProcAt(s, i)
    requires step.Kill? || step.Other?
    ensures Frame(t) && ProcAt(t, i)
  {
  }

  lemma KillOthers(s: State, t: State, i: nat, step: Step, k: nat)
    requires Frame(s) && i < |s.pc| && NextStep(s, t, i, step) && ProcAt(s, i) && Shape(t)
    requires k < |s.pc| && k != i && ProcAt(s, k) && step.Kill?
    ensures ProcAt(t, k)
  {
  }

  lemma ElsewhereOthers(s: State, t: State, i: nat, step: Step, k: nat)
    requires Frame(s) && i < |s.pc| && NextStep(s, t, i, step) && ProcAt(s, i) && Shape(t)
    requires k < |s.pc| && k != i && ProcAt(s, k) && step.Other?
    ensures ProcAt(t, k)
  {
  }

  lemma OwnStep(s: State, t: State, i: nat, step: Step)
    requires Frame(s) && i < |s.pc| && NextStep(s, t, i, step) && ProcAt(s, i)
    ensures Frame(t) && ProcAt(t, i)
  {
    hide NextStep, ProcAt, Frame;
    match step
    case Enter | AcqLk | SeeBusy | SeeFree | EndTake => Taking(s, t, i, step);
    case SAcq | SRel | SSet => Falling(s, t, i, step);
    case SSwitch | Dispatch | Tidy => Rising(s, t, i, step);
    case Leave | RAcq | RClear | EndWake => Leaving(s, t, i, step);
    case WakeOne => Rousing(s, t, i, step);
    case Kill(_) | Other(_, _, _) => Killing(s, t, i, step);
  }

  lemma OtherStep(s: State, t: State, i: nat, step: Step, k: nat)
    requires Frame(s) && i < |s.pc| && NextStep(s, t, i, step) && ProcAt(s, i) && Shape(t)
    requires k < |s.pc| && k != i && ProcAt(s, k)
    ensures ProcAt(t, k)
  {
    hide NextStep, ProcAt;
    match step
    case Enter | AcqLk | SeeBusy | SeeFree | EndTake => TakingOthers(s, t, i, step, k);
    case SAcq | SRel | SSet => FallingOthers(s, t, i, step, k);
    case SSwitch | Dispatch | Tidy => RisingOthers(s, t, i, step, k);
    case Leave | RAcq | RClear | EndWake => LeavingOthers(s, t, i, step, k);
    case WakeOne => RousingOthers(s, t, i, step, k);
    case Kill(_) => KillOthers(s, t, i, step, k);
    case Other(_, _, _) => ElsewhereOthers(s, t, i, step, k);
  }

  lemma NextInv(s: State, t: State, i: nat, step: Step)
    requires Inv(s) && i < |s.pc| && NextStep(s, t, i, step)
    ensures Inv(t)
  {
    hide NextStep, ProcAt, HoldsLk, Owns;
    assert ProcAt(s, i);
    OwnStep(s, t, i, step);
    SameCount(s, t, i, step);
    forall k: nat | k < |t.pc| ensures ProcAt(t, k) {
      assert ProcAt(s, k);
      if k != i { OtherStep(s, t, i, step, k); }
    }
  }

  lemma SameCount(s: State, t: State, i: nat, step: Step)
    requires Shape(s) && i < |s.pc| && NextStep(s, t, i, step)
    ensures |t.pc| == |s.pc|
  {
  }

  // Results -----------------------------------------------------------------------------

  predicate Init(s: State)
  {
    && Shape(s) && s.lk == NONE && !s.locked && s.pid == 0
    && forall i: nat :: i < |s.pc| ==> s.pc[i] == Out && s.chan[i] != CHAN
  }

  // A step is taken by a process.
  datatype Move = Move(i: nat, step: Step)

  ghost predicate Run(run: seq<State>, moves: seq<Move>)
  {
    && |run| == |moves| + 1 && Init(run[0])
    && forall n: nat :: n < |moves| ==>
         Shape(run[n]) && moves[n].i < |run[n].pc| && NextStep(run[n], run[n + 1], moves[n].i, moves[n].step)
  }

  lemma {:induction false} RunInv(run: seq<State>, moves: seq<Move>, n: nat)
    requires Run(run, moves) && n <= |moves|
    ensures Inv(run[n]) && |run[n].pc| == |run[0].pc|
  {
    hide NextStep;
    if n > 0 {
      RunInv(run, moves, n - 1);
      NextInv(run[n - 1], run[n], moves[n - 1].i, moves[n - 1].step);
      SameCount(run[n - 1], run[n], moves[n - 1].i, moves[n - 1].step);
    }
  }

  /** At most one process holds the sleep lock, and holdingsleep tells which. */
  lemma Exclusion(s: State, i: nat, j: nat)
    requires Inv(s) && i < |s.pc| && j < |s.pc|
    ensures Owns(s.pc[i]) && Owns(s.pc[j]) ==> i == j
    ensures Owns(s.pc[i]) <==> s.locked && s.pid == i
  {
    assert ProcAt(s, i) && ProcAt(s, j);
  }

  lemma StepMarks(s: State, t: State, i: nat, step: Step, v: nat)
    requires Shape(s) && i < |s.pc| && NextStep(s, t, i, step) && v < |s.pc|
    ensures Shape(t) && |t.pc| == |s.pc| && t.killed[v] == (s.killed[v] || step == Kill(v))
    ensures step == Kill(v) ==> t.sched[v] != Sleeping
  {
    hide NextStep, Shape;
    if step.Kill? {
      KillAt(s, t, i, step, v);
    } else if Sleeps(step) {
      SleepMarks(s, t, i, step);
    } else {
      LockMarks(s, t, i, step);
    }
  }

  lemma KillAt(s: State, t: State, i: nat, step: Step, v: nat)
    requires Shape(s) && i < |s.pc| && NextStep(s, t, i, step) && v < |s.pc| && step.Kill?
    ensures Shape(t) && |t.pc| == |s.pc| && t.killed[v] == (s.killed[v] || step == Kill(v))
    ensures step == Kill(v) ==> t.sched[v] != Sleeping
  {
  }

  // The steps of sleep and wakeup.
  predicate Sleeps(step: Step)
  {
    step.SAcq? || step.SRel? || step.SSet? || step.SSwitch? || step.Dispatch? || step.Tidy? || step.WakeOne?
  }

  lemma SleepMarks(s: State, t: State, i: nat, step: Step)
    requires Shape(s) && i < |s.pc| && NextStep(s, t, i, step) && Sleeps(step)
    ensures Shape(t) && |t.pc| == |s.pc| && t.killed == s.killed
  {
  }

  lemma LockMarks(s: State, t: State, i: nat, step: Step)
    requires Shape(s) && i < |s.pc| && NextStep(s, t, i, step) && !Sleeps(step) && !step.Kill?
    ensures Shape(t) && |t.pc| == |s.pc| && t.killed == s.killed
  {
  }

  /** A process is marked killed exactly when it was at first or some kill has named
      it since; and right after a kill it does not sleep. */
  lemma {:induction false} KilledExactly(run: seq<State>, moves: seq<Move>, n: nat, v: nat)
    requires Run(run, moves) && n <= |moves| && v < |run[0].pc|
    ensures Shape(run[n]) && |run[n].pc| == |run[0].pc|
    ensures run[n].killed[v] <==> run[0].killed[v] || exists m: nat :: m < n && moves[m].step == Kill(v)
    ensures n > 0 && moves[n - 1].step == Kill(v) ==> run[n].sched[v] != Sleeping
  {
    hide NextStep;
    if n > 0 {
      KilledExactly(run, moves, n - 1, v);
      StepMarks(run[n - 1], run[n], moves[n - 1].i, moves[n - 1].step, v);
    }
  }

  /** No process sleeps on a free sleep lock, except while the releaser is still
      inside wakeup and has yet to come to it. */
  lemma NoSleeperOnFree(s: State, i: nat)
    requires Inv(s) && i < |s.pc| && s.sched[i] == Sleeping && s.chan[i] == CHAN && !s.locked
    ensures 0 <= s.lk < |s.pc| && s.pc[s.lk].Waking? && s.pc[s.lk].next <= i
  {
    assert ProcAt(s, i);
  }

  // Process k has released lk inside sleep and has not been woken.
  predicate Released(s: State, k: nat)
    requires Shape(s) && k < |s.pc|
  {
    s.pc[k].SleepSet? || s.pc[k].Switching? || (s.pc[k].Asleep? && s.sched[k].Sleeping?)
  }

  // The one way out of sleep: the waker comes to the process, or it is killed.
  predicate Roused(s: State, t: State, move: Move, k: nat)
  {
    && k < |s.sched| && k < |t.sched| && s.sched[k] == Sleeping && t.sched[k] == Runnable
    && (move.step == Kill(k) ||
        (move.step == WakeOne && move.i < |s.pc| && s.lk == move.i && s.pc[move.i] == Waking(k)))
  }

  lemma StaysReleased(s: State, t: State, i: nat, step: Step, k: nat)
    requires Inv(s) && i < |s.pc| && NextStep(s, t, i, step) && k < |s.pc| && !step.WakeOne? && !step.Kill?
    requires Released(s, k) && Shape(t) && |t.pc| == |s.pc|
    ensures Released(t, k)
  {
    hide Committed, Coming, Owns, HoldsLk;
    assert ProcAt(s, k);
  }

  lemma OnlyRoused(s: State, t: State, move: Move, k: nat)
    requires Inv(s) && move.i < |s.pc| && NextStep(s, t, move.i, move.step) && k < |s.pc|
    requires Released(s, k) && Shape(t) && |t.pc| == |s.pc| && !Released(t, k)
    ensures Roused(s, t, move, k)
  {
    hide Committed, Coming, Owns;
    assert ProcAt(s, k) && ProcAt(s, move.i);
    if !move.step.WakeOne? && !move.step.Kill? {
      StaysReleased(s, t, move.i, move.step, k);
    }
  }

  // wakeup leaves nobody behind.
  lemma AllAwake(s: State, r: nat, k: nat)
    requires Inv(s) && r < |s.pc| && s.pc[r] == Waking(|s.pc|) && k < |s.pc|
    ensures !Released(s, k)
  {
    assert ProcAt(s, r) && ProcAt(s, k);
  }

  /** No wakeup is lost: if a process has released lk inside sleep when another,
      holding lk, begins wakeup, then before that wakeup has ended the process
      is made runnable, by the wakeup or by a kill. */
  lemma {:induction false} NoLostWakeup(run: seq<State>, moves: seq<Move>, n: nat, end: nat, r: nat, k: nat)
    returns (m: nat)
    requires Run(run, moves) && n <= end <= |moves| && r < |run[0].pc| && k < |run[0].pc|
    requires Shape(run[n]) && |run[n].pc| == |run[0].pc| && Released(run[n], k)
    requires |run[end].pc| == |run[0].pc| && run[end].pc[r] == Waking(|run[end].pc|)
    ensures n <= m < end && Roused(run[m], run[m + 1], moves[m], k)
    decreases end - n
  {
    hide NextStep, Inv, Released, Roused;
    RunInv(run, moves, n);
    RunInv(run, moves, end);
    AllAwake(run[end], r, k);
    if n < end {
      RunInv(run, moves, n + 1);
      ShapeOf(run[n + 1]);
      if Released(run[n + 1], k) {
        m := NoLostWakeup(run, moves, n + 1, end, r, k);
      } else {
        OnlyRoused(run[n], run[n + 1], moves[n], k);
        m := n;
      }
    } else {
      m := n;
    }
  }

  lemma ShapeOf(s: State)
    requires Inv(s)
    ensures Shape(s)
  {
  }
}

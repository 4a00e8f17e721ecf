/**
 * sleep and wakeup of proc.c for any number of processes, channels and spin
 * locks, whatever else the processes do: a process may take and give up locks,
 * call sleep with any channel and any lock it holds, and call wakeup at any
 * time.  Steps are as in SleepLock.
 */
module SleepWakeup {
  const NONE := -1

  datatype Sched = Running | Runnable | Sleeping

  // Where a process is; c is a channel, l a lock.
  datatype Pc =
    | Code                      // anywhere else
    | SleepAcq(c: nat, l: nat)  // sleep: acquire(&p->lock)
    | SleepRel(c: nat, l: nat)  // sleep: release(lk)
    | SleepSet(c: nat, l: nat)  // sleep: set chan and state
    | Switching(c: nat, l: nat) // sched, p->lock still held
    | Asleep(c: nat, l: nat)    // off the CPU
    | Awake(c: nat, l: nat)     // back from sched with p->lock held
    | Want(l: nat)              // acquire(lk) at the end of sleep
    | Waking(c: nat, next: nat) // wakeup(c): process `next` is to be looked at

  datatype State = State(
    pc: seq<Pc>, sched: seq<Sched>, chan: seq<nat>,
    plock: seq<bool>,           // p->lock held by the process or on its behalf
    holder: seq<int>)           // the process that holds each lock

  datatype Step =
    | Acquire(l: nat) | Release(l: nat) | Other(runs: bool, held: bool)
    | Sleep(c: nat, l: nat) | SAcq | SRel | SSet | SSwitch | Dispatch | Tidy | Reacquire
    | Wakeup(c: nat) | WakeOne | EndWake | Kill(victim: nat)

  predicate Shape(s: State)
  {
    |s.sched| == |s.pc| && |s.chan| == |s.pc| && |s.plock| == |s.pc|
  }

  predicate Free(s: State, l: nat) { l < |s.holder| && s.holder[l] == NONE }
  predicate Has(s: State, i: nat, l: nat) { l < |s.holder| && s.holder[l] == i }

  function Go(s: State, i: nat, pc: Pc): State
    requires i < |s.pc|
  {
    s.(pc := s.pc[i := pc])
  }

  function Rouse(s: State, j: nat): State
    requires Shape(s) && j < |s.pc|
  {
    if s.sched[j] == Sleeping then s.(sched := s.sched[j := Runnable]) else s
  }

  // On a CPU, and in none of sleep and wakeup.
  predicate Ready(s: State, i: nat)
    requires Shape(s) && i < |s.pc|
  {
    s.pc[i] == Code && s.sched[i] == Running
  }

  predicate NextStep(s: State, t: State, i: nat, step: Step)
    requires Shape(s) && i < |s.pc|
  {
    match step
    case Acquire(l) => Ready(s, i) && Free(s, l) && t == s.(holder := s.holder[l := i])
    case Release(l) => Ready(s, i) && Has(s, i, l) && t == s.(holder := s.holder[l := NONE])
    case Other(runs, held) =>      // the scheduler, or a section under this process's p->lock
      && s.pc[i] == Code
      && t == s.(sched := s.sched[i := if runs then Running else Runnable], plock := s.plock[i := held])
    case Sleep(c, l) => Ready(s, i) && Has(s, i, l) && t == Go(s, i, SleepAcq(c, l))
    case SAcq =>
      && s.pc[i].SleepAcq? && !s.plock[i]
      && t == Go(s, i, SleepRel(s.pc[i].c, s.pc[i].l)).(plock := s.plock[i := true])
    case SRel =>
      && s.pc[i].SleepRel? && s.pc[i].l < |s.holder|
      && t == Go(s, i, SleepSet(s.pc[i].c, s.pc[i].l)).(holder := s.holder[s.pc[i].l := NONE])
    case SSet =>
      && s.pc[i].SleepSet?
      && t == Go(s, i, Switching(s.pc[i].c, s.pc[i].l)).(chan := s.chan[i := s.pc[i].c], sched := s.sched[i := Sleeping])
    case SSwitch =>
      && s.pc[i].Switching?
      && t == Go(s, i, Asleep(s.pc[i].c, s.pc[i].l)).(plock := s.plock[i := false])
    case Dispatch =>
      && s.pc[i].Asleep? && s.sched[i] == Runnable && !s.plock[i]
      && t == Go(s, i, Awake(s.pc[i].c, s.pc[i].l)).(plock := s.plock[i := true], sched := s.sched[i := Running])
    case Tidy =>
      && s.pc[i].Awake?
      && t == Go(s, i, Want(s.pc[i].l)).(chan := s.chan[i := 0], plock := s.plock[i := false])
    case Reacquire =>
      && s.pc[i].Want? && Free(s, s.pc[i].l)
      && t == Go(s, i, Code).(holder := s.holder[s.pc[i].l := i])
    case Wakeup(c) => Ready(s, i) && t == Go(s, i, Waking(c, 0))
    case WakeOne =>
      && s.pc[i].Waking? && s.pc[i].next < |s.pc|
      && var c, j := s.pc[i].c, s.pc[i].next;
      && (j == i || !s.plock[j])
      && t == Go(if j != i && s.chan[j] == c then Rouse(s, j) else s, i, Waking(c, j + 1))
    case EndWake => s.pc[i].Waking? && s.pc[i].next == |s.pc| && t == Go(s, i, Code)
    case Kill(v) => v < |s.pc| && !s.plock[v] && t == Rouse(s, v)
  }

  // Invariant --------------------------------------------------------------------------

  predicate HoldsPlock(pc: Pc) { pc.SleepRel? || pc.SleepSet? || pc.Switching? || pc.Awake? }

  predicate ProcAt(s: State, i: nat)
    requires Shape(s) && i < |s.pc|
  {
    && (HoldsPlock(s.pc[i]) ==> s.plock[i])
    && (s.pc[i].Asleep? || s.pc[i].Want? ==> !s.plock[i])
    && (s.pc[i].SleepAcq? || s.pc[i].SleepRel? ==> Has(s, i, s.pc[i].l))
    && (OffLock(s.pc[i]) ==> !Has(s, i, s.pc[i].l))
    && (s.pc[i].Switching? ==> s.sched[i] == Sleeping)
    && s.chan[i] == (if OnChan(s.pc[i]) then s.pc[i].c else 0)
    && (s.sched[i] != Running ==> s.pc[i].Code? || s.pc[i].Switching? || s.pc[i].Asleep?)
    && (s.sched[i] == Sleeping ==> !s.pc[i].Code?)
  }

  predicate OnChan(pc: Pc) { pc.Switching? || pc.Asleep? || pc.Awake? }

  // Inside sleep, without its lock.
  predicate OffLock(pc: Pc) { pc.SleepSet? || OnChan(pc) || pc.Want? }

  ghost predicate Inv(s: State)
  {
    Shape(s) && forall i: nat {:trigger ProcAt(s, i)} :: i < |s.pc| ==> ProcAt(s, i)
  }

  predicate Init(s: State)
  {
    Shape(s) && forall i: nat :: i < |s.pc| ==> s.pc[i] == Code && s.sched[i] != Sleeping && s.chan[i] == 0
  }

  // The steps of sleep, apart from the rest.
  predicate Sleeps(step: Step)
  {
    step.SAcq? || step.SRel? || step.SSet? || step.SSwitch? || step.Dispatch? || step.Tidy? || step.Reacquire?
  }

  predicate Rouses(step: Step) { step.WakeOne? || step.Kill? }

  lemma OwnSleep(s: State, t: State, i: nat, step: Step)
    requires Shape(s) && i < |s.pc| && NextStep(s, t, i, step) && ProcAt(s, i) && Sleeps(step)
    ensures Shape(t) && |t.pc| == |s.pc| && ProcAt(t, i)
  {
  }

  lemma OwnRouse(s: State, t: State, i: nat, step: Step)
    requires Shape(s) && i < |s.pc| && NextStep(s, t, i, step) && ProcAt(s, i) && Rouses(step)
    ensures Shape(t) && |t.pc| == |s.pc| && ProcAt(t, i)
  {
  }

  lemma OwnRest(s: State, t: State, i: nat, step: Step)
    requires Shape(s) && i < |s.pc| && NextStep(s, t, i, step) && ProcAt(s, i) && !Sleeps(step) && !Rouses(step)
    ensures Shape(t) && |t.pc| == |s.pc| && ProcAt(t, i)
  {
  }

  lemma OtherSleep(s: State, t: State, i: nat, step: Step, k: nat)
    requires Shape(s) && i < |s.pc| && NextStep(s, t, i, step) && ProcAt(s, i) && Shape(t) && |t.pc| == |s.pc|
    requires k < |s.pc| && k != i && ProcAt(s, k) && Sleeps(step)
    ensures ProcAt(t, k)
  {
  }

  lemma OtherRest(s: State, t: State, i: nat, step: Step, k: nat)
    requires Shape(s) && i < |s.pc| && NextStep(s, t, i, step) && ProcAt(s, i) && Shape(t) && |t.pc| == |s.pc|
    requires k < |s.pc| && k != i && ProcAt(s, k) && !Sleeps(step) && !Rouses(step)
    ensures ProcAt(t, k)
  {
  }

  lemma OtherRouse(s: State, t: State, i: nat, step: Step, k: nat)
    requires Shape(s) && i < |s.pc| && NextStep(s, t, i, step) && Shape(t) && |t.pc| == |s.pc|
    requires k < |s.pc| && k != i && ProcAt(s, k) && Rouses(step)
    ensures ProcAt(t, k)
  {
  }

  lemma NextInv(s: State, t: State, i: nat, step: Step)
    requires Inv(s) && i < |s.pc| && NextStep(s, t, i, step)
    ensures Inv(t) && |t.pc| == |s.pc|
  {
    hide NextStep, ProcAt, Sleeps, Rouses;
    assert ProcAt(s, i);
    if Sleeps(step) { OwnSleep(s, t, i, step); }
    else if Rouses(step) { OwnRouse(s, t, i, step); }
    else { OwnRest(s, t, i, step); }
    forall k: nat | k < |t.pc| ensures ProcAt(t, k) {
      assert ProcAt(s, k);
      if k != i {
        if Sleeps(step) { OtherSleep(s, t, i, step, k); }
        else if Rouses(step) { OtherRouse(s, t, i, step, k); }
        else { OtherRest(s, t, i, step, k); }
      }
    }
  }

  // A step is taken by a process.
  datatype Move = Move(i: nat, step: Step)

  ghost predicate Run(run: seq<State>, moves: seq<Move>)
  {
    && |run| == |moves| + 1 && Init(run[0])
    && forall n: nat :: n < |moves| ==>
         Shape(run[n]) && moves[n].i < |run[n].pc| && NextStep(run[n], run[n + 1], moves[n].i, moves[n].step)
  }

  lemma {:induction false} RunInv(run: seq<State>, moves: seq<Move>, n: nat)
    requires Run(run, moves) && n <= |moves|
    ensures Inv(run[n]) && |run[n].pc| == |run[0].pc|
  {
    hide NextStep;
    if n > 0 {
      RunInv(run, moves, n - 1);
      NextInv(run[n - 1], run[n], moves[n - 1].i, moves[n - 1].step);
    } else {
      InitInv(run[0]);
    }
  }

  lemma InitInv(s: State)
    requires Init(s)
    ensures Inv(s)
  {
  }

  // Locks ------------------------------------------------------------------------------

  predicate Takes(s: State, move: Move, i: nat, l: nat)
  {
    && move.i == i < |s.pc|
    && (move.step == Acquire(l) || (move.step.Reacquire? && s.pc[i] == Want(l)))
  }

  predicate Gives(s: State, move: Move, i: nat, l: nat)
  {
    && move.i == i < |s.pc|
    && (move.step == Release(l) || (move.step.SRel? && s.pc[i].SleepRel? && s.pc[i].l == l))
  }

  lemma HolderStep(s: State, t: State, move: Move, i: nat, l: nat)
    requires Inv(s) && move.i < |s.pc| && i < |s.pc| && NextStep(s, t, move.i, move.step)
    ensures Has(t, i, l) <==> Takes(s, move, i, l) || (Has(s, i, l) && !Gives(s, move, i, l))
  {
    assert ProcAt(s, i) && ProcAt(s, move.i);
  }

  // Process i does not give up lock l from state m on to state n.
  ghost predicate Keeps(run: seq<State>, moves: seq<Move>, m: nat, n: nat, i: nat, l: nat)
    requires n <= |moves| < |run|
  {
    forall j: nat :: m <= j < n ==> !Gives(run[j], moves[j], i, l)
  }

  /** A process holds a lock exactly when it has taken it, itself or at the end of a
      sleep, and has neither given it up nor called sleep with it since. */
  lemma {:induction false} HoldsExactly(run: seq<State>, moves: seq<Move>, n: nat, i: nat, l: nat)
    requires Run(run, moves) && n <= |moves| && i < |run[0].pc|
    ensures Has(run[n], i, l) <==>
      || (Has(run[0], i, l) && Keeps(run, moves, 0, n, i, l))
      || exists m: nat :: m < n && Takes(run[m], moves[m], i, l) && Keeps(run, moves, m + 1, n, i, l)
  {
    hide NextStep, Inv, Takes, Gives, Has;
    if n > 0 {
      var m := n - 1;
      HoldsExactly(run, moves, m, i, l);
      RunInv(run, moves, m);
      HolderStep(run[m], run[n], moves[m], i, l);
      assert forall j: nat :: j <= m ==>
        (Keeps(run, moves, j, n, i, l) <==> Keeps(run, moves, j, m, i, l) && !Gives(run[m], moves[m], i, l));
      assert Keeps(run, moves, n, n, i, l);
    }
  }

  /** sleep gives up its lock before the process sleeps, and returns with it held. */
  lemma SleepKeepsLock(run: seq<State>, moves: seq<Move>, n: nat, i: nat)
    requires Run(run, moves) && n <= |moves| && i < |run[0].pc|
    ensures |run[n].pc| == |run[0].pc| && (OffLock(run[n].pc[i]) ==> !Has(run[n], i, run[n].pc[i].l))
    ensures n < |moves| && moves[n] == Move(i, Reacquire) ==> run[n].pc[i].Want? && Has(run[n + 1], i, run[n].pc[i].l)
  {
    RunInv(run, moves, n);
    assert ProcAt(run[n], i);
    assert n < |moves| ==> NextStep(run[n], run[n + 1], moves[n].i, moves[n].step);
  }

  // No lost wakeup -----------------------------------------------------------------------

  // Process k is inside sleep(c, l) and has not been woken.
  predicate InSleep(s: State, k: nat, c: nat, l: nat)
    requires Shape(s) && k < |s.pc|
  {
    s.pc[k] == SleepAcq(c, l) || s.pc[k] == SleepRel(c, l) || Released(s, k, c, l)
  }

  // It has given up the lock.
  predicate Released(s: State, k: nat, c: nat, l: nat)
    requires Shape(s) && k < |s.pc|
  {
    s.pc[k] == SleepSet(c, l) || s.pc[k] == Switching(c, l) || (s.pc[k] == Asleep(c, l) && s.sched[k] == Sleeping)
  }

  // The ways out of sleep: a wakeup of the channel comes to the process, or it is killed.
  predicate Roused(s: State, t: State, move: Move, k: nat, c: nat)
  {
    && k < |s.sched| && k < |t.sched| && s.sched[k] == Sleeping && t.sched[k] == Runnable
    && (move.step == Kill(k) || (move.step == WakeOne && move.i < |s.pc| && s.pc[move.i] == Waking(c, k)))
  }

  lemma OnlyRoused(s: State, t: State, move: Move, k: nat, c: nat, l: nat)
    requires Inv(s) && move.i < |s.pc| && NextStep(s, t, move.i, move.step) && k < |s.pc|
    requires Released(s, k, c, l) && Shape(t) && |t.pc| == |s.pc| && !Released(t, k, c, l)
    ensures Roused(s, t, move, k, c)
  {
    assert ProcAt(s, k) && ProcAt(s, move.i);
  }

  // When a wakeup of the channel comes to a process that has given up the lock, it rouses it.
  lemma ComesTo(s: State, t: State, r: nat, k: nat, c: nat, l: nat)
    requires Inv(s) && r < |s.pc| && k < |s.pc| && NextStep(s, t, r, WakeOne) && s.pc[r] == Waking(c, k)
    requires Released(s, k, c, l) && Shape(t) && |t.pc| == |s.pc|
    ensures !Released(t, k, c, l)
  {
    assert ProcAt(s, k);
  }

  // How far process r has come in its wakeup of c, or that it has not.
  predicate Past(s: State, r: nat, c: nat, k: nat) { r < |s.pc| && s.pc[r].Waking? && s.pc[r].c == c && s.pc[r].next > k }

  lemma Passes(s: State, t: State, move: Move, r: nat, c: nat, k: nat)
    requires Inv(s) && move.i < |s.pc| && NextStep(s, t, move.i, move.step) && |t.pc| == |s.pc|
    requires !Past(s, r, c, k) && Past(t, r, c, k)
    ensures move == Move(r, WakeOne) && s.pc[r] == Waking(c, k)
  {
  }

  /** No wakeup is lost, whatever the channel, the lock and the program: a process
      that has given up its lock inside sleep before a wakeup of its channel comes
      past it is made runnable before that, by a wakeup of the channel or a kill. */
  lemma {:induction false} NoLostWakeup(run: seq<State>, moves: seq<Move>, n: nat, end: nat, r: nat, k: nat, c: nat,
          l: nat)
    returns (m: nat)
    requires Run(run, moves) && n <= end <= |moves| && r < |run[0].pc| && k < |run[0].pc|
    requires Shape(run[n]) && |run[n].pc| == |run[0].pc| && Released(run[n], k, c, l)
    requires !Past(run[n], r, c, k) && Past(run[end], r, c, k)
    ensures n <= m < end && Roused(run[m], run[m + 1], moves[m], k, c)
    decreases end - n
  {
    hide NextStep, Inv, Released, Roused, Past;
    RunInv(run, moves, n);
    RunInv(run, moves, n + 1);
    ShapeOf(run[n + 1]);
    if !Released(run[n + 1], k, c, l) {
      OnlyRoused(run[n], run[n + 1], moves[n], k, c, l);
      m := n;
    } else {
      StillComing(run[n], run[n + 1], moves[n], r, k, c, l);
      m := NoLostWakeup(run, moves, n + 1, end, r, k, c, l);
    }
  }

  lemma StillComing(s: State, t: State, move: Move, r: nat, k: nat, c: nat, l: nat)
    requires Inv(s) && move.i < |s.pc| && k < |s.pc| && NextStep(s, t, move.i, move.step) && Shape(t)
    requires |t.pc| == |s.pc|
    requires Released(s, k, c, l) && Released(t, k, c, l) && !Past(s, r, c, k)
    ensures !Past(t, r, c, k)
  {
    hide NextStep, Inv, Released, Past;
    if Past(t, r, c, k) {
      Passes(s, t, move, r, c, k);
      ComesTo(s, t, r, k, c, l);
    }
  }

  lemma ShapeOf(s: State)
    requires Inv(s)
    ensures Shape(s)
  {
  }

  /** In particular for a caller of wakeup that holds the lock: whoever is inside
      sleep with that lock when the wakeup begins is roused before it ends, having
      given the lock up, and with it its last look at the condition, before. */
  lemma WakeupUnderLock(run: seq<State>, moves: seq<Move>, n: nat, end: nat, r: nat, k: nat, c: nat, l: nat)
    returns (m: nat)
    requires Run(run, moves) && n < end <= |moves| && r < |run[0].pc| && k < |run[0].pc|
    requires Shape(run[n]) && |run[n].pc| == |run[0].pc| && InSleep(run[n], k, c, l)
    requires moves[n] == Move(r, Wakeup(c)) && Has(run[n], r, l)
    requires |run[end].pc| == |run[0].pc| && run[end].pc[r] == Waking(c, |run[end].pc|)
    ensures n <= m < end && Roused(run[m], run[m + 1], moves[m], k, c)
  {
    RunInv(run, moves, n);
    assert NextStep(run[n], run[n + 1], r, Wakeup(c));
    LockGivenUp(run[n], r, k, c, l);
    m := NoLostWakeup(run, moves, n, end, r, k, c, l);
  }

  lemma LockGivenUp(s: State, r: nat, k: nat, c: nat, l: nat)
    requires Inv(s) && r < |s.pc| && k < |s.pc| && s.pc[r] == Code && Has(s, r, l) && InSleep(s, k, c, l)
    ensures Released(s, k, c, l)
  {
    assert ProcAt(s, k);
  }
}

/**
 * fork's parent link, exit, reparent and wait of proc.c as a step system over
 * the process table.  A step is one access to shared state.  wakeup(p) looks
 * for sleepers on the channel p; only p itself sleeps there, inside wait, so
 * the part of its scan that matters is the test of p under p->lock.
 */
module ExitWait {
  const NONE := -1
  const LOST := -2      // maker of a slot that a failed fork left in state USED
  const INIT := 0       // initproc

  datatype Sched = Running | Runnable | Sleeping

  datatype Life = Unused | Used | Live | Zombie

  datatype Pc =
    | Idle                           // not running: the slot is unused, or being filled by fork
    | User                           // none of the below
    | Forking(child: nat)            // fork: child allocated
    | Linked(child: nat)             // fork: np->parent set
    | ExitWant                       // exit: acquire(&wait_lock)
    | Orphaning(next: nat)           // reparent: process `next` is to be looked at
    | OrphanWake(next: nat)          // reparent: `next` given to init, wakeup(initproc)
    | WakeParent                     // exit: wakeup(p->parent)
    | Dying                          // exit: about to become a zombie
    | Dead                           // zombie, on its way into the scheduler with p->lock
    | Gone                           // zombie, off the CPU
    | WaitWant                       // wait: acquire(&wait_lock), on entry or after sleep
    | Scan(next: nat, kids: bool)    // wait: process `next` is to be looked at
    | SleepAcq | SleepRel | SleepSet | Switching | Asleep | Awake   // as in sleep

  datatype State = State(
    pc: seq<Pc>, life: seq<Life>, sched: seq<Sched>, parent: seq<int>, killed: seq<bool>,
    pid: seq<nat>, nextPid: nat, plock: seq<bool>, waitLock: int,
    maker: seq<int>,       // who is forking this slot
    reaped: seq<nat>)      // pids returned by wait, in order

  datatype Step =
    | Fork(child: nat) | ForkFail | ForkLose | Link | Start
    | Exit | ExitAcq | Orphan | WakeInit | EndOrphan | WakeUp | Die | OffCpu
    | Wait | WaitAcq | Look(copied: bool) | Return | Doze
    | SAcq | SRel | SSet | SSwitch | Dispatch | Tidy
    | Kill(victim: nat) | Other(sched: Sched, held: bool)

  predicate Shape(s: State)
  {
    && INIT < |s.pc| && |s.life| == |s.pc| && |s.sched| == |s.pc| && |s.parent| == |s.pc| && |s.killed| == |s.pc|
    && |s.pid| == |s.pc| && |s.plock| == |s.pc| && |s.maker| == |s.pc|
  }

  function Go(s: State, i: nat, pc: Pc): State
    requires i < |s.pc|
  {
    s.(pc := s.pc[i := pc])
  }

  // Process k, if it sleeps in wait, becomes runnable.
  function Rouse(s: State, k: nat): State
    requires Shape(s) && k < |s.pc|
  {
    if s.pc[k].Asleep? && s.sched[k].Sleeping? then s.(sched := s.sched[k := Runnable]) else s
  }

  // freeproc
  function Reset(s: State, c: nat): State
    requires Shape(s) && c < |s.pc|
  {
    s.(pc := s.pc[c := Idle], life := s.life[c := Unused], parent := s.parent[c := NONE],
       killed := s.killed[c := false], pid := s.pid[c := 0], maker := s.maker[c := NONE])
  }

  predicate ForkStep(s: State, t: State, i: nat, step: Step)
    requires Shape(s) && i < |s.pc|
  {
    match step
    case Fork(c) =>
      && s.pc[i].User? && s.sched[i].Running? && !s.plock[i] && c < |s.pc| && s.life[c].Unused?
      && t == Go(s, i, Forking(c)).(life := s.life[c := Used], pid := s.pid[c := s.nextPid],
                                    nextPid := s.nextPid + 1, maker := s.maker[c := i])
    case ForkFail =>
      s.pc[i].Forking? && s.pc[i].child < |s.pc| && t == Reset(Go(s, i, User), s.pc[i].child)
    case ForkLose =>               // allocproc with exactly four free pages: no freeproc
      s.pc[i].Forking? && s.pc[i].child < |s.pc| && t == Go(s, i, User).(maker := s.maker[s.pc[i].child := LOST])
    case _ => false
  }

  predicate LinkStep(s: State, t: State, i: nat, step: Step)
    requires Shape(s) && i < |s.pc|
  {
    match step
    case Link =>
      && s.pc[i].Forking? && s.waitLock == NONE && s.pc[i].child < |s.pc|
      && t == Go(s, i, Linked(s.pc[i].child)).(parent := s.parent[s.pc[i].child := i])
    case Start =>
      && s.pc[i].Linked? && s.pc[i].child < |s.pc| && !s.plock[s.pc[i].child]
      && var c := s.pc[i].child;
      t == s.(pc := s.pc[i := User][c := User], life := s.life[c := Live], sched := s.sched[c := Runnable],
              maker := s.maker[c := NONE])
    case _ => false
  }

  // A step of fork.
  predicate MakeStep(s: State, t: State, i: nat, step: Step)
    requires Shape(s) && i < |s.pc|
  {
    ForkStep(s, t, i, step) || LinkStep(s, t, i, step)
  }

  predicate ExitStep(s: State, t: State, i: nat, step: Step)
    requires Shape(s) && i < |s.pc|
  {
    match step
    case Exit => s.pc[i].User? && s.sched[i].Running? && !s.plock[i] && i != INIT && t == Go(s, i, ExitWant)
    case ExitAcq => s.pc[i].ExitWant? && s.waitLock == NONE && t == Go(s, i, Orphaning(0)).(waitLock := i)
    case EndOrphan => s.pc[i] == Orphaning(|s.pc|) && t == Go(s, i, WakeParent)
    case _ => false
  }

  predicate OrphanStep(s: State, t: State, i: nat, step: Step)
    requires Shape(s) && i < |s.pc|
  {
    match step
    case Orphan =>
      && s.pc[i].Orphaning? && s.pc[i].next < |s.pc|
      && var j := s.pc[i].next;
      t == if s.parent[j] == i then Go(s, i, OrphanWake(j)).(parent := s.parent[j := INIT])
           else Go(s, i, Orphaning(j + 1))
    case WakeInit =>
      s.pc[i].OrphanWake? && !s.plock[INIT] && t == Go(Rouse(s, INIT), i, Orphaning(s.pc[i].next + 1))
    case _ => false
  }

  predicate DieStep(s: State, t: State, i: nat, step: Step)
    requires Shape(s) && i < |s.pc|
  {
    match step
    case WakeUp =>
      && s.pc[i].WakeParent? && 0 <= s.parent[i] < |s.pc| && !s.plock[s.parent[i]]
      && t == Go(Rouse(s, s.parent[i]), i, Dying)
    case Die =>
      && s.pc[i].Dying? && !s.plock[i]
      && t == Go(s, i, Dead).(plock := s.plock[i := true], life := s.life[i := Zombie], waitLock := NONE)
    case OffCpu => s.pc[i].Dead? && t == Go(s, i, Gone).(plock := s.plock[i := false])
    case _ => false
  }

  predicate WaitStep(s: State, t: State, i: nat, step: Step)
    requires Shape(s) && i < |s.pc|
  {
    match step
    case Wait => s.pc[i].User? && s.sched[i].Running? && !s.plock[i] && t == Go(s, i, WaitWant)
    case WaitAcq => s.pc[i].WaitWant? && s.waitLock == NONE && t == Go(s, i, Scan(0, false)).(waitLock := i)
    case Return =>                 // return -1
      s.pc[i].Scan? && s.pc[i].next == |s.pc| && (!s.pc[i].kids || s.killed[i]) && t == Go(s, i, User).(waitLock := NONE)
    case Doze => s.pc[i] == Scan(|s.pc|, true) && !s.killed[i] && t == Go(s, i, SleepAcq)
    case _ => false
  }

  // One turn of wait's scan.
  predicate LookStep(s: State, t: State, i: nat, step: Step)
    requires Shape(s) && i < |s.pc|
  {
    && step.Look? && s.pc[i].Scan? && s.pc[i].next < |s.pc|
    && var j := s.pc[i].next;
    if s.parent[j] != i then t == Go(s, i, Scan(j + 1, s.pc[i].kids))
    else
      && !s.plock[j]
      && t == if !s.life[j].Zombie? then Go(s, i, Scan(j + 1, true))
              else if !step.copied then Go(s, i, User).(waitLock := NONE)              // return -1
              else Reset(Go(s, i, User), j).(waitLock := NONE, reaped := s.reaped + [s.pid[j]])
  }

  predicate SleepStep(s: State, t: State, i: nat, step: Step)
    requires Shape(s) && i < |s.pc|
  {
    match step
    case SAcq => s.pc[i].SleepAcq? && !s.plock[i] && t == Go(s, i, SleepRel).(plock := s.plock[i := true])
    case SRel => s.pc[i].SleepRel? && t == Go(s, i, SleepSet).(waitLock := NONE)
    case SSet => s.pc[i].SleepSet? && t == Go(s, i, Switching).(sched := s.sched[i := Sleeping])
    case SSwitch => s.pc[i].Switching? && t == Go(s, i, Asleep).(plock := s.plock[i := false])
    case _ => false
  }

  predicate RouseStep(s: State, t: State, i: nat, step: Step)
    requires Shape(s) && i < |s.pc|
  {
    match step
    case Dispatch =>
      && s.pc[i].Asleep? && s.sched[i].Runnable? && !s.plock[i]
      && t == Go(s, i, Awake).(plock := s.plock[i := true], sched := s.sched[i := Running])
    case Tidy => s.pc[i].Awake? && t == Go(s, i, WaitWant).(plock := s.plock[i := false])
    case Kill(v) =>
      && v < |s.pc| && !s.plock[v]
      && t == s.(killed := s.killed[v := true], sched := if s.sched[v].Sleeping? then s.sched[v := Runnable] else s.sched)
    case Other(sched, held) =>
      s.pc[i].User? && t == s.(sched := s.sched[i := sched], plock := s.plock[i := held])
    case _ => false
  }

  predicate NextStep(s: State, t: State, i: nat, step: Step)
    requires Shape(s) && i < |s.pc|
  {
    || ForkStep(s, t, i, step) || LinkStep(s, t, i, step) || ExitStep(s, t, i, step) || OrphanStep(s, t, i, step)
    || DieStep(s, t, i, step) || WaitStep(s, t, i, step) || LookStep(s, t, i, step) || SleepStep(s, t, i, step)
    || RouseStep(s, t, i, step)
  }

  // Invariant -----------------------------------------------------------------------

  predicate HoldsWait(pc: Pc)
  {
    pc.Orphaning? || pc.OrphanWake? || pc.WakeParent? || pc.Dying? || pc.Scan? || pc.SleepAcq? || pc.SleepRel?
  }

  predicate HoldsPlock(pc: Pc) { pc.SleepRel? || pc.SleepSet? || pc.Switching? || pc.Awake? || pc.Dead? }

  predicate Exiting(pc: Pc)
  {
    pc.ExitWant? || pc.Orphaning? || pc.OrphanWake? || pc.WakeParent? || pc.Dying?
  }

  // Has scanned its children and not been woken since.
  predicate Committed(s: State, i: nat)
    requires Shape(s) && i < |s.pc|
  {
    || s.pc[i].SleepAcq? || s.pc[i].SleepRel? || s.pc[i].SleepSet? || s.pc[i].Switching?
    || (s.pc[i].Asleep? && s.sched[i].Sleeping?)
  }

  // reparent has dealt with child c.
  predicate Past(pc: Pc, c: nat)
  {
    (pc.Orphaning? && c < pc.next) || (pc.OrphanWake? && c <= pc.next) || pc.WakeParent? || pc.Dying?
  }

  // Some process is about to wake init after giving it a child.
  predicate InitPending(s: State)
    requires Shape(s)
  {
    0 <= s.waitLock < |s.pc| && s.pc[s.waitLock].OrphanWake?
  }

  // In one of the calls, and not asleep.
  predicate Runs(pc: Pc)
  {
    !pc.Idle? && !pc.User? && !pc.Switching? && !pc.Asleep? && !pc.Dead? && !pc.Gone?
  }

  // Locks and scheduling.
  predicate LockAt(s: State, i: nat)
    requires Shape(s) && i < |s.pc|
  {
    && (HoldsWait(s.pc[i]) <==> s.waitLock == i)
    && (s.pc[i].User? || (HoldsPlock(s.pc[i]) <==> s.plock[i]))
    && (s.pc[i].Switching? ==> s.sched[i].Sleeping?)
    && (s.pc[i].Asleep? ==> !s.sched[i].Running?)
    && (Runs(s.pc[i]) ==> s.sched[i].Running?)
  }

  // A process that has started has a parent, except init.
  predicate LifeAt(s: State, i: nat)
    requires Shape(s) && i < |s.pc|
  {
    && (s.pc[i].Idle? <==> s.life[i].Unused? || s.life[i].Used?)
    && (s.pc[i].Dead? || s.pc[i].Gone? <==> s.life[i].Zombie?)
    && (s.life[i].Unused? ==> s.parent[i] == NONE)
    && NONE <= s.parent[i] < |s.pc| && s.parent[i] != i
    && ((s.life[i].Live? || s.life[i].Zombie?) && i != INIT ==> s.parent[i] != NONE)
    && (i == INIT ==> s.parent[i] == NONE && s.life[i].Live? && !Exiting(s.pc[i]))
  }

  // A slot being filled belongs to one fork, or is lost.
  predicate MakerAt(s: State, i: nat)
    requires Shape(s) && i < |s.pc|
  {
    && (s.life[i].Used? ==>
        || (s.maker[i] == LOST && s.parent[i] == NONE)
        || (0 <= s.maker[i] < |s.pc| && (s.pc[s.maker[i]] == Forking(i) || s.pc[s.maker[i]] == Linked(i))))
    && (s.pc[i].Forking? || s.pc[i].Linked? ==>
        && s.pc[i].child < |s.pc| && s.life[s.pc[i].child].Used? && s.maker[s.pc[i].child] == i
        && s.parent[s.pc[i].child] == if s.pc[i].Forking? then NONE else i)
    && (s.maker[i] != NONE ==> s.life[i].Used?)
  }

  // A process has a pid that wait has not returned, a free slot has none.
  predicate PidAt(s: State, i: nat)
    requires Shape(s) && i < |s.pc|
  {
    if s.life[i].Unused? then s.pid[i] == 0 else 0 < s.pid[i] < s.nextPid && s.pid[i] !in s.reaped
  }

  // The parent p of c is alive, and not past c in giving its children away.
  predicate KinAt(s: State, p: nat, c: nat)
    requires Shape(s) && p < |s.pc| && c < |s.pc|
  {
    s.parent[c] == p ==> s.life[p].Live? && !Past(s.pc[p], c)
  }

  // A parent about to sleep has no zombie child, unless init is about to be
  // woken, and no child about to become one; a scan has met no zombie.
  predicate RestAt(s: State, p: nat, c: nat)
    requires Shape(s) && p < |s.pc| && c < |s.pc|
  {
    s.parent[c] == p ==>
      && (Committed(s, p) && s.life[c].Zombie? ==> p == INIT && InitPending(s))
      && (Committed(s, p) ==> !s.pc[c].Dying?)
      && (s.pc[p].Scan? && c < s.pc[p].next ==> s.pc[p].kids && !s.life[c].Zombie?)
  }

  predicate PidsAt(s: State, p: nat, c: nat)
    requires Shape(s) && p < |s.pc| && c < |s.pc|
  {
    p != c && !s.life[p].Unused? && !s.life[c].Unused? ==> s.pid[p] != s.pid[c]
  }

  predicate ProcAt(s: State, i: nat)
    requires Shape(s) && i < |s.pc|
  {
    LockAt(s, i) && LifeAt(s, i) && MakerAt(s, i) && PidAt(s, i)
  }

  predicate PairAt(s: State, p: nat, c: nat)
    requires Shape(s) && p < |s.pc| && c < |s.pc|
  {
    KinAt(s, p, c) && RestAt(s, p, c) && PidsAt(s, p, c)
  }

  predicate Distinct(xs: seq<nat>) { forall j: nat, k: nat :: j < k < |xs| ==> xs[j] != xs[k] }

  predicate Frame(s: State)
  {
    && Shape(s) && NONE <= s.waitLock < |s.pc|
    && (s.waitLock != NONE ==> HoldsWait(s.pc[s.waitLock]))
    && 0 < s.nextPid && Distinct(s.reaped) && forall x :: x in s.reaped ==> x < s.nextPid
  }

  ghost predicate Inv(s: State)
  {
    && Frame(s)
    && (forall i: nat {:trigger ProcAt(s, i)} :: i < |s.pc| ==> ProcAt(s, i))
    && (forall p: nat, c: nat {:trigger PairAt(s, p, c)} :: p < |s.pc| && c < |s.pc| ==> PairAt(s, p, c))
  }

  // Every step keeps it ------------------------------------------------------------------
  //
  // For each kind of step: Locks and Makes for what is said of a process, Kin and
  // Rest for what is said of a parent and a child, Frame for the rest.  Steps
  // that leave the slots, or the families, alone share one lemma.

  predicate Making(pc: Pc) { pc.Forking? || pc.Linked? }

  // No slot is taken, filled or given up, and no parent changes.
  predicate SameSlots(s: State, t: State)
    requires Shape(s) && Shape(t) && |t.pc| == |s.pc|
  {
    && t.maker == s.maker && t.pid == s.pid && t.nextPid == s.nextPid && t.reaped == s.reaped && t.parent == s.parent
    && forall j: nat {:trigger s.life[j]} {:trigger t.life[j]} {:trigger t.pc[j]} {:trigger s.pc[j]} :: j < |s.pc| ==>
         && (t.life[j] == s.life[j] || (s.life[j].Live? && t.life[j].Zombie?))
         && (Making(t.pc[j]) || Making(s.pc[j]) ==> t.pc[j] == s.pc[j])
  }

  predicate PlainStep(s: State, t: State, i: nat, step: Step)
    requires Shape(s) && i < |s.pc|
  {
    || ExitStep(s, t, i, step) || DieStep(s, t, i, step) || WaitStep(s, t, i, step)
    || SleepStep(s, t, i, step) || RouseStep(s, t, i, step)
  }

  lemma PlainSlots(s: State, t: State, i: nat, step: Step)
    requires Inv(s) && Shape(s) && i < |s.pc| && Shape(t) && |t.pc| == |s.pc| && PlainStep(s, t, i, step)
    ensures SameSlots(s, t)
  {
    hide ProcAt, PairAt, SameSlots, DieStep, ExitStep, WaitStep, SleepStep, RouseStep;
    assert ProcAt(s, i);
    if DieStep(s, t, i, step) {
      DieSlots(s, t, i, step);
    } else if ExitStep(s, t, i, step) || WaitStep(s, t, i, step) {
      CallSlots(s, t, i, step);
    } else {
      SleepSlots(s, t, i, step);
    }
  }

  lemma DieSlots(s: State, t: State, i: nat, step: Step)
    requires Shape(s) && i < |s.pc| && Shape(t) && |t.pc| == |s.pc| && DieStep(s, t, i, step) && ProcAt(s, i)
    ensures SameSlots(s, t)
  {
    hide LockAt, MakerAt, PidAt, HoldsWait, HoldsPlock;
  }

  lemma CallSlots(s: State, t: State, i: nat, step: Step)
    requires Shape(s) && i < |s.pc| && Shape(t) && |t.pc| == |s.pc| && (ExitStep(s, t, i, step) || WaitStep(s, t, i, step))
    ensures SameSlots(s, t)
  {
  }

  lemma SleepSlots(s: State, t: State, i: nat, step: Step)
    requires Shape(s) && i < |s.pc| && Shape(t) && |t.pc| == |s.pc| && (SleepStep(s, t, i, step) || RouseStep(s, t, i, step))
    ensures SameSlots(s, t)
  {
  }

  lemma PlainMakes(s: State, t: State, k: nat)
    requires Inv(s) && Shape(t) && |t.pc| == |s.pc| && k < |s.pc| && SameSlots(s, t)
    ensures MakerAt(t, k) && PidAt(t, k)
  {
    hide RestAt, KinAt, LockAt, LifeAt, PidsAt, PairAt, Distinct, HoldsWait, HoldsPlock, Past, Exiting;
    assert ProcAt(s, k);
  }

  lemma OtherMakes(s: State, t: State, i: nat, step: Step, k: nat)
    requires Inv(s) && Shape(s) && i < |s.pc| && Shape(t) && |t.pc| == |s.pc| && k < |s.pc| && PlainStep(s, t, i, step)
    ensures MakerAt(t, k) && PidAt(t, k)
  {
    hide Inv, SameSlots, PlainStep, MakerAt, PidAt;
    PlainSlots(s, t, i, step);
    PlainMakes(s, t, k);
  }

  lemma OrphanMakes(s: State, t: State, i: nat, step: Step, k: nat)
    requires Inv(s) && i < |s.pc| && OrphanStep(s, t, i, step) && Shape(t) && |t.pc| == |s.pc| && k < |s.pc|
    ensures MakerAt(t, k) && PidAt(t, k)
  {
    hide RestAt, KinAt, LockAt, Distinct, HoldsWait, HoldsPlock, Past, Exiting;
    assert ProcAt(s, i) && ProcAt(s, k) && ProcAt(s, INIT) && PairAt(s, i, k);
  }

  lemma OtherKin(s: State, t: State, i: nat, step: Step, p: nat, c: nat)
    requires Inv(s) && i < |s.pc| && Shape(t) && |t.pc| == |s.pc| && p < |s.pc| && c < |s.pc|
    requires ExitStep(s, t, i, step) || WaitStep(s, t, i, step) || SleepStep(s, t, i, step) || RouseStep(s, t, i, step)
    ensures KinAt(t, p, c) && PidsAt(t, p, c)
  {
    hide RestAt, LockAt, Distinct, HoldsWait, HoldsPlock, Committed;
    assert ProcAt(s, i) && ProcAt(s, p) && ProcAt(s, c) && PairAt(s, p, c);
  }

  lemma DieKin(s: State, t: State, i: nat, step: Step, p: nat, c: nat)
    requires Inv(s) && i < |s.pc| && DieStep(s, t, i, step) && Shape(t) && |t.pc| == |s.pc| && p < |s.pc| && c < |s.pc|
    ensures KinAt(t, p, c) && PidsAt(t, p, c)
  {
    hide RestAt, LockAt, Distinct, HoldsWait, HoldsPlock, Committed;
    assert ProcAt(s, i) && ProcAt(s, p) && ProcAt(s, c) && PairAt(s, p, c);
  }

  lemma ForkLocks(s: State, t: State, i: nat, step: Step, k: nat)
    requires Inv(s) && i < |s.pc| && ForkStep(s, t, i, step) && Shape(t) && |t.pc| == |s.pc| && k < |s.pc|
    ensures LockAt(t, k) && LifeAt(t, k)
  {
    hide RestAt, PidAt, PidsAt, Distinct;
    assert ProcAt(s, i) && ProcAt(s, k) && ProcAt(s, INIT) && PairAt(s, i, k);
    if s.pc[i].Forking? || s.pc[i].Linked? { assert ProcAt(s, s.pc[i].child); }
  }

  lemma ForkMakes(s: State, t: State, i: nat, step: Step, k: nat)
    requires Inv(s) && i < |s.pc| && ForkStep(s, t, i, step) && Shape(t) && |t.pc| == |s.pc| && k < |s.pc|
    ensures MakerAt(t, k) && PidAt(t, k)
  {
    hide RestAt, KinAt, LockAt, Distinct, HoldsWait, HoldsPlock, Past, Exiting;
    assert ProcAt(s, i) && ProcAt(s, k) && ProcAt(s, INIT) && PairAt(s, i, k);
    if s.pc[i].Forking? || s.pc[i].Linked? { assert ProcAt(s, s.pc[i].child); }
    if step.Fork? { assert ProcAt(s, step.child) && PairAt(s, step.child, k); }
    if s.life[k].Used? && s.maker[k] != LOST { assert ProcAt(s, s.maker[k]); }
  }

  lemma LinkMakes(s: State, t: State, i: nat, step: Step, k: nat)
    requires Inv(s) && i < |s.pc| && LinkStep(s, t, i, step) && Shape(t) && |t.pc| == |s.pc| && k < |s.pc|
    ensures MakerAt(t, k) && PidAt(t, k)
  {
    hide RestAt, KinAt, LockAt, Distinct, HoldsWait, HoldsPlock, Past, Exiting;
    assert ProcAt(s, i) && ProcAt(s, k) && ProcAt(s, INIT) && PairAt(s, i, k);
    if s.pc[i].Forking? || s.pc[i].Linked? { assert ProcAt(s, s.pc[i].child); }
    if s.life[k].Used? && s.maker[k] != LOST { assert ProcAt(s, s.maker[k]); }
  }

  lemma MakeKin(s: State, t: State, i: nat, step: Step, p: nat, c: nat)
    requires Inv(s) && i < |s.pc| && MakeStep(s, t, i, step) && Shape(t) && |t.pc| == |s.pc| && p < |s.pc| && c < |s.pc|
    ensures KinAt(t, p, c) && PidsAt(t, p, c)
  {
    hide RestAt, LockAt, Distinct, HoldsWait, HoldsPlock, Committed;
    assert ProcAt(s, i) && ProcAt(s, p) && ProcAt(s, c) && PairAt(s, p, c);
    if s.pc[i].Forking? || s.pc[i].Linked? { assert ProcAt(s, s.pc[i].child); }
  }

  lemma ForkRest(s: State, t: State, i: nat, step: Step, p: nat, c: nat)
    requires Inv(s) && i < |s.pc| && ForkStep(s, t, i, step) && Shape(t) && |t.pc| == |s.pc| && p < |s.pc| && c < |s.pc|
    ensures RestAt(t, p, c)
  {
    hide KinAt, PidAt, PidsAt, Distinct, Past, Exiting, Runs;
    assert ProcAt(s, i) && ProcAt(s, p) && ProcAt(s, c) && PairAt(s, p, c);
    if s.pc[i].Forking? || s.pc[i].Linked? { assert ProcAt(s, s.pc[i].child); }
  }

  lemma MakeFrame(s: State, t: State, i: nat, step: Step)
    requires Inv(s) && i < |s.pc| && MakeStep(s, t, i, step)
    ensures Frame(t) && |t.pc| == |s.pc|
  {
    hide RestAt, KinAt, PidsAt, Past, Exiting;
    assert ProcAt(s, i);
    if s.pc[i].Forking? || s.pc[i].Linked? { assert ProcAt(s, s.pc[i].child); }
  }

  lemma LinkLocks(s: State, t: State, i: nat, step: Step, k: nat)
    requires Inv(s) && i < |s.pc| && LinkStep(s, t, i, step) && Shape(t) && |t.pc| == |s.pc| && k < |s.pc|
    ensures LockAt(t, k) && LifeAt(t, k)
  {
    hide RestAt, PidAt, PidsAt, Distinct;
    assert ProcAt(s, i) && ProcAt(s, k) && ProcAt(s, INIT) && PairAt(s, i, k);
    if s.pc[i].Forking? || s.pc[i].Linked? { assert ProcAt(s, s.pc[i].child); }
  }

  lemma LinkRest(s: State, t: State, i: nat, step: Step, p: nat, c: nat)
    requires Inv(s) && i < |s.pc| && LinkStep(s, t, i, step) && Shape(t) && |t.pc| == |s.pc| && p < |s.pc| && c < |s.pc|
    ensures RestAt(t, p, c)
  {
    hide KinAt, PidAt, PidsAt, Distinct, Past, Exiting, Runs;
    assert ProcAt(s, i) && ProcAt(s, p) && ProcAt(s, c) && PairAt(s, p, c);
    if s.pc[i].Forking? || s.pc[i].Linked? { assert ProcAt(s, s.pc[i].child); }
  }

  lemma ExitLocks(s: State, t: State, i: nat, step: Step, k: nat)
    requires Inv(s) && i < |s.pc| && ExitStep(s, t, i, step) && Shape(t) && |t.pc| == |s.pc| && k < |s.pc|
    ensures LockAt(t, k) && LifeAt(t, k)
  {
    hide RestAt, PidAt, PidsAt, Distinct, MakerAt;
    assert ProcAt(s, i) && ProcAt(s, k) && ProcAt(s, INIT) && PairAt(s, i, k);
  }

  lemma OrphanLocks(s: State, t: State, i: nat, step: Step, k: nat)
    requires Inv(s) && i < |s.pc| && OrphanStep(s, t, i, step) && Shape(t) && |t.pc| == |s.pc| && k < |s.pc|
    ensures LockAt(t, k) && LifeAt(t, k)
  {
    hide RestAt, PidAt, PidsAt, Distinct, MakerAt;
    assert ProcAt(s, i) && ProcAt(s, k) && ProcAt(s, INIT) && PairAt(s, i, k);
  }

  lemma OrphanKin(s: State, t: State, i: nat, step: Step, p: nat, c: nat)
    requires Inv(s) && i < |s.pc| && OrphanStep(s, t, i, step) && Shape(t) && |t.pc| == |s.pc| && p < |s.pc|
    requires c < |s.pc|
    ensures KinAt(t, p, c) && PidsAt(t, p, c)
  {
    hide RestAt, LockAt, Distinct, HoldsWait, HoldsPlock, Committed;
    assert ProcAt(s, i) && ProcAt(s, p) && ProcAt(s, c) && PairAt(s, p, c);
  }

  lemma OrphanRest(s: State, t: State, i: nat, step: Step, p: nat, c: nat)
    requires Inv(s) && i < |s.pc| && OrphanStep(s, t, i, step) && Shape(t) && |t.pc| == |s.pc| && p < |s.pc|
    requires c < |s.pc|
    ensures RestAt(t, p, c)
  {
    hide KinAt, PidAt, PidsAt, Distinct, Past, Exiting, Runs, MakerAt;
    assert ProcAt(s, i) && ProcAt(s, p) && ProcAt(s, c) && PairAt(s, p, c);
    assert ProcAt(s, INIT);
  }

  lemma DieLocks(s: State, t: State, i: nat, step: Step, k: nat)
    requires Inv(s) && i < |s.pc| && DieStep(s, t, i, step) && Shape(t) && |t.pc| == |s.pc| && k < |s.pc|
    ensures LockAt(t, k) && LifeAt(t, k)
  {
    hide RestAt, PidAt, PidsAt, Distinct, MakerAt;
    assert ProcAt(s, i) && ProcAt(s, k) && ProcAt(s, INIT) && PairAt(s, i, k);
  }

  lemma DieRest(s: State, t: State, i: nat, step: Step, p: nat, c: nat)
    requires Inv(s) && i < |s.pc| && DieStep(s, t, i, step) && Shape(t) && |t.pc| == |s.pc| && p < |s.pc| && c < |s.pc|
    ensures RestAt(t, p, c)
  {
    hide KinAt, PidAt, PidsAt, Distinct, Past, Exiting, Runs, MakerAt;
    assert ProcAt(s, i) && ProcAt(s, p) && ProcAt(s, c) && PairAt(s, p, c);
  }

  lemma CallFrame(s: State, t: State, i: nat, step: Step)
    requires Inv(s) && Shape(s) && i < |s.pc| && (ExitStep(s, t, i, step) || WaitStep(s, t, i, step) || SleepStep(s, t, i, step))
    ensures Frame(t) && |t.pc| == |s.pc|
  {
    hide RestAt, KinAt, PidsAt, Past, Exiting;
    assert ProcAt(s, i);
  }

  lemma WakeFrame(s: State, t: State, i: nat, step: Step)
    requires Inv(s) && Shape(s) && i < |s.pc| && (OrphanStep(s, t, i, step) || DieStep(s, t, i, step) || RouseStep(s, t, i, step))
    ensures Frame(t) && |t.pc| == |s.pc|
  {
    hide RestAt, KinAt, PidsAt, Past, Exiting;
    assert ProcAt(s, i);
  }

  lemma WaitLocks(s: State, t: State, i: nat, step: Step, k: nat)
    requires Inv(s) && i < |s.pc| && WaitStep(s, t, i, step) && Shape(t) && |t.pc| == |s.pc| && k < |s.pc|
    ensures LockAt(t, k) && LifeAt(t, k)
  {
    hide RestAt, PidAt, PidsAt, Distinct, MakerAt;
    assert ProcAt(s, i) && ProcAt(s, k) && ProcAt(s, INIT) && PairAt(s, i, k);
  }

  lemma CallRest(s: State, t: State, i: nat, step: Step, p: nat, c: nat)
    requires Inv(s) && i < |s.pc| && Shape(t) && |t.pc| == |s.pc| && p < |s.pc| && c < |s.pc|
    requires ExitStep(s, t, i, step) || WaitStep(s, t, i, step) || SleepStep(s, t, i, step)
    ensures RestAt(t, p, c)
  {
    hide KinAt, PidAt, PidsAt, Distinct, Past, Exiting, Runs, MakerAt;
    assert ProcAt(s, i) && ProcAt(s, p) && ProcAt(s, c) && PairAt(s, p, c);
  }

  lemma LookLocks(s: State, t: State, i: nat, step: Step, k: nat)
    requires Inv(s) && i < |s.pc| && LookStep(s, t, i, step) && Shape(t) && |t.pc| == |s.pc| && k < |s.pc|
    ensures LockAt(t, k) && LifeAt(t, k)
  {
    hide RestAt, PidAt, PidsAt, Distinct, MakerAt;
    assert ProcAt(s, i) && ProcAt(s, k) && ProcAt(s, INIT) && PairAt(s, i, k);
    assert ProcAt(s, s.pc[i].next);
  }

  lemma LookMakes(s: State, t: State, i: nat, step: Step, k: nat)
    requires Inv(s) && i < |s.pc| && LookStep(s, t, i, step) && Shape(t) && |t.pc| == |s.pc| && k < |s.pc|
    ensures MakerAt(t, k) && PidAt(t, k)
  {
    hide RestAt, KinAt, LockAt, Distinct, HoldsWait, HoldsPlock, Past, Exiting;
    assert ProcAt(s, i) && ProcAt(s, k) && ProcAt(s, INIT) && PairAt(s, i, k);
    assert ProcAt(s, s.pc[i].next) && PairAt(s, s.pc[i].next, k);
  }

  lemma LookKin(s: State, t: State, i: nat, step: Step, p: nat, c: nat)
    requires Inv(s) && i < |s.pc| && LookStep(s, t, i, step) && Shape(t) && |t.pc| == |s.pc| && p < |s.pc| && c < |s.pc|
    ensures KinAt(t, p, c) && PidsAt(t, p, c)
  {
    hide RestAt, LockAt, Distinct, HoldsWait, HoldsPlock, Committed;
    assert ProcAt(s, i) && ProcAt(s, p) && ProcAt(s, c) && PairAt(s, p, c);
    assert ProcAt(s, s.pc[i].next);
  }

  lemma LookRest(s: State, t: State, i: nat, step: Step, p: nat, c: nat)
    requires Inv(s) && i < |s.pc| && LookStep(s, t, i, step) && Shape(t) && |t.pc| == |s.pc| && p < |s.pc| && c < |s.pc|
    ensures RestAt(t, p, c)
  {
    hide KinAt, PidAt, PidsAt, Distinct, Past, Exiting, Runs, MakerAt;
    assert ProcAt(s, i) && ProcAt(s, p) && ProcAt(s, c) && PairAt(s, p, c);
    assert ProcAt(s, s.pc[i].next);
  }

  lemma LookFrame(s: State, t: State, i: nat, step: Step)
    requires Inv(s) && i < |s.pc| && LookStep(s, t, i, step)
    ensures Frame(t) && |t.pc| == |s.pc|
  {
    hide RestAt, KinAt, PidsAt, Past, Exiting;
    assert ProcAt(s, i);
    assert ProcAt(s, s.pc[i].next);
  }

  lemma SleepLocks(s: State, t: State, i: nat, step: Step, k: nat)
    requires Inv(s) && i < |s.pc| && SleepStep(s, t, i, step) && Shape(t) && |t.pc| == |s.pc| && k < |s.pc|
    ensures LockAt(t, k) && LifeAt(t, k)
  {
    hide RestAt, PidAt, PidsAt, Distinct, MakerAt;
    assert ProcAt(s, i) && ProcAt(s, k) && ProcAt(s, INIT) && PairAt(s, i, k);
  }

  lemma RouseLocks(s: State, t: State, i: nat, step: Step, k: nat)
    requires Inv(s) && i < |s.pc| && RouseStep(s, t, i, step) && Shape(t) && |t.pc| == |s.pc| && k < |s.pc|
    ensures LockAt(t, k) && LifeAt(t, k)
  {
    hide RestAt, PidAt, PidsAt, Distinct, MakerAt;
    assert ProcAt(s, i) && ProcAt(s, k) && ProcAt(s, INIT) && PairAt(s, i, k);
  }

  lemma RouseRest(s: State, t: State, i: nat, step: Step, p: nat, c: nat)
    requires Inv(s) && i < |s.pc| && RouseStep(s, t, i, step) && Shape(t) && |t.pc| == |s.pc| && p < |s.pc|
    requires c < |s.pc|
    ensures RestAt(t, p, c)
  {
    hide KinAt, PidAt, PidsAt, Distinct, Past, Exiting, Runs, MakerAt;
    assert ProcAt(s, i) && ProcAt(s, p) && ProcAt(s, c) && PairAt(s, p, c);
  }

  // One step keeps what is said of process k, and of the pair p and c.
  lemma KeepProc(s: State, t: State, i: nat, step: Step, k: nat)
    requires Inv(s) && Shape(s) && i < |s.pc| && NextStep(s, t, i, step) && Shape(t) && |t.pc| == |s.pc| && k < |s.pc|
    ensures ProcAt(t, k)
  {
    hide Inv, ForkStep, LinkStep, ExitStep, OrphanStep, DieStep, WaitStep, LookStep, SleepStep, RouseStep, LockAt;
    hide LifeAt, MakerAt, PidAt;
    if ForkStep(s, t, i, step) {
      ForkLocks(s, t, i, step, k);
      ForkMakes(s, t, i, step, k);
    } else if LinkStep(s, t, i, step) {
      LinkLocks(s, t, i, step, k);
      LinkMakes(s, t, i, step, k);
    } else if ExitStep(s, t, i, step) {
      ExitLocks(s, t, i, step, k);
      OtherMakes(s, t, i, step, k);
    } else if OrphanStep(s, t, i, step) {
      OrphanLocks(s, t, i, step, k);
      OrphanMakes(s, t, i, step, k);
    } else if DieStep(s, t, i, step) {
      DieLocks(s, t, i, step, k);
      OtherMakes(s, t, i, step, k);
    } else if WaitStep(s, t, i, step) {
      WaitLocks(s, t, i, step, k);
      OtherMakes(s, t, i, step, k);
    } else if LookStep(s, t, i, step) {
      LookLocks(s, t, i, step, k);
      LookMakes(s, t, i, step, k);
    } else if SleepStep(s, t, i, step) {
      SleepLocks(s, t, i, step, k);
      OtherMakes(s, t, i, step, k);
    } else {
      RouseLocks(s, t, i, step, k);
      OtherMakes(s, t, i, step, k);
    }
  }

  lemma KeepPair(s: State, t: State, i: nat, step: Step, p: nat, c: nat)
    requires Inv(s) && Shape(s) && i < |s.pc| && NextStep(s, t, i, step) && Shape(t) && |t.pc| == |s.pc|
    requires p < |s.pc| && c < |s.pc|
    ensures PairAt(t, p, c)
  {
    hide Inv, ForkStep, LinkStep, ExitStep, OrphanStep, DieStep, WaitStep, LookStep, SleepStep, RouseStep, KinAt;
    hide RestAt, PidsAt;
    if ForkStep(s, t, i, step) {
      MakeKin(s, t, i, step, p, c);
      ForkRest(s, t, i, step, p, c);
    } else if LinkStep(s, t, i, step) {
      MakeKin(s, t, i, step, p, c);
      LinkRest(s, t, i, step, p, c);
    } else if ExitStep(s, t, i, step) {
      OtherKin(s, t, i, step, p, c);
      CallRest(s, t, i, step, p, c);
    } else if OrphanStep(s, t, i, step) {
      OrphanKin(s, t, i, step, p, c);
      OrphanRest(s, t, i, step, p, c);
    } else if DieStep(s, t, i, step) {
      DieKin(s, t, i, step, p, c);
      DieRest(s, t, i, step, p, c);
    } else if WaitStep(s, t, i, step) {
      OtherKin(s, t, i, step, p, c);
      CallRest(s, t, i, step, p, c);
    } else if LookStep(s, t, i, step) {
      LookKin(s, t, i, step, p, c);
      LookRest(s, t, i, step, p, c);
    } else if SleepStep(s, t, i, step) {
      OtherKin(s, t, i, step, p, c);
      CallRest(s, t, i, step, p, c);
    } else {
      OtherKin(s, t, i, step, p, c);
      RouseRest(s, t, i, step, p, c);
    }
  }

  lemma KeepFrame(s: State, t: State, i: nat, step: Step)
    requires Inv(s) && Shape(s) && i < |s.pc| && NextStep(s, t, i, step)
    ensures Frame(t) && |t.pc| == |s.pc|
  {
    hide Inv, ForkStep, LinkStep, ExitStep, OrphanStep, DieStep, WaitStep, LookStep, SleepStep, RouseStep, Frame;
    if MakeStep(s, t, i, step) {
      MakeFrame(s, t, i, step);
    } else if LookStep(s, t, i, step) {
      LookFrame(s, t, i, step);
    } else if OrphanStep(s, t, i, step) || DieStep(s, t, i, step) || RouseStep(s, t, i, step) {
      WakeFrame(s, t, i, step);
    } else {
      CallFrame(s, t, i, step);
    }
  }

  lemma NextInv(s: State, t: State, i: nat, step: Step)
    requires Inv(s) && i < |s.pc| && NextStep(s, t, i, step)
    ensures Inv(t)
  {
    hide NextStep, ProcAt, PairAt;
    KeepFrame(s, t, i, step);
    forall k: nat | k < |t.pc| ensures ProcAt(t, k) {
      KeepProc(s, t, i, step, k);
    }
    forall p: nat, c: nat | p < |t.pc| && c < |t.pc| ensures PairAt(t, p, c) {
      KeepPair(s, t, i, step, p, c);
    }
  }

  // Results --------------------------------------------------------------------------------

  // Only init runs.
  predicate Init(s: State)
  {
    && Shape(s) && s.waitLock == NONE && s.reaped == [] && s.life[INIT].Live? && s.pc[INIT].User?
    && (forall i: nat :: i < |s.pc| ==> s.parent[i] == NONE && s.maker[i] == NONE)
    && (forall i: nat :: i < |s.pc| && i != INIT ==>
         s.life[i].Unused? && s.pc[i].Idle? && !s.plock[i] && s.pid[i] == 0)
    && 0 < s.pid[INIT] < s.nextPid
  }

  lemma InitInv(s: State)
    requires Init(s)
    ensures Inv(s)
  {
  }

  datatype Move = Move(i: nat, step: Step)

  ghost predicate Run(run: seq<State>, moves: seq<Move>)
  {
    && |run| == |moves| + 1 && Init(run[0])
    && forall n: nat :: n < |moves| ==>
         Shape(run[n]) && moves[n].i < |run[n].pc| && NextStep(run[n], run[n + 1], moves[n].i, moves[n].step)
  }

  lemma {:induction false} RunInv(run: seq<State>, moves: seq<Move>, n: nat)
    requires Run(run, moves) && n <= |moves|
    ensures Inv(run[n])
  {
    hide NextStep, Inv;
    if n == 0 {
      InitInv(run[0]);
    } else {
      RunInv(run, moves, n - 1);
      NextInv(run[n - 1], run[n], moves[n - 1].i, moves[n - 1].step);
    }
  }

  /** Whenever wait_lock is free, no parent of a zombie is asleep in wait, nor
      on its way to sleep. */
  lemma Handshake(run: seq<State>, moves: seq<Move>, n: nat, p: nat, c: nat)
    requires Run(run, moves) && n <= |moves| && Shape(run[n]) && run[n].waitLock == NONE
    requires p < |run[n].pc| && c < |run[n].pc| && run[n].parent[c] == p && run[n].life[c].Zombie?
    ensures !Committed(run[n], p)
  {
    RunInv(run, moves, n);
    assert PairAt(run[n], p, c);
  }

  /** The parent of a process is alive: the children of a process that has
      exited, and of a slot that was reused, are somebody else's. */
  lemma ParentsLive(run: seq<State>, moves: seq<Move>, n: nat, c: nat)
    requires Run(run, moves) && n <= |moves| && Shape(run[n]) && c < |run[n].pc| && c != INIT
    requires run[n].life[c].Live? || run[n].life[c].Zombie?
    ensures 0 <= run[n].parent[c] < |run[n].pc| && run[n].parent[c] != c && run[n].life[run[n].parent[c]].Live?
  {
    RunInv(run, moves, n);
    assert ProcAt(run[n], c);
    assert PairAt(run[n], run[n].parent[c], c);
  }

  /** Once a process has a parent, it keeps it until the parent exits, which
      makes it init's, or until it is itself reaped by that parent. */
  lemma ParentChanges(s: State, t: State, i: nat, step: Step, c: nat)
    requires Inv(s) && Shape(s) && i < |s.pc| && NextStep(s, t, i, step) && c < |s.pc|
    requires Shape(t) && |t.pc| == |s.pc| && t.parent[c] != s.parent[c]
    ensures (s.parent[c] == NONE && s.pc[i] == Forking(c) && t.parent[c] == i)
      || (s.parent[c] == i && s.pc[i] == Orphaning(c) && t.parent[c] == INIT)
      || (s.parent[c] == i && s.pc[i].Scan? && s.life[c].Zombie? && t.life[c].Unused? && t.reaped == s.reaped + [s.pid[c]])
  {
    hide Inv, ForkStep, LinkStep, OrphanStep, LookStep, PlainStep;
    if MakeStep(s, t, i, step) || LookStep(s, t, i, step) || OrphanStep(s, t, i, step) {
      InvProc(s, i);
      ParentMoves(s, t, i, step, c);
    } else {
      PlainIs(s, t, i, step);
      PlainSlots(s, t, i, step);
      assert false;
    }
  }

  lemma ParentMoves(s: State, t: State, i: nat, step: Step, c: nat)
    requires Shape(s) && i < |s.pc| && ProcAt(s, i) && c < |s.pc|
    requires MakeStep(s, t, i, step) || LookStep(s, t, i, step) || OrphanStep(s, t, i, step)
    requires Shape(t) && |t.pc| == |s.pc| && t.parent[c] != s.parent[c]
    ensures (s.parent[c] == NONE && s.pc[i] == Forking(c) && t.parent[c] == i)
      || (s.parent[c] == i && s.pc[i] == Orphaning(c) && t.parent[c] == INIT)
      || (s.parent[c] == i && s.pc[i].Scan? && s.life[c].Zombie? && t.life[c].Unused? && t.reaped == s.reaped + [s.pid[c]])
  {
    hide PidAt, LockAt;
  }

  /** However long a process lives, its parent is the one that forked it or, once
      that one has exited, init. */
  lemma {:induction false} OrphansAreInits(run: seq<State>, moves: seq<Move>, n: nat, m: nat, c: nat)
    requires Run(run, moves) && n <= m <= |moves| && Shape(run[n]) && c < |run[n].pc| && run[n].parent[c] != NONE
    requires forall k: nat :: n <= k <= m ==> Shape(run[k]) && |run[k].pc| == |run[n].pc| && !run[k].life[c].Unused?
    requires Shape(run[m]) && |run[m].pc| == |run[n].pc|
    ensures run[m].parent[c] == run[n].parent[c] || run[m].parent[c] == INIT
    ensures 0 <= run[n].parent[c] < |run[m].pc|
    ensures !run[m].life[run[n].parent[c]].Live? ==> run[m].parent[c] == INIT
  {
    hide NextStep, Inv;
    RunInv(run, moves, m);
    KinOf(run[m], c);
    RunInv(run, moves, n);
    KinOf(run[n], c);
    if n < m {
      OrphansAreInits(run, moves, n, m - 1, c);
      RunInv(run, moves, m - 1);
      KinOf(run[m - 1], c);
      if run[m].parent[c] != run[m - 1].parent[c] {
        ParentChanges(run[m - 1], run[m], moves[m - 1].i, moves[m - 1].step, c);
      }
    }
  }

  lemma KinOf(s: State, c: nat)
    requires Inv(s) && Shape(s) && c < |s.pc|
    ensures s.parent[c] != NONE ==> 0 <= s.parent[c] < |s.pc| && s.life[s.parent[c]].Live?
  {
    assert ProcAt(s, c);
    if s.parent[c] != NONE { assert PairAt(s, s.parent[c], c); }
  }

  lemma ZombieStays(s: State, t: State, i: nat, step: Step, c: nat)
    requires Inv(s) && Shape(s) && i < |s.pc| && NextStep(s, t, i, step) && !step.Look? && c < |s.pc|
    requires s.life[c].Zombie?
    ensures c < |t.life| && t.life[c].Zombie?
  {
    hide Inv, ForkStep, LinkStep, OrphanStep, PlainStep, Frame;
    KeepFrame(s, t, i, step);
    FrameShape(t);
    if ForkStep(s, t, i, step) || LinkStep(s, t, i, step) || OrphanStep(s, t, i, step) {
      ZombieKept(s, t, i, step, c);
    } else {
      PlainIs(s, t, i, step);
      PlainSlots(s, t, i, step);
    }
  }

  lemma ZombieKept(s: State, t: State, i: nat, step: Step, c: nat)
    requires Inv(s) && i < |s.pc| && (ForkStep(s, t, i, step) || LinkStep(s, t, i, step) || OrphanStep(s, t, i, step))
    requires c < |s.pc| && s.life[c].Zombie?
    ensures c < |t.life| && t.life[c].Zombie?
  {
    hide RestAt, KinAt, PidsAt, PidAt, LockAt, PairAt, Distinct, Past, Exiting, HoldsPlock, HoldsWait;
    assert ProcAt(s, i) && ProcAt(s, c);
  }

  /** A zombie is freed only by its parent, in wait and holding wait_lock. */
  lemma ReapedByParent(s: State, t: State, i: nat, step: Step, c: nat)
    requires Inv(s) && i < |s.pc| && NextStep(s, t, i, step) && c < |s.pc|
    requires Shape(t) && |t.pc| == |s.pc| && s.life[c].Zombie? && !t.life[c].Zombie?
    ensures s.parent[c] == i && s.waitLock == i && t.life[c].Unused? && t.reaped == s.reaped + [s.pid[c]]
  {
    if !step.Look? {
      ZombieStays(s, t, i, step, c);
    }
    assert ProcAt(s, i);
  }

  /** In a whole run wait returns each process once, and no process in the table
      has a pid that was returned. */
  lemma ReapedOnce(run: seq<State>, moves: seq<Move>, n: nat)
    requires Run(run, moves) && n <= |moves|
    ensures Distinct(run[n].reaped) && Shape(run[n])
    ensures forall c: nat :: c < |run[n].pc| && !run[n].life[c].Unused? ==> run[n].pid[c] !in run[n].reaped
  {
    RunInv(run, moves, n);
    forall c: nat | c < |run[n].pc| && !run[n].life[c].Unused? ensures run[n].pid[c] !in run[n].reaped {
      assert ProcAt(run[n], c);
    }
  }

  /** The same of the pids as the kernel keeps them, modulo 2^32, as long as not
      more than 2^32 have been given out. */
  lemma ReapedOnceInts(run: seq<State>, moves: seq<Move>, n: nat)
    requires Run(run, moves) && n <= |moves| && run[n].nextPid <= 0x1_0000_0000
    ensures Shape(run[n])
    ensures forall j: nat, k: nat :: j < k < |run[n].reaped| ==> Int32(run[n].reaped[j]) != Int32(run[n].reaped[k])
    ensures forall c: nat, k: nat :: c < |run[n].pc| && !run[n].life[c].Unused? && k < |run[n].reaped| ==>
      Int32(run[n].pid[c]) != Int32(run[n].reaped[k])
  {
    RunInv(run, moves, n);
    ReapedOnce(run, moves, n);
    var s := run[n];
    forall k: nat | k < |s.reaped| ensures Int32(s.reaped[k]) == s.reaped[k] {
      assert s.reaped[k] in s.reaped;
    }
    forall c: nat | c < |s.pc| && !s.life[c].Unused? ensures Int32(s.pid[c]) == s.pid[c] {
      assert ProcAt(s, c);
    }
  }

  function Int32(n: nat): nat { n % 0x1_0000_0000 }

  /** wait returns -1 only to a process without children, to a killed one, or
      when the status cannot be copied out. */
  lemma WaitFails(s: State, t: State, i: nat, step: Step)
    requires Inv(s) && i < |s.pc| && NextStep(s, t, i, step) && i < |t.pc|
    requires s.pc[i].Scan? && t.pc[i].User? && t.reaped == s.reaped
    ensures s.killed[i] || step == Look(false) || forall c: nat :: c < |s.pc| ==> s.parent[c] != i
  {
    assert ProcAt(s, i);
    if step.Return? && !s.killed[i] {
      forall c: nat | c < |s.pc| ensures s.parent[c] != i {
        assert PairAt(s, i, c);
      }
    }
  }

  // The marks that steps other than kill leave.
  ghost predicate SameMarks(s: State, t: State)
    requires Shape(s)
  {
    |t.killed| == |t.life| == |s.pc| && forall v: nat :: v < |s.pc| ==> MarkAt(s, t, v)
  }

  predicate MarkAt(s: State, t: State, v: nat)
    requires Shape(s) && v < |s.pc| == |t.killed| && v < |t.life|
  {
    t.killed[v] == (s.killed[v] && !Frees(s, t, v))
  }

  // Slot v is freed.
  predicate Frees(s: State, t: State, v: nat)
  {
    v < |s.life| && v < |t.life| && !s.life[v].Unused? && t.life[v].Unused?
  }

  lemma CallMarks(s: State, t: State, i: nat, step: Step)
    requires Shape(s) && i < |s.pc|
    requires ExitStep(s, t, i, step) || WaitStep(s, t, i, step) || SleepStep(s, t, i, step) || OrphanStep(s, t, i, step)
    ensures SameMarks(s, t)
  {
  }

  lemma RouseMarks(s: State, t: State, i: nat, step: Step)
    requires Shape(s) && i < |s.pc| && (DieStep(s, t, i, step) || RouseStep(s, t, i, step)) && !step.Kill?
    ensures SameMarks(s, t)
  {
  }

  lemma MakeMarks(s: State, t: State, i: nat, step: Step)
    requires Shape(s) && i < |s.pc| && MakeStep(s, t, i, step) && ProcAt(s, i)
    ensures SameMarks(s, t)
  {
    hide LockAt, PidAt;
  }

  lemma LookMarks(s: State, t: State, i: nat, step: Step)
    requires Shape(s) && i < |s.pc| && LookStep(s, t, i, step)
    ensures SameMarks(s, t)
  {
  }

  lemma StepMarks(s: State, t: State, i: nat, step: Step)
    requires Inv(s) && Shape(s) && i < |s.pc| && NextStep(s, t, i, step) && !step.Kill?
    ensures SameMarks(s, t)
  {
    hide Inv, ProcAt, ForkStep, LinkStep, ExitStep, OrphanStep, DieStep, WaitStep, LookStep, SleepStep, RouseStep;
    hide SameMarks;
    if MakeStep(s, t, i, step) {
      InvProc(s, i);
      MakeMarks(s, t, i, step);
    } else if LookStep(s, t, i, step) {
      LookMarks(s, t, i, step);
    } else if DieStep(s, t, i, step) || RouseStep(s, t, i, step) {
      RouseMarks(s, t, i, step);
    } else {
      CallMarks(s, t, i, step);
    }
  }

  /** The mark is set by kill alone, and stays until the slot is freed. */
  lemma KilledStays(s: State, t: State, i: nat, step: Step, v: nat)
    requires Inv(s) && Shape(s) && i < |s.pc| && NextStep(s, t, i, step) && v < |s.pc|
    ensures |t.killed| == |s.pc| && t.killed[v] == (step == Kill(v) || (s.killed[v] && !Frees(s, t, v)))
  {
    hide NextStep, Inv;
    if step.Kill? {
      KillMarks(s, t, i, step);
    } else {
      StepMarks(s, t, i, step);
      assert MarkAt(s, t, v);
    }
  }

  // kill(pid) finds slot v.
  predicate Finds(s: State, pid: nat, v: nat)
  {
    v < |s.pid| && s.pid[v] == pid && forall j: nat :: j < v ==> s.pid[j] != pid
  }

  /** kill finds the one process with the pid; but with 0 it finds a free slot. */
  lemma KillFinds(run: seq<State>, moves: seq<Move>, n: nat, pid: nat, v: nat, k: nat)
    requires Run(run, moves) && n <= |moves| && Finds(run[n], pid, v) && Shape(run[n]) && k < |run[n].pc|
    ensures run[n].life[v].Unused? <==> pid == 0
    ensures pid != 0 && run[n].pid[k] == pid ==> k == v
  {
    hide Inv;
    RunInv(run, moves, n);
    InvProc(run[n], v);
    InvProc(run[n], k);
    InvPair(run[n], v, k);
  }

  // init, and a free slot that kill(0) has marked or not.
  function TwoSlots(marked: bool): State
  {
    State([User, Idle], [Live, Unused], [Running, Running], [NONE, NONE], [false, marked], [1, 0], 2,
          [false, false], NONE, [NONE, NONE], [])
  }

  lemma KillFreeSlot()
    ensures Init(TwoSlots(false)) && NextStep(TwoSlots(false), TwoSlots(true), INIT, Kill(1))
  {
  }

  lemma ForkInSlot(s: State) returns (u: State, v: State, t: State)
    requires s == TwoSlots(true)
    ensures Shape(s) && NextStep(s, u, INIT, Fork(1)) && Shape(u) && INIT < |u.pc| && NextStep(u, v, INIT, Link)
    ensures Shape(v) && INIT < |v.pc| && NextStep(v, t, INIT, Start)
    ensures Shape(t) && 1 < |t.pc| && t.life[1].Live? && t.killed[1] && t.pid[1] == 2
  {
    hide ExitStep, OrphanStep, DieStep, WaitStep, LookStep, SleepStep, RouseStep;
    u := s.(pc := [Forking(1), Idle], life := [Live, Used], pid := [1, 2], nextPid := 3, maker := [NONE, 0]);
    v := u.(pc := [Linked(1), Idle], parent := [NONE, 0]);
    t := v.(pc := [User, User], life := [Live, Live], sched := [Running, Runnable], maker := [NONE, NONE]);
    assert ForkStep(s, u, INIT, Fork(1)) && LinkStep(u, v, INIT, Link) && LinkStep(v, t, INIT, Start);
  }

  /** init calls kill(0) and then fork: the child is marked killed from the start. */
  lemma BornKilled() returns (run: seq<State>, moves: seq<Move>)
    ensures Run(run, moves) && |moves| == 4 && Finds(run[0], 0, 1) && moves[0] == Move(INIT, Kill(1))
    ensures moves[1].step.Fork? && moves[2].step.Link? && moves[3].step.Start? && Shape(run[4])
    ensures var t := run[4]; 1 < |t.pc| && t.life[1].Live? && t.killed[1] && t.pid[1] == 2
  {
    hide NextStep, Init;
    KillFreeSlot();
    var s := TwoSlots(true);
    var u, v, t := ForkInSlot(s);
    run := [TwoSlots(false), s, u, v, t];
    moves := [Move(INIT, Kill(1)), Move(INIT, Fork(1)), Move(INIT, Link), Move(INIT, Start)];
  }

  // Slot v is not freed from state m on to state n.
  ghost predicate Stays(run: seq<State>, m: nat, n: nat, v: nat)
    requires n < |run|
  {
    forall j: nat :: m <= j < n ==> !Frees(run[j], run[j + 1], v)
  }

  /** A slot is marked exactly when a kill has named it, or it was marked at first, and
      it has not been freed since.  A kill that names a free slot, as kill(0) may,
      marks the process that is then made in it. */
  lemma {:induction false} KilledExactly(run: seq<State>, moves: seq<Move>, n: nat, v: nat)
    requires Run(run, moves) && n <= |moves| && v < |run[0].killed|
    ensures v < |run[n].killed|
    ensures run[n].killed[v] <==>
      || (run[0].killed[v] && Stays(run, 0, n, v))
      || exists m: nat :: m < n && moves[m].step == Kill(v) && Stays(run, m + 1, n, v)
  {
    hide NextStep, Inv, Frees;
    if n > 0 {
      var m := n - 1;
      KilledExactly(run, moves, m, v);
      RunInv(run, moves, m);
      KilledStays(run[m], run[n], moves[m].i, moves[m].step, v);
      assert forall j: nat :: j <= m ==> (Stays(run, j, n, v) <==> Stays(run, j, m, v) && !Frees(run[m], run[n], v));
      assert Stays(run, n, n, v);
    }
  }

  /** kill: the victim is marked, and not asleep; nothing else of it changes. */
  lemma KillMarks(s: State, t: State, i: nat, step: Step)
    requires Shape(s) && i < |s.pc| && NextStep(s, t, i, step) && step.Kill?
    ensures step.victim < |s.pc| && t.killed == s.killed[step.victim := true] && t.life == s.life && t.pc == s.pc
    ensures !s.plock[step.victim] && |t.sched| == |s.pc| && !t.sched[step.victim].Sleeping?
  {
  }

  // Only the step that leads from the scan to sleep commits to sleep.
  lemma OnlyDoze(s: State, t: State, i: nat, step: Step, v: nat)
    requires Inv(s) && Shape(s) && i < |s.pc| && NextStep(s, t, i, step) && Shape(t) && v < |s.pc| == |t.pc|
    requires !Committed(s, v) && Committed(t, v)
    ensures step.Doze? && i == v && !s.killed[v]
  {
    hide Inv, ForkStep, LinkStep, ExitStep, OrphanStep, DieStep, WaitStep, LookStep, SleepStep, RouseStep, Committed;
    InvProc(s, v);
    if MakeStep(s, t, i, step) {
      MakeAwake(s, t, i, step, v);
    } else if LookStep(s, t, i, step) || OrphanStep(s, t, i, step) {
      LookAwake(s, t, i, step, v);
    } else if SleepStep(s, t, i, step) || RouseStep(s, t, i, step) {
      SleepAwake(s, t, i, step, v);
    } else {
      CallAwake(s, t, i, step, v);
    }
  }

  lemma InvProc(s: State, v: nat)
    requires Inv(s) && v < |s.pc|
    ensures ProcAt(s, v)
  {
    hide LockAt, LifeAt, MakerAt, PidAt, PairAt;
  }

  lemma MakeAwake(s: State, t: State, i: nat, step: Step, v: nat)
    requires Shape(s) && i < |s.pc| && Shape(t) && v < |s.pc| == |t.pc| && ProcAt(s, v) && !Committed(s, v)
    requires MakeStep(s, t, i, step)
    ensures !Committed(t, v)
  {
    hide PidAt, MakerAt;
  }

  lemma LookAwake(s: State, t: State, i: nat, step: Step, v: nat)
    requires Shape(s) && i < |s.pc| && Shape(t) && v < |s.pc| == |t.pc| && ProcAt(s, v) && !Committed(s, v)
    requires LookStep(s, t, i, step) || OrphanStep(s, t, i, step)
    ensures !Committed(t, v)
  {
    hide PidAt, MakerAt;
  }

  lemma SleepAwake(s: State, t: State, i: nat, step: Step, v: nat)
    requires Shape(s) && i < |s.pc| && Shape(t) && v < |s.pc| == |t.pc| && ProcAt(s, v) && !Committed(s, v)
    requires SleepStep(s, t, i, step) || RouseStep(s, t, i, step)
    ensures !Committed(t, v)
  {
    hide PidAt, MakerAt;
  }

  lemma CallAwake(s: State, t: State, i: nat, step: Step, v: nat)
    requires Shape(s) && i < |s.pc| && Shape(t) && v < |s.pc| == |t.pc| && ProcAt(s, v) && !Committed(s, v)
    requires ExitStep(s, t, i, step) || DieStep(s, t, i, step) || WaitStep(s, t, i, step)
    ensures Committed(t, v) ==> step.Doze? && i == v && !s.killed[v]
  {
    hide PidAt, MakerAt;
  }

  /** A process that is killed goes to sleep in wait only if the kill came after its
      scan and before sleep took p->lock. */
  lemma KilledDozes(s: State, t: State, i: nat, step: Step, v: nat)
    requires Inv(s) && Shape(s) && i < |s.pc| && NextStep(s, t, i, step) && Shape(t) && v < |s.pc| == |t.pc|
    requires !(s.killed[v] && Committed(s, v)) && t.killed[v] && Committed(t, v)
    ensures step == Kill(v) && s.pc[v].SleepAcq?
  {
    hide Inv, NextStep;
    KilledStays(s, t, i, step, v);
    if !Committed(s, v) {
      OnlyDoze(s, t, i, step, v);
    } else {
      KillMarks(s, t, i, step);
      InvProc(s, v);
    }
  }

  /** A process that finds itself killed at the end of a scan does not go to sleep: its
      wait returns. */
  lemma KilledReturns(s: State, t: State, i: nat, step: Step)
    requires Shape(s) && i < |s.pc| && s.killed[i] && s.pc[i].Scan? && s.pc[i].next == |s.pc| && NextStep(s, t, i, step)
    ensures |t.pc| == |s.pc| && t.pc[i] == if step.Return? then User else s.pc[i]
  {
  }

  /** fork ends with a runnable child: its parent is the process that forked, and its
      pid is no other process's and none that wait has returned. */
  lemma ForkedChild(run: seq<State>, moves: seq<Move>, n: nat, k: nat)
    requires Run(run, moves) && n < |moves| && moves[n].step.Start? && k < |run[n].pc|
    ensures Shape(run[n]) && Shape(run[n + 1]) && |run[n + 1].pc| == |run[n].pc| && run[n].pc[moves[n].i].Linked?
    ensures var t, c := run[n + 1], run[n].pc[moves[n].i].child;
      && c < |t.pc| && t.life[c].Live? && t.sched[c].Runnable? && t.pc[c].User? && t.parent[c] == moves[n].i
      && t.pid[c] !in t.reaped && (k != c && !t.life[k].Unused? ==> t.pid[k] != t.pid[c])
  {
    hide Inv;
    var i := moves[n].i;
    RunInv(run, moves, n);
    RunInv(run, moves, n + 1);
    InvProc(run[n], i);
    LinkIs(run[n], run[n + 1], i);
    var c := run[n].pc[i].child;
    InvProc(run[n + 1], c);
    InvPair(run[n + 1], k, c);
  }

  lemma LinkIs(s: State, t: State, i: nat)
    requires Shape(s) && i < |s.pc| && NextStep(s, t, i, Start)
    ensures LinkStep(s, t, i, Start) && Shape(t) && |t.pc| == |s.pc|
  {
  }

  lemma InvPair(s: State, p: nat, c: nat)
    requires Inv(s) && p < |s.pc| && c < |s.pc|
    ensures PairAt(s, p, c)
  {
    hide ProcAt, KinAt, RestAt, PidsAt;
  }

  /** allocproc returns with the slot freed or filled except when there is no
      memory for the trapframe's copy: it then leaves the slot in state USED, and
      no step ever changes that. */
  lemma LostStays(s: State, t: State, i: nat, step: Step, c: nat)
    requires Inv(s) && Shape(s) && i < |s.pc| && NextStep(s, t, i, step)
    requires c < |s.pc| && s.life[c].Used? && s.maker[c] == LOST
    ensures Shape(t) && c < |t.pc| == |s.pc| && t.life[c].Used? && t.maker[c] == LOST
  {
    hide Inv, ForkStep, LinkStep, OrphanStep, LookStep, PlainStep, Frame;
    KeepFrame(s, t, i, step);
    FrameShape(t);
    if MakeStep(s, t, i, step) || LookStep(s, t, i, step) || OrphanStep(s, t, i, step) {
      LostSlot(s, t, i, step, c);
    } else {
      PlainIs(s, t, i, step);
      PlainSlots(s, t, i, step);
    }
  }

  lemma FrameShape(s: State)
    requires Frame(s)
    ensures Shape(s)
  {
  }

  lemma PlainIs(s: State, t: State, i: nat, step: Step)
    requires Shape(s) && i < |s.pc| && NextStep(s, t, i, step)
    requires !ForkStep(s, t, i, step) && !LinkStep(s, t, i, step) && !LookStep(s, t, i, step)
    requires !OrphanStep(s, t, i, step)
    ensures PlainStep(s, t, i, step)
  {
    hide ForkStep, LinkStep, ExitStep, OrphanStep, DieStep, WaitStep, LookStep, SleepStep, RouseStep;
  }

  lemma LostSlot(s: State, t: State, i: nat, step: Step, c: nat)
    requires Inv(s) && i < |s.pc| && c < |s.pc| && s.life[c].Used? && s.maker[c] == LOST
    requires MakeStep(s, t, i, step) || LookStep(s, t, i, step) || OrphanStep(s, t, i, step)
    ensures c < |t.life| && c < |t.maker| && t.life[c].Used? && t.maker[c] == LOST
  {
    hide RestAt, KinAt, PidsAt, PidAt, LockAt, PairAt, Distinct, Past, Exiting, HoldsPlock, HoldsWait;
    assert ProcAt(s, i);
  }

  lemma {:induction false} LostForever(run: seq<State>, moves: seq<Move>, n: nat, m: nat, c: nat)
    requires Run(run, moves) && n <= m <= |moves| && Shape(run[n]) && c < |run[n].pc|
    requires run[n].life[c].Used? && run[n].maker[c] == LOST
    ensures Shape(run[m]) && c < |run[m].pc| && run[m].life[c].Used? && run[m].maker[c] == LOST
    decreases m
  {
    hide NextStep, Inv;
    if n < m {
      LostForever(run, moves, n, m - 1, c);
      RunInv(run, moves, m - 1);
      LostStays(run[m - 1], run[m], moves[m - 1].i, moves[m - 1].step, c);
    }
  }

  /** The failure: init forks, and there is no memory for the copy. */
  lemma LostReachable() returns (run: seq<State>, moves: seq<Move>)
    ensures Run(run, moves) && var t := run[|moves|]; 1 < |t.pc| && Shape(t) && t.life[1].Used? && t.maker[1] == LOST
  {
    var s := State([User, Idle], [Live, Unused], [Running, Running], [NONE, NONE], [false, false], [1, 0], 2,
                   [false, false], NONE, [NONE, NONE], []);
    var u := s.(pc := [Forking(1), Idle], life := [Live, Used], pid := [1, 2], nextPid := 3, maker := [NONE, 0]);
    var t := u.(pc := [User, Idle], maker := [NONE, LOST]);
    run, moves := [s, u, t], [Move(0, Fork(1)), Move(0, ForkLose)];
    assert NextStep(s, u, 0, Fork(1)) && NextStep(u, t, 0, ForkLose);
  }
}

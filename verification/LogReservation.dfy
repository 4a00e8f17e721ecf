/** begin_op's space reservation (kernel/log.c:133) against log_write's limit
    (kernel/log.c:220): exactly when "too big a transaction" cannot happen, if
    every operation logs at most `limit` distinct blocks. */
module LogReservation {
  import opened DiskBlock
  import opened RedoLog
  import opened GroupCommit

  /** The most blocks any run can have in the log. */
  function Peak(limit: nat): int { LOGSIZE + 2 * (limit - MAXOPBLOCKS) }

  /** Some process inside an operation may call log_write now, and would panic. */
  ghost predicate WouldPanic(g: Geometry, limit: nat, s: State) {
    exists p: nat, b: nat :: MayLog(g, limit, s, p, b) && LogWritePanics(g, s)
  }

  ghost predicate MayLog(g: Geometry, limit: nat, s: State, p: nat, b: nat) {
    InsideAt(s, p) && g.Home(b) && !DirtyIn(s.procs[p := Outside], b) && |s.procs[p].op.logged + {b}| <= limit
  }

  // ------------------------------------------------------------- sufficiency

  /** The blocks the operations in progress may still add. */
  function Spare(limit: nat, ps: seq<Proc>): (n: int) {
    if ps == [] then 0
    else Spare(limit, ps[..|ps| - 1]) + SpareOf(limit, ps[|ps| - 1])
  }

  function SpareOf(limit: nat, p: Proc): int {
    if p.Inside? then limit - p.op.added else 0
  }

  ghost predicate AddedOk(limit: nat, ps: seq<Proc>) {
    forall p :: 0 <= p < |ps| && ps[p].Inside? ==> ps[p].op.added <= limit
  }

  lemma {:induction false} SpareSet(limit: nat, ps: seq<Proc>, p: nat, q: Proc)
    requires p < |ps|
    ensures Spare(limit, ps[p := q]) == Spare(limit, ps) - SpareOf(limit, ps[p]) + SpareOf(limit, q)
    ensures Outstanding(ps[p := q]) == Outstanding(ps) - (if ps[p].Inside? then 1 else 0) + (if q.Inside? then 1 else 0)
    decreases |ps|
  {
    var m := |ps| - 1;
    if p < m {
      assert ps[p := q][..m] == ps[..m][p := q];
      SpareSet(limit, ps[..m], p, q);
    } else {
      assert ps[p := q][..m] == ps[..m];
    }
  }

  lemma {:induction false} SpareBound(limit: nat, ps: seq<Proc>)
    requires AddedOk(limit, ps)
    ensures 0 <= Spare(limit, ps) <= limit * Outstanding(ps)
  {
    if ps != [] {
      var qs := ps[..|ps| - 1];
      assert forall p :: 0 <= p < |qs| ==> qs[p] == ps[p];
      SpareBound(limit, qs);
      if ps[|ps| - 1].Inside? {
        assert limit * (Outstanding(qs) + 1) == limit * Outstanding(qs) + limit;
      }
    }
  }

  lemma {:induction false} SpareAtLeast(limit: nat, ps: seq<Proc>, p: nat)
    requires AddedOk(limit, ps) && p < |ps|
    ensures SpareOf(limit, ps[p]) <= Spare(limit, ps)
    decreases |ps|
  {
    var m := |ps| - 1;
    var qs := ps[..m];
    assert forall i :: 0 <= i < |qs| ==> qs[i] == ps[i];
    SpareBound(limit, qs);
    if p < m {
      SpareAtLeast(limit, qs, p);
    }
  }

  ghost predicate Reserved(limit: nat, s: State) {
    s.mode.Running? ==> |s.lh| + Spare(limit, s.procs) <= Peak(limit)
  }

  lemma {:induction false} QuietSpare(limit: nat, ps: seq<Proc>)
    requires forall p :: 0 <= p < |ps| ==> ps[p].Outside?
    ensures Spare(limit, ps) == 0
  {
    if ps != [] {
      QuietSpare(limit, ps[..|ps| - 1]);
    }
  }

  lemma InvAdded(g: Geometry, limit: nat, s: State)
    requires Inv(g, limit, s)
    ensures AddedOk(limit, s.procs)
  {
    forall p | 0 <= p < |s.procs| && s.procs[p].Inside? ensures s.procs[p].op.added <= limit {
      assert OpOk(g, limit, s, s.procs[p].op);
    }
  }

  /** Admission: begin_op's test leaves room for every operation's remainder. */
  lemma BeginReserves(g: Geometry, limit: nat, s: State, t: State, p: nat)
    requires Inv(g, limit, s) && Begin(s, t, p) && limit <= MAXOPBLOCKS
    ensures Reserved(limit, t)
  {
    var n := Outstanding(s.procs);
    SpareSet(limit, s.procs, p, t.procs[p]);
    InvAdded(g, limit, s);
    SpareBound(limit, s.procs);
    QuietIsZero(s.procs);
    if n == 0 {
      QuietSpare(limit, s.procs);
    } else {
      Crowded(limit, n);
    }
  }

  lemma Crowded(limit: nat, n: nat)
    requires n >= 1 && limit <= MAXOPBLOCKS
    ensures LOGSIZE - (n + 1) * MAXOPBLOCKS + limit * n + limit <= Peak(limit)
  {
    assert (MAXOPBLOCKS - limit) * (n + 1) >= (MAXOPBLOCKS - limit) * 2;
    assert (MAXOPBLOCKS - limit) * (n + 1) == (n + 1) * MAXOPBLOCKS - limit * n - limit;
  }

  lemma NextReserved(g: Geometry, limit: nat, s: State, t: State, a: Step)
    requires Inv(g, limit, s) && Reserved(limit, s) && NextStep(g, limit, s, t, a) && limit <= MAXOPBLOCKS
    ensures Reserved(limit, t)
  {
    match a
    case BeginStep(p) => BeginReserves(g, limit, s, t, p);
    case ModifyStep(p, b, v) => SpareSet(limit, s.procs, p, t.procs[p]);
    case LogStep(p, b) => SpareSet(limit, s.procs, p, t.procs[p]);
    case EndStep(p) => SpareSet(limit, s.procs, p, t.procs[p]); InvAdded(g, limit, s);
    case WriteStep =>
    case FinishStep => QuietSpare(limit, t.procs);
    case CrashStep =>
    case RedoStep =>
    case BootedStep => QuietSpare(limit, t.procs);
  }

  lemma {:induction false} RunReserved(g: Geometry, limit: nat, run: seq<State>, i: nat)
    requires Run(g, limit, run) && i < |run| && limit <= MAXOPBLOCKS
    ensures Inv(g, limit, run[i]) && Reserved(limit, run[i])
    decreases i
  {
    RunInv(g, limit, run, i);
    if i > 0 {
      RunReserved(g, limit, run, i - 1);
      assert Next(g, limit, run[i - 1], run[i - 1 + 1]);
      var a :| NextStep(g, limit, run[i - 1], run[i], a);
      NextReserved(g, limit, run[i - 1], run[i], a);
    }
  }

  /** If the peak stays below the log's capacity, no log_write of any run panics. */
  lemma NeverTooBig(g: Geometry, limit: nat, run: seq<State>, i: nat)
    requires Run(g, limit, run) && i < |run|
    requires Peak(limit) < g.Capacity()
    ensures !WouldPanic(g, limit, run[i])
  {
    var s := run[i];
    RunReserved(g, limit, run, i);
    if p: nat, b: nat :| MayLog(g, limit, s, p, b) && LogWritePanics(g, s) {
      BracketsHold(g, limit, run, i, p);
      assert s.mode.Running?;
      InvAdded(g, limit, s);
      SpareAtLeast(limit, s.procs, p);
      assert false;
    }
  }

  // --------------------------------------------------------------- necessity

  ghost predicate Path(g: Geometry, limit: nat, run: seq<State>) {
    && run != []
    && forall i :: 0 <= i < |run| - 1 ==> Next(g, limit, run[i], run[i + 1])
  }

  ghost function Last(run: seq<State>): State
    requires run != []
  {
    run[|run| - 1]
  }

  lemma PathJoin(g: Geometry, limit: nat, a: seq<State>, b: seq<State>)
    requires Path(g, limit, a) && Path(g, limit, b) && Last(a) == b[0]
    ensures Path(g, limit, a + b[1..]) && Last(a + b[1..]) == Last(b)
  {
    var c := a + b[1..];
    forall i | 0 <= i < |c| - 1 ensures Next(g, limit, c[i], c[i + 1]) {
      if i < |a| - 1 {
        assert Next(g, limit, a[i], a[i + 1]);
      } else {
        var j := i - |a| + 1;
        assert Next(g, limit, b[j], b[j + 1]);
        assert c[i] == b[j];
      }
    }
  }

  lemma PathStep(g: Geometry, limit: nat, a: seq<State>, t: State, step: Step)
    requires Path(g, limit, a) && NextStep(g, limit, Last(a), t, step)
    ensures Path(g, limit, a + [t]) && Last(a + [t]) == t
  {
    var b := [Last(a), t];
    assert Next(g, limit, b[0], b[1]);
    PathJoin(g, limit, a, b);
    assert a + b[1..] == a + [t];
  }

  /** Two processes, nothing dirty, process 0 inside an operation. */
  ghost predicate Staged(g: Geometry, s: State) {
    && g.Ok() && s.mode.Running? && |s.procs| >= 2 && s.procs[0].Inside?
    && (forall p :: 0 <= p < |s.procs| && s.procs[p].Inside? ==>
          s.procs[p].op.dirty == {} && forall b :: b in s.procs[p].op.logged ==> g.Home(b))
    && (forall p :: 2 <= p < |s.procs| ==> s.procs[p].Outside?)
  }

  ghost predicate NewBlocks(g: Geometry, s: State, bs: seq<int>) {
    AllHome(g, bs) && Distinct(s.lh + bs)
  }

  lemma StagedCount(g: Geometry, s: State)
    requires Staged(g, s)
    ensures Outstanding(s.procs) == if s.procs[1].Inside? then 2 else 1
  {
    SpareSet(0, s.procs, 1, Outside);
    var ps := s.procs[1 := Outside];
    SpareSet(0, ps, 0, Outside);
    QuietIsZero(ps[0 := Outside]);
  }

  /** Process p logs all of bs. */
  lemma {:induction false} LogAll(g: Geometry, limit: nat, s: State, p: nat, bs: seq<int>) returns (run: seq<State>)
    requires Staged(g, s) && InsideAt(s, p) && p < 2 && NewBlocks(g, s, bs)
    requires |s.lh| + |bs| <= g.Capacity()
    requires |s.procs[p].op.logged| + |bs| <= limit
    ensures Path(g, limit, run) && run[0] == s && Staged(g, Last(run))
    ensures Last(run).lh == s.lh + bs
    ensures |Last(run).procs| == |s.procs|
    ensures forall q :: 0 <= q < |s.procs| && q != p ==> Last(run).procs[q] == s.procs[q]
    ensures InsideAt(Last(run), p) && |Last(run).procs[p].op.logged| <= limit
    decreases |bs|
  {
    if bs == [] {
      run := [s];
    } else {
      var b, op := bs[0], s.procs[p].op;
      var t := s.(lh := s.lh + [b], procs := s.procs[p := Inside(Logged(op, b, true))]);
      StagedCount(g, s);
      assert b !in s.lh by {
        forall i | 0 <= i < |s.lh| ensures s.lh[i] != b {
          assert (s.lh + bs)[i] == s.lh[i] && (s.lh + bs)[|s.lh|] == b;
        }
      }
      assert NextStep(g, limit, s, t, LogStep(p, b));
      PathStep(g, limit, [s], t, LogStep(p, b));
      assert t.lh + bs[1..] == s.lh + bs;
      var rest := LogAll(g, limit, t, p, bs[1..]);
      PathJoin(g, limit, [s] + [t], rest);
      run := [s] + [t] + rest[1..];
    }
  }

  /** Process 1 begins while process 0 is inside and at most ten blocks are logged. */
  lemma BeginSecond(g: Geometry, limit: nat, s: State) returns (t: State)
    requires Staged(g, s) && s.procs[1].Outside? && |s.lh| <= LOGSIZE - 2 * MAXOPBLOCKS
    ensures NextStep(g, limit, s, t, BeginStep(1)) && Staged(g, t) && t.lh == s.lh
    ensures InsideAt(t, 1) && t.procs[1].op.logged == {} && t.procs[0] == s.procs[0]
  {
    StagedCount(g, s);
    t := s.(procs := s.procs[1 := Inside(Op(s.nextOp, {}, {}, 0))], nextOp := s.nextOp + 1);
  }

  /** Process 1 runs one-block operations, one for each of bs. */
  lemma {:induction false} SmallOps(g: Geometry, limit: nat, s: State, bs: seq<int>) returns (run: seq<State>)
    requires Staged(g, s) && s.procs[1].Outside? && NewBlocks(g, s, bs) && limit >= 1
    requires |s.lh| + |bs| <= g.Capacity() && |s.lh| + |bs| <= LOGSIZE - 2 * MAXOPBLOCKS
    ensures Path(g, limit, run) && run[0] == s && Staged(g, Last(run))
    ensures Last(run).lh == s.lh + bs && Last(run).procs[1].Outside?
    ensures Last(run).procs[0] == s.procs[0]
    decreases |bs|
  {
    if bs == [] {
      run := [s];
    } else {
      var t := BeginSecond(g, limit, s);
      assert s.lh + [bs[0]] == (s.lh + bs)[..|s.lh| + 1];
      var logging := LogAll(g, limit, t, 1, [bs[0]]);
      var u := Last(logging);
      var v := u.(procs := u.procs[1 := Outside]);
      StagedCount(g, v);
      PathStep(g, limit, [s], t, BeginStep(1));
      PathJoin(g, limit, [s] + [t], logging);
      PathStep(g, limit, [s] + [t] + logging[1..], v, EndStep(1));
      assert v.lh + bs[1..] == s.lh + bs;
      var rest := SmallOps(g, limit, v, bs[1..]);
      PathJoin(g, limit, [s] + [t] + logging[1..] + [v], rest);
      run := [s] + [t] + logging[1..] + [v] + rest[1..];
    }
  }

  /** The next few of hs, when the first few are logged. */
  lemma Sliced(g: Geometry, s: State, hs: seq<int>, a: nat, b: nat)
    requires AllHome(g, hs) && Distinct(hs) && a <= b <= |hs| && s.lh == hs[..a]
    ensures NewBlocks(g, s, hs[a..b]) && s.lh + hs[a..b] == hs[..b]
  {
    assert s.lh + hs[a..b] == hs[..b];
  }

  /** If the peak reaches the capacity, some run makes a log_write panic, on any
      disk with enough blocks outside the log. */
  lemma TooBigReachable(g: Geometry, limit: nat, s0: State, hs: seq<int>) returns (run: seq<State>)
    requires Init(g, s0) && Head(g, s0.disk) == [] && |s0.procs| >= 2 && limit >= 1
    requires |hs| == g.Capacity() && AllHome(g, hs) && Distinct(hs)
    requires Peak(limit) >= g.Capacity()
    ensures Run(g, limit, run) && run[0] == s0 && WouldPanic(g, limit, Last(run))
  {
    hide NewBlocks, NextStep, Distinct, AllHome, WouldPanic, Init, Staged, GoodHead, Head;
    var boot := Boot(g, limit, s0);
    var s := Last(boot);
    var small := if |hs| < 10 then |hs| else 10;
    Sliced(g, s, hs, 0, small);
    var one := SmallOps(g, limit, s, hs[0..small]);
    var t := BeginSecond(g, limit, Last(one));
    var mid := if |hs| - small < limit then |hs| else small + limit;
    Sliced(g, t, hs, small, mid);
    var two := LogAll(g, limit, t, 1, hs[small..mid]);
    var u := Last(two);
    Sliced(g, u, hs, mid, |hs|);
    var three := LogAll(g, limit, u, 0, hs[mid..|hs|]);
    GeometryOk(g, s0);
    HomeOf(g, hs);
    Witness(g, limit, Last(three), hs[0]);
    PathJoin(g, limit, boot, one);
    PathStep(g, limit, boot + one[1..], t, BeginStep(1));
    PathJoin(g, limit, boot + one[1..] + [t], two);
    PathJoin(g, limit, boot + one[1..] + [t] + two[1..], three);
    run := boot + one[1..] + [t] + two[1..] + three[1..];
  }

  lemma GeometryOk(g: Geometry, s: State)
    requires Init(g, s)
    ensures g.Ok()
  {}

  lemma HomeOf(g: Geometry, hs: seq<int>)
    requires AllHome(g, hs) && |hs| == g.Capacity() && g.Ok()
    ensures hs != [] && g.Home(hs[0])
  {}

  /** Process 0 logs an already logged block into a full log. */
  lemma Witness(g: Geometry, limit: nat, s: State, h: nat)
    requires Staged(g, s) && |s.lh| == g.Capacity() && g.Home(h) && limit >= 1
    requires |s.procs[0].op.logged| <= limit
    ensures WouldPanic(g, limit, s)
  {
    var op := s.procs[0].op;
    var b: nat := h;
    if op.logged != {} {
      b :| b in op.logged;
      assert op.logged + {b} == op.logged;
    } else {
      assert op.logged + {b} == {b};
    }
    assert MayLog(g, limit, s, 0, b);
  }

  /** From power-on to process 0 inside its first operation. */
  lemma Boot(g: Geometry, limit: nat, s0: State) returns (run: seq<State>)
    requires Init(g, s0) && Head(g, s0.disk) == [] && |s0.procs| >= 2
    ensures Path(g, limit, run) && run[0] == s0 && Staged(g, Last(run)) && Last(run).lh == []
    ensures Last(run).procs[1].Outside? && Last(run).procs[0].op.logged == {}
  {
    var w := RecoverWrite(g, s0.disk, [], 0);
    var d := s0.disk[w.at := w.data];
    var s1 := s0.(disk := d, view := d, mode := Recovering(1, s0.disk));
    var s2 := s1.(mode := Running);
    QuietIsZero(s2.procs);
    var s3 := s2.(procs := s2.procs[0 := Inside(Op(s2.nextOp, {}, {}, 0))], nextOp := s2.nextOp + 1);
    PathStep(g, limit, [s0], s1, RedoStep);
    PathStep(g, limit, [s0] + [s1], s2, BootedStep);
    PathStep(g, limit, [s0] + [s1] + [s2], s3, BeginStep(0));
    run := [s0] + [s1] + [s2] + [s3];
  }

  /** With the log mkfs builds (LOGSIZE blocks, header included), operations may
      log up to MAXOPBLOCKS - 1 blocks; MAXOPBLOCKS is one too many. */
  lemma MkfsLimit(g: Geometry, limit: nat)
    requires g.size == LOGSIZE
    ensures Peak(limit) < g.Capacity() <==> limit <= MAXOPBLOCKS - 1
  {}

  /** The exact condition, for any machine with two processes and enough blocks
      outside the log: no run panics if and only if the peak is below capacity. */
  lemma ReservationExact(g: Geometry, limit: nat, s0: State, hs: seq<int>)
    requires Init(g, s0) && Head(g, s0.disk) == [] && |s0.procs| >= 2 && limit >= 1
    requires |hs| == g.Capacity() && AllHome(g, hs) && Distinct(hs)
    ensures (forall run: seq<State>, i :: Run(g, limit, run) && 0 <= i < |run| ==> !WouldPanic(g, limit, run[i]))
            <==> Peak(limit) < g.Capacity()
  {
    if Peak(limit) < g.Capacity() {
      forall run: seq<State>, i | Run(g, limit, run) && 0 <= i < |run|
        ensures !WouldPanic(g, limit, run[i])
      {
        NeverTooBig(g, limit, run, i);
      }
    } else {
      var run := TooBigReachable(g, limit, s0, hs);
      assert WouldPanic(g, limit, run[|run| - 1]);
    }
  }
}

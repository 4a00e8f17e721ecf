/**
 * pipe.c: a ring of PIPESIZE bytes indexed by two 32-bit counters, with any
 * number of readers and writers.  What other processes do while a reader or
 * writer sleeps is a parameter.
 */
module Pipe {
  const PIPESIZE := 512
  const WORD := 0x1_0000_0000

  // A call of another process, up to where it would sleep.
  datatype Action = Write(src: seq<nat>) | Read(n: nat) | CloseRead | CloseWrite

  // A pipe as the queue it stands for: every byte ever put in, how many were
  // removed, and which ends are open.
  datatype Queue = Queue(put: seq<nat>, got: nat, readopen: bool, writeopen: bool)

  predicate Fits(q: Queue) { q.got <= |q.put| <= q.got + PIPESIZE }

  function Min(a: nat, b: nat): nat { if a < b then a else b }

  // What a call does to the queue: a write puts in as much as there is room for
  // while somebody can read, a read removes as much as there is.
  function Act(q: Queue, a: Action): (r: Queue)
    requires Fits(q)
    ensures Fits(r) && q.put <= r.put && q.got <= r.got
  {
    match a
    case Write(src) =>
      if q.readopen then q.(put := q.put + src[..Min(|src|, q.got + PIPESIZE - |q.put|)]) else q
    case Read(n) => q.(got := q.got + Min(n, |q.put| - q.got))
    case CloseRead => q.(readopen := false)
    case CloseWrite => q.(writeopen := false)
  }

  function Acts(q: Queue, acts: seq<Action>): (r: Queue)
    requires Fits(q)
    ensures Fits(r) && q.put <= r.put && q.got <= r.got
    decreases |acts|
  {
    if acts == [] then q else Acts(Act(q, acts[0]), acts[1..])
  }

  // One sleep of a writer: what others did meanwhile, and the byte at which the
  // writer then finds itself killed; of a reader: the same, and whether killed.
  datatype WriteSleep = WriteSleep(others: seq<Action>, killAt: nat)
  datatype ReadSleep = ReadSleep(others: seq<Action>, killed: bool)

  // Why the loop in pipewrite stops.
  datatype Why = Done | Full | Broken | Fault

  datatype WriteEnd = Wrote(n: nat) | Failed | StillAsleep

  datatype ReadEnd = Got(bytes: seq<nat>) | Killed | Waiting

  // Whole calls on the queue ----------------------------------------------------------

  // Where pipewrite's loop stops that begins at byte i, and why: at the end of src,
  // where the writer finds itself killed, when the ring is full, or where copyin fails.
  function Stop(q: Queue, src: seq<nat>, i: nat, killAt: nat, fault: nat): (r: (nat, Why))
    requires Fits(q) && i <= |src|
    ensures i <= r.0 <= |src| && |q.put| + (r.0 - i) <= q.got + PIPESIZE
  {
    if i == |src| then (i, Done)
    else if !q.readopen then (i, Broken)
    else
      var full := i + (q.got + PIPESIZE - |q.put|);
      var m := Min(|src|, full);
      var a := if i <= killAt < m then killAt else m;
      var j := if i <= fault < a then fault else a;
      (j, if j == |src| then Done else if j == killAt then Broken else if j == full then Full else Fault)
  }

  // A call of pipewrite: the queue it leaves, how many bytes it has written, why it
  // stopped last, and how often it slept.
  datatype Writing = Writing(q: Queue, n: nat, why: Why, slept: nat)

  // Bytes from i on: until the loop stops, and when the ring is full after each sleep again.
  function WriteFrom(q: Queue, src: seq<nat>, i: nat, killAt: nat, fault: nat, sleeps: seq<WriteSleep>): (w: Writing)
    requires Fits(q) && i <= |src|
    ensures Fits(w.q) && q.put <= w.q.put && q.got <= w.q.got && i <= w.n <= |src| && w.slept <= |sleeps|
    decreases |sleeps|
  {
    var (j, why) := Stop(q, src, i, killAt, fault);
    var t := q.(put := q.put + src[i..j]);
    if why != Full || sleeps == [] then Writing(t, j, why, 0)
    else
      var w := WriteFrom(Acts(t, sleeps[0].others), src, j, sleeps[0].killAt, fault, sleeps[1..]);
      w.(slept := w.slept + 1)
  }

  // Which of the bytes put in meanwhile are the writer's own.
  function Marks(q: Queue, src: seq<nat>, i: nat, killAt: nat, fault: nat, sleeps: seq<WriteSleep>): seq<bool>
    requires Fits(q) && i <= |src|
    decreases |sleeps|
  {
    var (j, why) := Stop(q, src, i, killAt, fault);
    var t := q.(put := q.put + src[i..j]);
    if why != Full || sleeps == [] then All(j - i, true)
    else
      var u := Acts(t, sleeps[0].others);
      All(j - i, true) + All(|u.put| - |t.put|, false) + Marks(u, src, j, sleeps[0].killAt, fault, sleeps[1..])
  }

  // The bytes that others put in during the sleeps.
  function Theirs(q: Queue, src: seq<nat>, i: nat, killAt: nat, fault: nat, sleeps: seq<WriteSleep>): seq<nat>
    requires Fits(q) && i <= |src|
    decreases |sleeps|
  {
    var (j, why) := Stop(q, src, i, killAt, fault);
    var t := q.(put := q.put + src[i..j]);
    if why != Full || sleeps == [] then []
    else
      var u := Acts(t, sleeps[0].others);
      u.put[|t.put|..] + Theirs(u, src, j, sleeps[0].killAt, fault, sleeps[1..])
  }

  function All(n: nat, b: bool): (m: seq<bool>)
    ensures |m| == n && forall k :: 0 <= k < n ==> m[k] == b
  {
    seq(n, _ => b)
  }

  // The bytes of s that are marked b.
  function Pick(s: seq<nat>, m: seq<bool>, b: bool): seq<nat>
    requires |s| == |m|
  {
    if s == [] then [] else Pick(s[..|s| - 1], m[..|s| - 1], b) + if m[|s| - 1] == b then [s[|s| - 1]] else []
  }

  lemma {:induction false} PickAll(s: seq<nat>, b: bool, c: bool)
    ensures Pick(s, All(|s|, b), c) == if b == c then s else []
  {
    if s != [] {
      var n := |s| - 1;
      PickAll(s[..n], b, c);
      assert All(|s|, b)[..n] == All(n, b);
      assert s == s[..n] + [s[n]];
    }
  }

  lemma {:induction false} PickJoin(s: seq<nat>, m: seq<bool>, t: seq<nat>, n: seq<bool>, b: bool)
    requires |s| == |m| && |t| == |n|
    ensures Pick(s + t, m + n, b) == Pick(s, m, b) + Pick(t, n, b)
    decreases |t|
  {
    if t == [] {
      assert s + t == s && m + n == m;
    } else {
      var k := |t| - 1;
      PickJoin(s, m, t[..k], n[..k], b);
      assert (s + t)[..|s| + k] == s + t[..k] && (m + n)[..|s| + k] == m + n[..k];
    }
  }

  /** What a write puts into the stream, whatever others do: the bytes put in from its
      beginning to its end are the first bytes of src that it reports, in order and
      once each, shuffled with those that others put in while it slept. */
  lemma {:induction false} WriteShuffles(q: Queue, src: seq<nat>, i: nat, killAt: nat, fault: nat,
          sleeps: seq<WriteSleep>)
    requires Fits(q) && i <= |src|
    ensures var w, m := WriteFrom(q, src, i, killAt, fault, sleeps), Marks(q, src, i, killAt, fault, sleeps);
      && |w.q.put| == |q.put| + |m|
      && Pick(w.q.put[|q.put|..], m, true) == src[i..w.n]
      && Pick(w.q.put[|q.put|..], m, false) == Theirs(q, src, i, killAt, fault, sleeps)
    decreases |sleeps|
  {
    hide Stop, Acts, Pick, All;
    var (j, why) := Stop(q, src, i, killAt, fault);
    var t := q.(put := q.put + src[i..j]);
    var mine := src[i..j];
    PickAll(mine, true, true);
    PickAll(mine, true, false);
    if why != Full || sleeps == [] {
      assert t.put[|q.put|..] == mine;
    } else {
      var u := Acts(t, sleeps[0].others);
      var w := WriteFrom(u, src, j, sleeps[0].killAt, fault, sleeps[1..]);
      WriteShuffles(u, src, j, sleeps[0].killAt, fault, sleeps[1..]);
      ShuffleMore(q, t, u, w.q, mine, Marks(u, src, j, sleeps[0].killAt, fault, sleeps[1..]));
      assert src[i..j] + src[j..w.n] == src[i..w.n];
    }
  }

  lemma ShuffleMore(q: Queue, t: Queue, u: Queue, v: Queue, mine: seq<nat>, m: seq<bool>)
    requires t.put == q.put + mine && t.put <= u.put <= v.put && |v.put| == |u.put| + |m|
    ensures var all := All(|mine|, true) + All(|u.put| - |t.put|, false) + m;
      && |v.put| == |q.put| + |all|
      && Pick(v.put[|q.put|..], all, true) == mine + Pick(v.put[|u.put|..], m, true)
      && Pick(v.put[|q.put|..], all, false) == u.put[|t.put|..] + Pick(v.put[|u.put|..], m, false)
  {
    hide Pick, All;
    var theirs, rest := u.put[|t.put|..], v.put[|u.put|..];
    var a, b := All(|mine|, true), All(|theirs|, false);
    assert v.put[|q.put|..] == mine + theirs + rest;
    forall c: bool ensures Pick(mine + theirs + rest, a + b + m, c) ==
      (if c then mine else theirs) + Pick(rest, m, c)
    {
      PickJoin(mine + theirs, a + b, rest, m, c);
      PickJoin(mine, a, theirs, b, c);
      PickAll(mine, true, c);
      PickAll(theirs, false, c);
    }
  }

  /** Without a sleep nothing but the writer's own bytes goes in. */
  lemma WriteAlone(q: Queue, src: seq<nat>, killAt: nat, fault: nat, sleeps: seq<WriteSleep>)
    requires Fits(q)
    ensures var w := WriteFrom(q, src, 0, killAt, fault, sleeps); w.slept == 0 ==> w.q == q.(put := q.put + src[..w.n])
  {
    hide Stop, Acts;
  }

  /** How a write ends. */
  lemma {:induction false} WriteEnds(q: Queue, src: seq<nat>, i: nat, killAt: nat, fault: nat, sleeps: seq<WriteSleep>)
    requires Fits(q) && i <= |src|
    ensures var w := WriteFrom(q, src, i, killAt, fault, sleeps);
      match w.why
      case Done => w.n == |src|
      case Full => w.n < |src| && w.slept == |sleeps| && |w.q.put| == w.q.got + PIPESIZE
      case Broken => w.n < |src| && (!w.q.readopen || w.n == if w.slept == 0 then killAt else sleeps[w.slept - 1].killAt)
      case Fault => w.n < |src| && w.n == fault
    decreases |sleeps|
  {
    var (j, why) := Stop(q, src, i, killAt, fault);
    var t := q.(put := q.put + src[i..j]);
    if why == Full && sleeps != [] {
      WriteEnds(Acts(t, sleeps[0].others), src, j, sleeps[0].killAt, fault, sleeps[1..]);
    }
  }

  // Where piperead stops waiting: bytes, a closed end, a kill, or no more sleeps.
  datatype Waited = Waited(q: Queue, killed: bool, slept: nat)

  function WaitFrom(q: Queue, killed: bool, sleeps: seq<ReadSleep>): (w: Waited)
    requires Fits(q)
    ensures Fits(w.q) && q.put <= w.q.put && w.slept <= |sleeps|
    decreases |sleeps|
  {
    if q.got == |q.put| && q.writeopen && !killed && sleeps != [] then
      var w := WaitFrom(Acts(q, sleeps[0].others), sleeps[0].killed, sleeps[1..]);
      w.(slept := w.slept + 1)
    else Waited(q, killed, 0)
  }

  /** A reader waits exactly as long as there is nothing to read, somebody could write,
      and it is not killed; nothing it did meanwhile changed the queue. */
  lemma {:induction false} WaitEnds(q: Queue, killed: bool, sleeps: seq<ReadSleep>)
    requires Fits(q)
    ensures var w := WaitFrom(q, killed, sleeps);
      && w.q == Acts(q, Slept(sleeps, w.slept))
      && w.killed == (if w.slept == 0 then killed else sleeps[w.slept - 1].killed)
      && (w.slept > 0 ==> !killed && forall k :: 0 <= k < w.slept - 1 ==> !sleeps[k].killed)
      && (w.q.got < |w.q.put| || !w.q.writeopen || w.killed || w.slept == |sleeps|)
    decreases |sleeps|
  {
    if q.got == |q.put| && q.writeopen && !killed && sleeps != [] {
      var u := Acts(q, sleeps[0].others);
      var w := WaitFrom(u, sleeps[0].killed, sleeps[1..]);
      WaitEnds(u, sleeps[0].killed, sleeps[1..]);
      ActsJoin(q, sleeps[0].others, Slept(sleeps[1..], w.slept));
    }
  }

  // What others did during the first k sleeps.
  function Slept(sleeps: seq<ReadSleep>, k: nat): seq<Action>
    requires k <= |sleeps|
    decreases k
  {
    if k == 0 then [] else sleeps[0].others + Slept(sleeps[1..], k - 1)
  }

  lemma {:induction false} ActsJoin(q: Queue, a: seq<Action>, b: seq<Action>)
    requires Fits(q)
    ensures Acts(q, a + b) == Acts(Acts(q, a), b)
    decreases |a|
  {
    if a == [] {
      assert a + b == b;
    } else {
      assert (a + b)[0] == a[0] && (a + b)[1..] == a[1..] + b;
      ActsJoin(Act(q, a[0]), a[1..], b);
    }
  }

  // The ring place of a 32-bit counter.
  function Place(k: nat): (i: nat)
    ensures i < PIPESIZE
  {
    k % 512
  }

  function Word(k: nat): nat { k % WORD }

  lemma PlaceWord(k: nat)
    ensures Place(Word(k)) == Place(k) && Word(Word(k) + 1) == Word(k + 1)
  {
    var q, r := k / WORD, k % WORD;
    SamePlace(q, r);
    NextWord(q, r);
  }

  lemma SamePlace(q: nat, r: nat)
    ensures (q * WORD + r) % 512 == r % 512
  {
    assert q * WORD == 512 * (q * 0x80_0000);
    AddMultiple(q * 0x80_0000, r);
  }

  lemma AddMultiple(m: nat, r: nat)
    ensures (512 * m + r) % 512 == r % 512
  {
  }

  lemma NextWord(q: nat, r: nat)
    requires r < WORD
    ensures (r + 1) % WORD == (q * WORD + r + 1) % WORD
  {
    if r + 1 == WORD {
      assert q * WORD + r + 1 == (q + 1) * WORD;
    }
  }

  lemma PlaceApart(j: nat, k: nat)
    requires j < k < j + PIPESIZE
    ensures Place(j) != Place(k)
  {
  }

  // Comparing the counters tells full from empty, wrapped or not.
  lemma WordDistance(r: nat, w: nat)
    requires r <= w <= r + PIPESIZE
    ensures Word(r) == Word(w) <==> r == w
    ensures Word(w) == Word(Word(r) + PIPESIZE) <==> w == r + PIPESIZE
    ensures (Word(w) - Word(r)) % WORD == w - r
  {
  }

  // The ring holds the bytes put in and not yet removed.
  ghost predicate Holds(data: seq<nat>, put: seq<nat>, got: nat)
    requires |data| == PIPESIZE
  {
    forall k: nat {:trigger put[k]} :: got <= k < |put| ==> data[Place(k)] == put[k]
  }

  lemma HoldsPut(data: seq<nat>, put: seq<nat>, got: nat, ch: nat)
    requires |data| == PIPESIZE && Holds(data, put, got) && got <= |put| < got + PIPESIZE
    ensures Holds(data[Place(|put|) := ch], put + [ch], got)
  {
    var data' := data[Place(|put|) := ch];
    forall k: nat {:trigger put[k]} | got <= k < |put| + 1 ensures data'[Place(k)] == (put + [ch])[k] {
      if k < |put| { PlaceApart(k, |put|); }
    }
  }

  lemma SliceMore<T>(s: seq<T>, a: nat, n: nat)
    requires a + n < |s|
    ensures s[a..a + n] + [s[a + n]] == s[a..a + (n + 1)]
  {
  }

  class Ring {
    const data: array<nat>
    var nread: nat
    var nwrite: nat
    var readopen: bool
    var writeopen: bool
    ghost var put: seq<nat>      // every byte ever put in
    ghost var got: nat           // how many were removed

    ghost predicate Valid()
      reads this, data
    {
      && data.Length == PIPESIZE && got <= |put| <= got + PIPESIZE
      && nread == Word(got) && nwrite == Word(|put|)
      && Holds(data[..], put, got)
    }

    constructor ()
      ensures Valid() && fresh(data) && put == [] && got == 0 && readopen && writeopen
    {
      data := new nat[PIPESIZE];
      nread, nwrite, readopen, writeopen := 0, 0, true, true;
      put, got := [], 0;
    }

    // Store a byte at the write position and advance it.
    method PutByte(ch: nat)
      requires Valid() && |put| < got + PIPESIZE
      modifies this`nwrite, this`put, data
      ensures Valid() && put == old(put) + [ch]
    {
      HoldsPut(data[..], put, got, ch);
      PlaceWord(|put|);
      hide Place, Word, Holds;
      data[Place(nwrite)] := ch;
      nwrite := Word(nwrite + 1);
      put := put + [ch];
      assert data[..] == old(data[..])[Place(old(nwrite)) := ch];
    }

    // Fetch the byte at the read position and advance it.
    method TakeByte() returns (ch: nat)
      requires Valid() && got < |put|
      modifies this`nread, this`got
      ensures Valid() && ch == put[old(got)] && got == old(got) + 1
    {
      PlaceWord(got);
      ch := data[Place(nread)];
      nread := Word(nread + 1);
      got := got + 1;
    }

    // pipewrite's loop from byte i on, until it has to sleep or ends.  The
    // writer finds itself killed at byte killAt; copyin fails at byte fault.
    method Fill(src: seq<nat>, i: nat, killAt: nat, fault: nat) returns (j: nat, why: Why)
      requires Valid() && i <= |src|
      modifies this`nwrite, this`put, data
      ensures Valid() && (j, why) == Stop(old(Q()), src, i, killAt, fault) && put == old(put) + src[i..j]
    {
      j := i;
      why := Done;
      while j < |src| && why == Done
        invariant Valid() && i <= j <= |src| && put == old(put) + src[i..j] && (!readopen ==> j == i)
        invariant !(i <= killAt < j) && !(i <= fault < j)
        invariant match why
          case Done => true
          case Full => j < |src| && |put| == got + PIPESIZE && readopen && j != killAt
          case Broken => j < |src| && (!readopen || j == killAt)
          case Fault => j < |src| && j == fault && readopen && j != killAt && |put| < got + PIPESIZE
        decreases why == Done, |src| - j
      {
        WordDistance(got, |put|);
        if !readopen || j == killAt {
          why := Broken;
        } else if nwrite == Word(nread + PIPESIZE) {
          why := Full;
        } else if j == fault {
          why := Fault;
        } else {
          PutByte(src[j]);
          j := j + 1;
        }
      }
    }

    // piperead's copy loop; copyout fails at byte `fault`, which is then lost.
    method Drain(n: nat, fault: nat) returns (out: seq<nat>)
      requires Valid()
      modifies this`nread, this`got
      ensures Valid() && |out| == Min(n, Min(fault, |put| - old(got))) && out == put[old(got)..old(got) + |out|]
      ensures got == old(got) + |out| + if |out| == fault < n && old(got) + |out| < |put| then 1 else 0
    {
      out := [];
      var stop := false;
      while |out| < n && !stop
        invariant Valid() && |out| <= n && old(got) + |out| <= |put| && out == put[old(got)..old(got) + |out|]
        invariant |out| <= fault && (!stop ==> got == old(got) + |out|)
        invariant stop ==> if |out| == fault < n && old(got) + |out| < |put| then got == old(got) + |out| + 1
          else got == old(got) + |out| == |put|
        decreases !stop, n - |out|
      {
        WordDistance(got, |put|);
        if nread == nwrite {
          stop := true;
        } else {
          var ch := TakeByte();
          if |out| == fault {
            stop := true;
          } else {
            SliceMore(put, old(got), |out|);
            out := out + [ch];
          }
        }
      }
    }

    // Close one end; the pipe is given up when the other is closed too.
    method Pipeclose(writable: bool) returns (freed: bool)
      requires Valid()
      modifies this`readopen, this`writeopen
      ensures Valid() && readopen == (old(readopen) && writable) && writeopen == (old(writeopen) && !writable)
      ensures freed <==> !readopen && !writeopen
    {
      if writable { writeopen := false; } else { readopen := false; }
      freed := !readopen && !writeopen;
    }

    ghost function Q(): Queue
      reads this
    {
      Queue(put, got, readopen, writeopen)
    }

    /** The ring carries out any calls of other processes as the queue does. */
    method Others(acts: seq<Action>)
      requires Valid()
      modifies this, data
      ensures Valid() && Q() == Acts(old(Q()), acts)
    {
      var k := 0;
      assert acts[0..] == acts;
      while k < |acts|
        invariant k <= |acts| && Valid() && Acts(Q(), acts[k..]) == Acts(old(Q()), acts)
      {
        assert acts[k..][0] == acts[k] && acts[k..][1..] == acts[k + 1..];
        One(acts[k]);
        k := k + 1;
      }
    }

    method One(a: Action)
      requires Valid()
      modifies this, data
      ensures Valid() && Q() == Act(old(Q()), a)
    {
      match a {
        case Write(src) => var _, _ := Fill(src, 0, |src|, |src|);
        case Read(n) => var _ := Drain(n, n);
        case CloseRead => var _ := Pipeclose(false);
        case CloseWrite => var _ := Pipeclose(true);
      }
    }

    /** pipewrite: the ring goes through what the queue goes through, and the result
        tells how that ended. */
    method Pipewrite(src: seq<nat>, killAt: nat, fault: nat, sleeps: seq<WriteSleep>)
      returns (r: WriteEnd, ghost w: Writing)
      requires Valid()
      modifies this, data
      ensures w == WriteFrom(old(Q()), src, 0, killAt, fault, sleeps)
      ensures Valid() && Q() == w.q
      ensures r == match w.why case Done => Wrote(w.n) case Fault => Wrote(w.n) case Broken => Failed case Full => StillAsleep
    {
      hide Acts, Holds, Stop;
      ghost var q := Q();
      var i, why := Fill(src, 0, killAt, fault);
      ghost var last := Writing(Q(), i, why, 0);
      var k := 0;
      assert sleeps[0..] == sleeps;
      while why == Full && k < |sleeps|
        invariant Valid() && 0 <= k <= |sleeps| && 0 <= i <= |src| && last == Writing(Q(), i, why, 0)
        invariant Resumed(q, src, killAt, fault, sleeps, k, last)
      {
        Others(sleeps[k].others);
        ghost var u, j := Q(), i;
        i, why := Fill(src, i, sleeps[k].killAt, fault);
        ResumedMore(q, src, killAt, fault, sleeps, k, last, u, i, why);
        last := Writing(Q(), i, why, 0);
        k := k + 1;
      }
      ResumedEnd(q, src, killAt, fault, sleeps, k, last);
      w := WriteFrom(q, src, 0, killAt, fault, sleeps);
      r := if why == Full then StillAsleep else if why == Broken then Failed else Wrote(i);
    }

    /** piperead: after waiting as the queue does, the next bytes of the stream, as many
        as are wanted, held and can be copied out; the byte at which copyout fails is
        lost.  Killed or still waiting, nothing is taken. */
    method Piperead(n: nat, killed: bool, fault: nat, sleeps: seq<ReadSleep>)
      returns (r: ReadEnd, ghost w: Waited)
      requires Valid()
      modifies this, data
      ensures w == WaitFrom(old(Q()), killed, sleeps) && Valid()
      ensures w.q.got == |w.q.put| && w.q.writeopen ==> Q() == w.q && r == if w.killed then Killed else Waiting
      ensures !(w.q.got == |w.q.put| && w.q.writeopen) ==>
        var m := Min(n, Min(fault, |w.q.put| - w.q.got));
        && r == Got(w.q.put[w.q.got..w.q.got + m])
        && Q() == w.q.(got := w.q.got + m + if m == fault < n && w.q.got + m < |w.q.put| then 1 else 0)
      ensures r == Got([]) && 0 < n && 0 < fault ==> !writeopen && got == |put|
    {
      hide Acts, Holds, WaitFrom, Word;
      WordDistance(got, |put|);
      var k := 0;
      var dead := killed;
      r := Waiting;
      ghost var q := Q();
      assert sleeps[0..] == sleeps;
      while nread == nwrite && writeopen && !dead && k < |sleeps|
        invariant Valid() && k <= |sleeps|
        invariant WaitFrom(q, killed, sleeps) == Later(WaitFrom(Q(), dead, sleeps[k..]), k)
      {
        WordDistance(got, |put|);
        WaitMore(Q(), sleeps, k);
        Others(sleeps[k].others);
        dead := sleeps[k].killed;
        k := k + 1;
      }
      WordDistance(got, |put|);
      WaitStops(Q(), dead, sleeps[k..]);
      w := WaitFrom(q, killed, sleeps);
      if nread == nwrite && writeopen {
        if dead {
          r := Killed;
        }
      } else {
        var out := Drain(n, fault);
        r := Got(out);
      }
    }
  }

  function Later(w: Waited, k: nat): Waited { w.(slept := w.slept + k) }

  lemma WaitMore(q: Queue, sleeps: seq<ReadSleep>, k: nat)
    requires Fits(q) && q.got == |q.put| && q.writeopen && k < |sleeps|
    ensures WaitFrom(q, false, sleeps[k..]) == Later(WaitFrom(Acts(q, sleeps[k].others), sleeps[k].killed, sleeps[k + 1..]), 1)
  {
    assert sleeps[k..][0] == sleeps[k] && sleeps[k..][1..] == sleeps[k + 1..];
  }

  lemma WaitStops(q: Queue, killed: bool, sleeps: seq<ReadSleep>)
    requires Fits(q) && !(q.got == |q.put| && q.writeopen && !killed && sleeps != [])
    ensures WaitFrom(q, killed, sleeps) == Waited(q, killed, 0)
  {
  }

  // After k sleeps the call has come as far as `last`, where its loop stopped.
  ghost predicate Resumed(q: Queue, src: seq<nat>, killAt: nat, fault: nat, sleeps: seq<WriteSleep>, k: nat,
          last: Writing)
  {
    && Fits(q) && Fits(last.q) && k <= |sleeps| && last.n <= |src|
    && WriteFrom(q, src, 0, killAt, fault, sleeps) == Goes(src, fault, sleeps[k..], k, last)
  }

  // Where a call ends that has slept k times and whose loop stopped as `last` says.
  ghost function Goes(src: seq<nat>, fault: nat, sleeps: seq<WriteSleep>, k: nat, last: Writing): Writing
    requires Fits(last.q) && last.n <= |src|
  {
    if last.why != Full || sleeps == [] then last.(slept := k)
    else
      var w := WriteFrom(Acts(last.q, sleeps[0].others), src, last.n, sleeps[0].killAt, fault, sleeps[1..]);
      w.(slept := w.slept + 1 + k)
  }

  lemma ResumedMore(q: Queue, src: seq<nat>, killAt: nat, fault: nat, sleeps: seq<WriteSleep>, k: nat, last: Writing,
                    u: Queue, i: nat, why: Why)
    requires Resumed(q, src, killAt, fault, sleeps, k, last) && last.why == Full && k < |sleeps|
    requires u == Acts(last.q, sleeps[k].others) && (i, why) == Stop(u, src, last.n, sleeps[k].killAt, fault)
    ensures Resumed(q, src, killAt, fault, sleeps, k + 1, Writing(u.(put := u.put + src[last.n..i]), i, why, 0))
  {
    hide Acts, Stop;
    assert sleeps[k..][0] == sleeps[k] && sleeps[k..][1..] == sleeps[k + 1..];
  }

  lemma ResumedEnd(q: Queue, src: seq<nat>, killAt: nat, fault: nat, sleeps: seq<WriteSleep>, k: nat, last: Writing)
    requires Resumed(q, src, killAt, fault, sleeps, k, last) && (last.why != Full || k == |sleeps|)
    ensures WriteFrom(q, src, 0, killAt, fault, sleeps) == last.(slept := k)
  {
  }
}

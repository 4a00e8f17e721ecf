/** The buffer cache of kernel/bio.c over a disk, as a system of interleaved steps:
    each step is one critical section of bget, bread, bwrite, brelse, bpin or
    bunpin, or a change a lock holder makes to its buffer. */
module BufferCache {
  import opened Common

  datatype Id = Id(dev: nat, blockno: nat)
  type Block = seq<int>

  datatype Buf = Buf(id: Id, valid: bool, data: Block, refcnt: nat)

  /** `order` is the LRU list, most recent first.  users[b] holds the processes
      between bget and brelse of buffer b, owner[b] the holder of its sleep-lock,
      pins[b] the log's pins, and stamp[b] when it was last given up. */
  datatype Cache = Cache(bufs: seq<Buf>, order: seq<nat>, users: seq<set<nat>>, owner: seq<Option<nat>>,
                         pins: seq<nat>, stamp: seq<nat>, clock: nat, disk: map<Id, Block>)

  // ------------------------------------------------------------- the searches

  /** bget's first scan: the most recent buffer holding the block. */
  function Lookup(bufs: seq<Buf>, order: seq<nat>, id: Id): (r: Option<nat>)
    requires forall i :: 0 <= i < |order| ==> order[i] < |bufs|
    ensures r.Some? ==> r.value < |bufs|
  {
    if order == [] then None
    else if bufs[order[0]].id == id then Some(order[0])
    else Lookup(bufs, order[1..], id)
  }

  /** bget's second scan, from the other end: the least recent unused buffer. */
  function Victim(bufs: seq<Buf>, order: seq<nat>): (r: Option<nat>)
    requires forall i :: 0 <= i < |order| ==> order[i] < |bufs|
    ensures r.Some? ==> r.value < |bufs|
  {
    if order == [] then None
    else if bufs[order[|order| - 1]].refcnt == 0 then Some(order[|order| - 1])
    else Victim(bufs, order[..|order| - 1])
  }

  lemma {:induction false} LookupMeaning(bufs: seq<Buf>, order: seq<nat>, id: Id)
    requires forall i :: 0 <= i < |order| ==> order[i] < |bufs|
    ensures match Lookup(bufs, order, id)
            case None => forall i :: 0 <= i < |order| ==> bufs[order[i]].id != id
            case Some(b) => b in order && bufs[b].id == id
  {
    if order != [] && bufs[order[0]].id != id {
      LookupMeaning(bufs, order[1..], id);
      assert order == [order[0]] + order[1..];
    }
  }

  lemma {:induction false} VictimMeaning(bufs: seq<Buf>, order: seq<nat>)
    requires forall i :: 0 <= i < |order| ==> order[i] < |bufs|
    ensures match Victim(bufs, order)
            case None => forall i :: 0 <= i < |order| ==> bufs[order[i]].refcnt > 0
            case Some(b) => exists k :: 0 <= k < |order| && order[k] == b && bufs[b].refcnt == 0
                                     && forall i :: k < i < |order| ==> bufs[order[i]].refcnt > 0
  {
    var m := |order| - 1;
    if order != [] && bufs[order[m]].refcnt > 0 {
      var rest := order[..m];
      assert |rest| == m && forall i :: 0 <= i < m ==> rest[i] == order[i];
      VictimMeaning(bufs, rest);
      if Victim(bufs, rest).Some? {
        var b := Victim(bufs, rest).value;
        var k :| 0 <= k < m && rest[k] == b && bufs[b].refcnt == 0 && forall i :: k < i < m ==> bufs[rest[i]].refcnt > 0;
        assert order[k] == b;
        forall i | k < i < |order| ensures bufs[order[i]].refcnt > 0 {
          if i < m { assert rest[i] == order[i]; }
        }
      }
    } else if order != [] {
      assert order[m] == Victim(bufs, order).value;
    }
  }

  function MoveFront(order: seq<nat>, b: nat): seq<nat> {
    [b] + Without(order, b)
  }

  function Without(order: seq<nat>, b: nat): (r: seq<nat>) {
    if order == [] then []
    else if order[0] == b then order[1..]
    else [order[0]] + Without(order[1..], b)
  }

  // -------------------------------------------------------------------- steps

  ghost predicate InRange(c: Cache, b: nat) { b < |c.bufs| }

  /** bget's critical section: find the block, or recycle a buffer for it. */
  ghost predicate Get(c: Cache, d: Cache, p: nat, id: Id) {
    && OrderOk(c) && Sized(c)
    && match Lookup(c.bufs, c.order, id)
       case Some(b) =>
         && p !in c.users[b]
         && d == c.(bufs := c.bufs[b := c.bufs[b].(refcnt := c.bufs[b].refcnt + 1)],
                    users := c.users[b := c.users[b] + {p}])
       case None =>
         match Victim(c.bufs, c.order)
         case None => false   // panic("bget: no buffers")
         case Some(b) =>
           d == c.(bufs := c.bufs[b := Buf(id, false, c.bufs[b].data, 1)], users := c.users[b := {p}])
  }

  /** acquiresleep(&b->lock) succeeds. */
  ghost predicate Lock(c: Cache, d: Cache, p: nat, b: nat) {
    && Sized(c) && InRange(c, b) && p in c.users[b] && c.owner[b].None?
    && d == c.(owner := c.owner[b := Some(p)])
  }

  ghost predicate Holds(c: Cache, p: nat, b: nat) {
    Sized(c) && InRange(c, b) && c.owner[b] == Some(p)
  }

  /** bread fills an invalid buffer from the disk. */
  ghost predicate Fill(c: Cache, d: Cache, p: nat, b: nat) {
    && Holds(c, p, b) && !c.bufs[b].valid && c.bufs[b].id in c.disk
    && d == c.(bufs := c.bufs[b := c.bufs[b].(data := c.disk[c.bufs[b].id], valid := true)])
  }

  ghost predicate Modify(c: Cache, d: Cache, p: nat, b: nat, v: Block) {
    && Holds(c, p, b) && c.bufs[b].valid
    && d == c.(bufs := c.bufs[b := c.bufs[b].(data := v)])
  }

  ghost predicate Bwrite(c: Cache, d: Cache, p: nat, b: nat) {
    && Holds(c, p, b) && c.bufs[b].valid
    && d == c.(disk := c.disk[c.bufs[b].id := c.bufs[b].data])
  }

  ghost predicate Clean(c: Cache, b: nat)
    requires InRange(c, b)
  {
    c.bufs[b].valid ==> c.bufs[b].id in c.disk && c.bufs[b].data == c.disk[c.bufs[b].id]
  }

  /** bpin, by log_write. */
  ghost predicate Pin(c: Cache, d: Cache, p: nat, b: nat) {
    && Holds(c, p, b)
    && d == c.(bufs := c.bufs[b := c.bufs[b].(refcnt := c.bufs[b].refcnt + 1)],
               pins := c.pins[b := c.pins[b] + 1])
  }

  /** bunpin, by install_trans once the block has been written. */
  ghost predicate Unpin(c: Cache, d: Cache, p: nat, b: nat) {
    && Holds(c, p, b) && c.pins[b] > 0 && c.bufs[b].refcnt > 0 && Clean(c, b)
    && d == c.(bufs := c.bufs[b := c.bufs[b].(refcnt := c.bufs[b].refcnt - 1)],
               pins := c.pins[b := c.pins[b] - 1])
  }

  /** brelse, first half: releasesleep.  The caller has written or logged its changes. */
  ghost predicate Unlock(c: Cache, d: Cache, p: nat, b: nat) {
    && Holds(c, p, b) && (Clean(c, b) || c.pins[b] > 0)
    && d == c.(owner := c.owner[b := None])
  }

  /** brelse, second half: drop the reference; an unused buffer moves to the front. */
  ghost predicate Drop(c: Cache, d: Cache, p: nat, b: nat) {
    && Sized(c) && InRange(c, b) && p in c.users[b] && c.owner[b] != Some(p) && c.bufs[b].refcnt > 0
    && var n := c.bufs[b].refcnt - 1;
       d == c.(bufs := c.bufs[b := c.bufs[b].(refcnt := n)], users := c.users[b := c.users[b] - {p}],
               order := if n == 0 then MoveFront(c.order, b) else c.order,
               stamp := if n == 0 then c.stamp[b := c.clock] else c.stamp,
               clock := if n == 0 then c.clock + 1 else c.clock)
  }

  datatype Step = GetStep(p: nat, id: Id) | LockStep(p: nat, b: nat) | FillStep(p: nat, b: nat)
                | ModifyStep(p: nat, b: nat, v: Block) | WriteStep(p: nat, b: nat)
                | PinStep(p: nat, b: nat) | UnpinStep(p: nat, b: nat)
                | UnlockStep(p: nat, b: nat) | DropStep(p: nat, b: nat)

  ghost predicate NextStep(c: Cache, d: Cache, a: Step) {
    match a
    case GetStep(p, id) => id.dev != 0 && id in c.disk && Get(c, d, p, id)
    case LockStep(p, b) => Lock(c, d, p, b)
    case FillStep(p, b) => Fill(c, d, p, b)
    case ModifyStep(p, b, v) => Modify(c, d, p, b, v)
    case WriteStep(p, b) => Bwrite(c, d, p, b)
    case PinStep(p, b) => Pin(c, d, p, b)
    case UnpinStep(p, b) => Unpin(c, d, p, b)
    case UnlockStep(p, b) => Unlock(c, d, p, b)
    case DropStep(p, b) => Drop(c, d, p, b)
  }

  // ---------------------------------------------------------------- invariant

  ghost predicate Sized(c: Cache) {
    |c.users| == |c.owner| == |c.pins| == |c.stamp| == |c.order| == |c.bufs|
  }

  /** The list names every buffer exactly once. */
  ghost predicate OrderOk(c: Cache) {
    && (forall i :: 0 <= i < |c.order| ==> c.order[i] < |c.bufs|)
    && (forall i, j :: 0 <= i < j < |c.order| ==> c.order[i] != c.order[j])
    && (forall b :: 0 <= b < |c.bufs| ==> b in c.order)
  }

  /** ... from the most to the least recently used. */
  ghost predicate StampOk(c: Cache)
    requires Sized(c) && OrderOk(c)
  {
    && (forall b :: 0 <= b < |c.stamp| ==> c.stamp[b] < c.clock)
    && (forall i, j :: 0 <= i < j < |c.order| ==> c.stamp[c.order[i]] > c.stamp[c.order[j]])
  }

  ghost predicate BufOk(c: Cache, b: nat)
    requires Sized(c) && InRange(c, b)
  {
    && c.bufs[b].refcnt == |c.users[b]| + c.pins[b]
    && (c.owner[b].Some? ==> c.owner[b].value in c.users[b])
    && (c.users[b] != {} ==> c.bufs[b].id.dev != 0 && c.bufs[b].id in c.disk)
    && (Clean(c, b) || c.owner[b].Some? || c.pins[b] > 0)
  }

  ghost predicate Unique(bufs: seq<Buf>) {
    forall i, j :: 0 <= i < j < |bufs| && bufs[i].id.dev != 0 ==> bufs[i].id != bufs[j].id
  }

  ghost predicate Inv(c: Cache) {
    && Sized(c) && OrderOk(c) && StampOk(c)
    && (forall b :: 0 <= b < |c.bufs| ==> BufOk(c, b))
    && Unique(c.bufs)
    && (forall b :: 0 <= b < |c.bufs| && c.bufs[b].valid ==> c.bufs[b].id.dev != 0 && c.bufs[b].id in c.disk)
  }

  /** binit: every buffer is device 0, block 0, invalid and unused. */
  ghost predicate Init(c: Cache) {
    && Sized(c) && OrderOk(c) && StampOk(c)
    && (forall b :: 0 <= b < |c.bufs| ==>
          c.bufs[b].id == Id(0, 0) && !c.bufs[b].valid && c.bufs[b].refcnt == 0
          && c.users[b] == {} && c.pins[b] == 0 && c.owner[b] == None)
  }

  lemma InitInv(c: Cache)
    requires Init(c)
    ensures Inv(c)
  {}

  // ------------------------------------------------------------- preservation

  lemma {:induction false} WithoutMember(order: seq<nat>, b: nat, x: nat)
    requires forall i, j :: 0 <= i < j < |order| ==> order[i] != order[j]
    ensures x in Without(order, b) <==> x in order && x != b
  {
    if order != [] {
      assert order == [order[0]] + order[1..];
      WithoutMember(order[1..], b, x);
    }
  }

  ghost predicate Listed(order: seq<nat>, stamp: seq<nat>) {
    && (forall i :: 0 <= i < |order| ==> order[i] < |stamp|)
    && (forall i, j :: 0 <= i < j < |order| ==> order[i] != order[j] && stamp[order[i]] > stamp[order[j]])
  }

  lemma ListedTail(order: seq<nat>, stamp: seq<nat>, x: nat)
    requires Listed(order, stamp) && order != []
    ensures Listed(order[1..], stamp)
    ensures x in order[1..] ==> x in order && x != order[0] && x < |stamp| && stamp[order[0]] > stamp[x]
  {
    var rest := order[1..];
    if x in rest {
      var k :| 0 <= k < |rest| && rest[k] == x;
      assert order[k + 1] == x;
    }
  }

  lemma ListedCons(x: nat, r: seq<nat>, stamp: seq<nat>)
    requires Listed(r, stamp) && x < |stamp| && forall y :: y in r ==> y < |stamp| && y != x && stamp[x] > stamp[y]
    ensures Listed([x] + r, stamp)
  {}

  /** Taking b out leaves the others, in order. */
  lemma {:induction false} WithoutShape(order: seq<nat>, b: nat, stamp: seq<nat>)
    requires Listed(order, stamp) && b in order
    ensures var r := Without(order, b);
            |r| == |order| - 1 && Listed(r, stamp) && forall x :: x in r ==> x in order && x != b
  {
    hide Listed;
    var rest := order[1..];
    ListedHead(order, stamp);
    forall x ensures x in rest ==> x in order && x != order[0] && x < |stamp| && stamp[order[0]] > stamp[x] {
      if x in rest { ListedTail(order, stamp, x); }
    }
    ListedTail(order, stamp, b);
    if order[0] != b {
      WithoutShape(rest, b, stamp);
      assert Without(order, b) == [order[0]] + Without(rest, b);
      ListedCons(order[0], Without(rest, b), stamp);
    }
  }

  lemma ListedHead(order: seq<nat>, stamp: seq<nat>)
    requires Listed(order, stamp) && order != []
    ensures order[0] < |stamp|
  {}

  lemma PushFront(w: seq<nat>, stamp: seq<nat>, clock: nat, b: nat)
    requires Listed(w, stamp) && b < |stamp| && b !in w
    requires forall x :: 0 <= x < |stamp| ==> stamp[x] < clock
    ensures Listed([b] + w, stamp[b := clock])
  {
    var r, st := [b] + w, stamp[b := clock];
    forall i | 1 <= i < |r| ensures r[i] == w[i - 1] && r[i] != b && st[r[i]] == stamp[r[i]] {}
  }

  /** Moving a buffer to the front with a new stamp keeps the list sound. */
  lemma MoveFrontOk(order: seq<nat>, stamp: seq<nat>, clock: nat, b: nat)
    requires Listed(order, stamp) && b < |stamp|
    requires forall x :: 0 <= x < |stamp| ==> x in order && stamp[x] < clock
    ensures var r := MoveFront(order, b);
            && |r| == |order| && Listed(r, stamp[b := clock])
            && forall x :: 0 <= x < |stamp| ==> x in r
  {
    WithoutShape(order, b, stamp);
    var w := Without(order, b);
    PushFront(w, stamp, clock, b);
    forall x | 0 <= x < |stamp| ensures x in MoveFront(order, b) {
      WithoutMember(order, b, x);
    }
  }

  ghost predicate Ranked(order: seq<nat>, stamp: seq<nat>, clock: nat) {
    Listed(order, stamp) && forall x :: 0 <= x < |stamp| ==> x in order && stamp[x] < clock
  }

  lemma RankedFrom(c: Cache)
    requires Sized(c) && OrderOk(c) && StampOk(c)
    ensures Ranked(c.order, c.stamp, c.clock)
  {}

  lemma RankedTo(c: Cache)
    requires Sized(c) && Ranked(c.order, c.stamp, c.clock)
    ensures OrderOk(c) && StampOk(c)
  {}

  lemma MoveFrontRanked(order: seq<nat>, stamp: seq<nat>, clock: nat, b: nat)
    requires Ranked(order, stamp, clock) && b < |stamp|
    ensures Ranked(MoveFront(order, b), stamp[b := clock], clock + 1) && |MoveFront(order, b)| == |order|
  {
    hide MoveFront, Listed;
    MoveFrontOk(order, stamp, clock, b);
  }

  lemma DropOrder(c: Cache, d: Cache, p: nat, b: nat)
    requires Inv(c) && Drop(c, d, p, b)
    ensures Sized(d) && OrderOk(d) && StampOk(d)
  {
    hide OrderOk, StampOk, BufOk, Unique, Ranked, MoveFront;
    RankedFrom(c);
    if c.bufs[b].refcnt == 1 {
      MoveFrontRanked(c.order, c.stamp, c.clock, b);
    }
    RankedTo(d);
  }

  /** bget recycles only a buffer nobody references or pins, and among those the
      least recently used. */
  lemma VictimIsLru(c: Cache)
    requires Inv(c) && Victim(c.bufs, c.order).Some?
    ensures var v := Victim(c.bufs, c.order).value;
            && v < |c.bufs| && c.bufs[v].refcnt == 0 && c.users[v] == {} && c.pins[v] == 0 && c.owner[v].None?
            && Clean(c, v)
            && forall b :: 0 <= b < |c.bufs| && c.bufs[b].refcnt == 0 && b != v ==> c.stamp[v] < c.stamp[b]
  {
    VictimMeaning(c.bufs, c.order);
    var v := Victim(c.bufs, c.order).value;
    var k :| 0 <= k < |c.order| && c.order[k] == v && c.bufs[v].refcnt == 0
             && forall i :: k < i < |c.order| ==> c.bufs[c.order[i]].refcnt > 0;
    assert BufOk(c, v);
    forall b | 0 <= b < |c.bufs| && c.bufs[b].refcnt == 0 && b != v ensures c.stamp[v] < c.stamp[b] {
      assert b in c.order;
      var i :| 0 <= i < |c.order| && c.order[i] == b;
    }
  }

  lemma LookupNone(c: Cache, id: Id)
    requires OrderOk(c) && Lookup(c.bufs, c.order, id).None?
    ensures forall b :: 0 <= b < |c.bufs| ==> c.bufs[b].id != id
  {
    LookupMeaning(c.bufs, c.order, id);
    forall b | 0 <= b < |c.bufs| ensures c.bufs[b].id != id {
      assert b in c.order;
      var i :| 0 <= i < |c.order| && c.order[i] == b;
    }
  }

  lemma GetInv(c: Cache, d: Cache, p: nat, id: Id)
    requires Inv(c) && id.dev != 0 && id in c.disk && Get(c, d, p, id)
    ensures Inv(d)
  {
    LookupMeaning(c.bufs, c.order, id);
    if Lookup(c.bufs, c.order, id).Some? {
      var b := Lookup(c.bufs, c.order, id).value;
      assert BufOk(c, b);
      OneBufInv(c, d, b);
    } else {
      LookupNone(c, id);
      VictimIsLru(c);
      OneBufInv(c, d, Victim(c.bufs, c.order).value);
    }
  }

  /** A step that touches only buffer b, and keeps it sound, keeps the invariant. */
  lemma OneBufInv(c: Cache, d: Cache, b: nat)
    requires Inv(c) && b < |c.bufs|
    requires d.order == c.order && d.stamp == c.stamp && d.clock == c.clock && d.disk == c.disk
    requires |d.users| == |d.owner| == |d.pins| == |d.bufs| == |c.bufs|
    requires forall x :: 0 <= x < |c.bufs| && x != b ==>
               d.bufs[x] == c.bufs[x] && d.users[x] == c.users[x] && d.owner[x] == c.owner[x] && d.pins[x] == c.pins[x]
    requires BufOk(d, b)
    requires d.bufs[b].id == c.bufs[b].id || forall x :: 0 <= x < |c.bufs| ==> c.bufs[x].id != d.bufs[b].id
    requires d.bufs[b].valid ==> d.bufs[b].id.dev != 0 && d.bufs[b].id in d.disk
    ensures Inv(d)
  {
    forall x | 0 <= x < |d.bufs| ensures BufOk(d, x) {
      if x != b {
        assert BufOk(c, x);
      }
    }
  }

  lemma WriteInv(c: Cache, d: Cache, p: nat, b: nat)
    requires Inv(c) && Bwrite(c, d, p, b)
    ensures Inv(d)
  {
    forall x | 0 <= x < |d.bufs| ensures BufOk(d, x) {
      assert BufOk(c, x);
    }
  }

  lemma DropInv(c: Cache, d: Cache, p: nat, b: nat)
    requires Inv(c) && Drop(c, d, p, b)
    ensures Inv(d)
  {
    DropOrder(c, d, p, b);
    forall x | 0 <= x < |d.bufs| ensures BufOk(d, x) {
      assert BufOk(c, x);
    }
  }

  lemma NextInv(c: Cache, d: Cache, a: Step)
    requires Inv(c) && NextStep(c, d, a)
    ensures Inv(d)
  {
    match a
    case GetStep(p, id) => GetInv(c, d, p, id);
    case FillStep(p, b) => FillInv(c, d, p, b);
    case WriteStep(p, b) => WriteInv(c, d, p, b);
    case DropStep(p, b) => DropInv(c, d, p, b);
    case _ => TouchInv(c, d, a);
  }

  lemma TouchInv(c: Cache, d: Cache, a: Step)
    requires Inv(c) && NextStep(c, d, a)
    requires a.LockStep? || a.ModifyStep? || a.PinStep? || a.UnpinStep? || a.UnlockStep?
    ensures Inv(d)
  {
    hide OrderOk, StampOk;
    assert BufOk(c, a.b);
    assert BufOk(d, a.b);
    OneBufInv(c, d, a.b);
  }

  lemma FillInv(c: Cache, d: Cache, p: nat, b: nat)
    requires Inv(c) && Fill(c, d, p, b)
    ensures Inv(d)
  {
    assert BufOk(c, b);
    OneBufInv(c, d, b);
  }

  // --------------------------------------------------------------- refinement

  /** What the file system sees in a block: the cached copy if there is one. */
  ghost predicate Shows(c: Cache, id: Id, v: Block) {
    if exists b :: 0 <= b < |c.bufs| && c.bufs[b].id == id && c.bufs[b].valid
    then exists b :: 0 <= b < |c.bufs| && c.bufs[b].id == id && c.bufs[b].valid && c.bufs[b].data == v
    else id in c.disk && c.disk[id] == v
  }

  /** The same thing, given the only buffer that can hold the block. */
  lemma ShowsAt(c: Cache, id: Id, v: Block, b: nat)
    requires Inv(c) && id.dev != 0 && b < |c.bufs| && c.bufs[b].id == id
    ensures Shows(c, id, v) <==> if c.bufs[b].valid then c.bufs[b].data == v else id in c.disk && c.disk[id] == v
  {
    assert forall x :: 0 <= x < |c.bufs| && c.bufs[x].id == id ==> x == b;
  }

  lemma ShowsUncached(c: Cache, id: Id, v: Block)
    requires forall b :: 0 <= b < |c.bufs| && c.bufs[b].id == id ==> !c.bufs[b].valid
    ensures Shows(c, id, v) <==> id in c.disk && c.disk[id] == v
  {}

  /** The cache refines a plain disk: the only step that changes what a block
      shows is a holder modifying that block. */
  lemma Refines(c: Cache, d: Cache, a: Step, id: Id, v: Block)
    requires Inv(c) && NextStep(c, d, a) && id.dev != 0
    ensures if a.ModifyStep? && c.bufs[a.b].id == id then Shows(d, id, v) <==> v == a.v
            else Shows(d, id, v) <==> Shows(c, id, v)
  {
    NextInv(c, d, a);
    match a
    case GetStep(p, gid) => GetRefines(c, d, p, gid, id, v);
    case LockStep(p, b) => SameBufs(c, d, id, v);
    case FillStep(p, b) => OneBufShows(c, d, b, id, v);
    case ModifyStep(p, b, w) => OneBufShows(c, d, b, id, v);
    case WriteStep(p, b) => WriteShows(c, d, p, b, id, v);
    case PinStep(p, b) => OneBufShows(c, d, b, id, v);
    case UnpinStep(p, b) => OneBufShows(c, d, b, id, v);
    case UnlockStep(p, b) => SameBufs(c, d, id, v);
    case DropStep(p, b) => OneBufShows(c, d, b, id, v);
  }

  lemma SameBufs(c: Cache, d: Cache, id: Id, v: Block)
    requires d.bufs == c.bufs && d.disk == c.disk
    ensures Shows(d, id, v) <==> Shows(c, id, v)
  {}

  /** Changing buffer b without renaming it affects only what its block shows. */
  lemma OneBufShows(c: Cache, d: Cache, b: nat, id: Id, v: Block)
    requires Inv(c) && Inv(d) && id.dev != 0 && b < |c.bufs| && |d.bufs| == |c.bufs| && d.disk == c.disk
    requires forall x :: 0 <= x < |c.bufs| && x != b ==> d.bufs[x] == c.bufs[x]
    requires d.bufs[b].id == c.bufs[b].id
    ensures c.bufs[b].id != id ==> (Shows(d, id, v) <==> Shows(c, id, v))
    ensures c.bufs[b].id == id ==>
              (Shows(d, id, v) <==> if d.bufs[b].valid then d.bufs[b].data == v else id in d.disk && d.disk[id] == v)
    ensures c.bufs[b].id == id ==>
              (Shows(c, id, v) <==> if c.bufs[b].valid then c.bufs[b].data == v else id in c.disk && c.disk[id] == v)
  {
    if c.bufs[b].id == id {
      ShowsAt(c, id, v, b);
      ShowsAt(d, id, v, b);
    } else if x :| 0 <= x < |c.bufs| && c.bufs[x].id == id {
      ShowsAt(c, id, v, x);
      ShowsAt(d, id, v, x);
    } else {
      ShowsUncached(c, id, v);
      ShowsUncached(d, id, v);
    }
  }

  lemma WriteShows(c: Cache, d: Cache, p: nat, b: nat, id: Id, v: Block)
    requires Inv(c) && Inv(d) && Bwrite(c, d, p, b) && id.dev != 0
    ensures Shows(d, id, v) <==> Shows(c, id, v)
  {
    if x :| 0 <= x < |c.bufs| && c.bufs[x].id == id {
      ShowsAt(c, id, v, x);
      ShowsAt(d, id, v, x);
    } else {
      ShowsUncached(c, id, v);
      ShowsUncached(d, id, v);
    }
  }

  /** Recycling a buffer forgets only content the disk has. */
  lemma GetRefines(c: Cache, d: Cache, p: nat, gid: Id, id: Id, v: Block)
    requires Inv(c) && Inv(d) && Get(c, d, p, gid) && gid.dev != 0 && gid in c.disk && id.dev != 0
    ensures Shows(d, id, v) <==> Shows(c, id, v)
  {
    LookupMeaning(c.bufs, c.order, gid);
    if Lookup(c.bufs, c.order, gid).Some? {
      OneBufShows(c, d, Lookup(c.bufs, c.order, gid).value, id, v);
    } else {
      LookupNone(c, gid);
      VictimIsLru(c);
      RecycleShows(c, d, Victim(c.bufs, c.order).value, gid, id, v);
    }
  }

  lemma RecycleShows(c: Cache, d: Cache, b: nat, gid: Id, id: Id, v: Block)
    requires Inv(c) && Inv(d) && id.dev != 0 && b < |c.bufs| && d.disk == c.disk && Clean(c, b)
    requires forall x :: 0 <= x < |c.bufs| ==> c.bufs[x].id != gid
    requires d.bufs == c.bufs[b := Buf(gid, false, c.bufs[b].data, 1)]
    ensures Shows(d, id, v) <==> Shows(c, id, v)
  {
    if id == c.bufs[b].id {
      ShowsAt(c, id, v, b);
      ShowsUncached(d, id, v);
    } else if id == gid {
      ShowsUncached(c, id, v);
      ShowsUncached(d, id, v);
    } else if x :| 0 <= x < |c.bufs| && c.bufs[x].id == id {
      ShowsAt(c, id, v, x);
      ShowsAt(d, id, v, x);
    } else {
      ShowsUncached(c, id, v);
      ShowsUncached(d, id, v);
    }
  }

  /** What a release of a changed buffer that is neither written nor logged would
      lead to, as writei's is when a copy fails inside a block: once the buffer is
      recycled the change is gone.  Recycling keeps what a block shows exactly when
      the buffer is clean. */
  lemma RecycleForgets(c: Cache, d: Cache, p: nat, gid: Id)
    requires Sized(c) && OrderOk(c) && Unique(c.bufs) && Get(c, d, p, gid) && Lookup(c.bufs, c.order, gid).None?
    requires var b := Victim(c.bufs, c.order).value;
      c.bufs[b].valid && c.bufs[b].id.dev != 0 && c.bufs[b].id in c.disk
    ensures var b := Victim(c.bufs, c.order).value; var id := c.bufs[b].id;
      && Shows(c, id, c.bufs[b].data) && Shows(d, id, c.disk[id])
      && (Shows(d, id, c.bufs[b].data) <==> Clean(c, b))
  {
    var b := Victim(c.bufs, c.order).value;
    var id := c.bufs[b].id;
    LookupNone(c, gid);
    assert forall x :: 0 <= x < |c.bufs| && c.bufs[x].id == id ==> x == b;
    ShowsUncached(d, id, c.disk[id]);
    ShowsUncached(d, id, c.bufs[b].data);
  }

  // ---------------------------------------------------------------- whole runs

  ghost predicate Run(run: seq<Cache>, steps: seq<Step>) {
    && |run| == |steps| + 1 && Init(run[0])
    && forall i :: 0 <= i < |steps| ==> NextStep(run[i], run[i + 1], steps[i])
  }

  /** The content a block should have after the first i steps of a run: the last
      modification a holder made to it, or the initial disk content. */
  ghost predicate Written(run: seq<Cache>, steps: seq<Step>, i: nat, id: Id, v: Block)
    requires |run| == |steps| + 1 && i <= |steps|
    decreases i
  {
    if i == 0 then id in run[0].disk && run[0].disk[id] == v
    else if steps[i - 1].ModifyStep? && steps[i - 1].b < |run[i - 1].bufs| && run[i - 1].bufs[steps[i - 1].b].id == id
    then v == steps[i - 1].v
    else Written(run, steps, i - 1, id, v)
  }

  lemma {:induction false} RunInv(run: seq<Cache>, steps: seq<Step>, i: nat)
    requires Run(run, steps) && i <= |steps|
    ensures Inv(run[i])
    decreases i
  {
    if i == 0 {
      InitInv(run[0]);
    } else {
      RunInv(run, steps, i - 1);
      NextInv(run[i - 1], run[i - 1 + 1], steps[i - 1]);
    }
  }

  lemma {:induction false} RunRefines(run: seq<Cache>, steps: seq<Step>, i: nat, id: Id, v: Block)
    requires Run(run, steps) && i <= |steps| && id.dev != 0
    ensures Shows(run[i], id, v) <==> Written(run, steps, i, id, v)
    decreases i
  {
    if i > 0 {
      RunInv(run, steps, i - 1);
      RunRefines(run, steps, i - 1, id, v);
      Refines(run[i - 1], run[i - 1 + 1], steps[i - 1], id, v);
    } else {
      ShowsUncached(run[0], id, v);
    }
  }

  /** bread returns the last logged or written content: a valid buffer in the
      hands of its lock holder holds exactly the last modification of its block
      in the whole run, whichever buffers were recycled in between. */
  lemma BreadIsLastWrite(run: seq<Cache>, steps: seq<Step>, i: nat, b: nat)
    requires Run(run, steps) && i <= |steps| && b < |run[i].bufs| && run[i].bufs[b].valid
    ensures Written(run, steps, i, run[i].bufs[b].id, run[i].bufs[b].data)
  {
    RunInv(run, steps, i);
    var buf := run[i].bufs[b];
    RunRefines(run, steps, i, buf.id, buf.data);
    ShowsAt(run[i], buf.id, buf.data, b);
  }

  /** The content the disk should have: what the last bwrite of the block wrote, or the
      initial content. */
  ghost predicate OnDisk(run: seq<Cache>, steps: seq<Step>, i: nat, id: Id, v: Block)
    requires |run| == |steps| + 1 && i <= |steps|
    decreases i
  {
    if i == 0 then id in run[0].disk && run[0].disk[id] == v
    else if steps[i - 1].WriteStep? && steps[i - 1].b < |run[i - 1].bufs| && run[i - 1].bufs[steps[i - 1].b].id == id
    then v == run[i - 1].bufs[steps[i - 1].b].data
    else OnDisk(run, steps, i - 1, id, v)
  }

  lemma {:induction false} DiskIsLastBwrite(run: seq<Cache>, steps: seq<Step>, i: nat, id: Id, v: Block)
    requires Run(run, steps) && i <= |steps|
    ensures id in run[i].disk && run[i].disk[id] == v <==> OnDisk(run, steps, i, id, v)
    decreases i
  {
    hide NextStep, Init;
    if i > 0 {
      DiskIsLastBwrite(run, steps, i - 1, id, v);
      DiskStep(run[i - 1], run[i - 1 + 1], steps[i - 1], id);
    }
  }

  lemma DiskStep(c: Cache, d: Cache, a: Step, id: Id)
    requires NextStep(c, d, a)
    ensures if a.WriteStep? && a.b < |c.bufs| && c.bufs[a.b].id == id then id in d.disk && d.disk[id] == c.bufs[a.b].data
            else (id in d.disk <==> id in c.disk) && (id in c.disk ==> d.disk[id] == c.disk[id])
  {
  }

  lemma FillAt(c: Cache, d: Cache, a: Step)
    requires NextStep(c, d, a) && a.FillStep?
    ensures a.b < |d.bufs| && d.bufs[a.b].valid && d.bufs[a.b].id in d.disk && d.bufs[a.b].data == d.disk[d.bufs[a.b].id]
  {
  }

  /** bread of a buffer that was not valid ends with what the disk has in it. */
  lemma FillReads(run: seq<Cache>, steps: seq<Step>, i: nat)
    requires Run(run, steps) && i < |steps| && steps[i].FillStep?
    ensures var c, b := run[i + 1], steps[i].b;
      && b < |c.bufs| && c.bufs[b].valid && OnDisk(run, steps, i + 1, c.bufs[b].id, c.bufs[b].data)
      && Written(run, steps, i + 1, c.bufs[b].id, c.bufs[b].data)
  {
    hide NextStep, Written, OnDisk, Init;
    var b := steps[i].b;
    FillAt(run[i], run[i + 1], steps[i]);
    DiskIsLastBwrite(run, steps, i + 1, run[i + 1].bufs[b].id, run[i + 1].bufs[b].data);
    BreadIsLastWrite(run, steps, i + 1, b);
  }

  lemma OwnerStep(c: Cache, d: Cache, a: Step, p: nat, b: nat)
    requires NextStep(c, d, a) && b < |c.owner|
    ensures |d.owner| == |c.owner|
    ensures d.owner[b] == Some(p) <==> a == LockStep(p, b) || (c.owner[b] == Some(p) && a != UnlockStep(p, b))
  {
  }

  // Process p does not release the lock of buffer b from state m on to state i.
  ghost predicate Keeps(steps: seq<Step>, m: nat, i: nat, p: nat, b: nat)
    requires i <= |steps|
  {
    forall j :: m <= j < i ==> steps[j] != UnlockStep(p, b)
  }

  /** A buffer's sleep-lock is held by the process that has locked it and has not
      released it since. */
  lemma {:induction false} OwnerExactly(run: seq<Cache>, steps: seq<Step>, i: nat, p: nat, b: nat)
    requires Run(run, steps) && i <= |steps| && b < |run[0].owner|
    ensures |run[i].owner| == |run[0].owner|
    ensures run[i].owner[b] == Some(p) <==> exists m: nat :: m < i && steps[m] == LockStep(p, b) && Keeps(steps, m + 1, i, p, b)
    decreases i
  {
    hide NextStep;
    if i > 0 {
      var m := i - 1;
      OwnerExactly(run, steps, m, p, b);
      OwnerStep(run[m], run[m + 1], steps[m], p, b);
      assert forall j: nat :: j <= m ==> (Keeps(steps, j, i, p, b) <==> Keeps(steps, j, m, p, b) && steps[m] != UnlockStep(p, b));
      assert Keeps(steps, i, i, p, b);
    }
  }
}

/**
 * The virtio disk driver and its device as a step system.  A driver step is
 * what one process or the interrupt handler does while it holds vdisk_lock,
 * except that filling the avail ring and publishing it are two steps, so that
 * the device may act in between.  The device follows sections 2.6 and 5.2 of
 * VirtIO 1.1: it takes chain heads from the avail ring in order, performs the
 * requests in any order, and reports each on the used ring.
 */
module Virtio {
  import opened Common

  const NUM := 8

  type Block = seq<int>

  // What a descriptor points to: a command header, a buffer's data, a status byte.
  datatype Addr = Null | Header(i: nat) | Data(b: nat) | Status(i: nat)

  // more: VRING_DESC_F_NEXT; dev: VRING_DESC_F_WRITE, the device may write there and not read
  datatype Desc = Desc(addr: Addr, more: bool, dev: bool, next: nat)

  const EMPTY := Desc(Null, false, false, 0)

  datatype Op = Op(write: bool, sector: nat)

  datatype Phase =
    | Posted(pos: nat)               // at this place of the avail ring
    | Taken                          // the device is at work
    | Reported(pos: nat, st: nat)    // at this place of the used ring, with this status
    | Done                           // the interrupt handler has seen it

  // A request in flight, kept at its first descriptor.
  datatype Request = Request(b: nat, op: Op, d1: nat, d2: nat, phase: Phase)

  datatype State = State(
    free: seq<bool>, desc: seq<Desc>, ops: seq<Op>, info: seq<nat>, status: seq<nat>,
    avail: seq<nat>, availIdx: nat, filling: bool,     // filling: lock held, idx not yet advanced
    used: seq<nat>, usedIdx: nat, seen: nat,           // seen: disk.used_idx
    lastAvail: nat, taken: set<nat>,                   // the device's own
    busy: map<nat, bool>, data: map<nat, Block>,       // b->disk and b->data
    disk: map<nat, Block>,                             // by first sector
    req: map<nat, Request>, posted: nat, fetched: nat, reported: nat, handled: nat)

  // b->blockno * (BSIZE / 512), in 32 bits
  function Sector(blockno: nat): nat { blockno * 2 % 0x1_0000_0000 }

  /** Blocks have sectors of their own exactly as far as 32 bits reach. */
  lemma SectorExact(blockno: nat)
    ensures Sector(blockno) == 2 * blockno <==> blockno < 0x8000_0000
  {
  }

  // A 16-bit index and the ring place it selects.
  function Idx(n: nat): nat { n % 65536 }
  function Ring(n: nat): (i: nat)
    ensures i < NUM
  {
    n % 8
  }

  lemma RingIdx(n: nat)
    ensures Ring(Idx(n)) == Ring(n) && Idx(Idx(n) + 1) == Idx(n + 1)
  {
  }

  lemma RingApart(a: nat, b: nat)
    requires a < b < a + NUM
    ensures Ring(a) != Ring(b)
  {
  }

  lemma IdxApart(a: nat, b: nat)
    requires a <= b <= a + NUM
    ensures Idx(a) == Idx(b) <==> a == b
  {
  }

  // Invariant -------------------------------------------------------------------

  predicate Shape(s: State)
  {
    && |s.free| == NUM && |s.desc| == NUM && |s.ops| == NUM && |s.info| == NUM && |s.status| == NUM
    && |s.avail| == NUM && |s.used| == NUM
    && s.availIdx == Idx(s.posted) && s.lastAvail == Idx(s.fetched)
    && s.usedIdx == Idx(s.reported) && s.seen == Idx(s.handled)
    && s.fetched <= s.posted && s.handled <= s.reported
  }

  // One past the last filled place of the avail ring.
  function Filled(s: State): nat { if s.filling then s.posted + 1 else s.posted }

  predicate Chain(s: State, h: nat, d: nat)
    requires h in s.req
  {
    d == h || d == s.req[h].d1 || d == s.req[h].d2
  }

  // The request at h: its three descriptors, its book-keeping and its place.
  ghost predicate ReqAt(s: State, h: nat)
    requires Shape(s) && h in s.req
  {
    var r := s.req[h];
    && h < NUM && r.d1 < NUM && r.d2 < NUM && h != r.d1 && h != r.d2 && r.d1 != r.d2
    && !s.free[h] && !s.free[r.d1] && !s.free[r.d2]
    && s.desc[h] == Desc(Header(h), true, false, r.d1)
    && s.desc[r.d1] == Desc(Data(r.b), true, !r.op.write, r.d2)
    && s.desc[r.d2] == Desc(Status(h), false, true, 0)
    && s.ops[h] == r.op && s.info[h] == r.b && r.op.sector in s.disk
    && r.b in s.busy && r.b in s.data && (s.busy[r.b] <==> !r.phase.Done?)
    && (h in s.taken <==> r.phase.Taken?)
    && (r.phase.Posted? ==> s.fetched <= r.phase.pos < Filled(s) && s.avail[Ring(r.phase.pos)] == h)
    && (r.phase.Reported? ==> s.handled <= r.phase.pos < s.reported && s.used[Ring(r.phase.pos)] == h)
    && (r.phase.Reported? ==> s.status[h] == r.phase.st)
    && (r.phase.Posted? || r.phase.Taken? ==> s.status[h] == 0xff)
  }

  // A descriptor is free, and then empty, or belongs to a chain; one that heads no
  // chain has no buffer.
  ghost predicate DescAt(s: State, d: nat)
    requires Shape(s) && d < NUM
  {
    && (if s.free[d] then s.desc[d] == EMPTY else exists h :: h in s.req && Chain(s, h, d))
    && (d in s.req || s.info[d] == 0)
  }

  predicate AvailAt(s: State, k: nat)
    requires Shape(s)
  {
    s.fetched <= k < Filled(s) ==>
      var h := s.avail[Ring(k)]; h in s.req && s.req[h].phase == Posted(k)
  }

  predicate UsedAt(s: State, k: nat)
    requires Shape(s)
  {
    s.handled <= k < s.reported ==>
      var h := s.used[Ring(k)]; h in s.req && s.req[h].phase.Reported? && s.req[h].phase.pos == k
  }

  // Two requests share no descriptor and no buffer.
  predicate Apart(s: State, g: nat, h: nat)
    requires g in s.req && h in s.req
  {
    g != h ==>
      && s.req[g].b != s.req[h].b
      && !Chain(s, g, h) && !Chain(s, g, s.req[h].d1) && !Chain(s, g, s.req[h].d2)
  }

  ghost predicate Inv(s: State)
  {
    && Shape(s)
    && (forall h {:trigger ReqAt(s, h)} :: h in s.req ==> ReqAt(s, h))
    && (forall g, h {:trigger Apart(s, g, h)} :: g in s.req && h in s.req ==> Apart(s, g, h))
    && (forall d: nat {:trigger DescAt(s, d)} :: d < NUM ==> DescAt(s, d))
    && (forall k: nat {:trigger AvailAt(s, k)} :: AvailAt(s, k))
    && (forall k: nat {:trigger UsedAt(s, k)} :: UsedAt(s, k))
    && (forall h :: h in s.taken ==> h in s.req)
  }

  // Steps -------------------------------------------------------------------------

  datatype Step =
    | Fill(b: nat, blockno: nat, write: bool, i0: nat, i1: nat, i2: nat)
    | Publish
    | Fetch
    | Complete(h: nat, st: nat, junk: Block)
    | Handle
    | Finish(h: nat)
    | Touch(b: nat, v: Block)

  // alloc3_desc succeeded: i0, i1 and i2 were free.
  predicate Took(s: State, i0: nat, i1: nat, i2: nat)
  {
    && i0 < |s.free| && i1 < |s.free| && i2 < |s.free| && i0 != i1 && i0 != i2 && i1 != i2
    && s.free[i0] && s.free[i1] && s.free[i2]
  }

  // virtio_disk_rw up to the entry in the avail ring.  The caller holds the
  // buffer's lock, so no other request has the buffer, and the block is on the disk.
  ghost predicate DoFill(s: State, t: State, b: nat, blockno: nat, write: bool, i0: nat, i1: nat, i2: nat)
    requires Shape(s)
  {
    && !s.filling && Took(s, i0, i1, i2) && b in s.busy && b in s.data
    && (forall h :: h in s.req ==> s.req[h].b != b) && Sector(blockno) in s.disk
    && var op := Op(write, Sector(blockno));
    t == s.(
      free := s.free[i0 := false][i1 := false][i2 := false],
      desc := s.desc[i0 := Desc(Header(i0), true, false, i1)][i1 := Desc(Data(b), true, !write, i2)]
                    [i2 := Desc(Status(i0), false, true, 0)],
      ops := s.ops[i0 := op], info := s.info[i0 := b], status := s.status[i0 := 0xff],
      busy := s.busy[b := true], avail := s.avail[Ring(s.availIdx) := i0], filling := true,
      req := s.req[i0 := Request(b, op, i1, i2, Posted(s.posted))])
  }

  predicate DoPublish(s: State, t: State)
  {
    s.filling && t == s.(availIdx := Idx(s.availIdx + 1), filling := false, posted := s.posted + 1)
  }

  predicate DoFetch(s: State, t: State)
    requires Shape(s)
  {
    && s.lastAvail != s.availIdx
    && var h := s.avail[Ring(s.lastAvail)];
    && h in s.req
    && t == s.(lastAvail := Idx(s.lastAvail + 1), taken := s.taken + {h}, fetched := s.fetched + 1,
               req := s.req[h := s.req[h].(phase := Taken)])
  }

  // The device performs the chain at h as the descriptors in memory say, and writes
  // status st: 0, or an error, and then it may have left junk where it was to write.
  predicate DoComplete(s: State, t: State, h: nat, st: nat, junk: Block)
    requires Shape(s)
  {
    && h in s.taken && h in s.req && h < NUM && s.desc[h].next < NUM && s.desc[s.desc[h].next].next < NUM
    && var a0, d1 := s.desc[h].addr, s.desc[s.desc[h].next];
    && var a2 := s.desc[d1.next].addr;
    && a0.Header? && a0.i < NUM && d1.addr.Data? && d1.addr.b in s.data && a2.Status? && a2.i < NUM
    && s.ops[a0.i].sector in s.disk
    && !s.desc[h].dev && d1.dev == !s.ops[a0.i].write && s.desc[d1.next].dev
    && var op, b := s.ops[a0.i], d1.addr.b;
    t == s.(
      disk := if op.write then s.disk[op.sector := if st == 0 then s.data[b] else junk] else s.disk,
      data := if op.write then s.data else s.data[b := if st == 0 then s.disk[op.sector] else junk],
      status := s.status[a2.i := st], taken := s.taken - {h},
      used := s.used[Ring(s.usedIdx) := h], usedIdx := Idx(s.usedIdx + 1), reported := s.reported + 1,
      req := s.req[h := s.req[h].(phase := Reported(s.reported, st))])
  }

  // One turn of the loop in virtio_disk_intr; a status other than 0 is a panic.
  predicate DoHandle(s: State, t: State)
    requires Shape(s)
  {
    && !s.filling && s.seen != s.usedIdx
    && var id := s.used[Ring(s.seen)];
    && id in s.req && id < NUM && s.status[id] == 0
    && t == s.(busy := s.busy[s.info[id] := false], seen := Idx(s.seen + 1), handled := s.handled + 1,
               req := s.req[id := s.req[id].(phase := Done)])
  }

  // The requester finds b->disk clear and frees its chain.
  ghost predicate DoFinish(s: State, t: State, h: nat)
    requires Shape(s)
  {
    && !s.filling && h in s.req && s.req[h].b in s.busy && !s.busy[s.req[h].b]
    && h < NUM && s.req[h].d1 < NUM && s.req[h].d2 < NUM
    && var r := s.req[h];
    t == s.(
      free := s.free[h := true][r.d1 := true][r.d2 := true],
      desc := s.desc[h := EMPTY][r.d1 := EMPTY][r.d2 := EMPTY],
      info := s.info[h := 0], req := s.req - {h})
  }

  // Whoever holds the lock of a buffer that no request has changes its data.
  ghost predicate DoTouch(s: State, t: State, b: nat, v: Block)
  {
    b in s.data && (forall h :: h in s.req ==> s.req[h].b != b) && t == s.(data := s.data[b := v])
  }

  ghost predicate NextStep(s: State, t: State, step: Step)
    requires Shape(s)
  {
    match step
    case Fill(b, blockno, write, i0, i1, i2) => DoFill(s, t, b, blockno, write, i0, i1, i2)
    case Publish => DoPublish(s, t)
    case Fetch => DoFetch(s, t)
    case Complete(h, st, junk) => DoComplete(s, t, h, st, junk)
    case Handle => DoHandle(s, t)
    case Finish(h) => DoFinish(s, t, h)
    case Touch(b, v) => DoTouch(s, t, b, v)
  }

  // The rings never overflow ---------------------------------------------------------

  // The heads at places lo to hi of a ring.
  function Heads(ring: seq<nat>, lo: nat, hi: nat): set<nat>
    requires |ring| == NUM && lo <= hi
  {
    if lo == hi then {} else Heads(ring, lo, hi - 1) + {ring[Ring(hi - 1)]}
  }

  lemma {:induction false} HeadsIn(ring: seq<nat>, lo: nat, hi: nat, h: nat) returns (k: nat)
    requires |ring| == NUM && lo <= hi && h in Heads(ring, lo, hi)
    ensures lo <= k < hi && ring[Ring(k)] == h
  {
    if h == ring[Ring(hi - 1)] { k := hi - 1; } else { k := HeadsIn(ring, lo, hi - 1, h); }
  }

  lemma {:induction false} HeadsCount(ring: seq<nat>, lo: nat, hi: nat, place: map<nat, nat>)
    requires |ring| == NUM && lo <= hi
    requires forall k: nat :: lo <= k < hi ==> ring[Ring(k)] in place && place[ring[Ring(k)]] == k
    ensures |Heads(ring, lo, hi)| == hi - lo
  {
    if lo < hi {
      HeadsCount(ring, lo, hi - 1, place);
      var h := ring[Ring(hi - 1)];
      if h in Heads(ring, lo, hi - 1) {
        var k := HeadsIn(ring, lo, hi - 1, h);
      }
    }
  }

  // Fewer than NUM places hold heads if all the heads are below NUM and not x.
  lemma RingRoom(ring: seq<nat>, lo: nat, hi: nat, place: map<nat, nat>, x: nat)
    requires |ring| == NUM && lo <= hi && x < NUM
    requires forall k: nat :: lo <= k < hi ==> ring[Ring(k)] in place && place[ring[Ring(k)]] == k
    requires forall k: nat :: lo <= k < hi ==> ring[Ring(k)] < NUM && ring[Ring(k)] != x
    ensures hi - lo < NUM
  {
    var hs := Heads(ring, lo, hi);
    HeadsCount(ring, lo, hi, place);
    forall h | h in hs ensures h < NUM && h != x {
      var k := HeadsIn(ring, lo, hi, h);
    }
    Bounded(hs + {x}, NUM);
  }

  /** While a descriptor is free, the avail ring has a place that the device has
      already consumed: filling the next one overwrites no unconsumed entry. */
  lemma AvailRoom(s: State, x: nat)
    requires Inv(s) && x < NUM && s.free[x]
    ensures Filled(s) - s.fetched < NUM
  {
    var place := map h | h in s.req && s.req[h].phase.Posted? :: s.req[h].phase.pos;
    forall k: nat | s.fetched <= k < Filled(s)
      ensures var h := s.avail[Ring(k)]; h in place && place[h] == k && h < NUM && h != x
    {
      assert AvailAt(s, k);
      assert ReqAt(s, s.avail[Ring(k)]);
    }
    RingRoom(s.avail, s.fetched, Filled(s), place, x);
  }

  /** While a request is with the device, the used ring has room to report it. */
  lemma UsedRoom(s: State, x: nat)
    requires Inv(s) && x in s.req && !s.req[x].phase.Reported?
    ensures s.reported - s.handled < NUM
  {
    var place := map h | h in s.req && s.req[h].phase.Reported? :: s.req[h].phase.pos;
    forall k: nat | s.handled <= k < s.reported
      ensures var h := s.used[Ring(k)]; h in place && place[h] == k && h < NUM && h != x
    {
      assert UsedAt(s, k);
      assert ReqAt(s, s.used[Ring(k)]);
    }
    assert ReqAt(s, x);
    RingRoom(s.used, s.handled, s.reported, place, x);
  }

  lemma RingBound(ring: seq<nat>, lo: nat, hi: nat, place: map<nat, nat>)
    requires |ring| == NUM && lo <= hi
    requires forall k: nat :: lo <= k < hi ==> ring[Ring(k)] in place && place[ring[Ring(k)]] == k
    requires forall k: nat :: lo <= k < hi ==> ring[Ring(k)] < NUM
    ensures hi - lo <= NUM
  {
    var hs := Heads(ring, lo, hi);
    HeadsCount(ring, lo, hi, place);
    forall h | h in hs ensures h < NUM {
      var k := HeadsIn(ring, lo, hi, h);
    }
    Bounded(hs, NUM);
  }

  /** The 16-bit indices may wrap: comparing them tells exactly whether there is
      something to fetch or to handle, and they select the right ring places. */
  lemma WrapHarmless(s: State)
    requires Inv(s)
    ensures s.lastAvail != s.availIdx <==> s.fetched < s.posted
    ensures s.seen != s.usedIdx <==> s.handled < s.reported
    ensures Ring(s.availIdx) == Ring(s.posted) && Ring(s.lastAvail) == Ring(s.fetched)
    ensures Ring(s.usedIdx) == Ring(s.reported) && Ring(s.seen) == Ring(s.handled)
  {
    RingIdx(s.posted);
    RingIdx(s.fetched);
    RingIdx(s.reported);
    RingIdx(s.handled);
    AvailBound(s);
    UsedBound(s);
    IdxApart(s.fetched, s.posted);
    IdxApart(s.handled, s.reported);
  }

  lemma AvailBound(s: State)
    requires Inv(s)
    ensures Filled(s) - s.fetched <= NUM
  {
    var place := map h | h in s.req && s.req[h].phase.Posted? :: s.req[h].phase.pos;
    forall k: nat | s.fetched <= k < Filled(s)
      ensures var h := s.avail[Ring(k)]; h in place && place[h] == k && h < NUM
    {
      assert AvailAt(s, k);
      assert ReqAt(s, s.avail[Ring(k)]);
    }
    RingBound(s.avail, s.fetched, Filled(s), place);
  }

  lemma UsedBound(s: State)
    requires Inv(s)
    ensures s.reported - s.handled <= NUM
  {
    var place := map h | h in s.req && s.req[h].phase.Reported? :: s.req[h].phase.pos;
    forall k: nat | s.handled <= k < s.reported
      ensures var h := s.used[Ring(k)]; h in place && place[h] == k && h < NUM
    {
      assert UsedAt(s, k);
      assert ReqAt(s, s.used[Ring(k)]);
    }
    RingBound(s.used, s.handled, s.reported, place);
  }

  // Every step keeps the invariant ------------------------------------------------------

  // Only the phases of requests differ.
  ghost predicate SameChains(s: State, t: State)
  {
    && t.free == s.free && t.desc == s.desc && t.info == s.info && t.req.Keys == s.req.Keys
    && forall h :: h in s.req ==> t.req[h] == s.req[h].(phase := t.req[h].phase)
  }

  lemma ChainsKept(s: State, t: State)
    requires Inv(s) && Shape(t) && SameChains(s, t)
    ensures forall g, h :: g in t.req && h in t.req ==> Apart(t, g, h)
    ensures forall d: nat :: d < NUM ==> DescAt(t, d)
  {
    hide Ring, Idx;
    forall g, h | g in t.req && h in t.req ensures Apart(t, g, h) {
      assert Apart(s, g, h);
    }
    forall d: nat | d < NUM ensures DescAt(t, d) {
      assert DescAt(s, d);
      if !t.free[d] {
        var h :| h in s.req && Chain(s, h, d);
        assert Chain(t, h, d);
      }
    }
  }

  lemma PublishInv(s: State, t: State)
    requires Inv(s) && DoPublish(s, t)
    ensures Inv(t)
  {
    hide Ring, Idx;
    RingIdx(s.posted);
    ChainsKept(s, t);
    forall h | h in t.req ensures ReqAt(t, h) {
      assert ReqAt(s, h);
    }
    forall k: nat ensures AvailAt(t, k) && UsedAt(t, k) {
      assert AvailAt(s, k) && UsedAt(s, k);
    }
  }

  lemma FetchReq(s: State, t: State, g: nat)
    requires Inv(s) && DoFetch(s, t) && Shape(t) && g in s.req
    ensures ReqAt(t, g)
  {
    hide Ring, Idx;
    WrapHarmless(s);
    assert AvailAt(s, s.fetched);
    assert ReqAt(s, g);
  }

  lemma FetchRings(s: State, t: State, k: nat)
    requires Inv(s) && DoFetch(s, t) && Shape(t)
    ensures AvailAt(t, k) && UsedAt(t, k)
  {
    hide Ring, Idx;
    WrapHarmless(s);
    assert AvailAt(s, s.fetched);
    assert AvailAt(s, k) && UsedAt(s, k);
  }

  lemma FetchInv(s: State, t: State)
    requires Inv(s) && DoFetch(s, t)
    ensures Inv(t)
  {
    hide ReqAt, AvailAt, UsedAt, Apart, DescAt;
    WrapHarmless(s);
    RingIdx(s.fetched);
    ChainsKept(s, t);
    forall h | h in t.req ensures ReqAt(t, h) {
      FetchReq(s, t, h);
    }
    forall k: nat ensures AvailAt(t, k) && UsedAt(t, k) {
      FetchRings(s, t, k);
    }
  }

  /** The device finds requests in the order they were made, each once. */
  lemma FetchMeaning(s: State)
    requires Inv(s) && s.lastAvail != s.availIdx
    ensures var h := s.avail[Ring(s.lastAvail)]; h in s.req && s.req[h].phase == Posted(s.fetched) && h !in s.taken
  {
    WrapHarmless(s);
    assert AvailAt(s, s.fetched);
    assert ReqAt(s, s.avail[Ring(s.fetched)]);
  }

  /** The descriptors of a request in flight are as the driver filled them: the
      device reads the header, reads the data for a write and writes it for a
      read, and writes the status. */
  lemma DeviceReads(s: State, h: nat)
    requires Inv(s) && h in s.req
    ensures h < NUM && s.desc[h].addr == Header(h) && s.ops[h] == s.req[h].op && s.ops[h].sector in s.disk
    ensures !s.desc[h].dev && s.desc[h].more && s.desc[h].next < NUM
    ensures var d := s.desc[s.desc[h].next];
      && d.addr == Data(s.req[h].b) && s.req[h].b in s.data && d.dev == !s.req[h].op.write && d.more && d.next < NUM
      && s.desc[d.next].addr == Status(h) && s.desc[d.next].dev && !s.desc[d.next].more
  {
    assert ReqAt(s, h);
  }

  /** A completion moves data between the request's own buffer and its own
      sectors, in the request's direction, and touches no other; and one that fails
      touches nothing but where it was to write. */
  lemma CompleteMeaning(s: State, t: State, h: nat, st: nat, junk: Block)
    requires Inv(s) && DoComplete(s, t, h, st, junk)
    ensures var r := s.req[h];
      && r.b in s.data && r.op.sector in s.disk
      && t.disk == (if r.op.write then s.disk[r.op.sector := if st == 0 then s.data[r.b] else junk] else s.disk)
      && t.data == (if r.op.write then s.data else s.data[r.b := if st == 0 then s.disk[r.op.sector] else junk])
      && t.busy == s.busy && t.free == s.free && t.desc == s.desc && t.info == s.info
  {
    DeviceReads(s, h);
  }

  lemma CompleteRings(s: State, t: State, h: nat, st: nat, junk: Block, k: nat)
    requires Inv(s) && DoComplete(s, t, h, st, junk) && Shape(t)
    ensures AvailAt(t, k) && UsedAt(t, k)
  {
    hide Ring, Idx;
    WrapHarmless(s);
    assert ReqAt(s, h);
    UsedRoom(s, h);
    assert AvailAt(s, k) && UsedAt(s, k);
    if s.handled <= k < s.reported { RingApart(k, s.reported); }
  }

  lemma CompleteInv(s: State, t: State, h: nat, st: nat, junk: Block)
    requires Inv(s) && DoComplete(s, t, h, st, junk)
    ensures Inv(t)
  {
    hide ReqAt, AvailAt, UsedAt, Apart, DescAt;
    RingIdx(s.reported);
    ChainsKept(s, t);
    forall g | g in t.req ensures ReqAt(t, g) {
      CompleteReq(s, t, h, st, junk, g);
    }
    forall k: nat ensures AvailAt(t, k) && UsedAt(t, k) {
      CompleteRings(s, t, h, st, junk, k);
    }
  }

  lemma CompleteReq(s: State, t: State, h: nat, st: nat, junk: Block, g: nat)
    requires Inv(s) && DoComplete(s, t, h, st, junk) && g in s.req && Shape(t)
    ensures ReqAt(t, g)
  {
    hide Ring, Idx;
    RingIdx(s.reported);
    DeviceReads(s, h);
    assert ReqAt(s, h);
    UsedRoom(s, h);
    assert ReqAt(s, g);
    if g != h && s.req[g].phase.Reported? { RingApart(s.req[g].phase.pos, s.reported); }
  }

  /** The interrupt handler clears the flag of the buffer whose request the
      device reported, and of no other, and reads the status written for it. */
  lemma HandleMeaning(s: State)
    requires Inv(s) && s.seen != s.usedIdx
    ensures var id := s.used[Ring(s.seen)];
      && id in s.req && id < NUM && s.req[id].phase == Reported(s.handled, s.status[id])
      && s.info[id] == s.req[id].b && s.info[id] in s.busy && s.busy[s.info[id]]
  {
    WrapHarmless(s);
    assert UsedAt(s, s.handled);
    assert ReqAt(s, s.used[Ring(s.seen)]);
  }

  lemma HandleReq(s: State, t: State, g: nat)
    requires Inv(s) && DoHandle(s, t) && Shape(t) && g in s.req
    ensures ReqAt(t, g)
  {
    hide Ring, Idx;
    WrapHarmless(s);
    HandleMeaning(s);
    assert ReqAt(s, g) && Apart(s, g, s.used[Ring(s.seen)]);
  }

  lemma HandleRings(s: State, t: State, k: nat)
    requires Inv(s) && DoHandle(s, t) && Shape(t)
    ensures AvailAt(t, k) && UsedAt(t, k)
  {
    hide Ring, Idx;
    HandleMeaning(s);
    assert AvailAt(s, k) && UsedAt(s, k);
  }

  lemma HandleInv(s: State, t: State)
    requires Inv(s) && DoHandle(s, t)
    ensures Inv(t)
  {
    hide ReqAt, AvailAt, UsedAt, Apart, DescAt;
    WrapHarmless(s);
    RingIdx(s.handled);
    ChainsKept(s, t);
    forall g | g in t.req ensures ReqAt(t, g) {
      HandleReq(s, t, g);
    }
    forall k: nat ensures AvailAt(t, k) && UsedAt(t, k) {
      HandleRings(s, t, k);
    }
  }

  lemma FillReq(s: State, t: State, b: nat, blockno: nat, write: bool, i0: nat, i1: nat, i2: nat, g: nat)
    requires Inv(s) && DoFill(s, t, b, blockno, write, i0, i1, i2) && Shape(t) && g in t.req
    ensures ReqAt(t, g)
  {
    hide Ring, Idx;
    RingIdx(s.posted);
    AvailRoom(s, i0);
    if g in s.req {
      assert ReqAt(s, g);
      if s.req[g].phase.Posted? { RingApart(s.req[g].phase.pos, s.posted); }
    }
    assert i0 in s.taken ==> ReqAt(s, i0);
  }

  lemma FillRings(s: State, t: State, b: nat, blockno: nat, write: bool, i0: nat, i1: nat, i2: nat, k: nat)
    requires Inv(s) && DoFill(s, t, b, blockno, write, i0, i1, i2) && Shape(t)
    ensures AvailAt(t, k) && UsedAt(t, k)
  {
    hide Ring, Idx;
    RingIdx(s.posted);
    AvailRoom(s, i0);
    assert i0 in s.req ==> ReqAt(s, i0);
    assert AvailAt(s, k) && UsedAt(s, k);
    if s.fetched <= k < s.posted { RingApart(k, s.posted); }
  }

  lemma FillChains(s: State, t: State, b: nat, blockno: nat, write: bool, i0: nat, i1: nat, i2: nat)
    requires Inv(s) && DoFill(s, t, b, blockno, write, i0, i1, i2) && Shape(t)
    ensures forall g, h :: g in t.req && h in t.req ==> Apart(t, g, h)
    ensures forall d: nat :: d < NUM ==> DescAt(t, d)
  {
    hide Ring, Idx;
    forall g, h | g in t.req && h in t.req ensures Apart(t, g, h) {
      if g in s.req { assert ReqAt(s, g); }
      if h in s.req { assert ReqAt(s, h); }
      if g in s.req && h in s.req { assert Apart(s, g, h); }
    }
    forall d: nat | d < NUM ensures DescAt(t, d) {
      assert DescAt(s, d);
      if !s.free[d] {
        var h :| h in s.req && Chain(s, h, d);
        assert ReqAt(s, h);
        assert Chain(t, h, d);
      } else if !t.free[d] {
        assert Chain(t, i0, d);
      }
    }
  }

  lemma FillInv(s: State, t: State, b: nat, blockno: nat, write: bool, i0: nat, i1: nat, i2: nat)
    requires Inv(s) && DoFill(s, t, b, blockno, write, i0, i1, i2)
    ensures Inv(t)
  {
    hide ReqAt, AvailAt, UsedAt, Apart, DescAt;
    FillChains(s, t, b, blockno, write, i0, i1, i2);
    forall g | g in t.req ensures ReqAt(t, g) {
      FillReq(s, t, b, blockno, write, i0, i1, i2, g);
    }
    forall k: nat ensures AvailAt(t, k) && UsedAt(t, k) {
      FillRings(s, t, b, blockno, write, i0, i1, i2, k);
    }
  }

  lemma FinishReq(s: State, t: State, h: nat, g: nat)
    requires Inv(s) && DoFinish(s, t, h) && Shape(t) && g in t.req
    ensures ReqAt(t, g)
  {
    hide Ring, Idx;
    assert ReqAt(s, g) && ReqAt(s, h) && Apart(s, g, h) && Apart(s, h, g);
  }

  lemma FinishRings(s: State, t: State, h: nat, k: nat)
    requires Inv(s) && DoFinish(s, t, h) && Shape(t)
    ensures AvailAt(t, k) && UsedAt(t, k) && h !in s.taken
  {
    hide Ring, Idx;
    assert ReqAt(s, h);
    assert AvailAt(s, k) && UsedAt(s, k);
  }

  lemma FinishChains(s: State, t: State, h: nat)
    requires Inv(s) && DoFinish(s, t, h) && Shape(t)
    ensures forall f, g :: f in t.req && g in t.req ==> Apart(t, f, g)
    ensures forall d: nat :: d < NUM ==> DescAt(t, d)
  {
    hide Ring, Idx;
    forall f, g | f in t.req && g in t.req ensures Apart(t, f, g) {
      assert Apart(s, f, g);
    }
    forall d: nat | d < NUM ensures DescAt(t, d) {
      assert DescAt(s, d);
      if !t.free[d] {
        var g :| g in s.req && Chain(s, g, d);
        assert Chain(t, g, d);
      }
    }
  }

  lemma FinishInv(s: State, t: State, h: nat)
    requires Inv(s) && DoFinish(s, t, h)
    ensures Inv(t)
  {
    hide ReqAt, AvailAt, UsedAt, Apart, DescAt;
    FinishChains(s, t, h);
    FinishRings(s, t, h, 0);
    forall g | g in t.req ensures ReqAt(t, g) {
      FinishReq(s, t, h, g);
    }
    forall k: nat ensures AvailAt(t, k) && UsedAt(t, k) {
      FinishRings(s, t, h, k);
    }
  }

  lemma TouchInv(s: State, t: State, b: nat, v: Block)
    requires Inv(s) && DoTouch(s, t, b, v)
    ensures Inv(t)
  {
    hide Ring, Idx;
    ChainsKept(s, t);
    forall h | h in t.req ensures ReqAt(t, h) {
      assert ReqAt(s, h);
    }
    forall k: nat ensures AvailAt(t, k) && UsedAt(t, k) {
      assert AvailAt(s, k) && UsedAt(s, k);
    }
  }

  lemma NextInv(s: State, t: State, step: Step)
    requires Inv(s) && NextStep(s, t, step)
    ensures Inv(t)
  {
    match step
    case Fill(b, blockno, write, i0, i1, i2) => FillInv(s, t, b, blockno, write, i0, i1, i2);
    case Publish => PublishInv(s, t);
    case Fetch => FetchInv(s, t);
    case Complete(h, st, junk) => CompleteInv(s, t, h, st, junk);
    case Handle => HandleInv(s, t);
    case Finish(h) => FinishInv(s, t, h);
    case Touch(b, v) => TouchInv(s, t, b, v);
  }

  // Whole runs ------------------------------------------------------------------------

  predicate Init(s: State)
  {
    && Shape(s) && s.req == map[] && s.taken == {} && !s.filling
    && s.posted == s.fetched && s.reported == s.handled
    && forall d: nat :: d < NUM ==> s.free[d] && s.desc[d] == EMPTY && s.info[d] == 0
  }

  lemma InitInv(s: State)
    requires Init(s)
    ensures Inv(s)
  {
  }

  ghost predicate Run(run: seq<State>, steps: seq<Step>)
  {
    && |run| == |steps| + 1 && Init(run[0])
    && forall n: nat :: n < |steps| ==> Shape(run[n]) && NextStep(run[n], run[n + 1], steps[n])
  }

  lemma {:induction false} RunInv(run: seq<State>, steps: seq<Step>, n: nat)
    requires Run(run, steps) && n <= |steps|
    ensures Inv(run[n])
  {
    if n == 0 {
      InitInv(run[0]);
    } else {
      RunInv(run, steps, n - 1);
      NextInv(run[n - 1], run[n], steps[n - 1]);
    }
  }

  /** In every reachable state each descriptor is free, or part of exactly one chain. */
  lemma Partition(s: State, d: nat)
    requires Inv(s) && d < NUM
    ensures !s.free[d] <==> exists h :: h in s.req && Chain(s, h, d)
    ensures forall g, h :: g in s.req && h in s.req && Chain(s, g, d) && Chain(s, h, d) ==> g == h
  {
    assert DescAt(s, d);
    forall h | h in s.req && Chain(s, h, d) ensures !s.free[d] {
      assert ReqAt(s, h);
    }
    forall g, h | g in s.req && h in s.req && Chain(s, g, d) && Chain(s, h, d) ensures g == h {
      assert Apart(s, g, h);
    }
  }

  // The device has performed the request.
  predicate Performed(r: Request) { r.phase.Reported? || r.phase.Done? }

  // The status the device gave it.
  function Reply(r: Request): nat { if r.phase.Reported? then r.phase.st else 0 }

  predicate Completes(step: Step, h: nat) { step.Complete? && step.h == h }

  // One step does to a request in flight: its own completion performs it, any
  // other step leaves its progress and its buffer alone.
  predicate Moves(s: State, t: State, step: Step, h: nat)
  {
    && h in s.req && h in t.req && t.req[h].b == s.req[h].b && t.req[h].op == s.req[h].op
    && var b, x := s.req[h].b, s.req[h].op.sector;
    && b in s.data && b in t.data && x in s.disk && x in t.disk
    && if Completes(step, h) then
         && !Performed(s.req[h]) && t.req[h].phase.Reported? && t.req[h].phase.st == step.st
         && (step.st == 0 ==> if s.req[h].op.write then t.disk[x] == s.data[b] else t.data[b] == s.disk[x])
       else
         && Performed(t.req[h]) == Performed(s.req[h]) && t.data[b] == s.data[b]
         && (Performed(s.req[h]) ==> Reply(t.req[h]) == Reply(s.req[h]))
  }

  lemma CompleteMoves(s: State, t: State, g: nat, st: nat, junk: Block, h: nat)
    requires Inv(s) && DoComplete(s, t, g, st, junk) && h in s.req
    ensures Moves(s, t, Complete(g, st, junk), h)
  {
    hide Ring, Idx;
    CompleteMeaning(s, t, g, st, junk);
    assert ReqAt(s, h) && ReqAt(s, g) && Apart(s, g, h);
  }

  lemma FetchMoves(s: State, t: State, h: nat)
    requires Inv(s) && DoFetch(s, t) && h in s.req
    ensures Moves(s, t, Fetch, h)
  {
    hide Ring, Idx;
    WrapHarmless(s);
    assert ReqAt(s, h) && AvailAt(s, s.fetched);
  }

  lemma HandleMoves(s: State, t: State, h: nat)
    requires Inv(s) && DoHandle(s, t) && h in s.req
    ensures Moves(s, t, Handle, h)
  {
    hide Ring, Idx;
    HandleMeaning(s);
    assert ReqAt(s, h);
  }

  lemma FillMoves(s: State, t: State, b: nat, blockno: nat, write: bool, i0: nat, i1: nat, i2: nat, h: nat)
    requires Inv(s) && DoFill(s, t, b, blockno, write, i0, i1, i2) && h in s.req
    ensures Moves(s, t, Fill(b, blockno, write, i0, i1, i2), h)
  {
    hide Ring, Idx;
    assert ReqAt(s, h);
  }

  lemma RequestMoves(s: State, t: State, step: Step, h: nat)
    requires Inv(s) && NextStep(s, t, step) && h in s.req && step != Finish(h)
    ensures Moves(s, t, step, h)
  {
    hide DoFill, DoFetch, DoComplete, DoHandle;
    assert ReqAt(s, h);
    match step
    case Fill(b, blockno, write, i0, i1, i2) => FillMoves(s, t, b, blockno, write, i0, i1, i2, h);
    case Fetch => FetchMoves(s, t, h);
    case Complete(g, st, junk) => CompleteMoves(s, t, g, st, junk, h);
    case Handle => HandleMoves(s, t, h);
    case _ =>
  }

  // How often the device performed the chain at h in steps i to k.
  function Times(steps: seq<Step>, h: nat, i: nat, k: nat): nat
    requires i <= k <= |steps|
  {
    if i == k then 0 else Times(steps, h, i, k - 1) + if Completes(steps[k - 1], h) then 1 else 0
  }

  // The request filled at step i is at step k still the one that was made; the
  // device has performed it once if it has been reported and not at all
  // otherwise.  If it has, then at step m, with the status given there; and if that
  // is 0, the buffer holds what the disk held, or the disk got what the buffer held.
  predicate Served(run: seq<State>, steps: seq<Step>, i: nat, k: nat, m: nat)
    requires |run| == |steps| + 1 && i < k <= |steps| && steps[i].Fill?
  {
    var h, b, x := steps[i].i0, steps[i].b, Sector(steps[i].blockno);
    && h in run[k].req && run[k].req[h].b == b && run[k].req[h].op == Op(steps[i].write, x)
    && b in run[k].data && b in run[i].data
    && if Performed(run[k].req[h]) then
         && Times(steps, h, i, k) == 1 && i < m < k && Completes(steps[m], h) && Reply(run[k].req[h]) == steps[m].st
         && x in run[m].disk && x in run[m + 1].disk
         && (steps[m].st == 0 ==>
               if steps[i].write then run[m + 1].disk[x] == run[i].data[b] else run[k].data[b] == run[m].disk[x])
       else Times(steps, h, i, k) == 0 && run[k].data[b] == run[i].data[b]
  }

  lemma ServedStart(run: seq<State>, steps: seq<Step>, i: nat)
    requires |run| == |steps| + 1 && i < |steps| && steps[i].Fill? && Shape(run[i])
    requires NextStep(run[i], run[i + 1], steps[i])
    ensures Served(run, steps, i, i + 1, i)
  {
    assert Times(steps, steps[i].i0, i, i) == 0;
  }

  lemma ServedStep(run: seq<State>, steps: seq<Step>, i: nat, k: nat, m: nat) returns (m': nat)
    requires |run| == |steps| + 1 && i < k < |steps| && steps[i].Fill? && Served(run, steps, i, k, m)
    requires Moves(run[k], run[k + 1], steps[k], steps[i].i0)
    ensures Served(run, steps, i, k + 1, m')
  {
    hide Sector;
    m' := if Completes(steps[k], steps[i].i0) then k else m;
  }

  /** From the step that fills the avail ring on, for as long as the requester
      has not freed the chain, the request is served at most once and as made. */
  lemma {:induction false} OneTransfer(run: seq<State>, steps: seq<Step>, i: nat, k: nat) returns (m: nat)
    requires Run(run, steps) && i < k <= |steps| && steps[i].Fill?
    requires forall n: nat :: i < n < k ==> steps[n] != Finish(steps[i].i0)
    ensures Served(run, steps, i, k, m)
  {
    hide NextStep, Inv, Shape, Moves;
    if k == i + 1 {
      ServedStart(run, steps, i);
      m := i;
    } else {
      m := OneTransfer(run, steps, i, k - 1);
      RunInv(run, steps, k - 1);
      RequestMoves(run[k - 1], run[k], steps[k - 1], steps[i].i0);
      m := ServedStep(run, steps, i, k - 1, m);
    }
  }

  /** The handler panics over a request exactly when the device failed it. */
  lemma HandlerPanics(run: seq<State>, steps: seq<Step>, i: nat, k: nat) returns (m: nat)
    requires Run(run, steps) && i < k <= |steps| && steps[i].Fill?
    requires forall n: nat :: i < n < k ==> steps[n] != Finish(steps[i].i0)
    requires Shape(run[k]) && run[k].seen != run[k].usedIdx && run[k].used[Ring(run[k].seen)] == steps[i].i0
    ensures i < m < k && Completes(steps[m], steps[i].i0) && Times(steps, steps[i].i0, i, k) == 1
    ensures steps[i].i0 < NUM && (run[k].status[steps[i].i0] != 0 <==> steps[m].st != 0)
  {
    m := OneTransfer(run, steps, i, k);
    RunInv(run, steps, k);
    HandleMeaning(run[k]);
  }

  /** When a request returns, its transfer has been done exactly once. */
  lemma ReturnsServed(run: seq<State>, steps: seq<Step>, i: nat, k: nat) returns (m: nat)
    requires Run(run, steps) && i < k < |steps| && steps[i].Fill? && steps[k] == Finish(steps[i].i0)
    requires forall n: nat :: i < n < k ==> steps[n] != Finish(steps[i].i0)
    ensures i < m < k && Completes(steps[m], steps[i].i0) && steps[m].st == 0 && Times(steps, steps[i].i0, i, k) == 1
    ensures var b, x := steps[i].b, Sector(steps[i].blockno);
      && b in run[i].data && b in run[k + 1].data && x in run[m].disk && x in run[m + 1].disk
      && (if steps[i].write then run[m + 1].disk[x] == run[i].data[b] else run[k + 1].data[b] == run[m].disk[x])
  {
    m := OneTransfer(run, steps, i, k);
    RunInv(run, steps, k);
    assert NextStep(run[k], run[k + 1], steps[k]);
    assert ReqAt(run[k], steps[i].i0);
  }
}

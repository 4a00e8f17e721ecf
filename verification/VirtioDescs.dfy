/**
 * The descriptor allocator of virtio_disk.c: the free[] flags and the
 * descriptor table, changed in place.
 */
module VirtioDescs {
  import opened Virtio

  // The descriptors linked from chain[0] are those of `chain`, none of them free.
  ghost predicate Linked(free: seq<bool>, desc: seq<Desc>, chain: seq<nat>)
    requires |free| == |desc| == NUM
  {
    && 0 < |chain| && (forall k :: 0 <= k < |chain| ==> chain[k] < NUM && !free[chain[k]])
    && (forall j, k :: 0 <= j < k < |chain| ==> chain[j] != chain[k])
    && (forall k :: 0 <= k < |chain| ==> desc[chain[k]].more == (k + 1 < |chain|))
    && (forall k :: 0 <= k < |chain| - 1 ==> desc[chain[k]].next == chain[k + 1])
  }

  /** The requester may call free_chain: in every reachable state the three
      descriptors of a request are linked, so that exactly they are freed. */
  lemma ChainLinked(s: State, h: nat)
    requires Inv(s) && h in s.req
    ensures Linked(s.free, s.desc, [h, s.req[h].d1, s.req[h].d2])
  {
    assert ReqAt(s, h);
  }

  class Descriptors {
    const free: array<bool>
    const desc: array<Desc>

    ghost predicate Valid()
      reads this
    {
      free.Length == NUM && desc.Length == NUM
    }

    constructor ()
      ensures Valid() && fresh(free) && fresh(desc)
      ensures forall i :: 0 <= i < NUM ==> free[i] && desc[i] == EMPTY
    {
      free := new bool[NUM](_ => true);
      desc := new Desc[NUM](_ => EMPTY);
    }

    // Claim the lowest free descriptor; -1 when there is none.
    method AllocDesc() returns (i: int)
      requires Valid()
      modifies free
      ensures -1 <= i < NUM
      ensures forall j :: 0 <= j < (if i == -1 then NUM else i) ==> !old(free[j])
      ensures i == -1 ==> free[..] == old(free[..])
      ensures i != -1 ==> old(free[i]) && free[..] == old(free[..])[i := false]
    {
      i := 0;
      while i < NUM && !free[i]
        invariant 0 <= i <= NUM && free[..] == old(free[..])
        invariant forall j :: 0 <= j < i ==> !old(free[j])
      {
        i := i + 1;
      }
      if i == NUM {
        i := -1;
      } else {
        free[i] := false;
      }
    }

    method FreeDesc(i: nat)
      requires Valid() && i < NUM && !free[i]
      modifies free, desc
      ensures free[..] == old(free[..])[i := true] && desc[..] == old(desc[..])[i := EMPTY]
    {
      desc[i] := EMPTY;
      free[i] := true;
    }

    /** free_chain ends, having freed exactly the descriptors of its chain. */
    method FreeChain(first: nat, ghost chain: seq<nat>)
      requires Valid() && Linked(free[..], desc[..], chain) && first == chain[0]
      modifies free, desc
      ensures forall d :: 0 <= d < NUM ==> free[d] == (old(free[d]) || d in chain)
      ensures forall d :: 0 <= d < NUM ==> desc[d] == if d in chain then EMPTY else old(desc[d])
    {
      var i := first;
      ghost var k := 0;
      var more := true;
      while more
        invariant 0 <= k <= |chain| && (more <==> k < |chain|) && (more ==> i == chain[k])
        invariant forall d :: 0 <= d < NUM ==> free[d] == (old(free[d]) || d in chain[..k])
        invariant forall d :: 0 <= d < NUM ==> desc[d] == if d in chain[..k] then EMPTY else old(desc[d])
        decreases |chain| - k
      {
        assert chain[k] !in chain[..k];
        var flag, nxt := desc[i].more, desc[i].next;
        FreeDesc(i);
        assert chain[..k + 1] == chain[..k] + [chain[k]];
        if flag {
          i := nxt;
        } else {
          more := false;
        }
        k := k + 1;
      }
      assert chain[..k] == chain;
    }

    // Give back the descriptors of idx.
    method Rollback(idx: seq<nat>, ghost was: seq<bool>)
      requires Valid() && |was| == NUM && Lowest(was, idx) && Claimed(was, free[..], idx)
      modifies free, desc
      ensures free[..] == was
      ensures forall d :: 0 <= d < NUM ==> desc[d] == if d in idx then EMPTY else old(desc[d])
    {
      var j := 0;
      while j < |idx|
        invariant 0 <= j <= |idx| && Claimed(was, free[..], idx[j..])
        invariant forall d :: 0 <= d < NUM ==> desc[d] == if d in idx[..j] then EMPTY else old(desc[d])
      {
        assert idx[j..] == [idx[j]] + idx[j + 1..] && idx[..j + 1] == idx[..j] + [idx[j]];
        FreeDesc(idx[j]);
        j := j + 1;
      }
      assert idx[..j] == idx;
    }

    // Claim the three lowest free descriptors, or none; then those that are free were
    // claimed and given back.
    method Alloc3Desc() returns (ok: bool, idx: seq<nat>)
      requires Valid()
      modifies free, desc
      ensures ok ==>
        && |idx| == 3 && idx[0] < idx[1] < idx[2] < NUM && old(free[idx[0]] && free[idx[1]] && free[idx[2]])
        && free[..] == old(free[..])[idx[0] := false][idx[1] := false][idx[2] := false] && desc[..] == old(desc[..])
        && Lowest(old(free[..]), idx)
      ensures !ok ==> free[..] == old(free[..])
      ensures !ok ==> forall d :: 0 <= d < NUM ==> desc[d] == if free[d] then EMPTY else old(desc[d])
      ensures !ok ==> forall a, b, c :: 0 <= a < b < c < NUM ==> !(old(free[a]) && old(free[b]) && old(free[c]))
    {
      hide Lowest, Claimed;
      ghost var was := free[..];
      idx := [];
      ok := true;
      NoneYet(was);
      while |idx| < 3 && ok
        invariant |idx| <= 3 && Lowest(was, idx)
        invariant ok ==> desc[..] == old(desc[..]) && Claimed(was, free[..], idx)
        invariant !ok ==> free[..] == was && |idx| < 3 && AllIn(was, idx)
        invariant !ok ==> forall d :: 0 <= d < NUM ==> desc[d] == if was[d] then EMPTY else old(desc[d])
        decreases ok, 3 - |idx|
      {
        ghost var now := free[..];
        var i := AllocDesc();
        if i >= 0 {
          OneMore(was, now, idx, i);
          idx := idx + [i];
        } else {
          NoMore(was, now, idx);
          ok := false;
          Rollback(idx, was);
          assert forall d :: 0 <= d < NUM ==> (d in idx <==> was[d]) by { InExactly(was, idx); }
        }
      }
      if ok { Three(was, free[..], idx); } else { Fewer(was, idx); }
    }
  }

  // idx lists, in order, the lowest of the descriptors free in `was`.
  ghost predicate Lowest(was: seq<bool>, idx: seq<nat>)
    requires |was| == NUM
  {
    && (forall k :: 0 <= k < |idx| ==> idx[k] < NUM && was[idx[k]])
    && (forall j, k :: 0 <= j < k < |idx| ==> idx[j] < idx[k])
    && (forall d :: 0 <= d < NUM && was[d] && d !in idx ==> |idx| == 0 || idx[|idx| - 1] < d)
  }

  // `now` is `was` with the descriptors of idx claimed.
  ghost predicate Claimed(was: seq<bool>, now: seq<bool>, idx: seq<nat>)
    requires |was| == NUM
  {
    |now| == NUM && forall d :: 0 <= d < NUM ==> now[d] == (was[d] && d !in idx)
  }

  ghost predicate AllIn(was: seq<bool>, idx: seq<nat>)
    requires |was| == NUM
  {
    forall d :: 0 <= d < NUM && was[d] ==> d in idx
  }

  lemma InExactly(was: seq<bool>, idx: seq<nat>)
    requires |was| == NUM && Lowest(was, idx) && AllIn(was, idx)
    ensures forall d :: 0 <= d < NUM ==> (d in idx <==> was[d])
  {
  }

  lemma NoneYet(was: seq<bool>)
    requires |was| == NUM
    ensures Lowest(was, []) && Claimed(was, was, [])
  {
  }

  lemma OneMore(was: seq<bool>, now: seq<bool>, idx: seq<nat>, i: nat)
    requires |was| == NUM && Lowest(was, idx) && Claimed(was, now, idx) && i < NUM && now[i]
    requires forall j :: 0 <= j < i ==> !now[j]
    ensures Lowest(was, idx + [i]) && Claimed(was, now[i := false], idx + [i])
  {
  }

  lemma NoMore(was: seq<bool>, now: seq<bool>, idx: seq<nat>)
    requires |was| == NUM && Claimed(was, now, idx) && forall j :: 0 <= j < NUM ==> !now[j]
    ensures AllIn(was, idx)
  {
  }

  lemma Three(was: seq<bool>, now: seq<bool>, idx: seq<nat>)
    requires |was| == NUM && Lowest(was, idx) && Claimed(was, now, idx) && |idx| == 3
    ensures idx[0] < idx[1] < idx[2] < NUM && was[idx[0]] && was[idx[1]] && was[idx[2]]
    ensures now == was[idx[0] := false][idx[1] := false][idx[2] := false]
  {
  }

  lemma Fewer(was: seq<bool>, idx: seq<nat>)
    requires |was| == NUM && |idx| < 3 && AllIn(was, idx)
    ensures forall a, b, c :: 0 <= a < b < c < NUM ==> !(was[a] && was[b] && was[c])
  {
  }
}

/** How many free blocks a write takes: one for each block of its range that the
    file does not have yet, and one for the indirect block if it needs that too. */
module BlockBudget {
  import opened Common
  import opened DiskBlock
  import opened FsLayout

  /** Slot k of a file is needed for its bytes from lo to hi. */
  predicate Wants(k: nat, lo: nat, hi: nat) {
    && lo < hi
    && if k == NDIRECT then NDIRECT * BSIZE < hi
       else var bn := if k < NDIRECT then k else k - 1; lo / BSIZE <= bn && bn * BSIZE < hi
  }

  lemma WantsBlock(bn: nat, lo: nat, hi: nat)
    requires lo < hi && lo / BSIZE <= bn && bn * BSIZE < hi
    ensures Wants(DataSlot(bn), lo, hi) && (bn >= NDIRECT ==> Wants(NDIRECT, lo, hi))
  {}

  /** The slots that are needed and empty. */
  ghost function Lack(s: Fs, i: nat, lo: nat, hi: nat): set<nat>
    requires Shape(s) && i < |s.inodes|
  {
    set k: nat | k < SLOTS && Wants(k, lo, hi) && SlotAddr(s, i, k) == 0
  }

  /** The blocks that balloc can hand out. */
  ghost function FreeBlocks(s: Fs): set<int>
    requires Shape(s)
  {
    set b | 0 <= b < s.sb.size && !BitAt(s, b)
  }

  /** Only slots of file i that its bytes from lo to hi need have changed. */
  ghost predicate Within(s: Fs, t: Fs, i: nat, lo: nat, hi: nat) {
    && Shape(s) && Shape(t) && |t.inodes| == |s.inodes| && t.sb == s.sb
    && forall j: nat, k: nat :: j < |s.inodes| && k < SLOTS && SlotAddr(t, j, k) != SlotAddr(s, j, k) ==>
         j == i && Wants(k, lo, hi)
  }

  lemma WithinNone(s: Fs, i: nat, lo: nat, hi: nat)
    requires Shape(s)
    ensures Within(s, s, i, lo, hi)
  {}

  lemma WithinMore(s: Fs, t: Fs, u: Fs, i: nat, lo: nat, hi: nat, lo': nat, hi': nat)
    requires Within(s, t, i, lo, hi) && Within(t, u, i, lo', hi') && lo <= lo' && hi' <= hi
    ensures Within(s, u, i, lo, hi)
  {
    hide SlotAddr;
    forall j: nat, k: nat | j < |s.inodes| && k < SLOTS && SlotAddr(u, j, k) != SlotAddr(s, j, k)
      ensures j == i && Wants(k, lo, hi)
    {
      if SlotAddr(u, j, k) == SlotAddr(t, j, k) {
        assert SlotAddr(t, j, k) != SlotAddr(s, j, k);
      } else {
        assert Wants(k, lo', hi');
      }
    }
  }

  // ------------------------------------------------------------------ counting

  /** The slots of file i that were filled between s and t. */
  ghost function Got(s: Fs, t: Fs, i: nat): set<nat>
    requires Shape(s) && Shape(t) && i < |s.inodes| == |t.inodes|
  {
    set k: nat | k < SLOTS && SlotAddr(s, i, k) == 0 && SlotAddr(t, i, k) != 0
  }

  /** The blocks that the slots in ks hold. */
  ghost function Held(t: Fs, i: nat, ks: set<nat>): set<int>
    requires Shape(t) && i < |t.inodes| && forall k :: k in ks ==> k < SLOTS
  {
    set k | k in ks :: SlotAddr(t, i, k)
  }

  lemma {:induction false} HeldCount(t: Fs, owner: Owner, i: nat, ks: set<nat>)
    requires Own(t, owner) && i < |t.inodes| && forall k :: k in ks ==> k < SLOTS && SlotAddr(t, i, k) != 0
    ensures |Held(t, i, ks)| == |ks|
    decreases |ks|
  {
    if ks != {} {
      var k :| k in ks;
      HeldCount(t, owner, i, ks - {k});
      forall l | l in ks - {k} ensures SlotAddr(t, i, l) != SlotAddr(t, i, k) {
        assert owner[SlotAddr(t, i, l)] == Slot(i, l) && owner[SlotAddr(t, i, k)] == Slot(i, k);
      }
      assert Held(t, i, ks) == Held(t, i, ks - {k}) + {SlotAddr(t, i, k)};
    }
  }

  /** Block b is free exactly when no slot holds it. */
  lemma FreeIs(s: Fs, owner: Owner, b: int)
    requires Consistent(s, owner)
    ensures b in FreeBlocks(s) <==> s.sb.datastart <= b < s.sb.size && b !in owner
  {
    if 0 <= b < s.sb.size { assert BitAt(s, b) <==> b in InUse(s, owner); }
  }

  /** A block left the free ones exactly when a slot of file i got it. */
  lemma TakenIs(s: Fs, t: Fs, o: Owner, o': Owner, i: nat, lo: nat, hi: nat, b: int)
    requires Consistent(s, o) && Consistent(t, o') && KeepsSlots(s, t) && Within(s, t, i, lo, hi) && i < |s.inodes|
    ensures b in FreeBlocks(t) ==> b in FreeBlocks(s)
    ensures b in FreeBlocks(s) && b !in FreeBlocks(t) <==> b in Held(t, i, Got(s, t, i))
  {
    FreeIs(s, o, b);
    FreeIs(t, o', b);
    hide BitsAre, SlotAddr;
    if b in o {
      assert SlotAddr(t, o[b].i, o[b].k) == b;
    }
    if b in o' && b !in o {
      var j, k := o'[b].i, o'[b].k;
      assert SlotAddr(t, j, k) == b;
      assert SlotAddr(s, j, k) != b;
    }
    if b in Held(t, i, Got(s, t, i)) {
      var k :| k in Got(s, t, i) && SlotAddr(t, i, k) == b;
      assert o'[b] == Slot(i, k);
    }
  }

  lemma SplitCount<T>(f: set<T>, g: set<T>, h: set<T>)
    requires g <= f && f - g == h
    ensures |f| == |g| + |h|
  {
    assert f == g + h;
  }

  lemma GotLacked(s: Fs, t: Fs, i: nat, lo: nat, hi: nat)
    requires Within(s, t, i, lo, hi) && i < |s.inodes|
    ensures Got(s, t, i) <= Lack(s, i, lo, hi)
  {
    hide SlotAddr, Wants;
  }

  /** Every block that left the free ones went into one slot. */
  lemma BlocksTaken(s: Fs, t: Fs, o: Owner, o': Owner, i: nat, lo: nat, hi: nat)
    requires Consistent(s, o) && Consistent(t, o') && KeepsSlots(s, t) && Within(s, t, i, lo, hi) && i < |s.inodes|
    ensures |FreeBlocks(s)| == |FreeBlocks(t)| + |Got(s, t, i)|
  {
    hide BitsAre, KeepsSlots, FreeBlocks, SlotAddr, Wants;
    var ks := Got(s, t, i);
    var f, g, h := FreeBlocks(s), FreeBlocks(t), Held(t, i, ks);
    forall b ensures (b in g ==> b in f) && (b in f && b !in g <==> b in h) {
      TakenIs(s, t, o, o', i, lo, hi, b);
    }
    HeldCount(t, o', i, ks);
    hide Own;
    SplitCount(f, g, h);
  }

  /** Nothing is lacking any more: there were blocks enough. */
  lemma Enough(s: Fs, t: Fs, o: Owner, o': Owner, i: nat, lo: nat, hi: nat)
    requires Consistent(s, o) && Consistent(t, o') && KeepsSlots(s, t) && Within(s, t, i, lo, hi) && i < |s.inodes|
    requires Lack(t, i, lo, hi) == {}
    ensures |FreeBlocks(s)| >= |Lack(s, i, lo, hi)|
  {
    hide BitsAre, FreeBlocks, SlotAddr, Wants;
    BlocksTaken(s, t, o, o', i, lo, hi);
    forall k | k in Lack(s, i, lo, hi) ensures k in Got(s, t, i) {
      assert k !in Lack(t, i, lo, hi);
    }
    Larger(Lack(s, i, lo, hi), Got(s, t, i));
  }

  /** Something is lacking and no block is free: there were not. */
  lemma TooFew(s: Fs, t: Fs, o: Owner, o': Owner, i: nat, lo: nat, hi: nat, k: nat)
    requires Consistent(s, o) && Consistent(t, o') && KeepsSlots(s, t) && Within(s, t, i, lo, hi) && i < |s.inodes|
    requires FreeBlocks(t) == {} && k in Lack(t, i, lo, hi)
    ensures |FreeBlocks(s)| < |Lack(s, i, lo, hi)|
  {
    hide BitsAre, FreeBlocks, SlotAddr, Wants;
    BlocksTaken(s, t, o, o', i, lo, hi);
    GotLacked(s, t, i, lo, hi);
    Larger(Got(s, t, i) + {k}, Lack(s, i, lo, hi));
  }
}

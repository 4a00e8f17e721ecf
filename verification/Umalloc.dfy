/**
 * malloc, free and morecore of user/umalloc.c.  The address that sbrk returns
 * is a parameter; -1 stands for its failure.
 */
module Umalloc {
  import opened HeapList

  const MIN_CORE := 4096   // least number of units asked from sbrk

  function Nunits(nbytes: nat): nat { (nbytes + UNIT - 1) / UNIT + 1 }

  function CoreUnits(nunits: nat): nat { if nunits < MIN_CORE then MIN_CORE else nunits }

  // nu * sizeof(Header) as the int that sbrk takes.
  function SbrkArg(nu: nat): int
  {
    var low := nu * UNIT % 0x1_0000_0000;
    if low < 0x8000_0000 then low else low - 0x1_0000_0000
  }

  /** sbrk is asked for the bytes of nu units exactly when nu is below 2^27. */
  lemma SbrkExact(nu: nat)
    ensures SbrkArg(nu) == nu * UNIT <==> nu < 0x800_0000
    ensures SbrkArg(nu) <= nu * UNIT
  {
  }

  lemma NunitsFits(nbytes: nat)
    ensures 0 < Nunits(nbytes) && nbytes <= UNIT * (Nunits(nbytes) - 1)
    ensures CoreUnits(Nunits(nbytes)) < 0x800_0000 <==> nbytes <= 0x7FFF_FFE0
  {
  }

  class Allocator {
    const base: nat
    var freep: nat
    var ptr: map<nat, nat>
    var size: map<nat, nat>
    ghost var free: seq<nat>
    ghost var blocks: map<nat, nat>
    ghost var limit: nat     // end of the memory obtained from sbrk
    ghost var got: int       // bytes obtained from sbrk, less those given back

    ghost function H(): Heap
      reads this
    {
      Heap(base, ptr, size, free, blocks)
    }

    ghost predicate Ready()
      reads this
    {
      0 < base && Inv(H()) && freep in free
    }

    // Before the first malloc.
    ghost predicate Unborn()
      reads this
    {
      0 < base && freep == 0 && blocks == map[] && free == []
    }

    // Every block lies in memory obtained from sbrk, and no unit of it is lost.
    ghost predicate Backed()
      reads this
    {
      Under(H(), limit) && got == UNIT * Units(blocks)
    }

    constructor (base: nat, limit: nat)
      requires 0 < base && base + UNIT <= limit
      ensures Unborn() && Backed() && this.base == base && this.limit == limit
    {
      this.base, this.limit := base, limit;
      freep, ptr, size, free, blocks, got := 0, map[], map[], [], map[], 0;
    }

    // Return a block to the list; t is the place it is put at.
    method Free(ap: nat) returns (ghost t: nat)
      requires Ready() && UNIT <= ap && Used(H(), ap - UNIT)
      modifies `freep, `ptr, `size, `free, `blocks
      ensures Ready() && Units(blocks) == old(Units(blocks))
      ensures SameBut(old(H()), H(), ap - UNIT)
      ensures forall top: nat :: old(Under(H(), top)) ==> Under(H(), top)
      ensures old(Spot(H(), t, ap - UNIT)) && H() == Freed(old(H()), t, ap - UNIT)
      ensures t < |free| && freep == free[t]
    {
      hide Inv, Used, Under, Units, Freed, Spot;
      ghost var h := H();
      var bp: nat := ap - UNIT;
      var p: nat := freep;
      ghost var i;
      t, i := FreeStart(h, bp, p);
      ghost var n := |free|;
      while !(bp > p && bp < ptr[p]) && !(p >= ptr[p] && (bp > p || bp < ptr[p]))
        invariant H() == h && 0 <= i < n && p == free[i] && p in ptr
        decreases if i <= t then t - i else t + n - i
      {
        FreeStep(h, i, t, bp);
        p := ptr[p];
        i := Next(i, n);
      }
      FreeStep(h, i, t, bp);
      Relink(p, bp, t);
      FreeFacts(h, t, bp);
    }

    // Ask sbrk for at least nunits units, which it grants at `core`; t is the place
    // they are put at, and g that of a block that holds them.
    method Morecore(nunits: nat, core: int) returns (p: nat, ghost g: nat, ghost t: nat)
      requires Ready() && Under(H(), limit) && (core == -1 || core >= limit)
      modifies this
      ensures core == -1 ==> p == 0 && H() == old(H()) && freep == old(freep) && limit == old(limit) && got == old(got)
      ensures core != -1 ==> Ready() && p == freep != 0 && Fits(H(), g, nunits) && SameUsed(old(H()), H())
      ensures core != -1 ==> Enlarged(old(H()), H(), core, CoreUnits(nunits), t) && t < |free| && freep == free[t]
      ensures core != -1 ==> var nu := CoreUnits(nunits);
        && Units(blocks) == old(Units(blocks)) + nu && limit == Grown(core, nu) && got == old(got) + limit - core
        && (Under(H(), limit) <==> nu < 0x800_0000)
    {
      hide Inv, Used, Under, Units, Freed, SameUsed, SameBut, SbrkArg;
      ghost var h := H();
      p, g, t := 0, 0, 0;
      if core != -1 {
        var nu := CoreUnits(nunits);
        MoreStart(h, limit, core, nu);
        SbrkExact(nu);
        var hp: nat := core;
        size := size[hp := nu];
        blocks := blocks[hp := nu];
        limit := Grown(core, nu);
        got := got + limit - core;
        t := Free(hp + UNIT);
        g := MoreOk(h, core, nu, t, limit);
        AboveBase(H(), freep);
        p := freep;
      }
    }

    // Cut nunits units from the free block p, or take all of it.
    method Carve(prevp: nat, p: nat, nunits: nat, ghost i: nat) returns (ap: nat)
      requires Ready() && 0 < nunits && Fits(H(), i, nunits) && p == free[i] && prevp == free[i - 1]
      modifies `freep, `ptr, `size, `free, `blocks
      ensures Ready() && UNIT <= ap && GivesOut(old(H()), H(), ap - UNIT, nunits)
      ensures H() == Carved(old(H()), i, nunits) && ap == CarvedAt(old(H()), i, nunits) + UNIT && freep == prevp
    {
      ghost var h := H();
      hide Inv, Under, Units, GivesOut;
      CarveFacts(h, i, nunits);
      if size[p] == nunits {
        TakeGives(h, i, nunits);
        ptr := ptr[prevp := ptr[p]];
        free := Take(h, i).free;
        ap := p + UNIT;
      } else {
        SplitGives(h, i, nunits);
        size := size[p := size[p] - nunits];
        var q: nat := p + UNIT * size[p];
        size := size[q := nunits];
        blocks := Split(h, p, nunits).blocks;
        ap := q + UNIT;
      }
      freep := prevp;
    }

    // Allocate nbytes bytes; 0 when no block is big enough and sbrk fails.  Position i
    // of the list k, which was searched from `from`, is the block cut.
    method Malloc(nbytes: nat, core: int) returns (ap: nat, ghost grew: bool, ghost k: Heap, ghost from: nat,
            ghost i: nat)
      requires nbytes < 0x1_0000_0000 && (Ready() || Unborn()) && Backed() && (core == -1 || core >= limit)
      modifies this
      ensures Ready()
      ensures ap == 0 ==> core == -1 && blocks == old(blocks) && !grew
      ensures ap != 0 ==> UNIT <= ap && Handed(old(H()), H(), ap - UNIT, Nunits(nbytes))
      ensures ap == 0 || grew ==> NoneBig(old(H()), Nunits(nbytes))
      ensures if grew then Backed() <==> nbytes <= 0x7FFF_FFE0 else Backed()
      ensures !grew ==> k == Begun(old(H()), old(freep)) && from == (if old(freep) == 0 then base else old(freep))
      ensures grew ==> core != -1 && EnlargedFrom(Begun(old(H()), old(freep)), k, core, CoreUnits(Nunits(nbytes)), from)
      ensures ap == 0 ==> H() == k && freep == from
      ensures ap != 0 ==> CutFrom(k, from, i, Nunits(nbytes), H(), freep, ap)
    {
      hide Inv, Under, Units, Used, GivesOut, Handed, SameUsed, Scanning, NoneBig, Fits, Nunits, CoreUnits;
      hide CutFrom, NextFit, Carved, CarvedAt, Enlarged, EnlargedFrom, Begun;
      var nunits := Nunits(nbytes);
      NunitsFits(nbytes);
      ghost var h := H();
      Prepare();
      var prevp: nat := freep;
      k, from := H(), freep;
      ghost var b, from0 := k, from;
      ghost var f;
      f, i := ScanStart(k, freep, nunits);
      ghost var g: nat := 0;
      var p: nat := ptr[prevp];
      var done := false;
      ap, grew := 0, false;
      while !done
        invariant Ready() && (grew ==> NoneBig(h, nunits)) && (!grew ==> limit == old(limit))
        invariant if grew then Backed() <==> nbytes <= 0x7FFF_FFE0 else Backed()
        invariant !done ==> ap == 0 && SameUsed(h, H()) && (!grew ==> blocks == h.blocks)
        invariant !done ==> Scanning(H(), freep, prevp, p, nunits, f, i)
        invariant !done && grew ==> Ahead(H(), f, i, g, nunits)
        invariant done && ap == 0 ==> core == -1 && blocks == h.blocks && !grew && NoneBig(h, nunits)
        invariant done && ap != 0 ==> UNIT <= ap && Handed(h, H(), ap - UNIT, nunits)
        invariant ap == 0 ==> H() == k && freep == from
        invariant if grew then core != -1 && EnlargedFrom(b, k, core, CoreUnits(nunits), from) else k == b && from == from0
        invariant ap != 0 ==> CutFrom(k, from, i, nunits, H(), freep, ap)
        decreases !done, !grew, |free| - Dist(f, i, |free|)
      {
        ScanFits(k, freep, prevp, p, nunits, f, i);
        if size[p] >= nunits {
          ap := Carve(prevp, p, nunits, i);
          ScanFirst(k, from, prevp, p, nunits, f, i, H(), ap);
          HandedVia(h, k, H(), ap - UNIT, nunits, limit);
          done := true;
        } else {
          if p == freep {
            ScanEnd(k, freep, prevp, p, nunits, f, i);
            NotTwice(k, f, i, g, nunits);
            NoneBigVia(h, k, nunits);
            ghost var t;
            p, g, t := Morecore(nunits, core);
            if p == 0 {
              done := true;
            } else {
              grew := true;
              SameUsedVia(h, k, H());
              EnlargedAt(b, H(), core, CoreUnits(nunits), t);
              k, from := H(), freep;
              f, i := ScanStart(H(), freep, nunits);
              Anywhere(H(), f, i, g, nunits);
            }
          } else {
            ghost var i' := ScanStep(k, freep, prevp, p, nunits, f, i);
            if grew { AheadStep(k, f, i, i', g, nunits); }
            i := i';
          }
          if !done {
            prevp := p;
            p := ptr[p];
          }
        }
      }
    }

    // On the first call, make base the only header on the list.
    method Prepare()
      requires (Ready() || Unborn()) && Backed()
      modifies `freep, `ptr, `size, `free
      ensures Ready() && Backed() && SameUsed(old(H()), H())
      ensures H() == Begun(old(H()), old(freep)) && freep == if old(freep) == 0 then base else old(freep)
    {
      if freep == 0 {
        ptr, size := ptr[base := base], size[base := 0];
        freep := base;
        free := [base];
        assert LinkAt(H(), 0);
      }
    }

    // Join the block at bp to the one after p, or link it there.
    method MergeUp(p: nat, bp: nat)
      requires p in ptr && ptr[p] in ptr && ptr[p] in size && bp in size
      modifies `ptr, `size
      ensures var q := old(ptr)[p];
        if bp + UNIT * old(size)[bp] == q then
          ptr == old(ptr)[bp := old(ptr)[q]] && size == old(size)[bp := old(size)[bp] + old(size)[q]]
        else ptr == old(ptr)[bp := q] && size == old(size)
    {
      var q: nat := ptr[p];
      if bp + UNIT * size[bp] == q {
        size := size[bp := size[bp] + size[q]];
        ptr := ptr[bp := ptr[q]];
      } else {
        ptr := ptr[bp := q];
      }
    }

    // Join the block at p to the one at bp, or link it there.
    method MergeDown(p: nat, bp: nat)
      requires p in size && bp in size && bp in ptr
      modifies `ptr, `size
      ensures if p + UNIT * old(size)[p] == bp then
          ptr == old(ptr)[p := old(ptr)[bp]] && size == old(size)[p := old(size)[p] + old(size)[bp]]
        else ptr == old(ptr)[p := bp] && size == old(size)
    {
      if p + UNIT * size[p] == bp {
        size := size[p := size[p] + size[bp]];
        ptr := ptr[p := ptr[bp]];
      } else {
        ptr := ptr[p := bp];
      }
    }

    // free's assignments, once the search has ended at p.
    method Relink(p: nat, bp: nat, ghost t: nat)
      requires Inv(H()) && Used(H(), bp) && Spot(H(), t, bp) && p == free[t]
      modifies `freep, `ptr, `size, `free, `blocks
      ensures H() == Freed(old(H()), t, bp) && freep == p
    {
      hide Inv, Used, Spot, Freed, Loose;
      ghost var h := H();
      Base(h, t, bp);
      FreeIsFreed(h, t, bp);
      MergeUp(p, bp);
      MergeDown(p, bp);
      freep := p;
      free, blocks := Freed(h, t, bp).free, Freed(h, t, bp).blocks;
    }
  }

  // Where memory that ended at `core` ends after sbrk for nu units: a negative
  // argument shrinks it, unless by more than there is.
  function Grown(core: nat, nu: nat): nat { if core + SbrkArg(nu) >= 0 then core + SbrkArg(nu) else core }

  /** Within 64 GiB no block's size outgrows its 32-bit field. */
  lemma SizesFit(h: Heap, limit: nat, b: nat)
    requires Inv(h) && Under(h, limit) && limit < 0x10_0000_0000 && b in h.blocks
    ensures b in h.size && h.size[b] == h.blocks[b] < 0x1_0000_0000
  {
    assert BlockOk(h, b);
    assert End(h, b) <= limit;
  }

  // Position g of the free list holds at least n units.
  predicate Fits(h: Heap, g: nat, n: nat)
  {
    0 < g < |h.free| && h.free[g] in h.blocks && n <= h.blocks[h.free[g]]
  }

  // The list after the first lines of malloc.
  ghost function Begun(h: Heap, freep: nat): Heap
  {
    if freep == 0 then h.(ptr := h.ptr[h.base := h.base], size := h.size[h.base := 0], free := [h.base]) else h
  }

  // k is h with nu units that sbrk granted at `core` put at place t of the list.
  ghost predicate Enlarged(h: Heap, k: Heap, core: nat, nu: nat, t: nat)
  {
    var a := Add(h, core, nu);
    Loose(a) && Used(a, core) && Spot(a, t, core) && k == Freed(a, t, core)
  }

  // ... and `from` is what is at that place.
  ghost predicate EnlargedFrom(h: Heap, k: Heap, core: nat, nu: nat, from: nat)
  {
    exists t: nat :: t < |k.free| && k.free[t] == from && Enlarged(h, k, core, nu, t)
  }

  lemma EnlargedAt(h: Heap, k: Heap, core: nat, nu: nat, t: nat)
    requires Enlarged(h, k, core, nu, t) && t < |k.free|
    ensures EnlargedFrom(h, k, core, nu, k.free[t])
  {
  }

  // Position i of the list has n units, and none that comes before it after the
  // header at `from` has.
  ghost predicate NextFit(h: Heap, from: nat, i: nat, n: nat)
  {
    var m := |h.free|;
    && Fits(h, i, n)
    && exists f: nat :: f < m && h.free[f] == from && Passes(h, f, i, n)
  }

  ghost predicate Passes(h: Heap, f: nat, i: nat, n: nat)
  {
    forall j: nat :: j < |h.free| && Dist(f, j, |h.free|) < Dist(f, i, |h.free|) ==> !Fits(h, j, n)
  }

  // The block at position i without its last n units: off the list when it has no more.
  ghost function Carved(h: Heap, i: nat, n: nat): Heap
    requires Inv(h) && Fits(h, i, n)
  {
    CarveFacts(h, i, n);
    if h.blocks[h.free[i]] == n then Take(h, i) else Split(h, h.free[i], n)
  }

  // Where those units begin.
  function CarvedAt(h: Heap, i: nat, n: nat): nat
    requires Fits(h, i, n)
  {
    h.free[i] + UNIT * (h.blocks[h.free[i]] - n)
  }

  // The n units at ap were cut from position i of k, the first after `from` that has
  // them, and the next search is to start before it.
  ghost predicate CutFrom(k: Heap, from: nat, i: nat, n: nat, t: Heap, freep: nat, ap: nat)
  {
    && Inv(k) && NextFit(k, from, i, n)
    && t == Carved(k, i, n) && ap == CarvedAt(k, i, n) + UNIT && freep == k.free[i - 1]
  }

  lemma ScanFirst(k: Heap, from: nat, prevp: nat, p: nat, n: nat, f: nat, i: nat, t: Heap, ap: nat)
    requires Inv(k) && Scanning(k, from, prevp, p, n, f, i) && Fits(k, i, n)
    requires t == Carved(k, i, n) && ap == CarvedAt(k, i, n) + UNIT
    ensures CutFrom(k, from, i, n, t, prevp, ap)
  {
    hide Inv, Carved, CarvedAt;
    assert Passes(k, f, i, n);
  }

  // The same blocks are in use, with the same sizes.
  ghost predicate SameUsed(h: Heap, k: Heap)
  {
    (forall c :: Used(k, c) <==> Used(h, c)) && (forall c :: Used(h, c) ==> k.blocks[c] == h.blocks[c])
  }

  // Block b of n units is now in use, the others as before; nothing is lost.
  ghost predicate GivesOut(h: Heap, k: Heap, b: nat, n: nat)
  {
    && Handed(h, k, b, n) && Units(k.blocks) == Units(h.blocks)
    && (forall top: nat :: Under(k, top) <==> Under(h, top))
  }

  // Block b of n units is in use and was not; the others in use are as before.
  ghost predicate Handed(h: Heap, k: Heap, b: nat, n: nat)
  {
    && !Used(h, b) && Used(k, b) && k.blocks[b] == n
    && (forall c :: Used(k, c) <==> Used(h, c) || c == b)
    && (forall c :: Used(h, c) ==> k.blocks[c] == h.blocks[c])
  }

  lemma CarveFacts(h: Heap, i: nat, n: nat)
    requires Inv(h) && Fits(h, i, n)
    ensures var p := h.free[i]; p in h.size && p in h.ptr && h.size[p] == h.blocks[p] && h.free[i - 1] in h.free
  {
    LinkIn(h, i);
    assert BlockOk(h, h.free[i]);
  }

  lemma TakeGives(h: Heap, i: nat, n: nat)
    requires Inv(h) && 0 < i < |h.free| && h.free[i] in h.blocks && h.blocks[h.free[i]] == n && h.free[i] in h.ptr
    ensures var k := Take(h, i); Inv(k) && h.free[i - 1] in k.free && GivesOut(h, k, h.free[i], n)
  {
    TakeOk(h, i);
  }

  lemma SplitGives(h: Heap, i: nat, n: nat)
    requires Inv(h) && 0 < i < |h.free| && h.free[i] in h.blocks && 0 < n < h.blocks[h.free[i]]
    ensures var a := h.free[i]; var k := Split(h, a, n);
      Inv(k) && GivesOut(h, k, a + UNIT * (h.blocks[a] - n), n)
  {
    SplitOk(h, i, n);
    SplitFresh(h, h.free[i], n);
    SplitUnder(h, h.free[i], n);
  }

  lemma SplitUnder(h: Heap, a: nat, n: nat)
    requires a in h.blocks && 0 < n < h.blocks[a] && a + UNIT * (h.blocks[a] - n) !in h.blocks
    ensures forall top: nat :: Under(Split(h, a, n), top) <==> Under(h, top)
  {
    var k, q := Split(h, a, n), a + UNIT * (h.blocks[a] - n);
    assert End(k, q) == End(h, a) && End(k, a) == q;
    forall top: nat ensures Under(k, top) <==> Under(h, top) {
      if Under(k, top) {
        assert End(k, q) <= top;
        forall c | c in h.blocks ensures End(h, c) <= top {
          assert End(k, c) <= top;
        }
      }
      if Under(h, top) {
        assert End(h, a) <= top;
      }
    }
  }

  // The number of links from position f to position j, at least one.
  function Dist(f: nat, j: nat, m: nat): int { if j > f then j - f else j + m - f }

  function Prev(i: nat, m: nat): int { if i > 0 then i - 1 else m - 1 }

  // No free block has n units.
  ghost predicate NoneBig(h: Heap, n: nat)
  {
    forall c :: c in h.blocks && n <= h.blocks[c] ==> Used(h, c)
  }

  // malloc's scan from freep has come to p, after prevp, and passed over blocks
  // smaller than n.
  ghost predicate Scanning(h: Heap, freep: nat, prevp: nat, p: nat, n: nat, f: nat, i: nat)
  {
    var m := |h.free|;
    && f < m && i < m && freep == h.free[f] && p == h.free[i] && prevp == h.free[Prev(i, m)]
    && (forall j: nat :: j < m && Dist(f, j, m) < Dist(f, i, m) ==> !Fits(h, j, n))
  }

  lemma ScanStart(h: Heap, freep: nat, n: nat) returns (f: nat, i: nat)
    requires Inv(h) && freep in h.free
    ensures freep in h.ptr && Scanning(h, freep, freep, h.ptr[freep], n, f, i) && Dist(f, i, |h.free|) == 1
  {
    f :| f < |h.free| && freep == h.free[f];
    LinkIn(h, f);
    i := Next(f, |h.free|);
  }

  lemma ScanStep(h: Heap, freep: nat, prevp: nat, p: nat, n: nat, f: nat, i: nat) returns (i': nat)
    requires Inv(h) && Scanning(h, freep, prevp, p, n, f, i) && p != freep && !Fits(h, i, n)
    ensures p in h.ptr && Scanning(h, freep, p, h.ptr[p], n, f, i')
    ensures Dist(f, i', |h.free|) == Dist(f, i, |h.free|) + 1
  {
    LinkIn(h, i);
    i' := Next(i, |h.free|);
  }

  lemma ScanEnd(h: Heap, freep: nat, prevp: nat, p: nat, n: nat, f: nat, i: nat)
    requires Inv(h) && Scanning(h, freep, prevp, p, n, f, i) && p == freep && !Fits(h, i, n)
    ensures Dist(f, i, |h.free|) == |h.free| && NoneBig(h, n)
  {
    forall c | c in h.blocks && n <= h.blocks[c] ensures Used(h, c) {
      if c in h.free {
        var j: nat :| j < |h.free| && h.free[j] == c;
        assert BlockOk(h, c);
        assert Fits(h, j, n);
      }
    }
  }

  lemma FitsSize(h: Heap, i: nat, n: nat)
    requires Inv(h) && i < |h.free| && 0 < n
    ensures h.free[i] in h.size && (n <= h.size[h.free[i]] <==> Fits(h, i, n))
  {
    if 0 < i { assert BlockOk(h, h.free[i]); }
  }

  // Position g, still ahead of the scan at i, has n units.
  ghost predicate Ahead(h: Heap, f: nat, i: nat, g: nat, n: nat)
  {
    Fits(h, g, n) && Dist(f, i, |h.free|) <= Dist(f, g, |h.free|)
  }

  lemma ScanFits(h: Heap, freep: nat, prevp: nat, p: nat, n: nat, f: nat, i: nat)
    requires Inv(h) && Scanning(h, freep, prevp, p, n, f, i) && 0 < n
    ensures p in h.size && p in h.ptr && (n <= h.size[p] <==> Fits(h, i, n))
    ensures Fits(h, i, n) ==> 0 < i < |h.free| && p == h.free[i] && prevp == h.free[i - 1]
    ensures Dist(f, i, |h.free|) <= |h.free| && f < |h.free| && i < |h.free|
  {
    FitsSize(h, i, n);
    LinkIn(h, i);
  }

  lemma NotTwice(h: Heap, f: nat, i: nat, g: nat, n: nat)
    requires Dist(f, i, |h.free|) == |h.free| && !Fits(h, i, n) && f < |h.free| && i < |h.free|
    ensures !Ahead(h, f, i, g, n)
  {
  }

  lemma AheadStep(h: Heap, f: nat, i: nat, i': nat, g: nat, n: nat)
    requires Ahead(h, f, i, g, n) && !Fits(h, i, n) && f < |h.free| && i < |h.free|
    requires Dist(f, i', |h.free|) == Dist(f, i, |h.free|) + 1
    ensures Ahead(h, f, i', g, n)
  {
  }

  lemma Anywhere(h: Heap, f: nat, i: nat, g: nat, n: nat)
    requires Dist(f, i, |h.free|) == 1 && Fits(h, g, n) && f < |h.free|
    ensures Ahead(h, f, i, g, n)
  {
  }

  lemma NoneBigVia(h: Heap, k: Heap, n: nat)
    requires NoneBig(k, n) && SameUsed(h, k)
    ensures k.blocks == h.blocks ==> NoneBig(h, n)
  {
  }

  lemma SameUsedVia(h: Heap, k: Heap, l: Heap)
    requires SameUsed(h, k) && SameUsed(k, l)
    ensures SameUsed(h, l)
  {
  }

  lemma HandedVia(h: Heap, k: Heap, l: Heap, b: nat, n: nat, top: nat)
    requires SameUsed(h, k) && GivesOut(k, l, b, n)
    ensures Handed(h, l, b, n) && Units(l.blocks) == Units(k.blocks) && (Under(l, top) <==> Under(k, top))
  {
  }

  lemma AboveBase(h: Heap, p: nat)
    requires Inv(h) && p in h.free
    ensures h.base <= p
  {
  }

  lemma MoreStart(h: Heap, limit: nat, core: nat, nu: nat)
    requires Inv(h) && Under(h, limit) && limit <= core && 0 < nu
    ensures Under(h, core) && Inv(Add(h, core, nu)) && Used(Add(h, core, nu), core) && Loose(h)
  {
    AddOk(h, core, nu);
  }

  // k is h with nu more units at `core`, freed.
  lemma MoreOk(h: Heap, core: nat, nu: nat, t: nat, top: nat) returns (g: nat)
    requires Inv(h) && Under(h, core) && 0 < nu && Inv(Add(h, core, nu)) && Used(Add(h, core, nu), core)
    requires Spot(Add(h, core, nu), t, core) && Inv(Freed(Add(h, core, nu), t, core))
    requires Units(Freed(Add(h, core, nu), t, core).blocks) == Units(Add(h, core, nu).blocks)
    requires SameBut(Add(h, core, nu), Freed(Add(h, core, nu), t, core), core)
    ensures var k := Freed(Add(h, core, nu), t, core);
      && Fits(k, g, nu) && SameUsed(h, k) && Units(k.blocks) == Units(h.blocks) + nu
      && (Under(k, top) <==> core + UNIT * nu <= top)
  {
    AddOk(h, core, nu);
    var a := Add(h, core, nu);
    g := FreedFits(a, t, core);
    if core + UNIT * nu <= top {
      assert Under(a, top);
      FreedUnder(a, t, core, top);
    }
  }

  ghost predicate SameBut(h: Heap, k: Heap, b: nat)
  {
    && (forall c :: Used(k, c) <==> Used(h, c) && c != b)
    && (forall c :: Used(h, c) && c != b ==> k.blocks[c] == h.blocks[c])
  }

  lemma Base(h: Heap, t: nat, b: nat)
    requires Inv(h) && Used(h, b) && Spot(h, t, b)
    ensures Loose(h) && Freed(h, t, b).base == h.base && b != h.free[t]
  {
    FreedOk(h, t, b);
  }

  lemma FreeStart(h: Heap, b: nat, p: nat) returns (t: nat, i: nat)
    requires Inv(h) && Used(h, b) && p in h.free
    ensures Spot(h, t, b) && i < |h.free| && p == h.free[i] && p in h.ptr && t < |h.free|
  {
    assert BlockOk(h, b);
    t := SpotExists(h, b, |h.free|);
    i :| i < |h.free| && p == h.free[i];
    LinkIn(h, i);
  }

  lemma FreeStep(h: Heap, i: nat, t: nat, b: nat)
    requires Inv(h) && Used(h, b) && Spot(h, t, b) && i < |h.free|
    ensures var p := h.free[i];
      && p in h.ptr && h.ptr[p] in h.ptr && h.ptr[p] == h.free[Next(i, |h.free|)]
      && (i == t <==> (b > p && b < h.ptr[p]) || (p >= h.ptr[p] && (b > p || b < h.ptr[p])))
  {
    NextIn(h, i);
    StopsAtSpot(h, i, t, b);
  }

  lemma FreeFacts(h: Heap, t: nat, b: nat)
    requires Inv(h) && Used(h, b) && Spot(h, t, b)
    ensures Loose(h)
    ensures var g := Freed(h, t, b);
      && Inv(g) && Units(g.blocks) == Units(h.blocks) && g.base == h.base
      && t < |g.free| && g.free[t] == h.free[t]
      && SameBut(h, g, b) && (forall top: nat :: Under(h, top) ==> Under(g, top))
  {
    FreedOk(h, t, b);
    hide Inv, Freed, Under;
    forall top: nat | Under(h, top) ensures Under(Freed(h, t, b), top) {
      FreedUnder(h, t, b, top);
    }
  }

  /** Any two blocks, free or in use, occupy disjoint memory, and a free block
      is followed by a gap before the next one on the list. */
  lemma BlocksDisjoint(h: Heap, a: nat, b: nat, i: nat)
    requires Inv(h) && a in h.blocks && b in h.blocks && a != b
    ensures End(h, a) <= b || End(h, b) <= a
    ensures 0 < i && i + 1 < |h.free| ==> h.free[i] in h.blocks && End(h, h.free[i]) < h.free[i + 1]
  {
    assert Apart(h, a, b) && Apart(h, b, a);
    assert Gap(h, i);
  }

  /** Freeing what malloc returned, wherever it belongs on the list by then, leaves
      in use what was in use before, and loses nothing. */
  lemma FreeUndoesMalloc(h: Heap, k: Heap, t: nat, b: nat, n: nat)
    requires Handed(h, k, b, n) && Inv(k) && Spot(k, t, b)
    ensures Loose(k)
    ensures var l := Freed(k, t, b); Inv(l) && SameUsed(h, l) && Units(l.blocks) == Units(k.blocks)
  {
    FreeFacts(k, t, b);
    hide Inv, Freed, Units, Used;
    var l := Freed(k, t, b);
    assert SameBut(k, l, b);
  }

  /** malloc(0xFFFFFFFF) records 2^28 + 1 units but asks sbrk for 16 bytes;
      malloc(0x80000000) records 2^27 + 1 and gives almost 2 GiB back. */
  lemma WrapExample()
    ensures CoreUnits(Nunits(0xFFFF_FFFF)) == 0x1000_0001 && SbrkArg(0x1000_0001) == 16
    ensures CoreUnits(Nunits(0x8000_0000)) == 0x800_0001 && SbrkArg(0x800_0001) == 16 - 0x8000_0000
  {
  }
}

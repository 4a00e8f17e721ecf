/**
 * kalloc.c and vm.c over one physical memory.  A pointer to a physical page is
 * its page number (0 is the null pointer); virtual addresses and sizes are in
 * bytes.  mappages, uvmunmap and uvmdealloc report the conditions under which
 * the kernel panics; the other operations are shown never to reach one.
 */
module Vm {
  import opened PageState
  import opened PageSteps
  import opened PageRuns
  import opened PagePrune
  import opened PageBudget

  const PGSIZE := 4096
  const MAXVA := 0x4000000000
  const TRAPFRAME := PAGES - 2   // virtual page of the trapframe; the trampoline is above it

  // PA2PTE and PTE2PA on machine words.
  function Pa2Pte(pa: bv64): bv64 { (pa >> 12) << 10 }
  function Pte2Pa(pte: bv64): bv64 { (pte >> 10) << 12 }

  /** An entry made from an aligned address and flags gives both back. */
  lemma EntryRoundTrip(pa: bv64, flags: bv64)
    requires pa & 0xFFF == 0 && flags & !0x3FF == 0
    ensures Pte2Pa(Pa2Pte(pa) | flags) == pa && (Pa2Pte(pa) | flags) & 0x3FF == flags
  {
  }

  /** Rebuilding an entry from the address it holds loses nothing but the flags,
      exactly when the two top bits, which no physical address reaches, are clear. */
  lemma AddressRoundTrip(pte: bv64)
    ensures Pa2Pte(Pte2Pa(pte)) == pte & !0x3FF <==> pte >> 62 == 0
  {
  }

  // How mappages ends.
  datatype MapEnd = Mapped | NoMemory | Panic

  // A pointer to a page table entry.
  datatype Ptr = Null | Ptr(page: nat, index: nat)

  // PX(level, va)
  function Px(level: nat, va: nat): nat
    requires level <= 2
  {
    va / (if level == 0 then 0x1000 else if level == 1 then 0x200000 else 0x40000000) % 0x200
  }

  lemma PxIndex(level: nat, va: nat)
    requires level <= 2
    ensures Px(level, va) == Index(level, va / PGSIZE)
  {
    assert va / 0x1000 / 512 == va / 0x200000;
    assert va / 0x1000 / 262144 == va / 0x40000000;
  }

  lemma PageOf(v: nat)
    ensures v * PGSIZE / PGSIZE == v
  {
  }

  lemma Aligned(v: nat)
    requires v < PAGES
    ensures v * PGSIZE / PGSIZE == v && (v * PGSIZE + PGSIZE - 1) / PGSIZE == v && v * PGSIZE + PGSIZE <= MAXVA
  {
  }

  // PGROUNDUP(sz) / PGSIZE
  function Up(sz: nat): nat { (sz + 4095) / 4096 }

  // Pages between the ends of a smaller and a larger address space.
  function Span(small: nat, large: nat): nat
  {
    if small < large then Up(large) - Up(small) else 0
  }

  // The address space of a process of n pages: a frame for each page below n,
  // nothing from there to the trapframe.
  ghost predicate Sized(s: State, r: nat, n: nat)
    requires Shape(s)
  {
    AllMine(s, r, 0, n) && forall x: nat :: n <= x < TRAPFRAME ==> !Valid(Slot(s, r, x))
  }

  // Virtual page x of tree r is a page, and mapped.
  ghost predicate Present(s: State, r: nat, x: nat) { x < PAGES && Valid(Slot(s, r, x)) }

  ghost predicate AllPresent(s: State, r: nat, v: nat, n: nat)
  {
    forall x: nat :: v <= x < v + n ==> Present(s, r, x)
  }

  // Virtual page x of tree r is a page, and not mapped.
  ghost predicate Open(s: State, r: nat, x: nat) { x < PAGES && !Valid(Slot(s, r, x)) }

  ghost predicate AllOpen(s: State, r: nat, v: nat, n: nat)
  {
    forall x: nat :: v <= x < v + n ==> Open(s, r, x)
  }

  // The mapped pages of [v, v + n) are of the kind uvmunmap is to remove: with a
  // frame of their own, or with none.
  ghost predicate Removable(s: State, r: nat, v: nat, n: nat, doFree: bool)
    requires Shape(s)
  {
    forall x: nat :: v <= x < v + n && Present(s, r, x) ==> if doFree then Mine(s, r, x) else Lent(s, r, x)
  }

  // uvmdealloc reaches one of uvmunmap's panics.
  ghost predicate DeallocPanics(s: State, r: nat, oldsz: nat, newsz: nat)
  {
    !AllPresent(s, r, Up(newsz), Span(newsz, oldsz))
  }

  /** The old size given to uvmdealloc may exceed the size of the process by less
      than makes another page, and not more: otherwise the kernel panics. */
  lemma DeallocSafe(s: State, r: nat, n: nat, oldsz: nat, newsz: nat)
    requires Shape(s) && Sized(s, r, n) && Up(oldsz) <= TRAPFRAME
    ensures !DeallocPanics(s, r, oldsz, newsz) <==> newsz >= oldsz || Up(newsz) == Up(oldsz) || Up(oldsz) <= n
  {
    if newsz < oldsz {
      Rounding(newsz, oldsz);
      if Up(oldsz) <= n {
        forall x: nat | Up(newsz) <= x < Up(oldsz) ensures Present(s, r, x) {
          assert Mine(s, r, x);
        }
      } else if Up(newsz) < Up(oldsz) {
        assert !Present(s, r, Up(oldsz) - 1);
      }
    }
  }

  lemma MineRemovable(s: State, r: nat, v: nat, n: nat)
    requires Shape(s) && AllMine(s, r, v, n) && v + n <= PAGES
    ensures Removable(s, r, v, n, true) && AllPresent(s, r, v, n)
  {
    forall x: nat | v <= x < v + n ensures Present(s, r, x) {
      assert Mine(s, r, x);
    }
  }

  // Pages that mappages is asked for.
  function Count(va: nat, size: nat): nat
  {
    if size == 0 then 0 else (va + size - 1) / PGSIZE - va / PGSIZE + 1
  }

  lemma NotOrphan(s: State, at: Place, i: nat)
    requires Inv(s) && Child(at, i) in s.node
    ensures at in s.node
  {
    assert NodeAt(s, Child(at, i));
  }

  lemma NothingLacks(s: State, r: nat, v: nat)
    requires Inv(s) && Valid(Slot(s, r, v))
    ensures |Lacks(s, r, v, 1)| == 0
  {
    hide Slot;
    SlotTable(s, r, v);
    Steps(r, v);
    NotOrphan(s, Place(r, Prefix(v, 1)), Index(1, v));
    TwoNeeded(r, v);
    assert Lacks(s, r, v, 1) == {};
  }

  lemma TwoNeeded(r: nat, v: nat)
    ensures Needed(r, v, 1) == {Place(r, Prefix(v, 1)), Low(r, v)}
  {
    hide Prefix, Low;
    assert Needed(r, v, 0) == {};
  }

  lemma Rounding(small: nat, large: nat)
    requires small <= large
    ensures Up(small) <= Up(large) && Span(small, large) == Up(large) - Up(small)
  {
  }

  lemma Spans(v: nat, k: nat)
    ensures Up(v * PGSIZE) == v && Up((v + k) * PGSIZE) == v + k && Span(v * PGSIZE, (v + k) * PGSIZE) == k
  {
  }

  // While a process grows, the next page is free and below the trapframe.
  lemma Room(s: State, u: State, r: nat, v: nat, k: nat, f: nat)
    requires Shape(s) && Shape(u) && Sized(s, r, v) && Built(s, u, r, v, k, 0, f)
    ensures v + k <= HI && !Valid(Slot(u, r, v + k))
  {
    Pigeonhole(s, r, v);
    forall x: nat | x < v + k ensures Mine(u, r, x) {
      if x < v {
        BuiltElse(s, u, r, v, k, 0, f, r, x);
      } else {
        BuiltMine(s, u, r, v, k, 0, f);
      }
    }
    Pigeonhole(u, r, v + k);
    BuiltElse(s, u, r, v, k, 0, f, r, v + k);
  }

  lemma VacantAbove(s: State, r: nat, v: nat, k: nat)
    requires Shape(s) && Sized(s, r, v) && v + k <= HI
    ensures Vacant(s, r, v, k)
  {
  }

  lemma Resized(s: State, t: State, r: nat, v: nat, k: nat, f: nat)
    requires Shape(s) && Shape(t) && Sized(s, r, v) && Built(s, t, r, v, k, 0, f)
    ensures Sized(t, r, v + k)
  {
    Room(s, t, r, v, k, f);
    BuiltMine(s, t, r, v, k, 0, f);
    forall x: nat | x < v + k ensures Mine(t, r, x) {
      if x < v { BuiltElse(s, t, r, v, k, 0, f, r, x); }
    }
    forall x: nat | v + k <= x < TRAPFRAME ensures !Valid(Slot(t, r, x)) {
      BuiltElse(s, t, r, v, k, 0, f, r, x);
    }
  }

  lemma UserFlags(xperm: nat)
    requires xperm % 4 == 0 && xperm < 16
    ensures Leaf(18 + xperm) && WithV(18 + xperm) == 19 + xperm
  {
    assert xperm == 0 || xperm == 4 || xperm == 8 || xperm == 12;
  }

  // Cutting off a child of a table that holds no mapping below it.
  lemma CutChild(s: State, at: Place, i: nat, cut: set<Place>)
    requires InvBut(s, cut)
    ensures InvBut(s, cut + {Child(at, i)})
  {
    hide FreeOk, NodeOk, FramesOk, Edge;
  }

  lemma BareChild(s: State, at: Place, i: nat)
    requires Bare(s, at)
    ensures Bare(s, Child(at, i))
  {
    forall a | Under(a, Child(at, i)) ensures Under(a, at) {
      UnderChild(a, at, i);
    }
  }

  // An entry met by freewalk names a table below, or is not in use.
  lemma EntryKind(s: State, at: Place, i: nat, cut: set<Place>)
    requires InvBut(s, cut) && at in s.node && i < ENTRIES && Bare(s, at) && Depth(at.path) <= 2
    requires forall c :: c in cut ==> Depth(c.path) <= Depth(at.path)
    ensures s.node[at] < HI
    ensures var w, c := s.pages[s.node[at]][i], Child(at, i);
      if Valid(w) then !Leaf(w) && c in s.node && Ppn(w) == s.node[c] && Depth(at.path) < 2 else c !in s.node
  {
    hide FreeOk, FramesOk, Valid, Leaf, Ppn, Mk;
    assert NodeAt(s, at);
    var w, c := s.pages[s.node[at]][i], Child(at, i);
    assert w == Word(s, at, i);
    assert c !in cut && Edge(s, at, i);
    if c in s.node {
      assert NodeAt(s, c);
      TableEntry(s.node[c]);
    }
  }

  lemma TableEntry(p: nat)
    ensures var w := Mk(p, 1); Valid(w) && !Leaf(w) && Ppn(w) == p
  {
    MkParts(p, 1);
  }

  lemma RootPage(s: State, r: nat)
    requires Inv(s) && Tree(s, r)
    ensures s.node[Place(r, Nil)] == r
  {
    assert NodeAt(s, Place(r, Nil));
  }

  lemma BuiltTrees(s: State, t: State, r: nat, n: nat, src: nat)
    requires Inv(s) && Inv(t) && Built(s, t, r, 0, n, src, 0)
    ensures forall x: nat :: Tree(s, x) ==> Tree(t, x)
  {
    TreesStay(s, t, r, 0, n);
  }

  lemma KeptTrees(s: State, t: State)
    requires Inv(s) && Inv(t) && Kept(s, t)
    ensures forall x: nat :: Tree(s, x) ==> Tree(t, x)
  {
    TreesStay(s, t, 0, 0, 0);
  }

  lemma NowVacant(s: State, u: State, r: nat, n: nat)
    requires Unmaps(s, u, r, 0, n) && forall x: nat :: n <= x < PAGES ==> !Valid(Slot(s, r, x))
    ensures AllVacant(u, r)
  {
    forall v: nat | v < PAGES ensures !Valid(Slot(u, r, v)) {
      if n <= v { assert Slot(u, r, v) == Slot(s, r, v); }
    }
  }

  lemma CreateOk(s: State)
    requires Inv(s) && |s.free| > 0
    ensures FreeAt(s, |s.free| - 1) && !Tree(s, s.free[|s.free| - 1])
    ensures var q := s.free[|s.free| - 1]; var t := NewRoot(Taken(s, Fill(0)), q);
      Inv(t) && Undone(s, t) && AllVacant(t, q)
  {
    var q := s.free[|s.free| - 1];
    TakenOk(s, Fill(0));
    var u := Taken(s, Fill(0));
    NewRootOk(u, q);
    var t := NewRoot(u, q);
    SlotsSame(u, t);
    hide FreeOk, NodeOk, Edges, FramesOk;
    forall p: nat | p < HI ensures GrewAt(s, t, 0, 0, 0, p) {
    }
  }

  // The page to copy next is as it was when the copying began.
  lemma CopySource(s: State, u: State, parent: nat, child: nat, k: nat, n: nat)
    requires Inv(s) && Inv(u) && Built(s, u, child, 0, k, parent, 0) && parent != child && k < n <= PAGES
    requires AllMine(s, parent, 0, n) && Vacant(s, child, 0, n) && Tree(s, parent)
    ensures !Valid(Slot(u, child, k))
    ensures var w := Slot(u, parent, k);
      && Low(parent, k) in u.node && u.node[Low(parent, k)] < HI && u.pages[u.node[Low(parent, k)]][Index(0, k)] == w
      && 0 < Ppn(w) < HI && u.role[Ppn(w)].Frame? && Leaf(Flags(w)) && Flags(w) < 1024
      && WithV(Flags(w)) == WantFlags(s, parent, 0, k) && Content(u, Ppn(w)) == WantPage(s, parent, k)
  {
    BuiltElse(s, u, child, 0, k, parent, 0, child, k);
    BuiltElse(s, u, child, 0, k, parent, 0, parent, k);
    var w := Slot(u, parent, k);
    assert Mine(s, parent, k);
    SlotTable(u, parent, k);
    FlagsDecide(w);
    assert Owned(u, Ppn(w));
    assert NodeAt(s, Place(parent, Nil));
  }

  // flags | PTE_V
  function WithV(f: nat): nat { if f % 2 == 1 then f else f + 1 }

  lemma WithVOk(f: nat)
    requires f < 1024 && Leaf(f)
    ensures WithV(f) < 1024 && Leaf(WithV(f)) && Valid(WithV(f))
  {
    assert WithV(f) / 2 == f / 2;
  }

  ghost predicate Points(s: State, r: nat, v: nat, pte: Ptr)
  {
    pte.Ptr? && Low(r, v) in s.node && pte == Ptr(s.node[Low(r, v)], Index(0, v))
  }

  lemma LowPage(s: State, r: nat, v: nat)
    requires Inv(s) && Low(r, v) in s.node
    ensures s.node[Low(r, v)] < HI && s.pages[s.node[Low(r, v)]][Index(0, v)] == Slot(s, r, v)
  {
    assert NodeAt(s, Low(r, v));
  }

  // mappages mapped the k pages from v on to the k pages from p on, none of them
  // mapped before, and then: had what was asked for; ran out of memory for the
  // tables on the way to the next page; or met a page that is mapped already or
  // outside the address space.
  ghost predicate Mapping(s: State, t: State, r: nat, v: nat, k: nat, p: nat, f: nat, end: MapEnd)
    requires Shape(s) && Shape(t)
  {
    && Kept(s, t) && Maps(s, t, r, v, k, p, f) && AllOpen(s, r, v, k)
    && match end
       case Mapped => Paid(s, t, Needed(r, v, k), 0) && Needed(r, v, k) <= t.node.Keys
       case NoMemory =>
         && t.free == [] && Open(s, r, v + k) && |Lacks(s, r, v, k)| <= |s.free| < |Lacks(s, r, v, k + 1)|
         && Paid(s, t, Needed(r, v, k + 1), 0)
       case Panic => !Open(s, r, v + k) && |Lacks(s, r, v, k)| <= |s.free|
  }

  lemma MappingNone(s: State, r: nat, v: nat, p: nat, f: nat)
    requires Shape(s)
    ensures Mapping(s, s, r, v, 0, p, f, Mapped)
  {
    MapsNone(s, r, v, p, f);
    PaidZero(s, r, v);
  }

  lemma OpenStill(s: State, u: State, r: nat, v: nat, k: nat, p: nat, f: nat)
    requires Maps(s, u, r, v, k, p, f)
    ensures Open(u, r, v + k) <==> Open(s, r, v + k)
  {
    hide Slot, Valid;
    if v + k < PAGES { MapsRest(s, u, r, v, k, p, f, v + k); }
  }

  lemma OpenMore(s: State, u: State, r: nat, v: nat, k: nat)
    requires AllOpen(s, r, v, k) && AllOpen(u, r, v + k, 1) && (Open(u, r, v + k) <==> Open(s, r, v + k))
    ensures AllOpen(s, r, v, k + 1)
  {
    hide Open;
    assert Open(u, r, v + k);
  }

  lemma MappingNext(s: State, u: State, t: State, r: nat, v: nat, k: nat, p: nat, f: nat, end: MapEnd)
    requires Shape(s) && Shape(u) && Shape(t) && Mapping(s, u, r, v, k, p, f, Mapped)
    requires Mapping(u, t, r, v + k, if end.Mapped? then 1 else 0, p + k, f, end)
    ensures Mapping(s, t, r, v, if end.Mapped? then k + 1 else k, p, f, end)
  {
    hide Kept, Maps, Paid, Needed, Open, AllOpen, Lacks;
    KeptTrans(s, u, t);
    OpenStill(s, u, r, v, k, p, f);
    if end.Mapped? {
      MapsMore(s, u, t, r, v, k, p, f, 1);
      PaidNext(s, u, t, r, v, k, 0, 0);
      OpenMore(s, u, r, v, k);
    } else {
      MapsMore(s, u, t, r, v, k, p, f, 0);
      LacksNext(s, u, r, v, k, 0);
      LacksFull(s, u, r, v, k);
      if end.NoMemory? { PaidOn(s, u, t, r, v, k); }
    }
  }

  lemma LacksFull(s: State, t: State, r: nat, v: nat, n: nat)
    requires Paid(s, t, Needed(r, v, n), 0) && Needed(r, v, n) <= t.node.Keys
    ensures |Lacks(s, r, v, n)| <= |s.free|
  {
    hide Paid, Needed;
    PaidFull(s, t, Needed(r, v, n), 0);
  }

  // What mappages does to all of a range, exactly.
  lemma MappingExact(s: State, t: State, r: nat, v: nat, k: nat, p: nat, f: nat, end: MapEnd, n: nat)
    requires Shape(s) && Shape(t) && Mapping(s, t, r, v, k, p, f, end) && k <= n && (end.Mapped? <==> k == n)
    ensures end.Mapped? <==> AllOpen(s, r, v, n) && |s.free| >= |Lacks(s, r, v, n)|
  {
    hide Kept, Maps, Paid, Needed, Open, Lacks;
    match end
    case Mapped => LacksFull(s, t, r, v, k);
    case NoMemory => LacksMore(s, r, v, k + 1, n);
    case Panic => assert !Open(s, r, v + k);
  }

  // The next page of the range is as it was when the unmapping began.
  lemma StillThere(s: State, u: State, r: nat, v: nat, k: nat, n: nat, doFree: bool)
    requires Shape(s) && Shape(u) && Unmaps(s, u, r, v, k) && Freed(s, u, r, v, if doFree then k else 0) && k < n
    requires Removable(s, r, v, n, doFree)
    ensures Removable(u, r, v + k, 1, doFree) && (Present(u, r, v + k) <==> Present(s, r, v + k))
  {
    hide Slot, Mine, Lent, Freed;
    if v + k < PAGES {
      assert Slot(u, r, v + k) == Slot(s, r, v + k);
      if Present(s, r, v + k) {
        if doFree {
          StillMine(s, u, r, v, k, v + k);
        } else {
          StillLent(s, u, r, v, k, v + k);
        }
      }
    }
  }

  // The walk has reached page p, the table of the given level on the way to v.
  ghost predicate Reached(s: State, r: nat, v: nat, level: nat, p: nat)
    requires level <= 2
  {
    Place(r, Prefix(v, 2 - level)) in s.node && s.node[Place(r, Prefix(v, 2 - level))] == p
  }

  lemma Below(s: State, r: nat, v: nat, level: nat, p: nat)
    requires Inv(s) && 1 <= level <= 2 && Reached(s, r, v, level, p) && v < PAGES
    ensures p < HI
    ensures var w := s.pages[p][Index(level, v)];
      if Valid(w) then Reached(s, r, v, level - 1, Ppn(w)) else Place(r, Prefix(v, 3 - level)) !in s.node
    ensures Place(r, Prefix(v, 3 - level)) == Child(Place(r, Prefix(v, 2 - level)), Index(level, v))
    ensures Depth(Prefix(v, 2 - level)) == 2 - level && Index(level, v) < Width(Prefix(v, 2 - level))
  {
    var at := Place(r, Prefix(v, 2 - level));
    assert NodeAt(s, at);
    PrefixDepth(v, 2 - level);
    assert Prefix(v, 3 - level) == Snoc(at.path, Index(level, v));
    Descend(s, at, Index(level, v));
  }

  lemma Missing(s: State, r: nat, v: nat, level: nat)
    requires Inv(s) && level <= 1 && Place(r, Prefix(v, 2 - level)) !in s.node
    ensures Low(r, v) !in s.node
  {
    if level == 1 {
      Steps(r, v);
      NoOrphan(s, Place(r, Prefix(v, 1)), Index(1, v));
    }
  }

  lemma SameWordsTrans(s: State, u: State, t: State)
    requires SameWords(s, u) && SameWords(u, t)
    ensures SameWords(s, t)
  {
    hide Word, Depth;
  }

  // A walk towards page v changed nothing but the tables it made on the way.
  ghost predicate Walked(s: State, t: State, r: nat, v: nat)
    requires Shape(s) && Shape(t)
  {
    SameWords(s, t) && Kept(s, t) && Paid(s, t, Needed(r, v, 1), 0)
  }

  lemma WalkedMore(s: State, u: State, t: State, r: nat, v: nat, c: Place)
    requires Shape(s) && Shape(u) && Shape(t) && Walked(s, u, r, v) && c in Needed(r, v, 1)
    requires SameWords(u, t) && Kept(u, t) && Paid(u, t, {c}, 0)
    ensures Walked(s, t, r, v) && u.node.Keys <= t.node.Keys
  {
    hide SameWords, Kept, Paid, Needed;
    KeptTrans(s, u, t);
    SameWordsTrans(s, u, t);
    PaidThen(s, u, t, Needed(r, v, 1), 0, {c}, 0);
    assert Needed(r, v, 1) + {c} == Needed(r, v, 1);
    PaidKeys(u, t, {c}, 0);
  }

  lemma WalkedShort(s: State, t: State, r: nat, v: nat, c: Place)
    requires Shape(s) && Shape(t) && Walked(s, t, r, v) && t.free == [] && c in Needed(r, v, 1) && c !in t.node
    ensures |s.free| < |Lacks(s, r, v, 1)|
  {
    hide SameWords, Kept, Paid, Needed;
    PaidShort(s, t, Needed(r, v, 1), c);
  }

  lemma WalkedThrough(s: State, t: State, r: nat, v: nat)
    requires Shape(s) && Shape(t) && Walked(s, t, r, v) && Place(r, Prefix(v, 1)) in t.node && Low(r, v) in t.node
    ensures Needed(r, v, 1) <= t.node.Keys && |s.free| >= |Lacks(s, r, v, 1)|
  {
    hide SameWords, Kept, Paid, Needed, Prefix, Low;
    TwoNeeded(r, v);
    LacksFull(s, t, r, v, 1);
  }

  lemma WalkStart(s: State, r: nat, v: nat)
    requires Inv(s) && Tree(s, r)
    ensures Reached(s, r, v, 2, r) && Walked(s, s, r, v)
  {
    assert NodeAt(s, Place(r, Nil));
    PaidNone(s);
    PaidMore(s, s, {}, Needed(r, v, 1), 0);
    MapsNone(s, 0, 0, 0, 0);
  }

  lemma PageInside(v: nat, sz: nat)
    ensures v * PGSIZE < sz <==> v < Up(sz)
  {
  }

  lemma GrownBuilt(s: State, t: State, r: nat, v: nat, n: nat, src: nat, f: nat)
    requires Shape(s) && Shape(t) && Grown(s, t, r, v, n, src, f)
    ensures Built(s, t, r, v, n, src, f)
  {
  }

  // Copying failed: nothing is left of it but perhaps empty tables of the child.
  ghost predicate Rolled(s: State, t: State, child: nat)
    requires Shape(s) && Shape(t)
  {
    && SameMap(s, t) && Kept(s, t) && Local(s, t, child)
    && (forall r: nat, v: nat :: v < PAGES && r != child ==> Slot(t, r, v) == Slot(s, r, v))
  }

  lemma GrownLocal(s: State, t: State, r: nat, v: nat, n: nat, src: nat, f: nat)
    requires Shape(s) && Shape(t) && Grown(s, t, r, v, n, src, f)
    ensures Local(s, t, r)
  {
    hide Built, Needed, Paid;
    PaidLocal(s, t, r, v, n, n);
  }

  lemma TakenPaid(s: State, page: Page)
    requires Shape(s) && |s.free| > 0 && s.free[|s.free| - 1] < HI
    ensures var u := Taken(s, page); Paid(s, u, {}, 1) && u.node == s.node && |u.free| == |s.free| - 1
  {
    assert s.node.Keys - s.node.Keys == {};
  }

  class Memory {
    const lo: nat
    var pages: seq<Page>
    var freelist: nat
    ghost var free: seq<nat>
    ghost var role: seq<Role>
    ghost var node: map<Place, nat>

    ghost function St(): State
      reads this
    {
      State(lo, pages, freelist, free, role, node)
    }

    // kinit: every page between the kernel's end and PHYSTOP goes on the free list.
    constructor (end: nat, contents: seq<Page>)
      requires 0 < end <= HI * PGSIZE
      requires |contents| == HI && forall p: nat :: p < HI ==> |contents[p]| == ENTRIES
      ensures Inv(St()) && lo == Up(end) && node == map[]
      ensures forall p: nat :: p < HI ==> if lo <= p then role[p].Free? else role[p].Other?
      ensures |free| == HI - lo
    {
      lo := Up(end);
      pages := contents;
      freelist := 0;
      free := [];
      role := seq(HI, _ => Other);
      node := map[];
      new;
      var p := lo;
      while (p + 1) * PGSIZE <= HI * PGSIZE
        invariant lo <= p <= HI && Inv(St()) && node == map[]
        invariant forall q: nat :: q < HI ==> if lo <= q < p then role[q].Free? else role[q].Other?
        invariant |free| == p - lo
      {
        Kfree(p, {});
        p := p + 1;
      }
    }

    // Take a page off the free list; 0 when there is none.
    method Kalloc() returns (p: nat)
      requires Inv(St())
      modifies this
      ensures Inv(St()) && SameWords(old(St()), St())
      ensures old(free) == [] ==> p == 0 && St() == old(St())
      ensures old(free) != [] ==>
        && p == old(free)[|old(free)| - 1] && p < HI && St() == PopPage(old(St())) && Managed(St(), p)
    {
      ghost var s := St();
      if free != [] { PopOk(s, {}); }
      p := freelist / PGSIZE;
      if p != 0 {
        freelist := pages[p][0];
        pages := pages[p := Fill(ALLOCATED)];
        free := free[..|free| - 1];
        role := role[p := Other];
      }
    }

    // Put a page on the free list.
    method Kfree(p: nat, ghost cut: set<Place>)
      requires InvBut(St(), cut) && Managed(St(), p) && (role[p].Other? || role[p].Frame?)
      modifies this
      ensures InvBut(St(), cut) && SameWords(old(St()), St())
      ensures St() == PushPage(old(St()), p)
    {
      ghost var s := St();
      PushOk(s, p, cut);
      pages := pages[p := Fill(FREED)];
      pages := pages[p := With(pages[p], 0, freelist)];
      freelist := p * PGSIZE;
      role := role[p := Free(|free|)];
      free := free + [p];
      assert St() == PushPage(s, p);
    }

    // Hook a fresh empty table under entry i of the table at p.
    method AddLevel(ghost r: nat, ghost v: nat, level: nat, p: nat, i: nat) returns (q: nat)
      requires Inv(St()) && 1 <= level <= 2 && Reached(St(), r, v, level, p) && i == Index(level, v) && v < PAGES
      requires Place(r, Prefix(v, 3 - level)) !in node
      modifies this
      ensures Inv(St()) && SameWords(old(St()), St()) && Kept(old(St()), St())
      ensures if q == 0 then St() == old(St()) && free == [] else Reached(St(), r, v, level - 1, q)
      ensures Paid(old(St()), St(), {Place(r, Prefix(v, 3 - level))}, 0)
    {
      hide FreeOk, NodeOk, Edges, FramesOk, Kept, SameWords, Prefix, Depth, Mk;
      ghost var s := St();
      Below(s, r, v, level, p);
      ghost var at, c := Place(r, Prefix(v, 2 - level)), Place(r, Prefix(v, 3 - level));
      if free != [] { NewTableOk(s, at, i); }
      MapsNone(s, 0, 0, 0, 0);
      q := Kalloc();
      if q != 0 {
        pages := pages[q := Fill(0)];
        pages := pages[p := With(pages[p], i, Mk(q, 1))];
        role := role[q := Table(c)];
        node := node[c := q];
        assert node.Keys - s.node.Keys == {c};
      } else {
        assert node.Keys - s.node.Keys == {};
      }
    }

    // The entry for va in the tree at r, creating missing tables if asked to.
    method Walk(r: nat, va: nat, alloc: bool) returns (pte: Ptr)
      requires Inv(St()) && Tree(St(), r) && va < MAXVA
      modifies this
      ensures Inv(St()) && Walked(old(St()), St(), r, va / PGSIZE)
      ensures pte.Ptr? ==> Points(St(), r, va / PGSIZE, pte)
      ensures !alloc ==> St() == old(St()) && (pte.Null? <==> Low(r, va / PGSIZE) !in node)
      ensures alloc && pte.Ptr? ==> Needed(r, va / PGSIZE, 1) <= node.Keys
      ensures alloc && pte.Null? ==> free == []
      ensures alloc ==> (pte.Ptr? <==> |old(free)| >= |Lacks(old(St()), r, va / PGSIZE, 1)|)
    {
      hide FreeOk, NodeOk, Edges, FramesOk, SameWords, Kept, Prefix, Needed, Paid, Walked, Px;
      ghost var s := St();
      ghost var v := va / PGSIZE;
      TwoNeeded(r, v);
      WalkStart(s, r, v);
      var pagetable, level := r, 2;
      pte := Null;
      while level > 0
        invariant 0 <= level <= 2
        invariant Inv(St()) && Walked(s, St(), r, v)
        invariant Reached(St(), r, v, level, pagetable) && (level <= 1 ==> Place(r, Prefix(v, 1)) in node)
        invariant !alloc ==> St() == s
      {
        var i := Px(level, va);
        PxIndex(level, va);
        Below(St(), r, v, level, pagetable);
        var w := pages[pagetable][i];
        if Valid(w) {
          pagetable := Ppn(w);
        } else {
          if !alloc {
            Missing(St(), r, v, level - 1);
            return;
          }
          ghost var u, c := St(), Place(r, Prefix(v, 3 - level));
          pagetable := AddLevel(r, v, level, pagetable, i);
          WalkedMore(s, u, St(), r, v, c);
          if pagetable == 0 {
            WalkedShort(s, u, r, v, c);
            return;
          }
        }
        level := level - 1;
      }
      WalkedThrough(s, St(), r, v);
      PxIndex(0, va);
      pte := Ptr(pagetable, Px(0, va));
    }

    // One turn of mappages' loop.
    method MapOne(r: nat, a: nat, p: nat, perm: nat) returns (end: MapEnd)
      requires Inv(St()) && Tree(St(), r) && perm < 1024 && Leaf(perm)
      modifies this
      ensures Inv(St()) && Tree(St(), r)
      ensures Mapping(old(St()), St(), r, a / PGSIZE, if end.Mapped? then 1 else 0, p, WithV(perm), end)
    {
      hide FreeOk, NodeOk, Edges, FramesOk, SameWords, Kept, Needed, Paid;
      ghost var s := St();
      ghost var v := a / PGSIZE;
      MapsNone(s, r, v, p, WithV(perm));
      LacksNothing(s, r, v);
      if a >= MAXVA {
        return Panic;      // walk
      }
      var pte := Walk(r, a, true);
      ghost var u := St();
      SlotsSame(s, u);
      KeptTrees(s, u);
      if pte.Null? {
        if Valid(Slot(s, r, v)) { NothingLacks(s, r, v); }
        return NoMemory;
      }
      LowPage(u, r, v);
      if Valid(pages[pte.page][pte.index]) {
        return Panic;      // mappages: remap
      }
      var w := Mk(p, WithV(perm));
      WithVOk(perm);
      MkParts(p, WithV(perm));
      Unowned(u, r, v);
      PutSlotOk(u, r, v, w);
      pages := pages[pte.page := With(pages[pte.page], pte.index, w)];
      KeptTrans(s, u, St());
      SamePaid(s, u, St(), Needed(r, v, 1), 0);
      end := Mapped;
    }

    // Map the pages of [va, va + size) to consecutive pages from p.  perm has R, W
    // or X: an entry without them would name a table.  k pages were mapped.
    method Mappages(r: nat, va: nat, size: nat, p: nat, perm: nat) returns (end: MapEnd, ghost k: nat)
      requires Inv(St()) && Tree(St(), r) && perm < 1024 && Leaf(perm)
      modifies this
      ensures Inv(St()) && Tree(St(), r)
      ensures size == 0 ==> end.Panic? && St() == old(St())
      ensures size > 0 ==> Mapping(old(St()), St(), r, va / PGSIZE, k, p, WithV(perm), end)
      ensures size > 0 ==> k <= Count(va, size) && (end.Mapped? <==> k == Count(va, size))
      ensures end.Mapped? <==>
        && size > 0 && AllOpen(old(St()), r, va / PGSIZE, Count(va, size))
        && |old(free)| >= |Lacks(old(St()), r, va / PGSIZE, Count(va, size))|
    {
      hide FreeOk, NodeOk, Edges, FramesOk, Tree, WithV, Leaf, Mapping, AllOpen, Lacks;
      ghost var s := St();
      ghost var v := va / PGSIZE;
      MappingNone(s, r, v, p, WithV(perm));
      if size == 0 {
        return Panic, 0;      // mappages: size
      }
      var a := va / PGSIZE * PGSIZE;
      var last := (va + size - 1) / PGSIZE * PGSIZE;
      var q := p;
      end, k := Mapped, 0;
      var going := true;
      while going
        invariant Inv(St()) && Tree(St(), r)
        invariant a == (v + k) * PGSIZE && q == p + k
        invariant if going then end.Mapped? && a <= last else if end.Mapped? then a == last + PGSIZE else a <= last
        invariant Mapping(s, St(), r, v, k, p, WithV(perm), end)
        decreases going, last - a
      {
        ghost var u := St();
        PageOf(v + k);
        end := MapOne(r, a, q, perm);
        MappingNext(s, u, St(), r, v, k, p, WithV(perm), end);
        going := end.Mapped? && a != last;
        if end.Mapped? {
          a := a + PGSIZE;
          q := q + 1;
          k := k + 1;
        }
      }
      MappingExact(s, St(), r, v, k, p, WithV(perm), end, Count(va, size));
    }

    // One turn of uvmunmap's loop.
    method UnmapOne(r: nat, a: nat, doFree: bool) returns (panic: bool)
      requires Inv(St()) && Tree(St(), r) && Removable(St(), r, a / PGSIZE, 1, doFree)
      modifies this
      ensures panic <==> !Present(old(St()), r, a / PGSIZE)
      ensures panic ==> St() == old(St())
      ensures !panic ==> Inv(St()) && node == old(node) && Unmaps(old(St()), St(), r, a / PGSIZE, 1)
      ensures !panic ==> Freed(old(St()), St(), r, a / PGSIZE, if doFree then 1 else 0)
    {
      hide FreeOk, NodeOk, Edges, FramesOk, Unmaps, Freed, SameWords, Kept;
      ghost var s := St();
      ghost var v := a / PGSIZE;
      if a >= MAXVA {
        return true;      // walk
      }
      var pte := Walk(r, a, false);
      if Valid(Slot(s, r, v)) { SlotTable(s, r, v); }
      if pte.Null? {
        return true;      // uvmunmap: walk
      }
      LowPage(s, r, v);
      var w := pages[pte.page][pte.index];
      if !Valid(w) {
        return true;      // uvmunmap: not mapped
      }
      if Flags(w) == 1 {
        assert false;     // uvmunmap: not a leaf
      }
      assert Present(s, r, v);
      if doFree {
        FreeSlotOk(s, r, v);
        FreeSlotFrees(s, r, v);
        Kfree(Ppn(w), {});
        pages := pages[pte.page := With(pages[pte.page], pte.index, 0)];
        assert St() == FreeSlot(s, r, v);
      } else {
        ClearSlotOk(s, r, v);
        pages := pages[pte.page := With(pages[pte.page], pte.index, 0)];
        assert St() == PutSlot(s, r, v, 0);
      }
      panic := false;
    }

    // Clear the entries of npages pages from va, freeing the frames or, for pages
    // that the tree maps without owning them, leaving them alone.  k pages were done.
    method Uvmunmap(r: nat, va: nat, npages: nat, doFree: bool) returns (panic: bool, ghost k: nat)
      requires Inv(St()) && Tree(St(), r) && Removable(St(), r, va / PGSIZE, npages, doFree)
      modifies this
      ensures Inv(St()) && node == old(node) && Unmaps(old(St()), St(), r, va / PGSIZE, k)
      ensures Freed(old(St()), St(), r, va / PGSIZE, if doFree then k else 0)
      ensures panic <==> va % PGSIZE != 0 || !AllPresent(old(St()), r, va / PGSIZE, npages)
      ensures k <= npages && AllPresent(old(St()), r, va / PGSIZE, k) && (!panic ==> k == npages)
      ensures panic ==> va % PGSIZE != 0 || (k < npages && !Present(old(St()), r, va / PGSIZE + k))
    {
      hide FreeOk, NodeOk, Edges, FramesOk, Slot, Unmaps, Freed, Mine, Lent;
      ghost var s := St();
      ghost var v := va / PGSIZE;
      UnmapsNone(s, r, v);
      panic, k := va % PGSIZE != 0, 0;      // uvmunmap: not aligned
      var a := va;
      while !panic && a < va + npages * PGSIZE
        invariant Inv(St()) && node == s.node && k <= npages && (a == (v + k) * PGSIZE || va % PGSIZE != 0)
        invariant Unmaps(s, St(), r, v, k) && Freed(s, St(), r, v, if doFree then k else 0) && AllPresent(s, r, v, k)
        invariant panic ==> va % PGSIZE != 0 || (k < npages && !Present(s, r, v + k))
        invariant va % PGSIZE != 0 ==> panic && k == 0
        decreases !panic, va + npages * PGSIZE - a
      {
        ghost var u := St();
        PageOf(v + k);
        StillThere(s, u, r, v, k, npages, doFree);
        panic := UnmapOne(r, a, doFree);
        if !panic {
          UnmapsMore(s, u, St(), r, v, k);
          if doFree {
            FreedMore(s, u, St(), r, v, k, 1);
          } else {
            FreedNone(s, u, St(), r, v, v + k);
          }
          a := a + PGSIZE;
          k := k + 1;
        }
      }
    }

    // Map the page just taken off the list, or put it back.
    method MapTaken(r: nat, v: nat, mem: nat, perm: nat, ghost s: State, ghost page: Page) returns (ok: bool)
      requires Inv(s) && |s.free| > 0 && |page| == ENTRIES && FreeAt(s, |s.free| - 1) && Tree(s, r)
      requires St() == Taken(s, page) && mem == s.free[|s.free| - 1] && Inv(St())
      requires v < PAGES && perm < 1024 && Leaf(perm) && !Valid(Slot(St(), r, v))
      modifies this
      ensures Inv(St()) && Tree(St(), r)
      ensures if ok then Bought(s, St(), r, v, WithV(perm), page) else Undone(s, St())
      ensures !ok ==> |s.free| < Cost(s, r, v, 1) && Local(s, St(), r)
    {
      hide FreeOk, NodeOk, Edges, FramesOk, Slot, Leaf, Kept, Maps, WithV, Added, Undone, Valid, SameWords;
      hide Needed, Paid;
      WithVOk(perm);
      Aligned(v);
      TakenPaid(s, page);
      ghost var u := St();
      var end;
      ghost var k;
      end, k := Mappages(r, v * PGSIZE, PGSIZE, mem, perm);
      ok := end.Mapped?;
      if ok {
        ghost var t := St();
        PaidThen(s, u, t, {}, 1, Needed(r, v, 1), 0);
        assert {} + Needed(r, v, 1) == Needed(r, v, 1);
        FreshMapped(s, page, t, r, v, WithV(perm));
        role := role[mem := Frame(Home(r, v))];
        SamePaid(s, t, St(), Needed(r, v, 1), 1);
      } else {
        PaidLocal(u, St(), r, v, 1, 0);
        FreshFailed(s, page, St(), r, v, WithV(perm));
        Kfree(mem, {});
      }
    }

    // Allocate a page, clear it or copy page `from` into it, and map it at a;
    // free it again when mappages fails.
    method MapFresh(r: nat, v: nat, from: nat, perm: nat) returns (ok: bool)
      requires Inv(St()) && Tree(St(), r) && v < PAGES && perm < 1024 && Leaf(perm)
      requires !Valid(Slot(St(), r, v)) && (from == 0 || (from < HI && role[from].Frame?))
      modifies this
      ensures Inv(St()) && Tree(St(), r)
      ensures if ok then Bought(old(St()), St(), r, v, WithV(perm), Content(old(St()), from)) else Undone(old(St()), St())
      ensures !ok ==> |old(free)| < Cost(old(St()), r, v, 1) && Local(old(St()), St(), r)
    {
      hide FreeOk, NodeOk, Edges, FramesOk, Slot, Leaf, Kept, Maps, WithV, Bought, Valid, SameWords, Lacks;
      ghost var s := St();
      ghost var page := Content(s, from);
      if free != [] { TakenOk(s, page); }
      MapsNone(s, r, v, 0, 0);
      assert Undone(s, s);
      WithVOk(perm);
      Aligned(v);
      ok := false;
      var mem := Kalloc();
      if mem != 0 {
        pages := pages[mem := if from == 0 then Fill(0) else pages[from]];
        ok := MapTaken(r, v, mem, perm, s, page);
      }
    }

    // Shrink from oldsz to newsz bytes.  k pages were freed.
    method Uvmdealloc(r: nat, oldsz: nat, newsz: nat) returns (sz: nat, panic: bool, ghost k: nat)
      requires Inv(St()) && Tree(St(), r) && Removable(St(), r, Up(newsz), Span(newsz, oldsz), true)
      modifies this
      ensures Inv(St()) && node == old(node)
      ensures panic <==> DeallocPanics(old(St()), r, oldsz, newsz)
      ensures !panic ==> sz == (if newsz < oldsz then newsz else oldsz) && k == Span(newsz, oldsz)
      ensures panic ==> k < Span(newsz, oldsz) && !Present(old(St()), r, Up(newsz) + k)
      ensures Unmaps(old(St()), St(), r, Up(newsz), k) && Freed(old(St()), St(), r, Up(newsz), k)
    {
      hide FreeOk, NodeOk, Edges, FramesOk, Slot, Unmaps, Freed, Mine;
      UnmapsNone(St(), r, Up(newsz));
      sz, panic, k := oldsz, false, 0;
      if newsz < oldsz {
        if Up(newsz) * PGSIZE < Up(oldsz) * PGSIZE {
          var npages := (Up(oldsz) * PGSIZE - Up(newsz) * PGSIZE) / PGSIZE;
          PageOf(Up(newsz));
          PageOf(Up(oldsz) - Up(newsz));
          panic, k := Uvmunmap(r, Up(newsz) * PGSIZE, npages, true);
        }
        sz := newsz;
      }
    }

    // uvmalloc's loop, for a process of v pages.
    method Grow(r: nat, v: nat, newsz: nat, xperm: nat) returns (ok: bool)
      requires Inv(St()) && Tree(St(), r) && Sized(St(), r, v)
      requires xperm % 4 == 0 && xperm < 16
      modifies this
      ensures Inv(St()) && Tree(St(), r)
      ensures var n := if v < Up(newsz) then Up(newsz) - v else 0;
        if ok then Grown(old(St()), St(), r, v, n, 0, 19 + xperm)
        else Rolled(old(St()), St(), r) && |old(free)| < Cost(old(St()), r, v, n)
    {
      hide FreeOk, NodeOk, Edges, FramesOk, Slot, Mine, Grown, Bought, Undone, Rolled, SameWords, Sized, Tree, Local;
      hide Leaf, WithV, Valid, Cost;
      ghost var s := St();
      ghost var f := 19 + xperm;
      ghost var n := if v < Up(newsz) then Up(newsz) - v else 0;
      var perm := 18 + xperm;      // PTE_R | PTE_U | xperm
      GrownNone(s, r, v, 0, f);
      UserFlags(xperm);
      ok := true;
      ghost var k: nat := 0;
      var a := v * PGSIZE;
      while a < newsz && ok
        invariant Inv(St()) && Tree(St(), r) && k <= n && a == (v + k) * PGSIZE
        invariant if ok then Grown(s, St(), r, v, k, 0, f) else Rolled(s, St(), r)
        invariant !ok ==> |s.free| < Cost(s, r, v, n)
        decreases ok, newsz - a
      {
        ghost var u := St();
        GrownBuilt(s, u, r, v, k, 0, f);
        Room(s, u, r, v, k, f);
        PageOf(v + k);
        PageInside(v + k, newsz);
        ok := MapFresh(r, a / PGSIZE, 0, perm);
        if ok {
          GrownMore(s, u, St(), r, v, k, 0, f);
          a := a + PGSIZE;
          k := k + 1;
        } else {
          GrownShort(s, u, r, v, k, 0, f, n);
          GrownLocal(s, u, r, v, k, 0, f);
          LocalThen(s, u, St(), r);
          GiveUp(r, a, v, s, u, k, f);
        }
      }
      PageInside(v + k, newsz);
    }

    // uvmalloc's way out: free the pages added so far.
    method GiveUp(r: nat, a: nat, v: nat, ghost s: State, ghost u: State, ghost k: nat, ghost f: nat)
      requires Inv(St()) && Tree(St(), r) && a == (v + k) * PGSIZE && Inv(s) && Shape(u) && Sized(s, r, v)
      requires Built(s, u, r, v, k, 0, f) && Undone(u, St()) && v + k <= HI && Local(s, St(), r)
      modifies this
      ensures Inv(St()) && Tree(St(), r) && Rolled(s, St(), r)
    {
      hide FreeOk, NodeOk, Edges, FramesOk, Sized, Built, SameMap, Kept, Slot, Mine, Undone;
      ghost var t := St();
      BuiltThenUndone(s, u, t, r, v, k, 0, f);
      BuiltMine(s, t, r, v, k, 0, f);
      Spans(v, k);
      VacantAbove(s, r, v, k);
      MineRemovable(t, r, v, k);
      var _, _, _ := Uvmdealloc(r, a, v * PGSIZE);
      RolledBack(s, t, St(), r, v, k);
    }

    // Grow from oldsz to newsz bytes; ok tells success from failure also when newsz is 0.
    method Uvmalloc(r: nat, oldsz: nat, newsz: nat, xperm: nat) returns (sz: nat, ghost ok: bool)
      requires Inv(St()) && Tree(St(), r) && Sized(St(), r, Up(oldsz))
      requires xperm % 4 == 0 && xperm < 16      // some of PTE_W and PTE_X
      modifies this
      ensures Inv(St()) && Tree(St(), r)
      ensures newsz < oldsz ==> ok && sz == oldsz && St() == old(St())
      ensures newsz >= oldsz && ok ==>
        && sz == newsz && Sized(St(), r, Up(newsz))
        && Grown(old(St()), St(), r, Up(oldsz), Span(oldsz, newsz), 0, 19 + xperm)
      ensures newsz >= oldsz && !ok ==> sz == 0 && Rolled(old(St()), St(), r)
      ensures ok <==> newsz < oldsz || |old(free)| >= Cost(old(St()), r, Up(oldsz), Span(oldsz, newsz))
    {
      hide FreeOk, NodeOk, Edges, FramesOk, Sized, Grown, Rolled, Tree, Cost;
      ghost var s := St();
      ok := true;
      sz := oldsz;
      if newsz >= oldsz {
        Rounding(oldsz, newsz);
        var grown := Grow(r, Up(oldsz), newsz, xperm);
        ok := grown;
        sz := if grown then newsz else 0;
        if ok {
          GrownBuilt(s, St(), r, Up(oldsz), Up(newsz) - Up(oldsz), 0, 19 + xperm);
          GrownEnough(s, St(), r, Up(oldsz), Up(newsz) - Up(oldsz), 0, 19 + xperm);
          Resized(s, St(), r, Up(oldsz), Up(newsz) - Up(oldsz), 19 + xperm);
        }
      }
    }

    // Free the tables at and below place `at`, which is the page p.
    method Freewalk(p: nat, ghost at: Place, ghost cut: set<Place>)
      requires InvBut(St(), cut) && at in node && node[at] == p && Bare(St(), at)
      requires at.path.Nil? || at in cut
      requires forall c :: c in cut ==> Depth(c.path) <= Depth(at.path)
      modifies this
      ensures InvBut(St(), cut) && at !in node && Pruned(old(St()), St(), at)
      decreases 3 - Depth(at.path)
    {
      ghost var s := St();
      assert NodeAt(s, at);
      PrunedNone(s, at);
      var i := 0;
      while i < ENTRIES
        invariant i <= ENTRIES && InvBut(St(), cut) && at in node && node[at] == p
        invariant Pruned(s, St(), at) && Bare(St(), at) && Cleared(St(), at, i)
      {
        FreeEntry(p, i, at, cut, s);
        i := i + 1;
      }
      ghost var u := St();
      DropTableOk(u, at, cut);
      PrunedSelf(s, u, at);
      role := role[p := Other];
      node := node - {at};
      Kfree(p, cut);
    }

    // One turn of freewalk's loop.
    method FreeEntry(p: nat, i: nat, ghost at: Place, ghost cut: set<Place>, ghost s: State)
      requires InvBut(St(), cut) && at in node && node[at] == p && i < ENTRIES && Shape(s)
      requires forall c :: c in cut ==> Depth(c.path) <= Depth(at.path)
      requires Pruned(s, St(), at) && Bare(St(), at) && Cleared(St(), at, i)
      requires Depth(at.path) <= 2
      modifies this
      ensures InvBut(St(), cut) && at in node && node[at] == p
      ensures Pruned(s, St(), at) && Bare(St(), at) && Cleared(St(), at, i + 1)
      decreases 3 - Depth(at.path), 0
    {
      ghost var u, c := St(), Child(at, i);
      EntryKind(u, at, i, cut);
      var pte := pages[p][i];
      if Valid(pte) && !Leaf(pte) {
        CutChild(u, at, i, cut);
        BareChild(u, at, i);
        Freewalk(Ppn(pte), c, cut + {c});
        ghost var t := St();
        PrunedChild(s, u, t, at, i);
        ChildGone(u, t, at, i);
        EntryCleared(s, t, at, i);
        ClearEdgeOk(t, at, i, cut);
        pages := pages[p := With(pages[p], i, 0)];
      } else if Valid(pte) {
        assert false;    // freewalk: leaf
      }
    }

    // Free the pages of a process of sz bytes and then its page table.
    method Uvmfree(r: nat, sz: nat)
      requires Inv(St()) && Tree(St(), r) && AllMine(St(), r, 0, Up(sz))
      requires forall x: nat :: Up(sz) <= x < PAGES ==> !Valid(Slot(St(), r, x))
      modifies this
      ensures Inv(St()) && !Tree(St(), r) && Released(old(St()), St(), r)
    {
      hide FreeOk, NodeOk, Edges, FramesOk, Slot, Freed, Unmaps, Mine, AllMine, Released, Pruned;
      ghost var s := St();
      Pigeonhole(s, r, Up(sz));
      UnmapsNone(s, r, 0);
      RootPage(s, r);
      if sz > 0 {
        MineRemovable(s, r, 0, Up(sz));
        var _, _ := Uvmunmap(r, 0, Up(sz), true);
      }
      ghost var u := St();
      NowVacant(s, u, r, Up(sz));
      VacantBare(u, r);
      Freewalk(r, Place(r, Nil), {});
      ReleasedAll(s, u, St(), r, Up(sz));
    }

    // A new empty tree; 0 when there is no memory.
    method Uvmcreate() returns (r: nat)
      requires Inv(St())
      modifies this
      ensures Inv(St())
      ensures r == 0 ==> St() == old(St()) && free == []
      ensures r != 0 ==> Tree(St(), r) && !Tree(old(St()), r) && AllVacant(St(), r)
      ensures r != 0 ==> Undone(old(St()), St()) && |free| == |old(free)| - 1 && node == old(node)[Place(r, Nil) := r]
    {
      hide FreeOk, NodeOk, Edges, FramesOk, Undone, AllVacant;
      ghost var s := St();
      if free != [] { CreateOk(s); }
      r := Kalloc();
      if r != 0 {
        pages := pages[r := Fill(0)];
        role := role[r := Table(Place(r, Nil))];
        node := node[Place(r, Nil) := r];
      }
    }

    // Copy the first sz bytes of the parent's address space into the child's.
    method Uvmcopy(parent: nat, child: nat, sz: nat) returns (ok: bool)
      requires Inv(St()) && Tree(St(), parent) && Tree(St(), child) && parent != child
      requires AllMine(St(), parent, 0, Up(sz)) && Vacant(St(), child, 0, Up(sz))
      modifies this
      ensures Inv(St()) && Tree(St(), child) && Tree(St(), parent)
      ensures if ok then Grown(old(St()), St(), child, 0, Up(sz), parent, 0) else Rolled(old(St()), St(), child)
      ensures ok <==> |old(free)| >= Cost(old(St()), child, 0, Up(sz))
    {
      hide FreeOk, NodeOk, Edges, FramesOk, Slot, Mine, Grown, SameMap, Kept, Tree, Cost, Local;
      ghost var s := St();
      GrownNone(s, child, 0, parent, 0);
      Pigeonhole(s, parent, Up(sz));
      ok := true;
      var i := 0;
      ghost var k: nat := 0;
      while i < sz && ok
        invariant Inv(St()) && i == k * PGSIZE && k <= Up(sz)
        invariant if ok then Grown(s, St(), child, 0, k, parent, 0) else Rolled(s, St(), child)
        invariant !ok ==> |s.free| < Cost(s, child, 0, Up(sz))
        decreases ok, sz - i
      {
        PageInside(k, sz);
        ok := CopyOne(parent, child, i, s, k, Up(sz));
        if ok {
          i := i + PGSIZE;
          k := k + 1;
        }
      }
      if ok {
        PageInside(k, sz);
        GrownBuilt(s, St(), child, 0, k, parent, 0);
        BuiltTrees(s, St(), child, k, parent);
        GrownEnough(s, St(), child, 0, k, parent, 0);
      } else {
        KeptTrees(s, St());
      }
    }

    // One turn of uvmcopy's loop.
    method CopyOne(parent: nat, child: nat, i: nat, ghost s: State, ghost k: nat, ghost n: nat) returns (ok: bool)
      requires Inv(St()) && Inv(s) && Tree(s, parent) && Tree(s, child) && parent != child && k < n <= PAGES
      requires AllMine(s, parent, 0, n) && Vacant(s, child, 0, n) && i == k * PGSIZE
      requires Grown(s, St(), child, 0, k, parent, 0)
      modifies this
      ensures Inv(St())
      ensures if ok then Grown(s, St(), child, 0, k + 1, parent, 0) else Rolled(s, St(), child)
      ensures !ok ==> |s.free| < Cost(s, child, 0, n)
    {
      hide FreeOk, NodeOk, Edges, FramesOk, Slot, Mine, Grown, Bought, Undone, SameMap, Kept, Grew, SameWords;
      hide Ppn, Flags, WithV, Leaf, Valid, WantFlags, WantPage, Content, Cost, Local;
      ghost var u := St();
      GrownBuilt(s, u, child, 0, k, parent, 0);
      CopySource(s, u, parent, child, k, n);
      PageOf(k);
      BuiltTrees(s, u, child, k, parent);
      var pte := Walk(parent, i, false);
      var w := pages[pte.page][pte.index];
      ok := MapFresh(child, i / PGSIZE, Ppn(w), Flags(w));
      if ok {
        GrownMore(s, u, St(), child, 0, k, parent, 0);
      } else {
        GrownShort(s, u, child, 0, k, parent, 0, n);
        GrownLocal(s, u, child, 0, k, parent, 0);
        LocalThen(s, u, St(), child);
        CopyFailed(child, i, s, u, parent, k);
      }
    }

    method CopyFailed(child: nat, i: nat, ghost s: State, ghost u: State, ghost parent: nat, ghost k: nat)
      requires Inv(St()) && Tree(St(), child) && i == k * PGSIZE && Inv(s) && Shape(u) && k <= PAGES
      requires Vacant(s, child, 0, k) && Built(s, u, child, 0, k, parent, 0) && Undone(u, St()) && Local(s, St(), child)
      modifies this
      ensures Inv(St()) && node == old(node) && Rolled(s, St(), child)
    {
      hide FreeOk, NodeOk, Edges, FramesOk, Built, SameMap, Kept, Slot, Mine, Undone;
      ghost var t := St();
      BuiltThenUndone(s, u, t, child, 0, k, parent, 0);
      BuiltMine(s, t, child, 0, k, parent, 0);
      PageOf(k);
      MineRemovable(t, child, 0, k);
      var _, _ := Uvmunmap(child, 0, i / PGSIZE, true);
      RolledBack(s, t, St(), child, 0, k);
    }
  }

  /** A process of one page, shrunk to nothing with the old size given as two
      pages: the kernel panics, although the old size may be larger than the
      process is said to be. */
  method DeallocTooLarge(contents: seq<Page>) returns (sz: nat, panic: bool)
    requires |contents| == HI && forall p: nat :: p < HI ==> |contents[p]| == ENTRIES
    ensures sz == PGSIZE && panic
  {
    hide FreeOk, NodeOk, Edges, FramesOk, Cost, Undone, Grown, Slot;
    var m := new Memory(PGSIZE, contents);
    var r := m.Uvmcreate();
    EmptySized(m.St(), r);
    CostBound(m.St(), r, 0, 1);
    ghost var ok;
    sz, ok := m.Uvmalloc(r, 0, PGSIZE, 4);
    ghost var s := m.St();
    DeallocSafe(s, r, 1, 2 * PGSIZE, 0);
    OneRemovable(s, r);
    var left;
    ghost var k;
    left, panic, k := m.Uvmdealloc(r, 2 * PGSIZE, 0);
  }

  lemma EmptySized(s: State, r: nat)
    requires Shape(s) && AllVacant(s, r)
    ensures Sized(s, r, 0)
  {
  }

  lemma OneRemovable(s: State, r: nat)
    requires Shape(s) && Sized(s, r, 1)
    ensures Removable(s, r, 0, 2, true)
  {
    assert Mine(s, r, 0);
  }

  // What the operations mean to the MMU ------------------------------------------------

  // A tree walk changed no translation.
  lemma MmuSame(s: State, t: State, r: nat, v: nat)
    requires Inv(s) && Inv(t) && Tree(s, r) && Tree(t, r) && SameWords(s, t)
    ensures MmuEntry(t.pages, r, v) == MmuEntry(s.pages, r, v)
  {
    SlotsSame(s, t);
    MmuReadsSlot(s, r, v);
    MmuReadsSlot(t, r, v);
  }

  /** After mappages the MMU finds the requested range at the requested pages,
      and in every tree every other page where it was. */
  lemma MmuMaps(s: State, t: State, r: nat, v: nat, n: nat, p: nat, f: nat, r': nat, v': nat)
    requires Inv(s) && Inv(t) && Maps(s, t, r, v, n, p, f) && Tree(s, r') && Tree(t, r') && v' < PAGES
    ensures MmuEntry(t.pages, r', v') ==
      if r' == r && v <= v' < v + n then Mk(p + (v' - v), f) else MmuEntry(s.pages, r', v')
  {
    MmuReadsSlot(s, r', v');
    MmuReadsSlot(t, r', v');
  }

  /** After uvmunmap the MMU finds nothing in the range, and every other page where it was. */
  lemma MmuUnmaps(s: State, t: State, r: nat, v: nat, n: nat, r': nat, v': nat)
    requires Inv(s) && Inv(t) && Unmaps(s, t, r, v, n) && Tree(s, r') && Tree(t, r') && v' < PAGES
    ensures MmuEntry(t.pages, r', v') == if r' == r && v <= v' < v + n then 0 else MmuEntry(s.pages, r', v')
  {
    MmuReadsSlot(s, r', v');
    MmuReadsSlot(t, r', v');
  }

  /** After a successful uvmcopy the MMU finds each page of the parent in the
      child with the same flags and the same bytes in another frame, and the
      parent's pages unchanged. */
  lemma MmuCopies(s: State, t: State, parent: nat, child: nat, n: nat, x: nat)
    requires Inv(s) && Inv(t) && Tree(s, parent) && Tree(t, parent) && Tree(t, child) && parent != child
    requires AllMine(s, parent, 0, n) && Built(s, t, child, 0, n, parent, 0) && x < n <= PAGES
    ensures var theirs, mine, was :=
        MmuEntry(t.pages, child, x), MmuEntry(t.pages, parent, x), MmuEntry(s.pages, parent, x);
      && mine == was && Flags(theirs) == Flags(was)
      && Ppn(theirs) < HI && Ppn(was) < HI && Ppn(theirs) != Ppn(was)
      && t.pages[Ppn(theirs)] == s.pages[Ppn(was)] && t.pages[Ppn(was)] == s.pages[Ppn(was)]
  {
    MmuReadsSlot(t, child, x);
    MmuReadsSlot(t, parent, x);
    MmuReadsSlot(s, parent, x);
    assert Mine(s, parent, x);
    BuiltElse(s, t, child, 0, n, parent, 0, parent, x);
    BuiltMine(s, t, child, 0, n, parent, 0);
    HomeUnique(parent, x, child, x);
    var p := Ppn(Slot(s, parent, x));
    assert Owned(s, p);
    assert Holds(t, child, x, WantFlags(s, parent, 0, x), WantPage(s, parent, x));
  }

  /** The free list, the page tables and the frames of user pages share no page:
      free pages are listed once, each table sits at one place of one tree, and
      each frame belongs to one virtual page. */
  lemma Partition(s: State)
    requires Inv(s)
    ensures forall j: nat, k: nat :: j < k < |s.free| ==> s.free[j] != s.free[k]
    ensures forall at, at' :: at in s.node && at' in s.node && at != at' ==> s.node[at] != s.node[at']
    ensures forall at :: at in s.node ==> s.node[at] !in s.free
    ensures forall r: nat, v: nat :: v < PAGES && Mine(s, r, v) ==>
      Ppn(Slot(s, r, v)) !in s.free && Ppn(Slot(s, r, v)) !in s.node.Values
    ensures forall r: nat, v: nat, r': nat, v': nat ::
      v < PAGES && v' < PAGES && Mine(s, r, v) && Mine(s, r', v') && !(r == r' && v == v') ==>
      Ppn(Slot(s, r, v)) != Ppn(Slot(s, r', v'))
  {
    forall j: nat, k: nat | j < k < |s.free| ensures s.free[j] != s.free[k] {
      assert FreeAt(s, j) && FreeAt(s, k);
    }
    forall k: nat | k < |s.free| ensures s.free[k] < HI && s.role[s.free[k]].Free? {
      assert FreeAt(s, k);
    }
    forall at | at in s.node ensures s.node[at] < HI && s.role[s.node[at]] == Table(at) {
      assert NodeAt(s, at);
    }
    forall r: nat, v: nat, r': nat, v': nat |
      v < PAGES && v' < PAGES && Mine(s, r, v) && Mine(s, r', v') && !(r == r' && v == v')
      ensures Ppn(Slot(s, r, v)) != Ppn(Slot(s, r', v'))
    {
      HomeUnique(r, v, r', v');
    }
  }
}

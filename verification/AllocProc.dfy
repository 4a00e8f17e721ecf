/**
 * allocproc, proc_pagetable, freeproc, proc_freepagetable and fork of proc.c over
 * the physical memory of Vm: which pages a process slot takes, and gives back.
 */
module AllocProc {
  import opened PageState
  import opened PageSteps
  import opened PageRuns
  import opened PageBudget
  import opened PageHands
  import opened PagePrune
  import opened Common
  import opened Vm

  const TRAMPOLINE := PAGES - 1      // virtual page of the trampoline

  // The flags of the two pages, with V: R and X, R and W.
  const RX := 11
  const RW := 7

  /** How allocproc leaves the slot it found. */
  datatype End =
    | Filled        // with all it needs
    | Emptied       // unused again
    | LeftUsed      // in state USED, although it returns 0
    | FreesAgain    // freeproc calls kfree for a page that is not the slot's

  /** A slot of the process table. */
  class Proc {
    var used: bool        // state is not UNUSED
    var pid: nat
    var trapframe: nat    // pages; 0 is the null pointer
    var pagetable: nat
    var copy: nat         // trapframe_copy
    var sz: nat

    constructor ()
      ensures !used && pid == trapframe == pagetable == copy == sz == 0
    {
      used, pid, trapframe, pagetable, copy, sz := false, 0, 0, 0, 0, 0;
    }
  }

  // The page table of a new process ----------------------------------------------------

  /** Tree r maps the trampoline and the trapframe at the top of the address space,
      for the kernel only, and nothing else. */
  ghost predicate Started(s: State, r: nat, trampoline: nat, trapframe: nat)
  {
    && Slot(s, r, TRAMPOLINE) == Mk(trampoline, RX) && Slot(s, r, TRAPFRAME) == Mk(trapframe, RW)
    && forall v: nat :: v < TRAPFRAME ==> !Valid(Slot(s, r, v))
  }

  // The bits of an entry: PTE_R, PTE_W, PTE_X and PTE_U.
  predicate Readable(w: nat) { Flags(w) / 2 % 2 == 1 }
  predicate Writable(w: nat) { Flags(w) / 4 % 2 == 1 }
  predicate Executable(w: nat) { Flags(w) / 8 % 2 == 1 }
  predicate ForUser(w: nat) { Flags(w) / 16 % 2 == 1 }

  /** What the MMU finds of them: the trampoline to execute and not to write, the
      trapframe to write and not to execute, and neither for user code. */
  lemma SharedFlags(s: State, r: nat, trampoline: nat, trapframe: nat)
    requires Inv(s) && Tree(s, r) && Started(s, r, trampoline, trapframe)
    ensures var w := MmuEntry(s.pages, r, TRAMPOLINE);
      Valid(w) && Ppn(w) == trampoline && Readable(w) && Executable(w) && !Writable(w) && !ForUser(w)
    ensures var w := MmuEntry(s.pages, r, TRAPFRAME);
      Valid(w) && Ppn(w) == trapframe && Readable(w) && Writable(w) && !Executable(w) && !ForUser(w)
  {
    hide MmuEntry, Slot, Mk, Ppn, Flags;
    MmuReadsSlot(s, r, TRAMPOLINE);
    MmuReadsSlot(s, r, TRAPFRAME);
    MkParts(trampoline, RX);
    MkParts(trapframe, RW);
    BothValid();
  }

  // Both pages are reached through the same two tables.
  lemma SharedTables(r: nat)
    ensures Needed(r, TRAPFRAME, 1) == Needed(r, TRAMPOLINE, 1)
    ensures |Needed(r, TRAMPOLINE, 1)| == 2
    ensures forall at :: at in Needed(r, TRAMPOLINE, 1) ==> at.root == r && at.path.Snoc?
  {
    TwoNeeded(r, TRAPFRAME);
    TwoNeeded(r, TRAMPOLINE);
    Steps(r, TRAPFRAME);
    Steps(r, TRAMPOLINE);
  }

  // A tree that was just created has no table below its root.
  lemma BothLacking(s: State, t: State, r: nat)
    requires Inv(s) && !Tree(s, r) && t.node == s.node[Place(r, Nil) := r]
    ensures |Lacks(t, r, TRAMPOLINE, 1)| == 2
  {
    hide Needed;
    SharedTables(r);
    forall at | at in Needed(r, TRAMPOLINE, 1) ensures at !in t.node {
      NoTables(s, at);
    }
    assert Lacks(t, r, TRAMPOLINE, 1) == Needed(r, TRAMPOLINE, 1);
  }

  lemma CreatedTook(s: State, t: State, r: nat)
    requires Inv(s) && Inv(t) && Undone(s, t) && t.node == s.node[Place(r, Nil) := r]
    ensures Took(s, t, {}, {r})
  {
    TookTables(s, t, r, {Place(r, Nil)});
  }

  lemma MappedTook(s: State, t: State, r: nat, v: nat, k: nat, p: nat, f: nat, end: MapEnd)
    requires Inv(s) && Inv(t) && Mapping(s, t, r, v, k, p, f, end) && !end.Panic?
    requires Needed(r, v, if end.Mapped? then k else k + 1) == Needed(r, TRAMPOLINE, 1)
    ensures Took(s, t, {}, {r})
  {
    hide FreeOk, NodeOk, Edges, FramesOk, Needed, Slot;
    SharedTables(r);
    TookTables(s, t, r, Needed(r, TRAMPOLINE, 1));
  }

  // The trampoline is mapped first.
  lemma TrampolineMapped(u: State, t: State, r: nat, k: nat, p: nat, end: MapEnd)
    requires Shape(u) && Shape(t) && AllVacant(u, r) && |Lacks(u, r, TRAMPOLINE, 1)| == 2
    requires Mapping(u, t, r, TRAMPOLINE, k, p, RX, end) && k <= 1 && (end.Mapped? <==> k == 1)
    ensures !end.Panic? && (end.Mapped? <==> |u.free| >= 2)
    ensures end.NoMemory? ==> k == 0 && AllVacant(t, r)
  {
    hide Slot, Needed, Kept, Lacks, Paid, Valid;
    assert AllOpen(u, r, TRAMPOLINE, 1) && Open(u, r, TRAMPOLINE);
    MappingExact(u, t, r, TRAMPOLINE, k, p, RX, end, 1);
    if end.NoMemory? {
      forall x: nat | x < PAGES ensures !Valid(Slot(t, r, x)) {
        assert Slot(t, r, x) == Slot(u, r, x);
      }
    }
  }

  lemma TrampolineDone(u: State, t: State, r: nat, p: nat)
    requires Shape(u) && Shape(t) && AllVacant(u, r) && |Lacks(u, r, TRAMPOLINE, 1)| == 2
    requires Mapping(u, t, r, TRAMPOLINE, 1, p, RX, Mapped)
    ensures |t.free| == |u.free| - 2 && AllOpen(t, r, TRAPFRAME, 1) && |Lacks(t, r, TRAPFRAME, 1)| == 0
  {
    hide Slot, Needed, Kept, Valid, AllOpen;
    assert AllOpen(t, r, TRAPFRAME, 1) by {
      assert Slot(t, r, TRAPFRAME) == Slot(u, r, TRAPFRAME);
      OneOpen(t, r, TRAPFRAME);
    }
    SharedTables(r);
    PaidFull(u, t, Needed(r, TRAMPOLINE, 1), 0);
    assert Lacks(t, r, TRAPFRAME, 1) == {};
  }

  lemma OneOpen(s: State, r: nat, v: nat)
    requires Open(s, r, v)
    ensures AllOpen(s, r, v, 1)
  {
  }

  // Then the trapframe.
  lemma BothMapped(u: State, v: State, t: State, r: nat, trampoline: nat, trapframe: nat)
    requires Shape(u) && Shape(v) && Shape(t) && AllVacant(u, r) && |Lacks(v, r, TRAPFRAME, 1)| == 0
    requires Mapping(u, v, r, TRAMPOLINE, 1, trampoline, RX, Mapped)
    requires Mapping(v, t, r, TRAPFRAME, 1, trapframe, RW, Mapped)
    ensures |t.free| == |v.free| && Started(t, r, trampoline, trapframe)
  {
    hide Slot, Needed, Kept;
    PaidFull(v, t, Needed(r, TRAPFRAME, 1), 0);
    forall x: nat | x < TRAPFRAME ensures !Valid(Slot(t, r, x)) {
      assert Slot(v, r, x) == Slot(u, r, x);
    }
    assert Slot(v, r, TRAMPOLINE) == Mk(trampoline, RX);
  }

  /** The tables of tree r below its root are the two that the shared pages need. */
  ghost predicate OnlyTop(s: State, r: nat)
  {
    forall at :: at in s.node && at.root == r && at.path.Snoc? ==> at in Needed(r, TRAMPOLINE, 1)
  }

  lemma TopTables(s: State, u: State, v: State, t: State, r: nat, trampoline: nat, trapframe: nat)
    requires Inv(s) && Shape(u) && Shape(v) && Shape(t) && !Tree(s, r) && u.node == s.node[Place(r, Nil) := r]
    requires Mapping(u, v, r, TRAMPOLINE, 1, trampoline, RX, Mapped)
    requires Mapping(v, t, r, TRAPFRAME, 1, trapframe, RW, Mapped)
    ensures OnlyTop(t, r)
  {
    hide FreeOk, NodeOk, Edges, FramesOk, Slot, Needed, Kept, Maps;
    SharedTables(r);
    forall at | at in t.node && at.root == r && at.path.Snoc? ensures at in Needed(r, TRAMPOLINE, 1) {
      assert at !in s.node by { NoTables(s, at); }
    }
  }

  lemma NothingToFree(s: State, r: nat)
    requires Shape(s) && AllVacant(s, r)
    ensures AllMine(s, r, 0, Up(0)) && forall x: nat :: Up(0) <= x < PAGES ==> !Valid(Slot(s, r, x))
  {
  }

  /** proc_pagetable: a new tree with the two pages, exactly when three pages are
      free; otherwise it is all given back. */
  method ProcPagetable(m: Memory, trampoline: nat, trapframe: nat) returns (r: nat)
    requires Inv(m.St())
    modifies m
    ensures Inv(m.St())
    ensures r != 0 <==> |old(m.free)| >= 3
    ensures r != 0 ==> Tree(m.St(), r) && !Tree(old(m.St()), r) && Started(m.St(), r, trampoline, trapframe)
    ensures r != 0 ==> Took(old(m.St()), m.St(), {}, {r}) && |m.free| == |old(m.free)| - 3 && OnlyTop(m.St(), r)
    ensures r == 0 ==> Took(old(m.St()), m.St(), {}, {}) && |m.free| == |old(m.free)|
  {
    hide FreeOk, NodeOk, Edges, FramesOk, Slot, Needed, Took, Undone, Kept, Mapping, Released, Lacks;
    hide AllOpen, AllVacant, Started, OnlyTop;
    ghost var s := m.St();
    TookNone(s);
    r := m.Uvmcreate();
    if r == 0 {
      return;
    }
    ghost var u := m.St();
    CreatedTook(s, u, r);
    BothLacking(s, u, r);
    SharedTables(r);
    Aligned(TRAMPOLINE);
    var end, k := m.Mappages(r, TRAMPOLINE * PGSIZE, PGSIZE, trampoline, RX - 1);
    TrampolineMapped(u, m.St(), r, k, trampoline, end);
    if end.NoMemory? {
      MappedTook(u, m.St(), r, TRAMPOLINE, k, trampoline, RX, end);
      TookThen(s, u, m.St(), {}, {}, {}, {r});
      ghost var v := m.St();
      NothingToFree(v, r);
      m.Uvmfree(r, 0);
      TookBack(s, v, m.St(), {}, r);
      TookCount(s, m.St(), {});
      r := 0;
      return;
    }
    ghost var v := m.St();
    MappedTook(u, v, r, TRAMPOLINE, k, trampoline, RX, end);
    TookThen(s, u, v, {}, {}, {}, {r});
    TrampolineDone(u, v, r, trampoline);
    Aligned(TRAPFRAME);
    end, k := m.Mappages(r, TRAPFRAME * PGSIZE, PGSIZE, trapframe, RW - 1);
    if end.NoMemory? {
      assert false;      // both tables are there
    }
    BothMapped(u, v, m.St(), r, trampoline, trapframe);
    MappedTook(v, m.St(), r, TRAPFRAME, k, trapframe, RW, end);
    TopTables(s, u, v, m.St(), r, trampoline, trapframe);
    TookThen(s, v, m.St(), {}, {}, {}, {r});
  }

  // Freeing a process --------------------------------------------------------------------

  /** The address space of a process of n pages. */
  ghost predicate Process(s: State, r: nat, n: nat)
    requires Shape(s)
  {
    Tree(s, r) && Sized(s, r, n) && Lent(s, r, TRAMPOLINE) && Lent(s, r, TRAPFRAME)
  }

  /** A page that only its holder may free. */
  predicate Held(s: State, p: nat)
    requires Shape(s)
  {
    Managed(s, p) && s.role[p].Other?
  }

  /** The page `copy` and all of tree r went to the free list; every other page has
      its role, and its contents unless it is a table; every other tree its entries. */
  ghost predicate Gave(s: State, t: State, copy: nat, r: nat)
    requires Shape(s) && Shape(t)
  {
    && t.lo == s.lo
    && (forall p: nat :: p < HI ==> GaveAt(s, t, copy, r, p))
    && (forall r': nat, v: nat :: v < PAGES && r' != r ==> Slot(t, r', v) == Slot(s, r', v))
  }

  predicate GaveAt(s: State, t: State, copy: nat, r: nat, p: nat)
    requires Shape(s) && Shape(t) && p < HI
  {
    if p == copy != 0 || BelongsTo(s, r, p) then t.role[p].Free?
    else t.role[p] == s.role[p] && (!s.role[p].Table? ==> t.pages[p] == s.pages[p])
  }

  lemma GaveCopy(s: State, copy: nat)
    requires Inv(s) && Held(s, copy)
    ensures Inv(PushPage(s, copy)) && Gave(s, PushPage(s, copy), copy, 0)
    ensures forall r: nat, v: nat :: Slot(PushPage(s, copy), r, v) == Slot(s, r, v)
  {
    PushOk(s, copy, {});
    var t := PushPage(s, copy);
    SlotsSame(s, t);
    NoRoot(s);
    forall p: nat | p < HI ensures GaveAt(s, t, copy, 0, p) {
      NoneBelongs(s, 0, p);
    }
  }

  lemma NoRoot(s: State)
    requires Inv(s)
    ensures !Tree(s, 0)
  {
    assert Tree(s, 0) ==> NodeAt(s, Place(0, Nil));
  }

  lemma GaveNothing(s: State)
    requires Inv(s)
    ensures Gave(s, s, 0, 0)
  {
    NoRoot(s);
    forall p: nat | p < HI ensures GaveAt(s, s, 0, 0, p) {
      NoneBelongs(s, 0, p);
    }
  }

  // The copy first, then the entries of the two shared pages, then the tree.
  lemma GaveTree(s: State, u: State, v: State, t: State, copy: nat, r: nat)
    requires Inv(s) && Shape(u) && Shape(v) && Inv(t) && Gave(s, u, copy, 0) && r != 0
    requires Freed(u, v, r, TRAMPOLINE, 0) && Unmaps(u, v, r, TRAPFRAME, 2) && Released(v, t, r)
    ensures Gave(s, t, copy, r)
  {
    NoRoot(s);
    NoRoot(t);
    forall p: nat | p < HI ensures GaveAt(s, t, copy, r, p) {
      assert GaveAt(s, u, copy, 0, p) && FreedAt(u, v, r, TRAMPOLINE, 0, p) && ReleasedAt(v, t, r, p);
      NoneBelongs(s, 0, p);
    }
    forall r': nat, x: nat | x < PAGES && r' != r ensures Slot(t, r', x) == Slot(s, r', x) {
      assert Slot(v, r', x) == Slot(u, r', x);
      if r' == 0 {
        NoSlots(s, 0, x);
        NoSlots(t, 0, x);
      }
    }
  }

  // The copy is on the free list; the process is as it was.
  lemma StillProcess(s: State, u: State, copy: nat, r: nat, n: nat)
    requires Inv(s) && Inv(u) && Gave(s, u, copy, 0) && Process(s, r, n) && (copy == 0 || Held(s, copy))
    requires forall r': nat, v: nat :: v < PAGES ==> Slot(u, r', v) == Slot(s, r', v)
    ensures Process(u, r, n)
  {
    NoRoot(s);
    forall p: nat | p < HI ensures u.role[p] == s.role[p] || (p == copy && u.role[p].Free? && s.role[p].Other?) {
      assert GaveAt(s, u, copy, 0, p);
      NoneBelongs(s, 0, p);
    }
    assert NodeAt(s, Place(r, Nil)) && TableAt(u, r);
    ProcessPages(s, r, n);
    forall x: nat | x < n ensures Mine(u, r, x) {
      assert Mine(s, r, x);
    }
  }

  // The pages of a process end below the trapframe.
  lemma ProcessPages(s: State, r: nat, n: nat)
    requires Shape(s) && Process(s, r, n)
    ensures n <= TRAPFRAME
  {
    assert n <= TRAPFRAME || Mine(s, r, TRAPFRAME);
  }

  // Without the entries of the two shared pages only the process's own are left.
  lemma OnlyOwn(u: State, v: State, w: State, r: nat, n: nat)
    requires Inv(u) && Inv(v) && Inv(w) && Process(u, r, n) && v.node == u.node && w.node == v.node
    requires Unmaps(u, v, r, TRAMPOLINE, 1) && Freed(u, v, r, TRAMPOLINE, 0)
    requires Unmaps(v, w, r, TRAPFRAME, 1) && Freed(v, w, r, TRAPFRAME, 0)
    ensures Tree(w, r) && AllMine(w, r, 0, n) && forall x: nat :: n <= x < PAGES ==> !Valid(Slot(w, r, x))
    ensures Unmaps(u, w, r, TRAPFRAME, 2) && Freed(u, w, r, TRAMPOLINE, 0)
  {
    hide FreeOk, NodeOk, Edges, FramesOk, Slot, Ppn, Home, Lent;
    ProcessPages(u, r, n);
    FreedNone(u, v, w, r, TRAMPOLINE, TRAPFRAME);
    forall r': nat, x: nat | x < PAGES
      ensures Slot(w, r', x) == if r' == r && TRAPFRAME <= x < TRAPFRAME + 2 then 0 else Slot(u, r', x)
    {
      assert Slot(v, r', x) == Slot(v, r', x);
    }
    forall x: nat | x < n ensures Mine(w, r, x) {
      assert Mine(u, r, x) && FreedAt(u, w, r, TRAMPOLINE, 0, Ppn(Slot(u, r, x)));
    }
  }

  /** proc_freepagetable. */
  method ProcFreepagetable(m: Memory, r: nat, sz: nat, ghost s: State, ghost copy: nat)
    requires Inv(s) && Inv(m.St()) && Process(m.St(), r, Up(sz)) && Gave(s, m.St(), copy, 0)
    modifies m
    ensures Inv(m.St()) && !Tree(m.St(), r) && Gave(s, m.St(), copy, r)
  {
    hide FreeOk, NodeOk, Edges, FramesOk, Slot, Sized, AllMine, Gave, Freed, Unmaps, Released;
    ghost var u := m.St();
    Aligned(TRAMPOLINE);
    var _, _ := m.Uvmunmap(r, TRAMPOLINE * PGSIZE, 1, false);
    ghost var v := m.St();
    StillLent(u, v, r, TRAMPOLINE, 1, TRAPFRAME);
    Aligned(TRAPFRAME);
    var _, _ := m.Uvmunmap(r, TRAPFRAME * PGSIZE, 1, false);
    ghost var w := m.St();
    OnlyOwn(u, v, w, r, Up(sz));
    m.Uvmfree(r, sz);
    NoRoot(u);
    GaveTree(s, u, w, m.St(), copy, r);
  }

  /** freeproc: the trapframe's copy and the whole address space go back to the free
      list.  The trapframe does not, and the pointer to the copy stays. */
  method Freeproc(m: Memory, p: Proc)
    requires Inv(m.St()) && (p.copy == 0 || Held(m.St(), p.copy))
    requires p.pagetable == 0 || Process(m.St(), p.pagetable, Up(p.sz))
    modifies m, p
    ensures Inv(m.St()) && Gave(old(m.St()), m.St(), old(p.copy), old(p.pagetable)) && !Tree(m.St(), old(p.pagetable))
    ensures !p.used && p.pid == p.trapframe == p.pagetable == p.sz == 0 && p.copy == old(p.copy)
  {
    hide FreeOk, NodeOk, Edges, FramesOk, Slot, Process, Gave;
    ghost var s := m.St();
    GaveNothing(s);
    if p.copy != 0 {
      GaveCopy(s, p.copy);
      m.Kfree(p.copy, {});
    }
    p.trapframe := 0;
    if p.pagetable != 0 {
      StillProcess(s, m.St(), p.copy, p.pagetable, Up(p.sz));
      ProcFreepagetable(m, p.pagetable, p.sz, s, p.copy);
    } else {
      NoRoot(m.St());
    }
    p.pagetable := 0;
    p.sz := 0;
    p.pid := 0;
    p.used := false;
  }

  /** The tables and frames of tree r. */
  ghost function PagesOf(s: State, r: nat): set<nat>
    requires Shape(s)
  {
    set p: nat | p < HI && BelongsTo(s, r, p)
  }

  /** So the free list grows by the pages of the address space and the copy, and by
      no other. */
  lemma GaveCount(s: State, t: State, copy: nat, r: nat)
    requires Inv(s) && Inv(t) && Gave(s, t, copy, r) && (copy == 0 || Held(s, copy))
    ensures |t.free| == |s.free| + |PagesOf(s, r)| + if copy == 0 then 0 else 1
  {
    hide FreeOk, NodeOk, Edges, FramesOk, Slot;
    FreeCount(s);
    FreeCount(t);
    var mine := if copy == 0 then {} else {copy};
    forall p: nat | p < HI ensures t.role[p].Free? <==> s.role[p].Free? || BelongsTo(s, r, p) || p in mine {
      assert GaveAt(s, t, copy, r, p);
    }
    assert FreeSet(t) == FreeSet(s) + PagesOf(s, r) + mine;
    Apart3(FreeSet(s), PagesOf(s, r), mine);
  }

  lemma Apart3<T>(a: set<T>, b: set<T>, c: set<T>)
    requires a !! b !! c
    ensures |a + b + c| == |a| + |b| + |c|
  {
  }

  // Allocating a process -----------------------------------------------------------------

  /** The page that kalloc would take. */
  function Top(free: seq<nat>): set<nat>
  {
    if free == [] then {} else {free[|free| - 1]}
  }

  // A tree with nothing but the two shared pages is a process of no pages.
  lemma StartedProcess(s: State, u: State, mine: set<nat>, r: nat, trampoline: nat, trapframe: nat)
    requires Inv(s) && Inv(u) && !Tree(s, r) && Tree(u, r) && Took(s, u, mine, {r})
    requires Started(u, r, trampoline, trapframe)
    ensures Process(u, r, 0)
  {
    MkParts(trampoline, RX);
    MkParts(trapframe, RW);
    forall p: nat | p < HI ensures !(u.role[p].Frame? && u.role[p].at.root == r) {
      assert TookAt(s, u, mine, {r}, p);
      NoneBelongs(s, r, p);
    }
  }

  /** What a slot got between s and t: a trapframe, an address space without pages,
      and, unless `copy` is null, a page for the trapframe's copy. */
  ghost predicate Allocated(s: State, t: State, trapframe: nat, copy: nat, r: nat, trampoline: nat)
    requires Shape(s) && Shape(t)
  {
    && Held(t, trapframe) && r != 0 && !Tree(s, r) && Process(t, r, 0) && Started(t, r, trampoline, trapframe)
    && OnlyTop(t, r) && (copy != 0 ==> Held(t, copy) && copy != trapframe)
    && Took(s, t, if copy == 0 then {trapframe} else {trapframe, copy}, {r})
  }

  lemma AllocatedNoCopy(s: State, u: State, t: State, trapframe: nat, r: nat, trampoline: nat)
    requires Inv(s) && Inv(u) && Inv(t) && Took(s, u, {trapframe}, {}) && Took(u, t, {}, {r}) && Held(u, trapframe)
    requires r != 0 && !Tree(s, r) && Tree(t, r) && Started(t, r, trampoline, trapframe) && OnlyTop(t, r)
    ensures Allocated(s, t, trapframe, 0, r, trampoline)
  {
    hide FreeOk, NodeOk, Edges, FramesOk, Slot, Process, Started, OnlyTop;
    TookMore(s, u, {trapframe}, {}, {r});
    TookThen(s, u, t, {trapframe}, {}, {trapframe}, {r});
    StartedProcess(s, t, {trapframe}, r, trampoline, trapframe);
    assert TookAt(u, t, {}, {r}, trapframe);
  }

  lemma AllocatedCopy(s: State, u: State, trapframe: nat, r: nat, trampoline: nat)
    requires Inv(s) && Inv(u) && Allocated(s, u, trapframe, 0, r, trampoline) && |u.free| > 0
    ensures FreeAt(u, |u.free| - 1) && Inv(PopPage(u))
    ensures Allocated(s, PopPage(u), trapframe, u.free[|u.free| - 1], r, trampoline)
  {
    hide FreeOk, NodeOk, Edges, FramesOk, Slot, Sized, Lent;
    TookPage(u);
    var t, copy := PopPage(u), u.free[|u.free| - 1];
    TookMore(u, t, {copy}, {}, {r});
    TookThen(s, u, t, {trapframe}, {copy}, {trapframe, copy}, {r});
    assert Started(t, r, trampoline, trapframe) by {
      assert forall v: nat :: v < PAGES ==> Slot(t, r, v) == Slot(u, r, v);
    }
    StartedProcess(s, t, {trapframe, copy}, r, trampoline, trapframe);
  }

  /** freeproc as allocproc calls it: the slot has no address space. */
  method GiveUp(m: Memory, p: Proc) returns (end: End)
    requires Inv(m.St()) && p.pagetable == 0
    modifies m, p
    ensures Inv(m.St()) && Took(old(m.St()), m.St(), {}, {}) && p.copy == old(p.copy)
    ensures end == if p.copy == 0 then Emptied else FreesAgain
    ensures end.FreesAgain? ==> unchanged(p)
    ensures end.Emptied? ==> !p.used && p.pid == p.trapframe == p.pagetable == p.sz == 0
  {
    hide FreeOk, NodeOk, Edges, FramesOk, Slot, Took, Gave;
    ghost var s := m.St();
    TookNone(s);
    if p.copy != 0 {
      return FreesAgain;
    }
    Freeproc(m, p);
    GaveNone(s, m.St());
    end := Emptied;
  }

  lemma GaveNone(s: State, t: State)
    requires Inv(s) && Inv(t) && Gave(s, t, 0, 0)
    ensures Took(s, t, {}, {})
  {
    NoRoot(s);
    NoRoot(t);
    forall p: nat | p < HI ensures TookAt(s, t, {}, {}, p) {
      assert GaveAt(s, t, 0, 0, p);
      NoneBelongs(s, 0, p);
    }
    forall v: nat | v < PAGES ensures Slot(t, 0, v) == Slot(s, 0, v) {
      NoSlots(s, 0, v);
      NoSlots(t, 0, v);
    }
  }

  /** How allocproc ends, by the number of free pages and the slot's old pointer to
      a trapframe copy. */
  function Outcome(n: nat, copy: nat): End
  {
    if n >= 5 then Filled else if n == 4 then LeftUsed else if copy == 0 then Emptied else FreesAgain
  }

  /** How allocproc leaves slot p, given the number `pid`, and the memory: filled, or
      lost, with all it took; emptied again, or about to free the copy twice, with
      nothing but a trapframe, if there was a page for one. */
  ghost predicate Slotted(s: State, t: State, end: End, pid: nat, was: nat, trampoline: nat, p: Proc)
    requires Shape(s) && Shape(t)
    reads p
  {
    if end.Filled? || end.LeftUsed? then
      && p.used && p.pid == pid && p.sz == 0 && (end.Filled? <==> p.copy != 0) && {p.trapframe} == Top(s.free)
      && Allocated(s, t, p.trapframe, p.copy, p.pagetable, trampoline)
      && |t.free| == |s.free| - if end.Filled? then 5 else 4
    else
      && Took(s, t, Top(s.free), {}) && |t.free| == |s.free| - |Top(s.free)| && p.copy == was
      && p.pagetable == p.sz == 0
      && if end.Emptied? then !p.used && p.pid == p.trapframe == 0
         else p.used && p.pid == pid && if s.free == [] then p.trapframe == 0 else {p.trapframe} == Top(s.free)
  }

  /** allocproc with the slot it found.  With five free pages the slot is filled; with
      four it is lost; with fewer it is emptied again, if the pointer it had to a
      trapframe copy is null, and the trapframe is lost. */
  method AllocSlot(m: Memory, p: Proc, pid: nat, trampoline: nat) returns (end: End)
    requires Inv(m.St()) && !p.used && p.pagetable == p.sz == 0
    modifies m, p
    ensures Inv(m.St())
    ensures end == Outcome(|old(m.free)|, old(p.copy))
    ensures Slotted(old(m.St()), m.St(), end, pid, old(p.copy), trampoline, p)
  {
    hide FreeOk, NodeOk, Edges, FramesOk, Slot, Allocated, Took, Started, OnlyTop;
    ghost var s := m.St();
    TookNone(s);
    p.pid := pid;
    p.used := true;
    if m.free != [] { TookPage(s); }
    p.trapframe := m.Kalloc();
    ghost var u := m.St();
    if p.trapframe == 0 {
      end := GiveUp(m, p);
      TookThen(s, u, m.St(), {}, {}, {}, {});
      TookCount(s, m.St(), {});
      return;
    }
    p.pagetable := ProcPagetable(m, trampoline, p.trapframe);
    ghost var v := m.St();
    if p.pagetable == 0 {
      ghost var mine := {p.trapframe};
      TookThen(s, u, v, mine, {}, mine, {});
      end := GiveUp(m, p);
      TookThen(s, v, m.St(), mine, {}, mine, {});
      TookCount(s, m.St(), mine);
      return;
    }
    AllocatedNoCopy(s, u, v, p.trapframe, p.pagetable, trampoline);
    if m.free != [] { AllocatedCopy(s, v, p.trapframe, p.pagetable, trampoline); }
    p.copy := m.Kalloc();
    if p.copy == 0 {
      return LeftUsed;
    }
    end := Filled;
  }

  /** The process table. */
  class Table {
    const procs: seq<Proc>
    var nextpid: nat

    ghost predicate Valid()
      reads this, procs
    {
      && (forall i: nat, j: nat :: i < j < |procs| ==> procs[i] != procs[j])
      && (forall i: nat :: i < |procs| && !procs[i].used ==> procs[i].pagetable == procs[i].sz == 0)
    }

    constructor (procs: seq<Proc>)
      requires forall i: nat, j: nat :: i < j < |procs| ==> procs[i] != procs[j]
      requires forall i: nat :: i < |procs| ==> !procs[i].used && procs[i].pagetable == procs[i].sz == 0
      ensures this.procs == procs && nextpid == 1 && Valid()
    {
      this.procs := procs;
      nextpid := 1;
    }

    /** allocproc: the first unused slot i, or none; and then as AllocSlot says. */
    method Allocproc(m: Memory, trampoline: nat) returns (i: nat, end: Option<End>)
      requires Valid() && Inv(m.St())
      modifies m, this, procs
      ensures Valid() && Inv(m.St())
      ensures i <= |procs| && forall j: nat :: j < i ==> old(procs[j].used)
      ensures end.None? <==> i == |procs|
      ensures end.None? ==> m.St() == old(m.St()) && nextpid == old(nextpid)
      ensures end.Some? ==> !old(procs[i].used) && nextpid == old(nextpid) + 1
      ensures end.Some? ==>
        && end.value == Outcome(|old(m.free)|, old(procs[i].copy))
        && Slotted(old(m.St()), m.St(), end.value, old(nextpid), old(procs[i].copy), trampoline, procs[i])
      ensures forall j: nat :: j < |procs| && j != i ==> unchanged(procs[j])
    {
      hide Allocated, Took, InvBut, Outcome;
      i := 0;
      while i < |procs| && procs[i].used
        invariant i <= |procs| && forall j: nat :: j < i ==> procs[j].used
      {
        i := i + 1;
      }
      if i == |procs| {
        return i, None;
      }
      var p, pid := procs[i], nextpid;
      nextpid := nextpid + 1;
      var e := AllocSlot(m, p, pid, trampoline);
      end := Some(e);
    }
  }

  // A process's pages ---------------------------------------------------------------------

  lemma TookFreed(s: State, u: State, t: State, trapframe: nat, copy: nat, r: nat)
    requires Inv(s) && Inv(u) && Inv(t) && Took(s, u, {trapframe, copy}, {r}) && trapframe < HI
    requires copy != 0 && copy != trapframe && Gave(u, t, copy, r) && !Tree(s, r) && !Tree(t, r)
    ensures Took(s, t, {trapframe}, {}) && |t.free| == |s.free| - 1
  {
    hide FreeOk, NodeOk, Edges, FramesOk, Slot;
    forall p: nat | p < HI ensures TookAt(s, t, {trapframe}, {}, p) {
      assert TookAt(s, u, {trapframe, copy}, {r}, p) && GaveAt(u, t, copy, r, p);
      NoneBelongs(s, r, p);
    }
    forall r': nat, v: nat | v < PAGES ensures Slot(t, r', v) == Slot(s, r', v) {
      if r' == r {
        NoSlots(s, r, v);
        NoSlots(t, r, v);
      }
    }
    TookCount(s, t, {trapframe});
  }

  /** A slot that is filled and freed again costs one page, its trapframe. */
  method AllocThenFree(m: Memory, p: Proc, pid: nat, trampoline: nat)
    requires Inv(m.St()) && !p.used && p.pagetable == p.sz == 0 && |m.free| >= 5
    modifies m, p
    ensures Inv(m.St()) && Took(old(m.St()), m.St(), Top(old(m.free)), {}) && |m.free| == |old(m.free)| - 1
    ensures !p.used && p.pagetable == p.sz == 0 && p.copy != 0
  {
    hide InvBut, Process, Started, Took, Gave;
    ghost var s := m.St();
    var _ := AllocSlot(m, p, pid, trampoline);
    ghost var u := m.St();
    ghost var trapframe, copy, r := p.trapframe, p.copy, p.pagetable;
    Freeproc(m, p);
    TookFreed(s, u, m.St(), trapframe, copy, r);
  }

  // fork -------------------------------------------------------------------------------------

  /** Tables below the root for the first n pages of an address space. */
  function Tables(n: nat): nat { (n + 511) / 512 + (n + 262143) / 262144 }

  lemma OldTable(r: nat, n: nat, x: nat)
    requires x < n < PAGES
    ensures Low(r, x) == Low(r, n) <==> x / 512 == n / 512
    ensures Place(r, Prefix(x, 1)) == Place(r, Prefix(n, 1)) <==> x / 262144 == n / 262144
    ensures Low(r, x) != Place(r, Prefix(n, 1)) && Low(r, n) != Place(r, Prefix(x, 1))
  {
    Steps(r, x);
    Steps(r, n);
    Recompose(x);
    Recompose(n);
    PrefixDepth(x, 1);
    PrefixDepth(n, 1);
    PrefixDepth(x, 2);
    PrefixDepth(n, 2);
    assert x / 512 == Index(2, x) * 512 + Index(1, x) && n / 512 == Index(2, n) * 512 + Index(1, n);
    assert x / 262144 == Index(2, x) && n / 262144 == Index(2, n);
  }

  lemma {:induction false} NeededBy(r: nat, n: nat, at: Place)
    ensures at in Needed(r, 0, n) <==> exists x: nat :: x < n && (at == Low(r, x) || at == Place(r, Prefix(x, 1)))
  {
    hide Prefix, Low;
    if n > 0 {
      NeededBy(r, n - 1, at);
    }
  }

  // Page n needs a table of its own exactly when it is the first page of its span.
  lemma NewTables(r: nat, n: nat)
    requires n < PAGES
    ensures Low(r, n) in Needed(r, 0, n) <==> n % 512 != 0
    ensures Place(r, Prefix(n, 1)) in Needed(r, 0, n) <==> n % 262144 != 0
  {
    hide Prefix, Low;
    NeededBy(r, n, Low(r, n));
    NeededBy(r, n, Place(r, Prefix(n, 1)));
    forall x: nat | x < n
      ensures Low(r, x) == Low(r, n) <==> x / 512 == n / 512
      ensures Place(r, Prefix(x, 1)) == Place(r, Prefix(n, 1)) <==> x / 262144 == n / 262144
      ensures Low(r, x) != Place(r, Prefix(n, 1)) && Low(r, n) != Place(r, Prefix(x, 1))
    {
      OldTable(r, n, x);
    }
    if n > 0 {
      OldTable(r, n, n - 1);
    }
  }

  lemma Ceil512(n: nat, q: nat, r: nat)
    requires n == 512 * q + r && r < 512
    ensures (n + 511) / 512 == (if r == 0 then q else q + 1) && (n + 512) / 512 == q + 1
  {
  }

  lemma Ceil262144(n: nat, q: nat, r: nat)
    requires n == 262144 * q + r && r < 262144
    ensures (n + 262143) / 262144 == (if r == 0 then q else q + 1) && (n + 262144) / 262144 == q + 1
  {
  }

  lemma TablesNext(n: nat)
    ensures Tables(n + 1) == Tables(n) + (if n % 512 == 0 then 1 else 0) + (if n % 262144 == 0 then 1 else 0)
  {
    Ceil512(n, n / 512, n % 512);
    Ceil262144(n, n / 262144, n % 262144);
  }

  lemma NoneNeeded(r: nat)
    ensures |Needed(r, 0, 0)| == 0 && Tables(0) == 0
  {
  }

  lemma NotSame(r: nat, v: nat)
    ensures Place(r, Prefix(v, 1)) != Low(r, v)
  {
    PrefixDepth(v, 1);
    PrefixDepth(v, 2);
  }

  lemma NeededNext(r: nat, n: nat)
    requires n < PAGES
    ensures |Needed(r, 0, n + 1)| ==
      |Needed(r, 0, n)| + (if n % 512 == 0 then 1 else 0) + (if n % 262144 == 0 then 1 else 0)
  {
    hide Prefix, Low, Needed;
    NewTables(r, n);
    NotSame(r, n);
    NeededOne(r, 0, n);
    TwoNeeded(r, n);
    AddTwo(Needed(r, 0, n), Place(r, Prefix(n, 1)), Low(r, n));
  }

  /** The n pages from 0 on need a bottom table for every 512 of them, begun or
      full, and a table above for every 262144. */
  lemma {:induction false} NeededCount(r: nat, n: nat)
    requires n <= PAGES
    ensures |Needed(r, 0, n)| == Tables(n)
  {
    hide Needed, Tables;
    if n == 0 {
      NoneNeeded(r);
    } else {
      NeededCount(r, n - 1);
      NeededNext(r, n - 1);
      TablesNext(n - 1);
    }
  }

  lemma AddTwo<T>(s: set<T>, p: T, q: T)
    requires p != q
    ensures |s + {p, q}| == |s| + (if p in s then 0 else 1) + (if q in s then 0 else 1)
  {
    assert s + {p, q} == (s + {p}) + {q};
    assert p in s ==> s + {p} == s;
    assert q in s ==> (s + {p}) + {q} == s + {p};
  }

  // The pages that fit in memory end far below the two shared pages.
  lemma Apart(r: nat, n: nat, at: Place)
    requires n <= HI && at in Needed(r, 0, n)
    ensures at.root == r && at.path.Snoc? && at !in Needed(r, TRAMPOLINE, 1)
  {
    hide Prefix, Low;
    NeededBy(r, n, at);
    TwoNeeded(r, TRAMPOLINE);
    var x: nat :| x < n && (at == Low(r, x) || at == Place(r, Prefix(x, 1)));
    OldTable(r, TRAMPOLINE, x);
    Steps(r, x);
  }

  /** What copying n pages into a tree just allocated costs. */
  lemma CopyCost(s: State, u: State, trapframe: nat, copy: nat, r: nat, trampoline: nat, n: nat)
    requires Shape(s) && Shape(u) && Allocated(s, u, trapframe, copy, r, trampoline) && n <= HI
    ensures Cost(u, r, 0, n) == n + Tables(n)
  {
    hide Needed, Process, Started, Took, Tables;
    NeededCount(r, n);
    forall at | at in Needed(r, 0, n) ensures at !in u.node {
      Apart(r, n, at);
    }
    assert Lacks(u, r, 0, n) == Needed(r, 0, n);
  }

  // Another process does not notice.
  lemma TookProcess(s: State, u: State, mine: set<nat>, trees: set<nat>, q: nat, n: nat)
    requires Inv(s) && Inv(u) && Took(s, u, mine, trees) && Process(s, q, n) && q !in trees
    ensures Process(u, q, n)
  {
    ProcessPages(s, q, n);
    assert NodeAt(s, Place(q, Nil)) && TookAt(s, u, mine, trees, q) && TableAt(u, q);
    forall p: nat | p < HI && u.role[p].Frame? ensures s.role[p] == u.role[p] {
      assert TookAt(s, u, mine, trees, p);
    }
    forall x: nat | x < n ensures Mine(u, q, x) {
      assert Mine(s, q, x) && TookAt(s, u, mine, trees, Ppn(Slot(s, q, x)));
    }
  }

  // After a copy that failed the slot still holds what it was allocated.
  lemma AllocatedStill(s: State, u: State, t: State, trapframe: nat, copy: nat, r: nat, trampoline: nat)
    requires Inv(s) && Inv(u) && Inv(t) && Allocated(s, u, trapframe, copy, r, trampoline) && copy != 0
    requires Rolled(u, t, r) && Tree(t, r)
    ensures Took(s, t, {trapframe, copy}, {r}) && Held(t, trapframe) && Held(t, copy) && Process(t, r, 0)
  {
    hide FreeOk, NodeOk, Edges, FramesOk, Sized, Lent, Kept;
    var mine := {trapframe, copy};
    RolledTook(u, t, r);
    TookThen(s, u, t, mine, {}, mine, {r});
    RolledStarted(u, t, r, trampoline, trapframe);
    StartedProcess(s, t, mine, r, trampoline, trapframe);
    assert TookAt(u, t, {}, {r}, trapframe) && TookAt(u, t, {}, {r}, copy);
  }

  lemma RolledTook(u: State, t: State, r: nat)
    requires Inv(u) && Inv(t) && Rolled(u, t, r)
    ensures Took(u, t, {}, {r})
  {
    hide FreeOk, NodeOk, Edges, FramesOk, Slot, Kept, SameMap;
    TookTables(u, t, r, t.node.Keys - u.node.Keys);
  }

  lemma RolledStarted(u: State, t: State, r: nat, trampoline: nat, trapframe: nat)
    requires Shape(u) && Shape(t) && Rolled(u, t, r) && Started(u, r, trampoline, trapframe)
    ensures Started(t, r, trampoline, trapframe)
  {
    hide Slot, Kept, Valid;
    assert Valid(Slot(u, r, TRAMPOLINE)) && Valid(Slot(u, r, TRAPFRAME)) by {
      MkParts(trampoline, RX);
      MkParts(trapframe, RW);
      BothValid();
    }
  }

  lemma BothValid()
    ensures Valid(RX) && Valid(RW)
  {
  }

  /** The child's pages are copies of the parent's. */
  ghost predicate Copied(t: State, parent: nat, child: nat, n: nat)
    requires Shape(t)
  {
    forall x: nat :: x < n ==> Mine(t, parent, x) && CopyAt(t, parent, child, x)
  }

  ghost predicate CopyAt(t: State, parent: nat, child: nat, x: nat)
    requires Shape(t) && Mine(t, parent, x)
  {
    Holds(t, child, x, Flags(Slot(t, parent, x)), t.pages[Ppn(Slot(t, parent, x))])
  }

  lemma GrownCopied(u: State, t: State, parent: nat, child: nat, n: nat)
    requires Inv(u) && Inv(t) && parent != 0 && parent != child && n <= PAGES && AllMine(u, parent, 0, n)
    requires Built(u, t, child, 0, n, parent, 0)
    ensures Copied(t, parent, child, n)
  {
    hide FreeOk, NodeOk, Edges, Slot;
    forall x: nat | x < n ensures Mine(t, parent, x) && CopyAt(t, parent, child, x) {
      assert Mine(u, parent, x) && Owned(u, Ppn(Slot(u, parent, x)));
      BuiltElse(u, t, child, 0, n, parent, 0, parent, x);
      assert Holds(t, child, x, WantFlags(u, parent, 0, x), WantPage(u, parent, x));
    }
  }

  // The child is a process of n pages now, the parent still is.
  lemma GrownProcess(u: State, t: State, parent: nat, child: nat, n: nat)
    requires Inv(u) && Inv(t) && parent != child && Process(u, parent, n) && Process(u, child, 0)
    requires Built(u, t, child, 0, n, parent, 0)
    ensures Process(t, parent, n) && Process(t, child, n)
  {
    ProcessPages(u, parent, n);
    BuiltTrees(u, t, child, n, parent);
    hide FreeOk, NodeOk, Edges, FramesOk, Slot;
    BuiltMine(u, t, child, 0, n, parent, 0);
    forall x: nat | x < n ensures Mine(t, parent, x) {
      assert Mine(u, parent, x);
      BuiltElse(u, t, child, 0, n, parent, 0, parent, x);
    }
    forall r: nat, x: nat | x < PAGES && n <= x ensures Slot(t, r, x) == Slot(u, r, x) {
    }
    StillShared(u, t, parent, child, n, TRAMPOLINE);
    StillShared(u, t, parent, child, n, TRAPFRAME);
    StillShared(u, t, child, child, n, TRAMPOLINE);
    StillShared(u, t, child, child, n, TRAPFRAME);
  }

  lemma StillShared(u: State, t: State, r: nat, child: nat, n: nat, x: nat)
    requires Shape(u) && Shape(t) && n <= x < PAGES && Grew(u, t, child, 0, n) && SlotsElse(u, t, child, 0, n)
    requires Lent(u, r, x)
    ensures Lent(t, r, x)
  {
    VpnHome(r, x);
    forall p: nat | p < HI ensures t.role[p] != Frame(Home(r, x)) {
      assert GrewAt(u, t, child, 0, n, p);
    }
  }

  lemma ProcessFits(s: State, r: nat, n: nat)
    requires Shape(s) && Process(s, r, n)
    ensures n <= HI && AllMine(s, r, 0, n) && Tree(s, r)
  {
    hide Mine;
    Pigeonhole(s, r, n);
  }

  lemma AllocatedVacant(s: State, u: State, trapframe: nat, copy: nat, r: nat, trampoline: nat, n: nat)
    requires Shape(s) && Shape(u) && Allocated(s, u, trapframe, copy, r, trampoline) && n <= HI
    ensures Vacant(u, r, 0, n) && Tree(u, r) && !Tree(s, r) && Process(u, r, 0) && trapframe < HI
    ensures copy != 0 ==> copy != trapframe
  {
  }

  lemma AllocatedProcess(s: State, u: State, trapframe: nat, copy: nat, r: nat, trampoline: nat, q: nat, n: nat)
    requires Inv(s) && Inv(u) && Allocated(s, u, trapframe, copy, r, trampoline) && Process(s, q, n)
    ensures Process(u, q, n) && q != r
  {
    hide FreeOk, NodeOk, Edges, FramesOk, Sized, Lent, Started, Took;
    TookProcess(s, u, if copy == 0 then {trapframe} else {trapframe, copy}, {r}, q, n);
  }

  lemma GrownAll(u: State, t: State, parent: nat, child: nat, n: nat)
    requires Inv(u) && Inv(t) && parent != child && parent != 0 && Process(u, parent, n) && Process(u, child, 0)
    requires Grown(u, t, child, 0, n, parent, 0)
    ensures Process(t, parent, n) && Process(t, child, n) && Copied(t, parent, child, n)
    ensures |t.free| == |u.free| - Cost(u, child, 0, n)
  {
    hide FreeOk, NodeOk, Edges, FramesOk, Slot, Process, Needed, Paid, Copied, Built;
    ProcessFits(u, parent, n);
    GrownCopied(u, t, parent, child, n);
    GrownProcess(u, t, parent, child, n);
    PaidFull(u, t, Needed(child, 0, n), n);
  }

  const A0 := 14              // word of the trapframe that holds a0
  const FRAME_WORDS := 36     // its size in words

  function Registers(page: Page): seq<nat>
    requires |page| == ENTRIES
  {
    page[..FRAME_WORDS]
  }

  /** What the child has and what everyone else keeps: a trapframe, which the child's
      tree maps, a page for its copy and the tree r took free pages; every other page
      has its role, and its contents unless it is a table; every other tree its entries. */
  ghost predicate Forked(s: State, t: State, trapframe: nat, copy: nat, r: nat, trampoline: nat)
    requires Shape(s) && Shape(t)
  {
    && Held(t, trapframe) && Held(t, copy) && copy != trapframe && {trapframe} == Top(s.free)
    && Slot(t, r, TRAMPOLINE) == Mk(trampoline, RX) && Slot(t, r, TRAPFRAME) == Mk(trapframe, RW)
    && t.lo == s.lo && (forall p: nat :: p < HI ==> ForkedAt(s, t, {trapframe, copy}, r, p))
    && (forall r': nat, v: nat :: v < PAGES && r' != r ==> Slot(t, r', v) == Slot(s, r', v))
  }

  predicate ForkedAt(s: State, t: State, mine: set<nat>, r: nat, p: nat)
    requires Shape(s) && Shape(t) && p < HI
  {
    if p in mine then s.role[p].Free? && t.role[p].Other?
    else if s.role[p].Free? then t.role[p].Free? || BelongsTo(t, r, p)
    else t.role[p] == s.role[p] && (!s.role[p].Table? ==> t.pages[p] == s.pages[p])
  }

  lemma GrownForked(s: State, u: State, t: State, trapframe: nat, copy: nat, r: nat, trampoline: nat, n: nat, q: nat)
    requires Inv(s) && Inv(u) && Inv(t) && Allocated(s, u, trapframe, copy, r, trampoline) && copy != 0
    requires {trapframe} == Top(s.free) && n <= TRAPFRAME && Grown(u, t, r, 0, n, q, 0)
    ensures Forked(s, t, trapframe, copy, r, trampoline)
  {
    hide FreeOk, NodeOk, Edges, FramesOk, Slot, Process, Needed, OnlyTop;
    forall p: nat | p < HI ensures ForkedAt(s, t, {trapframe, copy}, r, p) {
      assert TookAt(s, u, {trapframe, copy}, {r}, p) && GrewAt(u, t, r, 0, n, p);
      if u.role[p].Free? { GrownAt(u, t, r, n, q, p); }
    }
    assert ForkedAt(s, t, {trapframe, copy}, r, trapframe) && ForkedAt(s, t, {trapframe, copy}, r, copy);
    forall r': nat, v: nat | v < PAGES && r' != r ensures Slot(t, r', v) == Slot(s, r', v) {
      assert Slot(u, r', v) == Slot(s, r', v);
    }
  }

  // A free page that became a table or a frame is one of tree r.
  lemma GrownAt(u: State, t: State, r: nat, n: nat, q: nat, p: nat)
    requires Inv(u) && Inv(t) && Grown(u, t, r, 0, n, q, 0) && p < HI && u.role[p].Free?
    ensures t.role[p].Free? || BelongsTo(t, r, p)
  {
    hide FreeOk, Edges, FramesOk, Slot, Needed;
    GrownLocal(u, t, r, 0, n, q, 0);
    TreesStay(u, t, r, 0, n);
    assert GrewAt(u, t, r, 0, n, p) && TableAt(t, p);
    if t.role[p].Table? && t.role[p].at in u.node {
      assert NodeAt(u, t.role[p].at);
    }
  }

  lemma ForkedHolds(s: State, t: State, trapframe: nat, copy: nat, r: nat, trampoline: nat, p: nat)
    requires Shape(s) && Shape(t) && Forked(s, t, trapframe, copy, r, trampoline) && Held(s, p)
    ensures Held(t, p) && Held(t, trapframe) && p != trapframe
  {
    assert ForkedAt(s, t, {trapframe, copy}, r, p);
  }

  /** *(np->trapframe) = *(p->trapframe), and 0 in a0. */
  method CopyRegisters(m: Memory, from: nat, to: nat)
    requires Inv(m.St()) && Held(m.St(), from) && Held(m.St(), to) && from != to
    modifies m
    ensures Inv(m.St()) && |m.pages[to]| == ENTRIES && m.St() == FillPage(old(m.St()), to, m.pages[to])
    ensures Registers(m.pages[to]) == Registers(m.pages[from])[A0 := 0]
  {
    hide FreeOk, NodeOk, Edges, FramesOk;
    ghost var s := m.St();
    var page := m.pages[from][..FRAME_WORDS] + m.pages[to][FRAME_WORDS..];
    m.pages := m.pages[to := page[A0 := 0]];
    FillOk(s, to, page[A0 := 0]);
  }

  lemma RefillProcess(u: State, t: State, p: nat, r: nat, n: nat)
    requires Shape(u) && Shape(t) && p < HI && t == FillPage(u, p, t.pages[p]) && Process(u, r, n)
    requires forall r: nat, v: nat :: Slot(t, r, v) == Slot(u, r, v)
    ensures Process(t, r, n)
  {
    hide Slot;
    forall x: nat | x < n ensures Mine(t, r, x) {
      assert Mine(u, r, x);
    }
  }

  lemma RefillFork(s: State, u: State, t: State, trapframe: nat, copy: nat, r: nat, trampoline: nat, q: nat, n: nat)
    requires Inv(s) && Inv(u) && Inv(t) && Forked(s, u, trapframe, copy, r, trampoline)
    requires |t.pages| == HI && |t.pages[trapframe]| == ENTRIES && t == FillPage(u, trapframe, t.pages[trapframe])
    requires Process(u, q, n) && Process(u, r, n) && Copied(u, q, r, n)
    ensures Forked(s, t, trapframe, copy, r, trampoline)
    ensures Process(t, q, n) && Process(t, r, n) && Copied(t, q, r, n)
  {
    hide FreeOk, NodeOk, Edges, FramesOk, Slot, Process;
    FillOk(u, trapframe, t.pages[trapframe]);
    SlotsSame(u, t);
    RefillProcess(u, t, trapframe, q, n);
    RefillProcess(u, t, trapframe, r, n);
    forall p: nat | p < HI ensures ForkedAt(s, t, {trapframe, copy}, r, p) {
      assert ForkedAt(s, u, {trapframe, copy}, r, p);
    }
    forall x: nat | x < n ensures Mine(t, q, x) && CopyAt(t, q, r, x) {
      assert Mine(u, q, x) && CopyAt(u, q, r, x);
    }
  }

  /** fork for a parent of n pages: exactly when there are five free pages for the
      slot and one for each page and table of the child, the child is a copy.
      Otherwise, with five or more, all is given back but the trapframe. */
  method Fork(m: Memory, p: Proc, np: Proc, pid: nat, trampoline: nat) returns (ok: bool)
    requires Inv(m.St()) && p != np && p.pagetable != 0 && Process(m.St(), p.pagetable, Up(p.sz))
    requires !np.used && np.pagetable == np.sz == 0 && Held(m.St(), p.trapframe)
    modifies m, np
    ensures Inv(m.St()) && Process(m.St(), p.pagetable, Up(p.sz))
    ensures ok <==> |old(m.free)| >= 5 + Up(p.sz) + Tables(Up(p.sz))
    ensures ok ==>
      && np.used && np.pid == pid && np.sz == p.sz && Process(m.St(), np.pagetable, Up(np.sz))
      && Copied(m.St(), p.pagetable, np.pagetable, Up(p.sz))
      && |m.free| == |old(m.free)| - (5 + Up(p.sz) + Tables(Up(p.sz)))
      && Forked(old(m.St()), m.St(), np.trapframe, np.copy, np.pagetable, trampoline)
      && Registers(m.pages[np.trapframe]) == Registers(m.pages[p.trapframe])[A0 := 0]
    ensures !ok && |old(m.free)| >= 5 ==>
      && Took(old(m.St()), m.St(), Top(old(m.free)), {}) && |m.free| == |old(m.free)| - 1
      && !np.used && np.pid == np.trapframe == np.pagetable == np.sz == 0
    ensures |old(m.free)| < 5 ==>
      Slotted(old(m.St()), m.St(), Outcome(|old(m.free)|, old(np.copy)), pid, old(np.copy), trampoline, np)
  {
    hide FreeOk, NodeOk, Edges, FramesOk, Process, Took, Tables, Cost, Allocated, Copied, Grown, Rolled, Gave, Tree;
    hide Forked, Slot;
    ghost var s := m.St();
    ghost var q, n := p.pagetable, Up(p.sz);
    ProcessFits(s, q, n);
    var end := AllocSlot(m, np, pid, trampoline);
    ghost var u := m.St();
    ghost var trapframe, copy, r := np.trapframe, np.copy, np.pagetable;
    if !end.Filled? {
      if end.LeftUsed? {
        AllocatedProcess(s, u, trapframe, 0, r, trampoline, q, n);
      } else {
        TookProcess(s, u, Top(s.free), {}, q, n);
      }
      return false;
    }
    AllocatedProcess(s, u, trapframe, copy, r, trampoline, q, n);
    ProcessFits(u, q, n);
    AllocatedVacant(s, u, trapframe, copy, r, trampoline, n);
    CopyCost(s, u, trapframe, copy, r, trampoline, n);
    ok := m.Uvmcopy(p.pagetable, np.pagetable, p.sz);
    if !ok {
      AllocatedStill(s, u, m.St(), trapframe, copy, r, trampoline);
      ghost var v := m.St();
      Freeproc(m, np);
      TookFreed(s, v, m.St(), trapframe, copy, r);
      TookProcess(s, m.St(), {trapframe}, {}, q, n);
      return false;
    }
    ghost var v := m.St();
    GrownAll(u, v, q, r, n);
    GrownForked(s, u, v, trapframe, copy, r, trampoline, n, q);
    ForkedHolds(s, v, trapframe, copy, r, trampoline, p.trapframe);
    np.sz := p.sz;
    CopyRegisters(m, p.trapframe, np.trapframe);
    RefillFork(s, v, m.St(), trapframe, copy, r, trampoline, q, n);
  }

  // Inputs --------------------------------------------------------------------------------

  /** Four pages: the slot is lost. */
  method SlotLost(contents: seq<Page>) returns (end: End, used: bool)
    requires |contents| == HI && forall p: nat :: p < HI ==> |contents[p]| == ENTRIES
    ensures end.LeftUsed? && used
  {
    hide FreeOk, NodeOk, Edges, FramesOk, Allocated;
    Spans(HI - 4, 0);
    var m := new Memory((HI - 4) * PGSIZE, contents);
    var p := new Proc();
    end := AllocSlot(m, p, 1, 0);
    used := p.used;
  }

  /** Five pages, and a slot that was filled and freed once: with one page in use
      elsewhere, the next allocproc calls kfree for the copy that freeproc freed. */
  method CopyFreedAgain(contents: seq<Page>) returns (end: End)
    requires |contents| == HI && forall p: nat :: p < HI ==> |contents[p]| == ENTRIES
    ensures end.FreesAgain?
  {
    hide FreeOk, NodeOk, Edges, FramesOk, Allocated, Took;
    Spans(HI - 5, 0);
    var m := new Memory((HI - 5) * PGSIZE, contents);
    var p := new Proc();
    AllocThenFree(m, p, 1, 0);
    var _ := m.Kalloc();
    end := AllocSlot(m, p, 2, 0);
  }
}

/** The inode table of kernel/fs.c (ialloc, iget, idup, ilock, iunlock, iput) as a
    system of interleaved steps.  Each outstanding reference to a table entry is
    its own thread of control, so every interleaving of processes holding any
    number of inodes is covered.  A step is one critical section. */
module InodeTable {
  import opened Common

  /** The on-disk inode; typ 0 means free. */
  datatype Dinode = Dinode(typ: nat, nlink: nat, rest: int)

  datatype Entry = Entry(inum: nat, ref: nat, valid: bool, copy: Dinode, lock: Option<nat>)

  /** Where a reference stands. */
  datatype Handle =
    | Unused
    | Allocating(inum: nat)   // ialloc has claimed inum on disk, iget comes next
    | Ref(e: nat)             // holds a reference, not locked
    | Locking(e: nat)         // inside ilock, sleep-lock acquired
    | Open(e: nat)            // ilock has returned
    | Freeing(e: nat)         // inside iput, about to truncate and free on disk
    | Freed(e: nat)           // inside iput, disk inode is free, entry still valid
    | Dropping(e: nat)        // inside iput, lock released, reference not yet given up

  datatype State = State(disk: seq<Dinode>, table: seq<Entry>, hs: seq<Handle>)

  predicate On(h: Handle, e: nat) { !h.Unused? && !h.Allocating? && h.e == e }

  predicate Holding(h: Handle) { h.Locking? || h.Open? || h.Freeing? || h.Freed? }

  /** The number of references to entry e. */
  function Count(hs: seq<Handle>, e: nat): nat {
    if hs == [] then 0 else Count(hs[..|hs| - 1], e) + (if On(hs[|hs| - 1], e) then 1 else 0)
  }

  // ------------------------------------------------------------------------ iget

  /** iget's scan: an entry in use for inum. */
  function Cached(table: seq<Entry>, inum: nat): (r: Option<nat>)
    ensures r.Some? ==> r.value < |table| && table[r.value].ref > 0 && table[r.value].inum == inum
    ensures r.None? ==> forall e :: 0 <= e < |table| && table[e].ref > 0 ==> table[e].inum != inum
  {
    if table == [] then None
    else
      var m := |table| - 1;
      var r := Cached(table[..m], inum);
      if r.Some? then r
      else if table[m].ref > 0 && table[m].inum == inum then Some(m) else None
  }

  /** ... and the first empty slot otherwise. */
  function Empty(table: seq<Entry>): (r: Option<nat>)
    ensures r.Some? ==> r.value < |table| && table[r.value].ref == 0
    ensures r.Some? ==> forall e :: 0 <= e < r.value ==> table[e].ref > 0
    ensures r.None? ==> forall e :: 0 <= e < |table| ==> table[e].ref > 0
  {
    if table == [] then None
    else
      var m := |table| - 1;
      var r := Empty(table[..m]);
      if r.Some? then r else if table[m].ref == 0 then Some(m) else None
  }

  /** iget by handle h; without an empty slot it panics, which is no step. */
  ghost predicate Iget(s: State, t: State, h: nat, inum: nat) {
    h < |s.hs| &&
    match Cached(s.table, inum)
    case Some(e) =>
      t == s.(table := s.table[e := s.table[e].(ref := s.table[e].ref + 1)], hs := s.hs[h := Ref(e)])
    case None =>
      match Empty(s.table)
      case None => false
      case Some(e) =>
        t == s.(table := s.table[e := Entry(inum, 1, false, s.table[e].copy, s.table[e].lock)], hs := s.hs[h := Ref(e)])
  }

  /** The current value of an inode: its cached copy if valid, else the disk's. */
  function Current(s: State, inum: nat): Dinode
    requires inum < |s.disk|
  {
    match Cached(s.table, inum)
    case Some(e) => if s.table[e].valid then s.table[e].copy else s.disk[inum]
    case None => s.disk[inum]
  }

  // ----------------------------------------------------------------------- steps

  /** iget through a directory entry.  It may name any inode: the entry ".." of a
      removed directory still has the number of its parent. */
  ghost predicate Lookup(s: State, t: State, h: nat, inum: nat) {
    h < |s.hs| && s.hs[h].Unused? && inum < |s.disk| && Iget(s, t, h, inum)
  }

  /** ialloc marks a free disk inode allocated, under its block's buffer lock. */
  ghost predicate Alloc(s: State, t: State, h: nat, inum: nat, typ: nat) {
    && h < |s.hs| && s.hs[h].Unused? && inum < |s.disk| && s.disk[inum].typ == 0 && typ > 0
    && t == s.(disk := s.disk[inum := Dinode(typ, 0, 0)], hs := s.hs[h := Allocating(inum)])
  }

  ghost predicate AllocGet(s: State, t: State, h: nat) {
    h < |s.hs| && s.hs[h].Allocating? && Iget(s, t, h, s.hs[h].inum)
  }

  ghost predicate Dup(s: State, t: State, h: nat, g: nat) {
    && h < |s.hs| && g < |s.hs| && s.hs[g].Unused?
    && (s.hs[h].Ref? || s.hs[h].Locking? || s.hs[h].Open?) && s.hs[h].e < |s.table|
    && var e := s.hs[h].e;
       t == s.(table := s.table[e := s.table[e].(ref := s.table[e].ref + 1)], hs := s.hs[g := Ref(e)])
  }

  /** A handle of one kind, on an entry of the table. */
  ghost predicate At(s: State, h: nat, k: Handle) {
    h < |s.hs| && s.hs[h] == k && !k.Unused? && !k.Allocating? && k.e < |s.table|
  }

  ghost predicate Lock(s: State, t: State, h: nat, e: nat) {
    && At(s, h, Ref(e)) && s.table[e].lock.None?
    && t == s.(table := s.table[e := s.table[e].(lock := Some(h))], hs := s.hs[h := Locking(e)])
  }

  /** The rest of ilock: read the disk inode unless the copy is valid. */
  ghost predicate Load(s: State, t: State, h: nat, e: nat) {
    && At(s, h, Locking(e)) && s.table[e].inum < |s.disk| && !LoadPanics(s, h, e)
    && t == s.(table := s.table[e := s.table[e].(valid := true, copy := Loaded(s, e))], hs := s.hs[h := Open(e)])
  }

  function Loaded(s: State, e: nat): Dinode
    requires e < |s.table| && s.table[e].inum < |s.disk|
  {
    if s.table[e].valid then s.table[e].copy else s.disk[s.table[e].inum]
  }

  /** panic("ilock: no type"): an inode just read turns out to be free. */
  ghost predicate LoadPanics(s: State, h: nat, e: nat) {
    At(s, h, Locking(e)) && s.table[e].inum < |s.disk| && !s.table[e].valid && s.disk[s.table[e].inum].typ == 0
  }

  ghost predicate Modify(s: State, t: State, h: nat, e: nat, d: Dinode) {
    && At(s, h, Open(e)) && d.typ == s.table[e].copy.typ
    && t == s.(table := s.table[e := s.table[e].(copy := d)])
  }

  ghost predicate Iupdate(s: State, t: State, h: nat, e: nat) {
    && At(s, h, Open(e)) && s.table[e].inum < |s.disk|
    && t == s.(disk := s.disk[s.table[e].inum := s.table[e].copy])
  }

  /** iunlock, every change having been written by iupdate. */
  ghost predicate Unlock(s: State, t: State, h: nat, e: nat) {
    && At(s, h, Open(e)) && s.table[e].inum < |s.disk| && s.table[e].copy == s.disk[s.table[e].inum]
    && t == s.(table := s.table[e := s.table[e].(lock := None)], hs := s.hs[h := Ref(e)])
  }

  /** iput's test, under itable.lock. */
  ghost predicate LastUnlinked(s: State, e: nat)
    requires e < |s.table|
  {
    s.table[e].ref == 1 && s.table[e].valid && s.table[e].copy.nlink == 0
  }

  /** iput, last reference to an unlinked inode: acquiresleep, itable.lock released. */
  ghost predicate PutLast(s: State, t: State, h: nat, e: nat) {
    && At(s, h, Ref(e)) && LastUnlinked(s, e) && s.table[e].lock.None?
    && t == s.(table := s.table[e := s.table[e].(lock := Some(h))], hs := s.hs[h := Freeing(e)])
  }

  /** iput otherwise. */
  ghost predicate PutPlain(s: State, t: State, h: nat, e: nat) {
    && At(s, h, Ref(e)) && !LastUnlinked(s, e) && s.table[e].ref > 0
    && t == s.(table := s.table[e := s.table[e].(ref := s.table[e].ref - 1)], hs := s.hs[h := Unused])
  }

  /** itrunc, type = 0, iupdate. */
  ghost predicate FreeOnDisk(s: State, t: State, h: nat, e: nat) {
    && At(s, h, Freeing(e)) && s.table[e].inum < |s.disk|
    && var d := Dinode(0, s.table[e].copy.nlink, 0);
       t == s.(disk := s.disk[s.table[e].inum := d], table := s.table[e := s.table[e].(copy := d)],
               hs := s.hs[h := Freed(e)])
  }

  /** valid = 0, releasesleep. */
  ghost predicate Invalidate(s: State, t: State, h: nat, e: nat) {
    && At(s, h, Freed(e))
    && t == s.(table := s.table[e := s.table[e].(valid := false, lock := None)], hs := s.hs[h := Dropping(e)])
  }

  ghost predicate Drop(s: State, t: State, h: nat, e: nat) {
    && At(s, h, Dropping(e)) && s.table[e].ref > 0
    && t == s.(table := s.table[e := s.table[e].(ref := s.table[e].ref - 1)], hs := s.hs[h := Unused])
  }

  datatype Step =
    | LookupStep(h: nat, inum: nat) | AllocStep(h: nat, inum: nat, typ: nat) | AllocGetStep(h: nat)
    | DupStep(h: nat, g: nat) | LockStep(h: nat, e: nat) | LoadStep(h: nat, e: nat)
    | ModifyStep(h: nat, e: nat, d: Dinode) | UpdateStep(h: nat, e: nat) | UnlockStep(h: nat, e: nat)
    | PutLastStep(h: nat, e: nat) | PutPlainStep(h: nat, e: nat) | FreeStep(h: nat, e: nat)
    | InvalidateStep(h: nat, e: nat) | DropStep(h: nat, e: nat)

  ghost predicate NextStep(s: State, t: State, a: Step) {
    match a
    case LookupStep(h, inum) => Lookup(s, t, h, inum)
    case AllocStep(h, inum, typ) => Alloc(s, t, h, inum, typ)
    case AllocGetStep(h) => AllocGet(s, t, h)
    case DupStep(h, g) => Dup(s, t, h, g)
    case LockStep(h, e) => Lock(s, t, h, e)
    case LoadStep(h, e) => Load(s, t, h, e)
    case ModifyStep(h, e, d) => Modify(s, t, h, e, d)
    case UpdateStep(h, e) => Iupdate(s, t, h, e)
    case UnlockStep(h, e) => Unlock(s, t, h, e)
    case PutLastStep(h, e) => PutLast(s, t, h, e)
    case PutPlainStep(h, e) => PutPlain(s, t, h, e)
    case FreeStep(h, e) => FreeOnDisk(s, t, h, e)
    case InvalidateStep(h, e) => Invalidate(s, t, h, e)
    case DropStep(h, e) => Drop(s, t, h, e)
  }

  // ------------------------------------------------------------------- invariant

  ghost predicate UniqueInums(table: seq<Entry>) {
    forall d, e :: 0 <= d < e < |table| && table[d].ref > 0 && table[e].ref > 0 ==> table[d].inum != table[e].inum
  }

  ghost predicate RefsCounted(s: State) {
    forall e :: 0 <= e < |s.table| ==> s.table[e].ref == Count(s.hs, e)
  }

  /** The sleep-lock is held by h exactly when h is in a locked phase. */
  ghost predicate LocksOk(s: State) {
    && (forall h :: 0 <= h < |s.hs| && Holding(s.hs[h]) ==>
          s.hs[h].e < |s.table| && s.table[s.hs[h].e].lock == Some(h))
    && (forall e :: 0 <= e < |s.table| && s.table[e].lock.Some? ==>
          var h := s.table[e].lock.value; h < |s.hs| && Holding(s.hs[h]) && s.hs[h].e == e)
  }

  /** What each phase knows. */
  ghost predicate HandleOk(s: State, h: nat)
    requires h < |s.hs|
  {
    match s.hs[h]
    case Unused => true
    case Allocating(inum) => inum < |s.disk|
    case Ref(e) => e < |s.table| && s.table[e].inum < |s.disk|
    case Locking(e) => e < |s.table| && s.table[e].inum < |s.disk|
    case Open(e) => OnLive(s, e) && s.table[e].valid && s.table[e].copy.typ > 0
    case Freeing(e) => OnLive(s, e) && s.table[e].valid && s.table[e].copy.typ > 0 && s.table[e].copy.nlink == 0
    case Freed(e) => e < |s.table| && s.table[e].inum < |s.disk| && s.table[e].copy.typ == 0
    case Dropping(e) => e < |s.table| && s.table[e].inum < |s.disk|
  }

  /** The entry's disk inode is allocated. */
  ghost predicate OnLive(s: State, e: nat) {
    e < |s.table| && s.table[e].inum < |s.disk| && s.disk[s.table[e].inum].typ > 0
  }

  ghost predicate UsesInum(s: State, k: Handle, inum: nat) {
    !k.Unused? && !k.Allocating? && k.e < |s.table| && s.table[k.e].inum == inum
  }

  /** An entry's valid copy is the disk's, unless its lock holder is at work on it. */
  ghost predicate EntryFresh(s: State, e: nat)
    requires e < |s.table|
  {
    || (s.table[e].inum < |s.disk| && s.table[e].copy == s.disk[s.table[e].inum] && s.table[e].copy.typ > 0)
    || (s.table[e].lock.Some? && s.table[e].lock.value < |s.hs|
        && (s.hs[s.table[e].lock.value].Open? || s.hs[s.table[e].lock.value].Freed?))
  }

  ghost predicate FreshOk(s: State) {
    forall e :: 0 <= e < |s.table| && s.table[e].ref > 0 && s.table[e].valid ==> EntryFresh(s, e)
  }

  ghost predicate HandlesOk(s: State) {
    forall h :: 0 <= h < |s.hs| ==> HandleOk(s, h)
  }

  ghost predicate Inv(s: State) {
    UniqueInums(s.table) && RefsCounted(s) && LocksOk(s) && HandlesOk(s) && FreshOk(s)
  }

  ghost predicate Init(s: State) {
    && (forall h :: 0 <= h < |s.hs| ==> s.hs[h].Unused?)
    && (forall e :: 0 <= e < |s.table| ==> s.table[e].ref == 0 && s.table[e].lock.None?)
  }

  // ---------------------------------------------------------------- preservation

  lemma {:induction false} CountZero(hs: seq<Handle>, e: nat)
    ensures Count(hs, e) == 0 <==> forall h :: 0 <= h < |hs| ==> !On(hs[h], e)
  {
    if hs != [] {
      var m := |hs| - 1;
      CountZero(hs[..m], e);
      assert forall h :: 0 <= h < m ==> hs[..m][h] == hs[h];
    }
  }

  lemma {:induction false} CountSet(hs: seq<Handle>, h: nat, k: Handle, e: nat)
    requires h < |hs|
    ensures Count(hs[h := k], e) == Count(hs, e) - (if On(hs[h], e) then 1 else 0) + (if On(k, e) then 1 else 0)
    decreases |hs|
  {
    var m := |hs| - 1;
    if h < m {
      assert hs[h := k][..m] == hs[..m][h := k];
      CountSet(hs[..m], h, k, e);
    } else {
      assert hs[h := k][..m] == hs[..m];
    }
  }

  lemma InitInv(s: State)
    requires Init(s)
    ensures Inv(s)
  {
    forall e | 0 <= e < |s.table| ensures s.table[e].ref == Count(s.hs, e) {
      CountZero(s.hs, e);
    }
  }

  /** A reference makes the entry's count positive. */
  lemma Counted(s: State, h: nat)
    requires RefsCounted(s) && h < |s.hs| && !s.hs[h].Unused? && !s.hs[h].Allocating? && s.hs[h].e < |s.table|
    ensures s.table[s.hs[h].e].ref > 0
  {
    CountZero(s.hs, s.hs[h].e);
  }

  /** Unused slots have no lock. */
  lemma FreeSlotUnlocked(s: State, e: nat)
    requires RefsCounted(s) && LocksOk(s) && e < |s.table| && s.table[e].ref == 0
    ensures s.table[e].lock.None?
  {
    CountZero(s.hs, e);
  }

  // ------------------------------- a step at one handle h and one entry e

  ghost predicate Local(s: State, t: State, h: nat, e: nat) {
    && h < |s.hs| == |t.hs| && e < |s.table| == |t.table| && |t.disk| == |s.disk|
    && t.hs == s.hs[h := t.hs[h]] && t.table == s.table[e := t.table[e]]
  }

  lemma CountsLocal(s: State, t: State, h: nat, e: nat)
    requires RefsCounted(s) && Local(s, t, h, e)
    requires On(s.hs[h], e) || s.hs[h].Unused? || s.hs[h].Allocating?
    requires On(t.hs[h], e) || t.hs[h].Unused? || t.hs[h].Allocating?
    requires t.table[e].ref == s.table[e].ref - (if On(s.hs[h], e) then 1 else 0) + (if On(t.hs[h], e) then 1 else 0)
    ensures RefsCounted(t)
  {
    forall d | 0 <= d < |t.table| ensures t.table[d].ref == Count(t.hs, d) {
      CountSet(s.hs, h, t.hs[h], d);
    }
  }

  lemma LocksLocal(s: State, t: State, h: nat, e: nat)
    requires LocksOk(s) && Local(s, t, h, e)
    requires Holding(s.hs[h]) ==> s.hs[h].e == e
    requires if Holding(t.hs[h]) then t.hs[h].e == e && t.table[e].lock == Some(h) && (Holding(s.hs[h]) || s.table[e].lock.None?)
             else t.table[e].lock == (if Holding(s.hs[h]) then None else s.table[e].lock)
    ensures LocksOk(t)
  {}

  /** The other handles on e, and those on other entries, still stand on the same ground. */
  lemma HandlesLocal(s: State, t: State, h: nat, e: nat)
    requires HandlesOk(s) && Local(s, t, h, e) && HandleOk(t, h)
    requires forall g :: 0 <= g < |s.hs| && g != h && On(s.hs[g], e) ==> HandleOk(t, g)
    requires forall g :: 0 <= g < |s.hs| && g != h && s.hs[g].Allocating? ==> HandleOk(t, g)
    requires forall d :: 0 <= d < |s.table| && d != e && s.table[d].ref > 0 && s.table[d].inum < |s.disk| ==>
               t.disk[s.table[d].inum] == s.disk[s.table[d].inum]
    requires RefsCounted(s)
    ensures HandlesOk(t)
  {
    forall g | 0 <= g < |t.hs| ensures HandleOk(t, g) {
      if g != h {
        assert HandleOk(s, g);
        if !s.hs[g].Unused? && !s.hs[g].Allocating? && s.hs[g].e != e {
          Counted(s, g);
        }
      }
    }
  }

  lemma FreshLocal(s: State, t: State, h: nat, e: nat)
    requires FreshOk(s) && LocksOk(s) && Local(s, t, h, e)
    requires Holding(s.hs[h]) ==> s.hs[h].e == e
    requires t.table[e].ref > 0 && t.table[e].valid ==> EntryFresh(t, e)
    requires forall d :: 0 <= d < |s.table| && d != e && s.table[d].ref > 0 && s.table[d].inum < |s.disk| ==>
               t.disk[s.table[d].inum] == s.disk[s.table[d].inum]
    ensures FreshOk(t)
  {
    forall d | 0 <= d < |t.table| && t.table[d].ref > 0 && t.table[d].valid ensures EntryFresh(t, d) {
      if d != e {
        assert EntryFresh(s, d);
      }
    }
  }

  // ------------------------------------------------------------- step by step

  lemma IgetShape(s: State, t: State, h: nat, inum: nat) returns (e: nat)
    requires Inv(s) && Iget(s, t, h, inum) && (s.hs[h].Unused? || s.hs[h].Allocating?)
    ensures Local(s, t, h, e) && t.disk == s.disk && t.hs[h] == Ref(e) && t.table[e].inum == inum
    ensures s.table[e].ref > 0 ==> t.table[e] == s.table[e].(ref := s.table[e].ref + 1) && Cached(s.table, inum) == Some(e)
    ensures s.table[e].ref == 0 ==>
              && Cached(s.table, inum).None? && !t.table[e].valid && t.table[e].ref == 1
              && t.table[e].lock == s.table[e].lock == None
              && forall g :: 0 <= g < |s.hs| ==> !On(s.hs[g], e)
  {
    e := t.hs[h].e;
    if s.table[e].ref == 0 {
      FreeSlotUnlocked(s, e);
      CountZero(s.hs, e);
    }
  }

  lemma IgetInv(s: State, t: State, h: nat, inum: nat)
    requires Inv(s) && Iget(s, t, h, inum) && (s.hs[h].Unused? || s.hs[h].Allocating?) && inum < |s.disk|
    ensures Inv(t)
  {
    hide UniqueInums, RefsCounted, LocksOk, HandlesOk, FreshOk, Iget, Cached;
    var e := IgetShape(s, t, h, inum);
    IgetUnique(s, t, h, e, inum);
    CountsLocal(s, t, h, e);
    LocksLocal(s, t, h, e);
    IgetHandles(s, t, h, e);
  }

  lemma IgetUnique(s: State, t: State, h: nat, e: nat, inum: nat)
    requires UniqueInums(s.table) && Local(s, t, h, e) && t.table[e].inum == inum
    requires s.table[e].ref > 0 ==> s.table[e].inum == inum
    requires s.table[e].ref == 0 ==> Cached(s.table, inum).None?
    ensures UniqueInums(t.table)
  {
    hide Cached;
  }

  lemma IgetHandles(s: State, t: State, h: nat, e: nat)
    requires Inv(s) && Local(s, t, h, e) && t.hs[h] == Ref(e) && t.disk == s.disk
    requires s.hs[h].Unused? || s.hs[h].Allocating?
    requires if s.table[e].ref > 0 then t.table[e] == s.table[e].(ref := s.table[e].ref + 1)
             else !t.table[e].valid && forall g :: 0 <= g < |s.hs| ==> !On(s.hs[g], e)
    requires t.table[e].inum < |s.disk|
    ensures HandlesOk(t) && FreshOk(t)
  {
    forall g | 0 <= g < |s.hs| && g != h && (On(s.hs[g], e) || s.hs[g].Allocating?) ensures HandleOk(t, g) {
      assert HandleOk(s, g);
    }
    HandlesLocal(s, t, h, e);
    if t.table[e].valid {
      assert EntryFresh(s, e);
    }
    FreshLocal(s, t, h, e);
  }

  lemma AllocGetInv(s: State, t: State, h: nat)
    requires Inv(s) && AllocGet(s, t, h)
    ensures Inv(t)
  {
    assert HandleOk(s, h);
    IgetInv(s, t, h, s.hs[h].inum);
  }

  lemma AllocInv(s: State, t: State, h: nat, inum: nat, typ: nat)
    requires Inv(s) && Alloc(s, t, h, inum, typ)
    ensures Inv(t)
  {
    forall e | 0 <= e < |t.table| ensures t.table[e].ref == Count(t.hs, e) {
      CountSet(s.hs, h, t.hs[h], e);
    }
    forall g | 0 <= g < |s.hs| ensures HandleOk(t, g) {
      assert HandleOk(s, g);
    }
    AllocFresh(s, t, h, inum);
  }

  lemma AllocFresh(s: State, t: State, h: nat, inum: nat)
    requires FreshOk(s) && LocksOk(s) && h < |s.hs| && s.hs[h].Unused? && inum < |s.disk| && s.disk[inum].typ == 0
    requires t.table == s.table && t.hs == s.hs[h := Allocating(inum)]
    requires |t.disk| == |s.disk| && forall i :: 0 <= i < |s.disk| && i != inum ==> t.disk[i] == s.disk[i]
    ensures FreshOk(t)
  {
    forall e | 0 <= e < |t.table| && t.table[e].ref > 0 && t.table[e].valid ensures EntryFresh(t, e) {
      assert EntryFresh(s, e);
    }
  }

  lemma DupInv(s: State, t: State, h: nat, g: nat)
    requires Inv(s) && Dup(s, t, h, g)
    ensures Inv(t)
  {
    var e := s.hs[h].e;
    assert HandleOk(s, h);
    CountsLocal(s, t, g, e);
    LocksLocal(s, t, g, e);
    forall f | 0 <= f < |s.hs| && f != g && (On(s.hs[f], e) || s.hs[f].Allocating?) ensures HandleOk(t, f) {
      assert HandleOk(s, f);
    }
    HandlesLocal(s, t, g, e);
    Counted(s, h);
    if t.table[e].valid {
      assert EntryFresh(s, e);
    }
    FreshLocal(s, t, g, e);
  }

  /** Steps of a process that has or takes the sleep-lock of an allocated inode. */
  lemma WorkInv(s: State, t: State, a: Step)
    requires Inv(s) && NextStep(s, t, a) && (a.LockStep? || a.LoadStep? || a.ModifyStep? || a.UnlockStep?)
    ensures Inv(t)
  {
    WorkLocal(s, t, a);
    var h, e := a.h, a.e;
    CountsLocal(s, t, h, e);
    LocksLocal(s, t, h, e);
    HandlesLocal(s, t, h, e);
    FreshLocal(s, t, h, e);
  }

  lemma WorkLocal(s: State, t: State, a: Step)
    requires Inv(s) && NextStep(s, t, a) && (a.LockStep? || a.LoadStep? || a.ModifyStep? || a.UnlockStep?)
    ensures Local(s, t, a.h, a.e) && HandleOk(t, a.h) && t.disk == s.disk
    ensures t.table[a.e].ref > 0 && t.table[a.e].valid ==> EntryFresh(t, a.e)
    ensures forall g :: 0 <= g < |s.hs| && g != a.h && (On(s.hs[g], a.e) || s.hs[g].Allocating?) ==> HandleOk(t, g)
  {
    var h, e := a.h, a.e;
    assert HandleOk(s, h);
    Counted(s, h);
    if s.table[e].valid {
      assert EntryFresh(s, e);
    }
    forall g | 0 <= g < |s.hs| && g != h && (On(s.hs[g], e) || s.hs[g].Allocating?) ensures HandleOk(t, g) {
      assert HandleOk(s, g);
    }
  }

  /** Different entries in use have different inode numbers. */
  lemma OthersElsewhere(s: State, e: nat)
    requires UniqueInums(s.table) && e < |s.table| && s.table[e].ref > 0
    ensures forall d :: 0 <= d < |s.table| && d != e && s.table[d].ref > 0 ==> s.table[d].inum != s.table[e].inum
  {
    forall d | 0 <= d < |s.table| && d != e && s.table[d].ref > 0 ensures s.table[d].inum != s.table[e].inum {
      assert d < e || e < d;
    }
  }

  lemma UpdateInv(s: State, t: State, h: nat, e: nat)
    requires Inv(s) && Iupdate(s, t, h, e)
    ensures Inv(t)
  {
    assert HandleOk(s, h);
    Counted(s, h);
    OthersElsewhere(s, e);
    assert UsesInum(s, s.hs[h], s.table[e].inum);
    forall g | 0 <= g < |s.hs| && g != h && (On(s.hs[g], e) || s.hs[g].Allocating?) ensures HandleOk(t, g) {
      assert HandleOk(s, g);
    }
    assert t.hs == t.hs[h := t.hs[h]] && t.table == t.table[e := t.table[e]];
    HandlesLocal(s, t, h, e);
    FreshLocal(s, t, h, e);
  }

  lemma PutPlainInv(s: State, t: State, h: nat, e: nat)
    requires Inv(s) && (PutPlain(s, t, h, e) || Drop(s, t, h, e))
    ensures Inv(t)
  {
    assert HandleOk(s, h);
    CountsLocal(s, t, h, e);
    LocksLocal(s, t, h, e);
    forall g | 0 <= g < |s.hs| && g != h && (On(s.hs[g], e) || s.hs[g].Allocating?) ensures HandleOk(t, g) {
      assert HandleOk(s, g);
    }
    HandlesLocal(s, t, h, e);
    if t.table[e].ref > 0 && t.table[e].valid {
      assert EntryFresh(s, e);
    }
    FreshLocal(s, t, h, e);
  }

  /** With one reference, h is the only handle on e. */
  lemma {:induction false} OnlyOne(hs: seq<Handle>, e: nat, h: nat, g: nat)
    requires Count(hs, e) == 1 && h < |hs| && g < |hs| && On(hs[h], e) && On(hs[g], e)
    ensures g == h
  {
    CountSet(hs, h, Unused, e);
    CountZero(hs[h := Unused], e);
    assert !On(hs[h := Unused][g], e);
  }

  lemma PutLastInv(s: State, t: State, h: nat, e: nat)
    requires Inv(s) && PutLast(s, t, h, e)
    ensures Inv(t)
  {
    assert HandleOk(s, h);
    assert EntryFresh(s, e);
    CountsLocal(s, t, h, e);
    LocksLocal(s, t, h, e);
    forall g | 0 <= g < |s.hs| && On(s.hs[g], e) ensures g == h {
      OnlyOne(s.hs, e, h, g);
    }
    forall g | 0 <= g < |s.hs| && g != h && s.hs[g].Allocating? ensures HandleOk(t, g) {
      assert HandleOk(s, g);
    }
    HandlesLocal(s, t, h, e);
    FreshLocal(s, t, h, e);
  }

  lemma FreeInv(s: State, t: State, h: nat, e: nat)
    requires Inv(s) && FreeOnDisk(s, t, h, e)
    ensures Inv(t)
  {
    assert HandleOk(s, h);
    Counted(s, h);
    OthersElsewhere(s, e);
    assert UsesInum(s, s.hs[h], s.table[e].inum);
    CountsLocal(s, t, h, e);
    LocksLocal(s, t, h, e);
    forall g | 0 <= g < |s.hs| && g != h && s.hs[g].Allocating? ensures HandleOk(t, g) {
      assert HandleOk(s, g);
    }
    HandlesLocal(s, t, h, e);
    FreshLocal(s, t, h, e);
  }

  lemma InvalidateInv(s: State, t: State, h: nat, e: nat)
    requires Inv(s) && Invalidate(s, t, h, e)
    ensures Inv(t)
  {
    assert HandleOk(s, h);
    CountsLocal(s, t, h, e);
    LocksLocal(s, t, h, e);
    forall g | 0 <= g < |s.hs| && g != h && (On(s.hs[g], e) || s.hs[g].Allocating?) ensures HandleOk(t, g) {
      assert HandleOk(s, g) && !Holding(s.hs[g]);
    }
    HandlesLocal(s, t, h, e);
    FreshLocal(s, t, h, e);
  }

  lemma NextInv(s: State, t: State, a: Step)
    requires Inv(s) && NextStep(s, t, a)
    ensures Inv(t)
  {
    match a
    case LookupStep(h, inum) => IgetInv(s, t, h, inum);
    case AllocStep(h, inum, typ) => AllocInv(s, t, h, inum, typ);
    case AllocGetStep(h) => AllocGetInv(s, t, h);
    case DupStep(h, g) => DupInv(s, t, h, g);
    case UpdateStep(h, e) => UpdateInv(s, t, h, e);
    case PutLastStep(h, e) => PutLastInv(s, t, h, e);
    case PutPlainStep(h, e) => PutPlainInv(s, t, h, e);
    case FreeStep(h, e) => FreeInv(s, t, h, e);
    case InvalidateStep(h, e) => InvalidateInv(s, t, h, e);
    case DropStep(h, e) => PutPlainInv(s, t, h, e);
    case _ => WorkInv(s, t, a);
  }

  // -------------------------------------------------------------- main theorems

  ghost predicate Run(run: seq<State>, steps: seq<Step>) {
    && |run| == |steps| + 1 && Init(run[0])
    && forall i :: 0 <= i < |steps| ==> NextStep(run[i], run[i + 1], steps[i])
  }

  lemma {:induction false} RunInv(run: seq<State>, steps: seq<Step>, i: nat)
    requires Run(run, steps) && i <= |steps|
    ensures Inv(run[i])
    decreases i
  {
    if i == 0 {
      InitInv(run[0]);
    } else {
      RunInv(run, steps, i - 1);
      NextInv(run[i - 1], run[i - 1 + 1], steps[i - 1]);
    }
  }

  /** In every state of every run: one entry per inode number in use, reference
      counts that count the references, and at most one holder per sleep-lock. */
  lemma TableSound(run: seq<State>, steps: seq<Step>, i: nat, g: nat, h: nat)
    requires Run(run, steps) && i <= |steps| && g < |run[i].hs| && h < |run[i].hs|
    ensures UniqueInums(run[i].table) && RefsCounted(run[i])
    ensures Holding(run[i].hs[g]) && Holding(run[i].hs[h]) && run[i].hs[g].e == run[i].hs[h].e ==> g == h
  {
    RunInv(run, steps, i);
  }

  /** Whoever completes ilock, even on an entry another process is still leaving
      through iput, or on one looked up while its inode was free, sees the fields
      as they are on disk, and they describe an allocated inode. */
  lemma IlockFresh(run: seq<State>, steps: seq<Step>, i: nat, t: State, h: nat, e: nat)
    requires Run(run, steps) && i <= |steps| && Load(run[i], t, h, e)
    ensures t.table[e].copy == t.disk[t.table[e].inum] && t.table[e].copy.typ > 0
  {
    RunInv(run, steps, i);
    LockedFresh(run[i], h, e);
  }

  /** ilock panics exactly when the inode is free on disk. */
  lemma LockedFresh(s: State, h: nat, e: nat)
    requires Inv(s) && At(s, h, Locking(e))
    ensures s.table[e].inum < |s.disk|
    ensures s.table[e].valid ==> s.table[e].copy == s.disk[s.table[e].inum]
    ensures LoadPanics(s, h, e) <==> s.disk[s.table[e].inum].typ == 0
  {
    assert HandleOk(s, h);
    Counted(s, h);
    if s.table[e].valid {
      assert EntryFresh(s, e);
    }
  }

  // ------------------------------------------------------------ ilock's panic

  /** Inode inum is free on disk, or a process is about to free it. */
  ghost predicate Doomed(s: State, inum: nat) {
    inum < |s.disk| && (s.disk[inum].typ == 0 || exists g :: 0 <= g < |s.hs| && FreeingInum(s, g, inum))
  }

  ghost predicate FreeingInum(s: State, g: nat, inum: nat) {
    g < |s.hs| && s.hs[g].Freeing? && s.hs[g].e < |s.table| && s.table[s.hs[g].e].inum == inum
  }

  /** Handle h is using entry e: it has not begun to give it up. */
  predicate Using(s: State, h: nat, e: nat) {
    h < |s.hs| && e < |s.table| && (s.hs[h] == Ref(e) || s.hs[h] == Locking(e) || s.hs[h] == Open(e))
  }

  /** The step gives handle h a reference. */
  predicate Takes(a: Step, h: nat) {
    (a.LookupStep? && a.h == h) || (a.AllocGetStep? && a.h == h) || (a.DupStep? && a.g == h)
  }

  predicate Allocates(a: Step, inum: nat) { a.AllocStep? && a.inum == inum }

  /** The same inodes are being freed in s and t. */
  ghost predicate SameFreeing(s: State, t: State, inum: nat) {
    forall g: nat :: FreeingInum(t, g, inum) <==> FreeingInum(s, g, inum)
  }

  lemma DoomedSame(s: State, t: State, inum: nat)
    requires |t.hs| == |s.hs| && t.disk == s.disk && SameFreeing(s, t, inum)
    ensures Doomed(t, inum) <==> Doomed(s, inum)
  {
    hide FreeingInum;
    if Doomed(s, inum) && inum < |s.disk| && s.disk[inum].typ != 0 {
      var g :| 0 <= g < |s.hs| && FreeingInum(s, g, inum);
      assert FreeingInum(t, g, inum);
    }
    if Doomed(t, inum) && s.disk[inum].typ != 0 {
      var g :| 0 <= g < |t.hs| && FreeingInum(t, g, inum);
      assert FreeingInum(s, g, inum);
    }
  }

  /** iget and idup doom nothing and save nothing. */
  lemma TakeDoomed(s: State, t: State, a: Step, inum: nat)
    requires Inv(s) && NextStep(s, t, a) && (a.LookupStep? || a.AllocGetStep? || a.DupStep?)
    ensures Doomed(t, inum) <==> Doomed(s, inum)
  {
    hide UniqueInums, LocksOk, HandlesOk, FreshOk, Doomed;
    if !a.DupStep? {
      var e := IgetShape(s, t, a.h, if a.LookupStep? then a.inum else s.hs[a.h].inum);
    }
    forall g: nat ensures FreeingInum(t, g, inum) <==> FreeingInum(s, g, inum) {
      if g < |s.hs| && s.hs[g].Freeing? && s.hs[g].e < |s.table| { Counted(s, g); }
    }
    DoomedSame(s, t, inum);
  }

  /** The steps that change neither the disk nor who is freeing. */
  lemma QuietDoomed(s: State, t: State, a: Step, inum: nat)
    requires Inv(s) && NextStep(s, t, a)
    requires a.LockStep? || a.LoadStep? || a.ModifyStep? || a.UnlockStep? || a.PutPlainStep? || a.InvalidateStep?
             || a.DropStep?
    ensures Doomed(t, inum) <==> Doomed(s, inum)
  {
    hide UniqueInums, RefsCounted, LocksOk, HandlesOk, FreshOk, Doomed;
    DoomedSame(s, t, inum);
  }

  /** ialloc saves the number it takes: nobody is freeing an inode that is free. */
  lemma AllocDoomed(s: State, t: State, h: nat, i: nat, typ: nat, inum: nat)
    requires Inv(s) && Alloc(s, t, h, i, typ)
    ensures Doomed(t, inum) <==> Doomed(s, inum) && i != inum
  {
    forall g: nat ensures FreeingInum(t, g, inum) <==> FreeingInum(s, g, inum) {
    }
    forall g: nat ensures !FreeingInum(s, g, i) {
      if g < |s.hs| { assert HandleOk(s, g); }
    }
    assert forall g: nat :: FreeingInum(s, g, inum) ==> FreeingInum(t, g, inum);
  }

  /** While h uses entry e, only iput of another inode can write or begin to free. */
  lemma WriteDoomed(s: State, t: State, a: Step, h: nat, e: nat)
    requires Inv(s) && NextStep(s, t, a) && (a.UpdateStep? || a.PutLastStep? || a.FreeStep?)
    requires Using(s, h, e) && Using(t, h, e)
    ensures Doomed(t, s.table[e].inum) <==> Doomed(s, s.table[e].inum)
  {
    var inum := s.table[e].inum;
    assert HandleOk(s, h) && HandleOk(s, a.h);
    Counted(s, h);
    Counted(s, a.h);
    OthersElsewhere(s, e);
    if a.e == e {
      if a.PutLastStep? { OnlyOne(s.hs, e, h, a.h); }
      OwnWrite(s, t, a, e);
    } else {
      forall g: nat ensures FreeingInum(t, g, inum) <==> FreeingInum(s, g, inum) {
      }
      assert t.disk[inum] == s.disk[inum];
      OtherWrite(s, t, inum);
    }
  }

  lemma OtherWrite(s: State, t: State, inum: nat)
    requires |t.hs| == |s.hs| && |t.disk| == |s.disk| && inum < |s.disk| && t.disk[inum] == s.disk[inum]
    requires SameFreeing(s, t, inum)
    ensures Doomed(t, inum) <==> Doomed(s, inum)
  {
    DoomedSame(s, t.(disk := s.disk), inum);
    assert forall g: nat :: FreeingInum(t.(disk := s.disk), g, inum) <==> FreeingInum(t, g, inum);
  }

  lemma OwnWrite(s: State, t: State, a: Step, e: nat)
    requires Inv(s) && NextStep(s, t, a) && (a.UpdateStep? || a.FreeStep?) && a.e == e
    ensures Doomed(t, s.table[e].inum) <==> Doomed(s, s.table[e].inum)
  {
    var inum := s.table[e].inum;
    assert HandleOk(s, a.h);
    Counted(s, a.h);
    OthersElsewhere(s, e);
    if a.FreeStep? {
      assert FreeingInum(s, a.h, inum);
    } else {
      forall g: nat ensures !FreeingInum(s, g, inum) && !FreeingInum(t, g, inum) {
        if FreeingInum(s, g, inum) {
          Counted(s, g);
          assert Holding(s.hs[g]);
        }
      }
    }
  }

  /** While a handle uses an entry, its inode is doomed as long as it was, and
      ialloc has not taken the number. */
  lemma StepDoomed(s: State, t: State, a: Step, h: nat, e: nat)
    requires Inv(s) && NextStep(s, t, a) && Using(s, h, e) && Using(t, h, e)
    ensures t.table[e].inum == s.table[e].inum
    ensures Doomed(t, s.table[e].inum) <==> Doomed(s, s.table[e].inum) && !Allocates(a, s.table[e].inum)
  {
    hide Inv, Doomed;
    UsingKeeps(s, t, a, h, e);
    if a.LookupStep? || a.AllocGetStep? || a.DupStep? {
      TakeDoomed(s, t, a, s.table[e].inum);
    } else if a.AllocStep? {
      AllocDoomed(s, t, a.h, a.inum, a.typ, s.table[e].inum);
    } else if a.UpdateStep? || a.PutLastStep? || a.FreeStep? {
      WriteDoomed(s, t, a, h, e);
    } else {
      QuietDoomed(s, t, a, s.table[e].inum);
    }
  }

  lemma UsingKeeps(s: State, t: State, a: Step, h: nat, e: nat)
    requires Inv(s) && NextStep(s, t, a) && Using(s, h, e) && Using(t, h, e)
    ensures t.table[e].inum == s.table[e].inum
  {
    hide UniqueInums, LocksOk, HandlesOk, FreshOk, Iget;
    Counted(s, h);
    if a.LookupStep? {
      var d := IgetShape(s, t, a.h, a.inum);
    } else if a.AllocGetStep? {
      var d := IgetShape(s, t, a.h, s.hs[a.h].inum);
    }
  }

  /** Handle h, having got its reference by step j, has used entry e ever since. */
  ghost predicate UsedSince(run: seq<State>, steps: seq<Step>, j: nat, i: nat, h: nat, e: nat) {
    && Run(run, steps) && j < i <= |steps| && Takes(steps[j], h)
    && forall k :: j < k <= i ==> Using(run[k], h, e)
  }

  lemma {:induction false} RunDoomed(run: seq<State>, steps: seq<Step>, j: nat, i: nat, h: nat, e: nat)
    requires UsedSince(run, steps, j, i, h, e)
    ensures run[i].table[e].inum == run[j + 1].table[e].inum
    ensures Doomed(run[i], run[i].table[e].inum) <==>
            && Doomed(run[j], run[i].table[e].inum)
            && forall k :: j <= k < i ==> !Allocates(steps[k], run[i].table[e].inum)
    decreases i
  {
    hide NextStep, Doomed;
    var inum := run[i].table[e].inum;
    RunInv(run, steps, i - 1);
    if i == j + 1 {
      TakeDoomed(run[j], run[j + 1], steps[j], inum);
    } else {
      RunDoomed(run, steps, j, i - 1, h, e);
      assert Using(run[i - 1], h, e);
      StepDoomed(run[i - 1], run[i - 1 + 1], steps[i - 1], h, e);
    }
  }

  /** ilock's panic, exactly: it happens if and only if the inode was free or being
      freed when the reference was taken, and no ialloc took the number since. */
  lemma IlockPanicsExactly(run: seq<State>, steps: seq<Step>, j: nat, i: nat, h: nat, e: nat)
    requires UsedSince(run, steps, j, i, h, e) && run[i].hs[h] == Locking(e)
    ensures LoadPanics(run[i], h, e) <==>
            && Doomed(run[j], run[i].table[e].inum)
            && forall k :: j <= k < i ==> !Allocates(steps[k], run[i].table[e].inum)
  {
    hide NextStep, Doomed;
    RunDoomed(run, steps, j, i, h, e);
    RunInv(run, steps, i);
    LockedDoomed(run[i], h, e);
  }

  lemma LockedDoomed(s: State, h: nat, e: nat)
    requires Inv(s) && At(s, h, Locking(e))
    ensures LoadPanics(s, h, e) <==> Doomed(s, s.table[e].inum)
  {
    LockedFresh(s, h, e);
    forall g: nat ensures !FreeingInum(s, g, s.table[e].inum) {
      if FreeingInum(s, g, s.table[e].inum) {
        Counted(s, g);
        Counted(s, h);
        OthersElsewhere(s, e);
      }
    }
  }

  /** A name that counts among the inode's links never leads to the panic. */
  lemma LinkedNotDoomed(s: State, inum: nat)
    requires Inv(s) && inum < |s.disk| && Current(s, inum).nlink > 0 && Current(s, inum).typ > 0
    ensures !Doomed(s, inum)
  {
    forall g: nat ensures !FreeingInum(s, g, inum) {
      if FreeingInum(s, g, inum) {
        Counted(s, g);
        assert HandleOk(s, g);
        CachedAt(s, s.hs[g].e);
      }
    }
    var c := Cached(s.table, inum);
    if c.Some? && s.table[c.value].valid {
      assert EntryFresh(s, c.value);
      if s.table[c.value].lock.Some? { assert HandleOk(s, s.table[c.value].lock.value); }
    }
  }

  lemma CachedAt(s: State, e: nat)
    requires UniqueInums(s.table) && e < |s.table| && s.table[e].ref > 0
    ensures Cached(s.table, s.table[e].inum) == Some(e)
  {
    OthersElsewhere(s, e);
  }

  // ------------------------------------------------------------ a new inode

  /** The step writes inode inum on disk. */
  ghost predicate Writes(s: State, a: Step, inum: nat) {
    Allocates(a, inum) || ((a.UpdateStep? || a.FreeStep?) && a.e < |s.table| && s.table[a.e].inum == inum)
  }

  lemma {:induction false} DiskStays(run: seq<State>, steps: seq<Step>, j: nat, i: nat, inum: nat)
    requires Run(run, steps) && j <= i <= |steps| && inum < |run[j].disk|
    requires forall k :: j <= k < i ==> !Writes(run[k], steps[k], inum)
    ensures inum < |run[i].disk| && run[i].disk[inum] == run[j].disk[inum]
    decreases i
  {
    hide Iget;
    if j < i {
      DiskStays(run, steps, j, i - 1, inum);
      assert NextStep(run[i - 1], run[i - 1 + 1], steps[i - 1]) && !Writes(run[i - 1], steps[i - 1], inum);
      DiskStep(run[i - 1], run[i], steps[i - 1], inum);
    }
  }

  lemma DiskStep(s: State, t: State, a: Step, inum: nat)
    requires NextStep(s, t, a) && inum < |s.disk| && !Writes(s, a, inum)
    ensures inum < |t.disk| && t.disk[inum] == s.disk[inum]
  {}

  /** Whoever locks a number that ialloc has taken finds an empty inode of its type,
      unless the inode was written since. */
  lemma AllocShowsEmpty(run: seq<State>, steps: seq<Step>, j: nat, i: nat)
    requires Run(run, steps) && j < i < |steps| && steps[j].AllocStep? && steps[i].LoadStep?
    requires steps[i].e < |run[i].table| && run[i].table[steps[i].e].inum == steps[j].inum
    requires forall k :: j < k < i ==> !Writes(run[k], steps[k], steps[j].inum)
    ensures steps[i].e < |run[i + 1].table| && run[i + 1].table[steps[i].e].copy == Dinode(steps[j].typ, 0, 0)
  {
    hide Iget, Writes;
    assert NextStep(run[j], run[j + 1], steps[j]) && NextStep(run[i], run[i + 1], steps[i]);
    DiskStays(run, steps, j + 1, i, steps[j].inum);
    IlockFresh(run, steps, i, run[i + 1], steps[i].h, steps[i].e);
  }

  /** A directory is removed, and then its number is looked up through the ".." of
      one that was in it: handle 0 frees inode 1, handle 1 finds it afterwards. */
  ghost function StaleStep(i: nat): Step
    requires i < 12
  {
    if i < 9 then RaceStep(i) else [DropStep(0, 0), LookupStep(1, 1), LockStep(1, 0)][i - 9]
  }

  ghost function StaleState(i: nat): State
    requires i <= 12
  {
    var free := Dinode(0, 0, 0);
    if i <= 9 then RaceState(i)
    else if i == 10 then Snapshot(free, Entry(1, 0, false, free, None), Unused, Unused)
    else if i == 11 then Snapshot(free, Entry(1, 1, false, free, None), Unused, Ref(0))
    else Snapshot(free, Entry(1, 1, false, free, Some(1)), Unused, Locking(0))
  }

  lemma StaleEnd(i: nat)
    requires 9 <= i < 12
    ensures NextStep(StaleState(i), StaleState(i + 1), StaleStep(i))
  {
    if i == 10 { OneEntry(StaleState(10).table); }
  }

  lemma PanicReachable() returns (run: seq<State>, steps: seq<Step>)
    ensures Run(run, steps) && LoadPanics(run[|steps|], 1, 0)
  {
    run, steps := seq(13, i requires 0 <= i < 13 => StaleState(i)), seq(12, i requires 0 <= i < 12 => StaleStep(i));
    forall i | 0 <= i < 12 ensures NextStep(run[i], run[i + 1], steps[i]) {
      if i < 4 {
        RaceOpen(i);
      } else if i < 8 {
        RaceUnlink(i);
      } else if i < 9 {
        RaceReuse(i);
      } else {
        StaleEnd(i);
      }
    }
  }

  /** iput's acquiresleep, made while holding a spin-lock, never has to wait. */
  lemma IputNeverBlocks(run: seq<State>, steps: seq<Step>, i: nat, h: nat, e: nat)
    requires Run(run, steps) && i <= |steps| && At(run[i], h, Ref(e)) && LastUnlinked(run[i], e)
    ensures run[i].table[e].lock.None?
  {
    RunInv(run, steps, i);
    var s := run[i];
    if s.table[e].lock.Some? {
      OnlyOne(s.hs, e, h, s.table[e].lock.value);
    }
  }

  // ------------------------------------------------- inodes nobody will ever free

  /** An inode allocated on disk without links or references: iput promises to
      free an inode when both counts have fallen to zero. */
  ghost predicate Orphan(s: State, inum: nat) {
    && inum < |s.disk| && s.disk[inum].typ > 0 && s.disk[inum].nlink == 0
    && forall h :: 0 <= h < |s.hs| ==> !UsesInum(s, s.hs[h], inum) && s.hs[h] != Allocating(inum)
  }

  /** Giving up the last reference orphans the inode exactly when iput no longer
      looks at the link count: at the end of an iput that has already freed the
      number once, or through an entry whose fields were never read. */
  lemma LastPutOrphans(s: State, t: State, h: nat, e: nat)
    requires Inv(s) && (PutPlain(s, t, h, e) || Drop(s, t, h, e)) && s.table[e].ref == 1
    requires s.table[e].inum < |s.disk|
    requires forall g :: 0 <= g < |s.hs| ==> s.hs[g] != Allocating(s.table[e].inum)
    ensures Orphan(t, s.table[e].inum) <==>
            && s.disk[s.table[e].inum].typ > 0 && s.disk[s.table[e].inum].nlink == 0
            && (s.hs[h].Dropping? || !s.table[e].valid)
  {
    var inum := s.table[e].inum;
    assert HandleOk(s, h);
    OthersElsewhere(s, e);
    forall g | 0 <= g < |t.hs| ensures !UsesInum(t, t.hs[g], inum) {
      if g != h && UsesInum(s, s.hs[g], inum) {
        Counted(s, g);
        OnlyOne(s.hs, e, h, g);
      }
    }
    if s.hs[h].Ref? && s.table[e].valid {
      assert EntryFresh(s, e);
      if s.table[e].lock.Some? {
        OnlyOne(s.hs, e, h, s.table[e].lock.value);
      }
    }
  }

  /** No other step orphans an inode. */
  lemma OnlyLastPut(s: State, t: State, a: Step, inum: nat)
    requires Inv(s) && NextStep(s, t, a) && !Orphan(s, inum) && Orphan(t, inum)
    ensures (a.PutPlainStep? || a.DropStep?) && s.table[a.e].inum == inum && s.table[a.e].ref == 1
  {
    hide Inv, Orphan;
    if a.PutPlainStep? || a.DropStep? {
      Last(s, t, a.h, a.e, inum);
    } else {
      NoOrphans(s, t, a, inum);
    }
  }

  lemma NoOrphans(s: State, t: State, a: Step, inum: nat)
    requires Inv(s) && NextStep(s, t, a) && !a.PutPlainStep? && !a.DropStep?
    ensures Orphan(t, inum) ==> Orphan(s, inum)
  {
    hide Inv, Orphan, Iget, Current;
    if Orphan(t, inum) {
      if a.LookupStep? {
        Took(s, t, a.h, a.inum, inum);
      } else if a.AllocGetStep? {
        Took(s, t, a.h, s.hs[a.h].inum, inum);
      } else if a.AllocStep? {
        Claimed(s, t, a.h, a.inum, a.typ, inum);
      } else if a.DupStep? {
        Dupped(s, t, a.h, a.g, inum);
      } else {
        Worked(s, t, a, inum);
      }
    }
  }

  lemma Claimed(s: State, t: State, h: nat, i: nat, typ: nat, inum: nat)
    requires Inv(s) && Alloc(s, t, h, i, typ) && Orphan(t, inum)
    ensures Orphan(s, inum)
  {
    hide RefsCounted, LocksOk, FreshOk, UniqueInums;
    assert t.hs[h] == Allocating(i);
    StillUsed(s, t, h, inum);
  }

  lemma Dupped(s: State, t: State, h: nat, g: nat, inum: nat)
    requires Inv(s) && Dup(s, t, h, g) && Orphan(t, inum)
    ensures Orphan(s, inum)
  {
    hide RefsCounted, LocksOk, FreshOk, UniqueInums;
    StillUsed(s, t, g, inum);
  }

  lemma Worked(s: State, t: State, a: Step, inum: nat)
    requires Inv(s) && NextStep(s, t, a) && Orphan(t, inum)
    requires a.LockStep? || a.LoadStep? || a.ModifyStep? || a.UpdateStep? || a.UnlockStep? || a.PutLastStep? || a.FreeStep?
             || a.InvalidateStep?
    ensures Orphan(s, inum)
  {
    hide RefsCounted, LocksOk, FreshOk, UniqueInums;
    assert HandleOk(s, a.h);
    assert UsesInum(t, t.hs[a.h], s.table[a.e].inum);
    StillUsed(s, t, a.h, inum);
  }

  /** A step at one handle keeps the other handles' inodes in use. */
  lemma StillUsed(s: State, t: State, h: nat, inum: nat)
    requires HandlesOk(s) && h < |s.hs| == |t.hs| && t.hs == s.hs[h := t.hs[h]] && |t.table| == |s.table|
    requires forall e :: 0 <= e < |s.table| ==> t.table[e].inum == s.table[e].inum
    requires forall g :: 0 <= g < |t.hs| ==> !UsesInum(t, t.hs[g], inum) && t.hs[g] != Allocating(inum)
    ensures forall g :: 0 <= g < |s.hs| && g != h ==> !UsesInum(s, s.hs[g], inum) && s.hs[g] != Allocating(inum)
  {
    forall g | 0 <= g < |s.hs| && g != h ensures !UsesInum(s, s.hs[g], inum) && s.hs[g] != Allocating(inum) {
      assert t.hs[g] == s.hs[g];
      assert !UsesInum(t, t.hs[g], inum);
    }
  }

  /** iget puts its inode in use and none out of use. */
  lemma Took(s: State, t: State, h: nat, i: nat, inum: nat)
    requires Inv(s) && Iget(s, t, h, i) && (s.hs[h].Unused? || s.hs[h] == Allocating(i)) && Orphan(t, inum)
    ensures Orphan(s, inum)
  {
    hide LocksOk, FreshOk, HandlesOk;
    var e := IgetShape(s, t, h, i);
    assert UsesInum(t, t.hs[h], i);
    forall g | 0 <= g < |s.hs| ensures !UsesInum(s, s.hs[g], inum) && s.hs[g] != Allocating(inum) {
      if g != h {
        assert t.hs[g] == s.hs[g];
        assert !UsesInum(t, t.hs[g], inum);
        if !s.hs[g].Unused? && !s.hs[g].Allocating? && s.hs[g].e < |s.table| { Counted(s, g); }
      }
    }
  }

  lemma Last(s: State, t: State, h: nat, e: nat, inum: nat)
    requires Inv(s) && (PutPlain(s, t, h, e) || Drop(s, t, h, e)) && !Orphan(s, inum) && Orphan(t, inum)
    ensures s.table[e].inum == inum && s.table[e].ref == 1
  {
    hide LocksOk, FreshOk, UniqueInums;
    StillUsed(s, t, h, inum);
    assert UsesInum(s, s.hs[h], s.table[e].inum);
    assert s.table[e].inum == inum;
    CountSet(s.hs, h, Unused, e);
    forall g | 0 <= g < |t.hs| ensures !On(t.hs[g], e) {
      assert !UsesInum(t, t.hs[g], inum);
    }
    CountZero(t.hs, e);
  }

  /** A step gives up the last reference to an allocated inode without links, in
      one of the two ways in which iput does not look at the link count. */
  ghost predicate Forgets(s: State, a: Step, inum: nat) {
    && (a.PutPlainStep? || a.DropStep?) && a.e < |s.table| && s.table[a.e].inum == inum < |s.disk| && s.table[a.e].ref == 1
    && (forall g :: 0 <= g < |s.hs| ==> s.hs[g] != Allocating(inum))
    && s.disk[inum].typ > 0 && s.disk[inum].nlink == 0 && (a.DropStep? || !s.table[a.e].valid)
  }

  /** The steps that orphan an inode are exactly these. */
  lemma OrphanedExactly(s: State, t: State, a: Step, inum: nat)
    requires Inv(s) && NextStep(s, t, a)
    ensures !Orphan(s, inum) && Orphan(t, inum) <==> Forgets(s, a, inum)
  {
    hide UniqueInums, RefsCounted, LocksOk, HandlesOk, FreshOk, UsesInum;
    if !Orphan(s, inum) && Orphan(t, inum) {
      OnlyLastPut(s, t, a, inum);
      forall g | 0 <= g < |s.hs| ensures s.hs[g] != Allocating(inum) {
        if g != a.h { assert t.hs[g] == s.hs[g]; }
      }
      LastPutOrphans(s, t, a.h, a.e);
    }
    if Forgets(s, a, inum) {
      LastPutOrphans(s, t, a.h, a.e);
      HolderUses(s, a.h);
    }
  }

  lemma HolderUses(s: State, h: nat)
    requires h < |s.hs| && !s.hs[h].Unused? && !s.hs[h].Allocating? && s.hs[h].e < |s.table|
    ensures UsesInum(s, s.hs[h], s.table[s.hs[h].e].inum)
  {}

  /** The interleaving: one process (handle 0) frees inode 1 and is about to drop
      its reference; another (handle 1), in create, allocates the number again,
      shares the entry, sets the link count, finds no room for the new name, sets
      it back and gives its reference up first, so neither sees a last reference. */
  ghost function RaceStep(i: nat): Step
    requires i < 20
  {
    [LookupStep(0, 1), LockStep(0, 0), LoadStep(0, 0), ModifyStep(0, 0, Dinode(1, 0, 0)), UpdateStep(0, 0), UnlockStep(0, 0),
     PutLastStep(0, 0), FreeStep(0, 0), InvalidateStep(0, 0), AllocStep(1, 1, 2), AllocGetStep(1),
     LockStep(1, 0), LoadStep(1, 0), ModifyStep(1, 0, Dinode(2, 1, 0)), UpdateStep(1, 0), ModifyStep(1, 0, Dinode(2, 0, 0)),
     UpdateStep(1, 0), UnlockStep(1, 0), PutPlainStep(1, 0), DropStep(0, 0)][i]
  }

  ghost function Snapshot(d: Dinode, x: Entry, a: Handle, b: Handle): State {
    State([Dinode(0, 0, 0), d], [x], [a, b])
  }

  ghost function RaceState(i: nat): State
    requires i <= 20
  {
    if i <= 8 then RaceFree(i) else if i <= 13 then RaceAgain(i) else RaceCreate(i)
  }

  ghost function RaceFree(i: nat): State {
    var linked, unlinked, free := Dinode(1, 1, 0), Dinode(1, 0, 0), Dinode(0, 0, 0);
    if i == 0 then Snapshot(linked, Entry(0, 0, false, free, None), Unused, Unused)
    else if i == 1 then Snapshot(linked, Entry(1, 1, false, free, None), Ref(0), Unused)
    else if i == 2 then Snapshot(linked, Entry(1, 1, false, free, Some(0)), Locking(0), Unused)
    else if i == 3 then Snapshot(linked, Entry(1, 1, true, linked, Some(0)), Open(0), Unused)
    else if i == 4 then Snapshot(linked, Entry(1, 1, true, unlinked, Some(0)), Open(0), Unused)
    else if i == 5 then Snapshot(unlinked, Entry(1, 1, true, unlinked, Some(0)), Open(0), Unused)
    else if i == 6 then Snapshot(unlinked, Entry(1, 1, true, unlinked, None), Ref(0), Unused)
    else if i == 7 then Snapshot(unlinked, Entry(1, 1, true, unlinked, Some(0)), Freeing(0), Unused)
    else Snapshot(free, Entry(1, 1, true, free, Some(0)), Freed(0), Unused)
  }

  ghost function RaceAgain(i: nat): State {
    var free, anew := Dinode(0, 0, 0), Dinode(2, 0, 0);
    if i == 9 then Snapshot(free, Entry(1, 1, false, free, None), Dropping(0), Unused)
    else if i == 10 then Snapshot(anew, Entry(1, 1, false, free, None), Dropping(0), Allocating(1))
    else if i == 11 then Snapshot(anew, Entry(1, 2, false, free, None), Dropping(0), Ref(0))
    else if i == 12 then Snapshot(anew, Entry(1, 2, false, free, Some(1)), Dropping(0), Locking(0))
    else Snapshot(anew, Entry(1, 2, true, anew, Some(1)), Dropping(0), Open(0))
  }

  ghost function RaceCreate(i: nat): State {
    var anew, named := Dinode(2, 0, 0), Dinode(2, 1, 0);
    if i == 14 then Snapshot(anew, Entry(1, 2, true, named, Some(1)), Dropping(0), Open(0))
    else if i == 15 then Snapshot(named, Entry(1, 2, true, named, Some(1)), Dropping(0), Open(0))
    else if i == 16 then Snapshot(named, Entry(1, 2, true, anew, Some(1)), Dropping(0), Open(0))
    else if i == 17 then Snapshot(anew, Entry(1, 2, true, anew, Some(1)), Dropping(0), Open(0))
    else if i == 18 then Snapshot(anew, Entry(1, 2, true, anew, None), Dropping(0), Ref(0))
    else if i == 19 then Snapshot(anew, Entry(1, 1, true, anew, None), Dropping(0), Unused)
    else Snapshot(anew, Entry(1, 0, true, anew, None), Unused, Unused)
  }

  lemma RaceOpen(i: nat)
    requires i < 4
    ensures NextStep(RaceState(i), RaceState(i + 1), RaceStep(i))
  {
    if i == 0 {
      OneEntry(RaceState(0).table);
    }
  }

  lemma RaceUnlink(i: nat)
    requires 4 <= i < 8
    ensures NextStep(RaceState(i), RaceState(i + 1), RaceStep(i))
  {}

  lemma RaceReuse(i: nat)
    requires 8 <= i < 12
    ensures NextStep(RaceState(i), RaceState(i + 1), RaceStep(i))
  {
    if i == 10 {
      RaceShare();
    }
  }

  lemma RaceShare()
    ensures NextStep(RaceState(10), RaceState(11), AllocGetStep(1))
  {
    OneEntry(RaceState(10).table);
    hide Cached, Empty;
    assert RaceState(10).table == [Entry(1, 1, false, Dinode(0, 0, 0), None)];
  }

  lemma RaceNames(i: nat)
    requires 12 <= i < 16
    ensures NextStep(RaceState(i), RaceState(i + 1), RaceStep(i))
  {}

  lemma RaceDrop(i: nat)
    requires 16 <= i < 20
    ensures NextStep(RaceState(i), RaceState(i + 1), RaceStep(i))
  {}

  lemma OrphanReachable() returns (run: seq<State>, steps: seq<Step>)
    ensures Run(run, steps) && Orphan(run[|steps|], 1)
  {
    run, steps := seq(21, i requires 0 <= i < 21 => RaceState(i)), seq(20, i requires 0 <= i < 20 => RaceStep(i));
    forall i | 0 <= i < 20 ensures NextStep(run[i], run[i + 1], steps[i]) {
      if i < 4 {
        RaceOpen(i);
      } else if i < 8 {
        RaceUnlink(i);
      } else if i < 12 {
        RaceReuse(i);
      } else if i < 16 {
        RaceNames(i);
      } else {
        RaceDrop(i);
      }
    }
  }

  lemma OneEntry(table: seq<Entry>)
    requires |table| == 1
    ensures forall inum :: Cached(table, inum) == if table[0].ref > 0 && table[0].inum == inum then Some(0) else None
    ensures Empty(table) == if table[0].ref == 0 then Some(0) else None
  {
    assert table[..0] == [];
  }
}

/**
 * Physical memory as the kernel's page allocator and Sv39 page tables see it:
 * pages of 512 words, a free list threaded through word 0 of the free pages,
 * and three-level trees of page-table pages.  `role` gives every physical page
 * one purpose; the invariant ties the purposes to the words in memory.
 */
module PageState {
  const HI := 0x88000            // PHYSTOP / PGSIZE
  const ENTRIES := 512           // words in a page
  const PAGES := 0x4000000       // MAXVA / PGSIZE: virtual page numbers

  // Page table entries -------------------------------------------------------

  function Mk(p: nat, f: nat): nat { p * 1024 + f }
  function Ppn(w: nat): nat { w / 1024 }
  function Flags(w: nat): nat { w % 1024 }
  predicate Valid(w: nat) { Flags(w) % 2 == 1 }
  // R, W or X is set: the entry maps a page rather than naming a table.
  predicate Leaf(w: nat) { Flags(w) / 2 % 8 != 0 }

  lemma MkParts(p: nat, f: nat)
    requires f < 1024
    ensures Ppn(Mk(p, f)) == p && Flags(Mk(p, f)) == f
    ensures Valid(Mk(p, f)) == Valid(f) && Leaf(Mk(p, f)) == Leaf(f)
  {
    hide Valid, Leaf;
    assert (p * 1024 + f) / 1024 == p && (p * 1024 + f) % 1024 == f && f % 1024 == f;
    SameFlags(Mk(p, f), f);
  }

  lemma SameFlags(w: nat, w': nat)
    requires Flags(w) == Flags(w')
    ensures Valid(w) == Valid(w') && Leaf(w) == Leaf(w')
  {
  }

  lemma FlagsDecide(w: nat)
    ensures w == Mk(Ppn(w), Flags(w)) && Flags(w) < 1024
    ensures Valid(w) == Valid(Flags(w)) && Leaf(w) == Leaf(Flags(w))
  {
    hide Valid, Leaf;
    SameFlags(w, Flags(w));
  }

  // The index that virtual page v selects in a table of the given level.
  function Index(level: nat, v: nat): (i: nat)
    ensures i < ENTRIES
  {
    if level == 0 then v % 512 else if level == 1 then v / 512 % 512 else v / 262144 % 512
  }

  // State --------------------------------------------------------------------

  type Page = seq<nat>

  // The indices chosen from the root down to a table or a mapped page.
  datatype Path = Nil | Snoc(init: Path, last: nat)

  datatype Place = Place(root: nat, path: Path)

  datatype Role = Free(rank: nat) | Table(at: Place) | Frame(at: Place) | Other

  datatype State = State(
    lo: nat,                   // first page after the kernel image
    pages: seq<Page>,
    head: nat,                 // kmem.freelist, 0 when empty
    free: seq<nat>,            // the free pages, head last
    role: seq<Role>,
    node: map<Place, nat>)     // the page holding each table

  function Depth(path: Path): nat
  {
    match path case Nil => 0 case Snoc(init, _) => 1 + Depth(init)
  }

  function Child(at: Place, i: nat): Place { Place(at.root, Snoc(at.path, i)) }

  // The table place a is the place `at` or lies below it.
  predicate Under(a: Place, at: Place)
    decreases a.path
  {
    a == at || (a.path.Snoc? && Under(Place(a.root, a.path.init), at))
  }

  function Prefix(v: nat, d: nat): Path
  {
    if d == 0 then Nil else Snoc(Prefix(v, d - 1), Index(if d <= 3 then 3 - d else 0, v))
  }

  // The bottom-level table and the mapped page of virtual page v.
  function Low(r: nat, v: nat): Place { Place(r, Prefix(v, 2)) }
  function Home(r: nat, v: nat): Place { Place(r, Prefix(v, 3)) }

  lemma PrefixDepth(v: nat, d: nat)
    ensures Depth(Prefix(v, d)) == d
  {
  }

  lemma Steps(r: nat, v: nat)
    ensures Place(r, Prefix(v, 1)) == Child(Place(r, Nil), Index(2, v))
    ensures Low(r, v) == Child(Place(r, Prefix(v, 1)), Index(1, v))
    ensures Home(r, v) == Child(Low(r, v), Index(0, v))
  {
    var one, two, three := 1, 2, 3;
    assert Prefix(v, one) == Snoc(Prefix(v, 0), Index(2, v));
    assert Prefix(v, two) == Snoc(Prefix(v, one), Index(1, v));
    assert Prefix(v, three) == Snoc(Prefix(v, two), Index(0, v));
  }

  lemma HomeUnique(r: nat, v: nat, r': nat, v': nat)
    requires v < PAGES && v' < PAGES
    ensures Home(r, v) == Home(r', v') <==> r == r' && v == v'
  {
    Steps(r, v);
    Steps(r', v');
    Recompose(v);
    Recompose(v');
  }

  lemma Recompose(v: nat)
    requires v < PAGES
    ensures v == Index(2, v) * 262144 + Index(1, v) * 512 + Index(0, v)
  {
    assert v / 262144 < 512;
    assert v / 512 / 512 == v / 262144;
  }

  // Invariant ----------------------------------------------------------------

  predicate Managed(s: State, p: nat) { s.lo <= p < HI }

  predicate Shape(s: State)
  {
    && 0 < s.lo <= HI && |s.pages| == HI && |s.role| == HI
    && (forall p: nat :: p < HI ==> |s.pages[p]| == ENTRIES)
  }

  // The address that the list position after rank k holds.
  function Link(free: seq<nat>, k: nat): nat
    requires k <= |free|
  {
    if k == 0 then 0 else free[k - 1] * 4096
  }

  predicate FreeAt(s: State, k: nat)
    requires Shape(s) && k < |s.free|
  {
    var p := s.free[k];
    Managed(s, p) && s.role[p] == Free(k) && s.pages[p][0] == Link(s.free, k)
  }

  predicate Ranked(s: State, p: nat)
    requires Shape(s) && p < HI
  {
    s.role[p].Free? ==> s.role[p].rank < |s.free| && s.free[s.role[p].rank] == p
  }

  ghost predicate FreeOk(s: State)
    requires Shape(s)
  {
    && s.head == Link(s.free, |s.free|)
    && (forall k: nat :: k < |s.free| ==> FreeAt(s, k))
    && (forall p: nat :: p < HI ==> Ranked(s, p))
  }

  // Addresses below MAXVA use the lower half of a root table.
  function Width(path: Path): nat { if path.Nil? then 256 else ENTRIES }

  predicate NodeAt(s: State, at: Place)
    requires Shape(s) && at in s.node
  {
    var p := s.node[at];
    && Managed(s, p) && s.role[p] == Table(at)
    && (at.path.Nil? ==> p == at.root)
    && (at.path.Snoc? ==> at.path.last < Width(at.path.init) && Place(at.root, at.path.init) in s.node)
    && Depth(at.path) <= 2
  }

  predicate TableAt(s: State, p: nat)
    requires Shape(s) && p < HI
  {
    s.role[p].Table? ==> s.role[p].at in s.node && s.node[s.role[p].at] == p
  }

  ghost predicate NodeOk(s: State)
    requires Shape(s)
  {
    && (forall at :: at in s.node ==> NodeAt(s, at))
    && (forall p: nat :: p < HI ==> TableAt(s, p))
  }

  // The word at index i of the table at `at`.
  function Word(s: State, at: Place, i: nat): nat
  {
    if at in s.node && s.node[at] < |s.pages| && i < |s.pages[s.node[at]]| then s.pages[s.node[at]][i] else 0
  }

  // An entry above the bottom is valid exactly when the table it names exists,
  // and then holds that table's page number and no flag but V; a valid entry
  // at the bottom is a leaf.
  predicate Edge(s: State, at: Place, i: nat)
  {
    var w := Word(s, at, i);
    if Depth(at.path) < 2 then
      if Child(at, i) in s.node then w == Mk(s.node[Child(at, i)], 1) else !Valid(w)
    else
      Valid(w) ==> Leaf(w)
  }

  // Edges to the places in `cut` are exempt while a tree is taken apart.
  ghost predicate Edges(s: State, cut: set<Place>)
  {
    forall at, i: nat :: at in s.node && i < ENTRIES && Child(at, i) !in cut ==> Edge(s, at, i)
  }

  // A frame is mapped by the entry of the place that owns it.
  predicate Owned(s: State, p: nat)
    requires Shape(s) && p < HI
  {
    s.role[p].Frame? ==>
      && Managed(s, p) && s.role[p].at.path.Snoc? && s.role[p].at.path.last < ENTRIES
      && Depth(s.role[p].at.path) == 3
      && (var w := Word(s, Place(s.role[p].at.root, s.role[p].at.path.init), s.role[p].at.path.last);
          Valid(w) && Ppn(w) == p)
  }

  ghost predicate FramesOk(s: State)
    requires Shape(s)
  {
    forall p: nat :: p < HI ==> Owned(s, p)
  }

  ghost predicate InvBut(s: State, cut: set<Place>)
  {
    Shape(s) && FreeOk(s) && NodeOk(s) && Edges(s, cut) && FramesOk(s)
  }

  ghost predicate Inv(s: State) { InvBut(s, {}) }

  // What the MMU sees ---------------------------------------------------------

  // Entry i of the page at p, 0 when p is no page.
  function Entry(pages: seq<Page>, p: int, i: nat): nat
  {
    if 0 <= p < |pages| && i < |pages[p]| then pages[p][i] else 0
  }

  function Next(pages: seq<Page>, p: int, i: nat): int
  {
    if Valid(Entry(pages, p, i)) then Ppn(Entry(pages, p, i)) else -1
  }

  // The three-level table walk of the Sv39 address translation algorithm: the
  // bottom-level entry for virtual page v, 0 when a table on the way is missing.
  function MmuEntry(pages: seq<Page>, root: nat, v: nat): nat
  {
    Entry(pages, Next(pages, Next(pages, root, Index(2, v)), Index(1, v)), Index(0, v))
  }

  predicate Tree(s: State, r: nat) { Place(r, Nil) in s.node }

  // The same entry found through the table of places.
  function Slot(s: State, r: nat, v: nat): nat { Word(s, Low(r, v), Index(0, v)) }

  lemma Descend(s: State, at: Place, i: nat)
    requires Inv(s) && at in s.node && i < ENTRIES && Depth(at.path) < 2
    ensures Next(s.pages, s.node[at], i) == if Child(at, i) in s.node then s.node[Child(at, i)] else -1
  {
    assert NodeAt(s, at) && Edge(s, at, i);
    if Child(at, i) in s.node {
      MkParts(s.node[Child(at, i)], 1);
    }
  }

  lemma {:induction false} NoOrphan(s: State, at: Place, i: nat)
    requires Inv(s) && at !in s.node
    ensures Child(at, i) !in s.node
  {
    assert Child(at, i) in s.node ==> NodeAt(s, Child(at, i));
  }

  /** In every state the kernel can reach, what the MMU reads by following the
      words in memory is the entry the table of places gives. */
  lemma MmuReadsSlot(s: State, r: nat, v: nat)
    requires Inv(s) && Tree(s, r)
    ensures MmuEntry(s.pages, r, v) == Slot(s, r, v)
  {
    var top, mid := Place(r, Nil), Place(r, Prefix(v, 1));
    Steps(r, v);
    assert NodeAt(s, top);
    Descend(s, top, Index(2, v));
    if mid in s.node {
      Descend(s, mid, Index(1, v));
    } else {
      NoOrphan(s, mid, Index(1, v));
    }
    if Low(r, v) in s.node {
      assert NodeAt(s, Low(r, v));
    }
  }
}

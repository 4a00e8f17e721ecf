/**
 * Runs of steps: a fresh frame is mapped, a range is filled page by page, and a
 * range is rolled back when memory runs out.
 */
module PageRuns {
  import opened PageState
  import opened PageSteps
  import opened Common

  // Every entry outside [v, v + n) of tree r is the same.
  ghost predicate SlotsElse(s: State, t: State, r: nat, v: nat, n: nat)
  {
    forall r': nat, v': nat :: v' < PAGES && !(r' == r && v <= v' < v + n) ==> Slot(t, r', v') == Slot(s, r', v')
  }

  // Every tree maps the same pages in the same way.
  ghost predicate SameMap(s: State, t: State)
  {
    forall r: nat, v: nat :: v < PAGES ==>
      Slot(t, r, v) == Slot(s, r, v) || (!Valid(Slot(t, r, v)) && !Valid(Slot(s, r, v)))
  }

  // The contents a fresh frame gets: a copy of page `from`, or zeroes.
  function Content(s: State, from: nat): Page
  {
    if from != 0 && from < |s.pages| then s.pages[from] else Fill(0)
  }

  // Virtual page v of tree r has a frame of its own with the given flags and contents.
  ghost predicate Holds(t: State, r: nat, v: nat, f: nat, page: Page)
    requires Shape(t)
  {
    Mine(t, r, v) && Flags(Slot(t, r, v)) == f && t.pages[Ppn(Slot(t, r, v))] == page
  }

  // As Kept, but for page q, which was free and is now held by the running code.
  ghost predicate KeptBut(s: State, t: State, q: nat, page: Page)
    requires Shape(s) && Shape(t)
  {
    && t.lo == s.lo && Managed(s, q) && s.role[q].Free? && t.role[q].Other? && t.pages[q] == page
    && (forall p: nat :: p < HI && p != q ==> GrewAt(s, t, 0, 0, 0, p))
  }

  // A page taken off the list, filled, and held while tables were added.
  lemma HeldPage(s: State, page: Page, t: State)
    requires Inv(s) && |s.free| > 0 && FreeAt(s, |s.free| - 1) && Shape(t) && |page| == ENTRIES
    requires var u := FillPage(PopPage(s), s.free[|s.free| - 1], page); Shape(u) && Kept(u, t)
    ensures KeptBut(s, t, s.free[|s.free| - 1], page)
  {
    var q := s.free[|s.free| - 1];
    var u := FillPage(PopPage(s), q, page);
    hide FreeOk, NodeOk, Edges, FramesOk;
    assert GrewAt(u, t, 0, 0, 0, q);
    forall p: nat | p < HI && p != q ensures GrewAt(s, t, 0, 0, 0, p) {
      assert GrewAt(u, t, 0, 0, 0, p);
    }
  }

  lemma GiveBack(s: State, t: State, q: nat, page: Page)
    requires Shape(s) && Shape(t) && KeptBut(s, t, q, page)
    ensures Shape(PushPage(t, q)) && Kept(s, PushPage(t, q))
  {
    forall p: nat | p < HI ensures GrewAt(s, PushPage(t, q), 0, 0, 0, p) {
      if p != q { assert GrewAt(s, t, 0, 0, 0, p); }
    }
  }

  lemma TakeOver(s: State, t: State, q: nat, page: Page, r: nat, v: nat)
    requires Shape(s) && Shape(t) && KeptBut(s, t, q, page) && v < PAGES
    ensures var z := Adopt(t, q, Home(r, v)); Shape(z) && Grew(s, z, r, v, 1)
  {
    VpnHome(r, v);
    var z := Adopt(t, q, Home(r, v));
    forall p: nat | p < HI ensures GrewAt(s, z, r, v, 1, p) {
      if p != q { assert GrewAt(s, t, 0, 0, 0, p); }
    }
  }

  lemma Installed(s: State, t: State, q: nat, page: Page, r: nat, v: nat, f: nat)
    requires Inv(t) && Shape(s) && KeptBut(s, t, q, page) && v < PAGES && f < 1024 && Valid(f)
    requires Maps(s, t, r, v, 1, q, f)
    ensures var z := Adopt(t, q, Home(r, v));
      Inv(z) && Holds(z, r, v, f, page) && SlotsElse(s, z, r, v, 1)
  {
    MkParts(q, f);
    Steps(r, v);
    PrefixDepth(v, 2);
    assert Slot(t, r, v) == Mk(q, f);
    AdoptOk(t, q, Low(r, v), Index(0, v));
    SlotsSame(t, Adopt(t, q, Home(r, v)));
  }

  // Frames of other pages are untouched while one more page is added.
  lemma StillHolds(s: State, t: State, r: nat, v: nat, r': nat, x: nat, f: nat, page: Page)
    requires Shape(s) && Shape(t) && Grew(s, t, r, v, 1) && SlotsElse(s, t, r, v, 1)
    requires x < PAGES && !(r' == r && x == v) && Holds(s, r', x, f, page)
    ensures Holds(t, r', x, f, page)
  {
    assert GrewAt(s, t, r, v, 1, Ppn(Slot(s, r', x)));
  }

  lemma GrewMore(s: State, u: State, t: State, r: nat, v: nat, n: nat)
    requires Shape(s) && Shape(u) && Shape(t) && Grew(s, u, r, v, n) && Grew(u, t, r, v + n, 1)
    requires SlotsElse(s, u, r, v, n) && SlotsElse(u, t, r, v + n, 1)
    ensures Grew(s, t, r, v, n + 1) && SlotsElse(s, t, r, v, n + 1)
  {
    var m, w := n + 1, v + n;
    forall p: nat | p < HI ensures GrewAt(s, t, r, v, m, p) {
      assert GrewAt(s, u, r, v, n, p) && GrewAt(u, t, r, w, 1, p);
    }
    forall r': nat, v': nat | v' < PAGES && !(r' == r && v <= v' < v + m)
      ensures Slot(t, r', v') == Slot(s, r', v')
    {
      assert Slot(u, r', v') == Slot(s, r', v');
    }
  }

  // No page of [v, v + n) is mapped.
  ghost predicate Vacant(s: State, r: nat, v: nat, n: nat)
  {
    forall x: nat :: v <= x < v + n ==> !Valid(Slot(s, r, x))
  }

  /** Filling a vacant range part of the way and then freeing what was filled
      leaves every mapping, every frame and every other page as it was. */
  lemma RolledBack(s: State, u: State, t: State, r: nat, v: nat, n: nat)
    requires Inv(s) && Shape(u) && Shape(t) && v + n <= PAGES && Vacant(s, r, v, n)
    requires Grew(s, u, r, v, n) && SlotsElse(s, u, r, v, n)
    requires Unmaps(u, t, r, v, n) && Freed(u, t, r, v, n)
    ensures SameMap(s, t) && Kept(s, t) && SlotsElse(s, t, r, v, n)
  {
    forall r': nat, v': nat | v' < PAGES && !(r' == r && v <= v' < v + n) ensures Slot(t, r', v') == Slot(s, r', v') {
      assert Slot(u, r', v') == Slot(s, r', v');
    }
    forall r': nat, v': nat | v' < PAGES
      ensures Slot(t, r', v') == Slot(s, r', v') || (!Valid(Slot(t, r', v')) && !Valid(Slot(s, r', v')))
    {
      assert Slot(u, r', v') == Slot(u, r', v');
    }
    forall p: nat | p < HI ensures GrewAt(s, t, 0, 0, 0, p) {
      assert GrewAt(s, u, r, v, n, p) && FreedAt(u, t, r, v, n, p);
      if Ranged(s.role[p], r, v, n) {
        FrameHome(s, p);
      }
    }
  }

  // Counting frames -------------------------------------------------------------

  ghost function Used(s: State, r: nat, n: nat): set<nat>
  {
    if n == 0 then {} else Used(s, r, n - 1) + {Ppn(Slot(s, r, n - 1))}
  }

  lemma {:induction false} UsedCount(s: State, r: nat, n: nat)
    requires Shape(s) && AllMine(s, r, 0, n) && n <= PAGES
    ensures |Used(s, r, n)| == n
    ensures forall p :: p in Used(s, r, n) ==> p < HI && s.role[p].Frame? && Vpn(s.role[p].at.path) < n
  {
    hide Slot, Valid, Ppn, Home;
    if n > 0 {
      assert Mine(s, r, n - 1);
      UsedCount(s, r, n - 1);
      VpnHome(r, n - 1);
    }
  }

  /** A process never has more pages than there is physical memory. */
  lemma Pigeonhole(s: State, r: nat, n: nat)
    requires Shape(s) && AllMine(s, r, 0, n)
    ensures n <= HI
  {
    if n > HI {
      UsedCount(s, r, HI + 1);
      Bounded(Used(s, r, HI + 1), HI);
    }
  }

  // Mapping one fresh page ---------------------------------------------------------

  // One page was added to tree r, at v, and nothing else changed.
  ghost predicate Added(s: State, t: State, r: nat, v: nat, f: nat, page: Page)
    requires Shape(s) && Shape(t)
  {
    Grew(s, t, r, v, 1) && SlotsElse(s, t, r, v, 1) && Holds(t, r, v, f, page)
  }

  // Nothing was added but perhaps empty tables.
  ghost predicate Undone(s: State, t: State)
    requires Shape(s) && Shape(t)
  {
    Kept(s, t) && SlotsElse(s, t, 0, 0, 0)
  }

  // The head of the free list taken off and filled.
  function Taken(s: State, page: Page): State
    requires Shape(s) && |s.free| > 0 && s.free[|s.free| - 1] < HI
  {
    FillPage(PopPage(s), s.free[|s.free| - 1], page)
  }

  lemma TakenOk(s: State, page: Page)
    requires Inv(s) && |s.free| > 0 && |page| == ENTRIES
    ensures FreeAt(s, |s.free| - 1)
    ensures var u := Taken(s, page); Inv(u) && forall r: nat, v: nat :: Slot(u, r, v) == Slot(s, r, v)
  {
    PopOk(s, {});
    FillOk(PopPage(s), s.free[|s.free| - 1], page);
    SlotsSame(s, PopPage(s));
    SlotsSame(PopPage(s), Taken(s, page));
  }

  lemma FreshFailed(s: State, page: Page, t: State, r: nat, v: nat, f: nat)
    requires Inv(s) && |s.free| > 0 && |page| == ENTRIES && FreeAt(s, |s.free| - 1) && Inv(t)
    requires Kept(Taken(s, page), t) && Maps(Taken(s, page), t, r, v, 0, s.free[|s.free| - 1], f)
    ensures var q := s.free[|s.free| - 1]; Managed(t, q) && t.role[q].Other?
    ensures var z := PushPage(t, s.free[|s.free| - 1]); Inv(z) && Undone(s, z)
    ensures forall at :: at in s.node ==> at in t.node
  {
    var q := s.free[|s.free| - 1];
    TakenOk(s, page);
    var u := Taken(s, page);
    HeldPage(s, page, t);
    GiveBack(s, t, q, page);
    PushOk(t, q, {});
    SlotsSame(t, PushPage(t, q));
    TreesStay(u, t, 0, 0, 0);
    hide FreeOk, NodeOk, Edges, FramesOk, Slot;
    forall r': nat, v': nat | v' < PAGES ensures Slot(PushPage(t, q), r', v') == Slot(s, r', v') {
      assert Slot(t, r', v') == Slot(u, r', v');
    }
  }

  lemma FreshMapped(s: State, page: Page, t: State, r: nat, v: nat, f: nat)
    requires Inv(s) && |s.free| > 0 && |page| == ENTRIES && FreeAt(s, |s.free| - 1) && Inv(t)
    requires Kept(Taken(s, page), t) && Maps(Taken(s, page), t, r, v, 1, s.free[|s.free| - 1], f)
    requires v < PAGES && f < 1024 && Valid(f)
    ensures var z := Adopt(t, s.free[|s.free| - 1], Home(r, v));
      Inv(z) && Added(s, z, r, v, f, page)
    ensures forall at :: at in s.node ==> at in t.node
  {
    var q := s.free[|s.free| - 1];
    TakenOk(s, page);
    var u := Taken(s, page);
    HeldPage(s, page, t);
    TakeOver(s, t, q, page, r, v);
    TreesStay(u, t, 0, 0, 0);
    MapsSince(s, u, t, r, v, q, f);
    Installed(s, t, q, page, r, v, f);
  }

  lemma MapsSince(s: State, u: State, t: State, r: nat, v: nat, q: nat, f: nat)
    requires Maps(u, t, r, v, 1, q, f) && forall r: nat, v: nat :: Slot(u, r, v) == Slot(s, r, v)
    ensures Maps(s, t, r, v, 1, q, f)
  {
    hide Slot;
    forall r': nat, v': nat | v' < PAGES
      ensures Slot(t, r', v') == if r' == r && v <= v' < v + 1 then Mk(q + (v' - v), f) else Slot(s, r', v')
    {
      assert Slot(u, r', v') == Slot(s, r', v');
    }
  }

  // Building a range ------------------------------------------------------------------

  // What virtual page x is to hold: zeroes with flags f, or, when a source tree
  // is given, what the source tree has there.
  function WantFlags(s: State, src: nat, f: nat, x: nat): nat
  {
    if src == 0 then f else Flags(Slot(s, src, x))
  }

  function WantPage(s: State, src: nat, x: nat): Page
  {
    if src == 0 then Fill(0) else Content(s, Ppn(Slot(s, src, x)))
  }

  // Tree r was given fresh frames for [v, v + n), and nothing else changed.
  ghost predicate Built(s: State, t: State, r: nat, v: nat, n: nat, src: nat, f: nat)
    requires Shape(s) && Shape(t)
  {
    && Grew(s, t, r, v, n) && SlotsElse(s, t, r, v, n)
    && (forall x: nat :: v <= x < v + n ==> Holds(t, r, x, WantFlags(s, src, f, x), WantPage(s, src, x)))
  }

  lemma BuiltNone(s: State, r: nat, v: nat, src: nat, f: nat)
    requires Shape(s)
    ensures Built(s, s, r, v, 0, src, f)
  {
    forall p: nat | p < HI ensures GrewAt(s, s, r, v, 0, p) {
    }
  }

  lemma BuiltMore(s: State, u: State, t: State, r: nat, v: nat, n: nat, src: nat, f: nat)
    requires Shape(s) && Shape(u) && Shape(t) && v + n < PAGES && Built(s, u, r, v, n, src, f)
    requires Added(u, t, r, v + n, WantFlags(s, src, f, v + n), WantPage(s, src, v + n))
    ensures Built(s, t, r, v, n + 1, src, f)
  {
    hide Slot, WantFlags, WantPage, Mine;
    GrewMore(s, u, t, r, v, n);
    forall x: nat | v <= x < v + (n + 1) ensures Holds(t, r, x, WantFlags(s, src, f, x), WantPage(s, src, x)) {
      if x < v + n {
        StillHolds(u, t, r, v + n, r, x, WantFlags(s, src, f, x), WantPage(s, src, x));
      }
    }
  }

  // The pages of another tree, and the rest of this one, are as they were.
  lemma BuiltElse(s: State, t: State, r: nat, v: nat, n: nat, src: nat, f: nat, r': nat, x: nat)
    requires Shape(s) && Shape(t) && x < PAGES && Built(s, t, r, v, n, src, f) && !(r' == r && v <= x < v + n)
    ensures Slot(t, r', x) == Slot(s, r', x)
    ensures Mine(s, r', x) ==> Mine(t, r', x) && t.pages[Ppn(Slot(t, r', x))] == s.pages[Ppn(Slot(s, r', x))]
  {
    if Mine(s, r', x) {
      assert GrewAt(s, t, r, v, n, Ppn(Slot(s, r', x)));
    }
  }

  lemma BuiltMine(s: State, t: State, r: nat, v: nat, n: nat, src: nat, f: nat)
    requires Shape(s) && Shape(t) && Built(s, t, r, v, n, src, f)
    ensures AllMine(t, r, v, n)
  {
    forall x: nat | v <= x < v + n ensures Mine(t, r, x) {
      assert Holds(t, r, x, WantFlags(s, src, f, x), WantPage(s, src, x));
    }
  }

  lemma BuiltThenUndone(s: State, u: State, t: State, r: nat, v: nat, n: nat, src: nat, f: nat)
    requires Shape(s) && Shape(u) && Shape(t) && v + n <= PAGES && Built(s, u, r, v, n, src, f) && Undone(u, t)
    ensures Built(s, t, r, v, n, src, f)
  {
    ThenKept(s, u, t, r, v, n);
    forall x: nat | v <= x < v + n ensures Holds(t, r, x, WantFlags(s, src, f, x), WantPage(s, src, x)) {
      assert Holds(u, r, x, WantFlags(s, src, f, x), WantPage(s, src, x));
      assert GrewAt(u, t, 0, 0, 0, Ppn(Slot(u, r, x)));
    }
    forall r': nat, v': nat | v' < PAGES && !(r' == r && v <= v' < v + n)
      ensures Slot(t, r', v') == Slot(s, r', v')
    {
      assert Slot(u, r', v') == Slot(s, r', v');
    }
  }
}

/**
 * Which pages change hands while the kernel sets up and tears down address
 * spaces, and how many: pages taken off the free list to be held, pages taken for
 * the tables of a tree, and trees given back.
 */
module PageHands {
  import opened PageState
  import opened PageSteps
  import opened PageRuns
  import opened PagePrune

  // Free pages as a set ---------------------------------------------------------------

  ghost function FreeSet(s: State): set<nat>
    requires Shape(s)
  {
    set p: nat | p < HI && s.role[p].Free?
  }

  ghost function Listed(free: seq<nat>): set<nat>
  {
    if free == [] then {} else Listed(free[..|free| - 1]) + {free[|free| - 1]}
  }

  lemma {:induction false} ListedIs(free: seq<nat>)
    ensures forall p :: p in Listed(free) <==> p in free
  {
    if free != [] {
      ListedIs(free[..|free| - 1]);
      assert free == free[..|free| - 1] + [free[|free| - 1]];
    }
  }

  lemma {:induction false} ListedCount(free: seq<nat>)
    requires forall j: nat, k: nat :: j < k < |free| ==> free[j] != free[k]
    ensures |Listed(free)| == |free|
  {
    if free != [] {
      var init := free[..|free| - 1];
      ListedCount(init);
      ListedIs(init);
    }
  }

  /** The free list holds each free page once. */
  lemma FreeCount(s: State)
    requires Inv(s)
    ensures |s.free| == |FreeSet(s)|
  {
    hide NodeOk, Edges, FramesOk;
    forall j: nat, k: nat | j < k < |s.free| ensures s.free[j] != s.free[k] {
      assert FreeAt(s, j) && FreeAt(s, k);
    }
    ListedCount(s.free);
    ListedIs(s.free);
    forall p: nat ensures p in FreeSet(s) <==> p in s.free {
      if p < HI && s.role[p].Free? { assert Ranked(s, p); }
      if p in s.free {
        var k: nat :| k < |s.free| && s.free[k] == p;
        assert FreeAt(s, k);
      }
    }
    assert FreeSet(s) == Listed(s.free);
  }

  // What changes hands ------------------------------------------------------------------

  /** The pages in `mine`, free in s, are held in t; any other page free in s is
      free in t or a table of one of the given trees; every other page has its role,
      and its contents unless it is a table; every other tree has its entries. */
  ghost predicate Took(s: State, t: State, mine: set<nat>, trees: set<nat>)
    requires Shape(s) && Shape(t)
  {
    && t.lo == s.lo
    && (forall p: nat :: p < HI ==> TookAt(s, t, mine, trees, p))
    && (forall r: nat, v: nat :: v < PAGES && r !in trees ==> Slot(t, r, v) == Slot(s, r, v))
  }

  predicate TookAt(s: State, t: State, mine: set<nat>, trees: set<nat>, p: nat)
    requires Shape(s) && Shape(t) && p < HI
  {
    if p in mine then s.role[p].Free? && t.role[p].Other?
    else if s.role[p].Free? then t.role[p].Free? || (t.role[p].Table? && t.role[p].at.root in trees)
    else t.role[p] == s.role[p] && (!s.role[p].Table? ==> t.pages[p] == s.pages[p])
  }

  lemma TookNone(s: State)
    requires Shape(s)
    ensures Took(s, s, {}, {})
  {
    forall p: nat | p < HI ensures TookAt(s, s, {}, {}, p) {
    }
  }

  lemma TookMore(s: State, t: State, mine: set<nat>, trees: set<nat>, more: set<nat>)
    requires Shape(s) && Shape(t) && Took(s, t, mine, trees) && trees <= more
    ensures Took(s, t, mine, more)
  {
    forall p: nat | p < HI ensures TookAt(s, t, mine, more, p) {
      assert TookAt(s, t, mine, trees, p);
    }
  }

  lemma TookThen(s: State, u: State, t: State, a: set<nat>, b: set<nat>, c: set<nat>, trees: set<nat>)
    requires Shape(s) && Shape(u) && Shape(t) && Took(s, u, a, trees) && Took(u, t, b, trees) && c == a + b
    ensures Took(s, t, c, trees)
  {
    forall p: nat | p < HI ensures TookAt(s, t, c, trees, p) {
      assert TookAt(s, u, a, trees, p) && TookAt(u, t, b, trees, p);
    }
    forall r: nat, v: nat | v < PAGES && r !in trees ensures Slot(t, r, v) == Slot(s, r, v) {
      assert Slot(u, r, v) == Slot(s, r, v);
    }
  }

  // kalloc.
  lemma TookPage(s: State)
    requires Inv(s) && |s.free| > 0
    ensures FreeAt(s, |s.free| - 1) && Inv(PopPage(s))
    ensures Took(s, PopPage(s), {s.free[|s.free| - 1]}, {})
  {
    PopOk(s, {});
    var t, q := PopPage(s), s.free[|s.free| - 1];
    SlotsSame(s, t);
    hide FreeOk, NodeOk, Edges, FramesOk, Slot;
    forall p: nat | p < HI ensures TookAt(s, t, {q}, {}, p) {
    }
  }

  // Tables were added at places of tree r only.
  lemma TookTables(s: State, t: State, r: nat, need: set<Place>)
    requires Inv(s) && Inv(t) && Kept(s, t) && t.node.Keys <= s.node.Keys + need
    requires forall at :: at in need ==> at.root == r
    requires forall r': nat, v: nat :: v < PAGES && r' != r ==> Slot(t, r', v) == Slot(s, r', v)
    ensures Took(s, t, {}, {r})
  {
    TreesStay(s, t, 0, 0, 0);
    forall p: nat | p < HI ensures TookAt(s, t, {}, {r}, p) {
      assert GrewAt(s, t, 0, 0, 0, p) && TableAt(t, p);
      if s.role[p].Free? && t.role[p].Table? && t.role[p].at in s.node {
        assert NodeAt(s, t.role[p].at);
      }
    }
  }

  // No page belongs to a tree that does not exist.
  lemma NoneBelongs(s: State, r: nat, p: nat)
    requires Inv(s) && !Tree(s, r) && p < HI
    ensures !BelongsTo(s, r, p)
  {
    assert TableAt(s, p) && Owned(s, p);
    if BelongsTo(s, r, p) {
      if s.role[p].Table? {
        NoTables(s, s.role[p].at);
      } else {
        NoTables(s, Place(r, s.role[p].at.path.init));
      }
    }
  }

  lemma NoSlots(s: State, r: nat, v: nat)
    requires Inv(s) && !Tree(s, r)
    ensures Slot(s, r, v) == 0
  {
    NoTables(s, Low(r, v));
  }

  /** Taking pages for a new tree and then freeing the tree leaves only the pages
      taken for other uses. */
  lemma TookBack(s: State, u: State, t: State, mine: set<nat>, r: nat)
    requires Inv(s) && Inv(u) && Inv(t) && Took(s, u, mine, {r}) && Released(u, t, r) && !Tree(s, r) && !Tree(t, r)
    ensures Took(s, t, mine, {})
  {
    forall p: nat | p < HI ensures TookAt(s, t, mine, {}, p) {
      assert TookAt(s, u, mine, {r}, p) && ReleasedAt(u, t, r, p);
      NoneBelongs(s, r, p);
    }
    forall r': nat, v: nat | v < PAGES ensures Slot(t, r', v) == Slot(s, r', v) {
      if r' == r {
        NoSlots(s, r, v);
        NoSlots(t, r, v);
      }
    }
  }

  lemma TookCount(s: State, t: State, mine: set<nat>)
    requires Inv(s) && Inv(t) && Took(s, t, mine, {}) && forall p :: p in mine ==> p < HI
    ensures |t.free| == |s.free| - |mine|
  {
    FreeCount(s);
    FreeCount(t);
    forall p: nat | p < HI ensures t.role[p].Free? <==> s.role[p].Free? && p !in mine {
      assert TookAt(s, t, mine, {}, p);
    }
    forall p | p in mine ensures p in FreeSet(s) {
      assert TookAt(s, t, mine, {}, p);
    }
    assert FreeSet(t) == FreeSet(s) - mine;
  }
}

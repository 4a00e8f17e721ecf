/**
 * Taking a tree of empty tables apart from the leaves up, as freewalk does.
 */
module PagePrune {
  import opened PageState
  import opened PageSteps

  // Between s and t only tables at or below `at` were freed.
  ghost predicate Pruned(s: State, t: State, at: Place)
    requires Shape(s) && Shape(t)
  {
    && t.lo == s.lo
    && (forall a :: a in t.node ==> a in s.node && t.node[a] == s.node[a])
    && (forall a :: a in s.node && !Under(a, at) ==> a in t.node)
    && (forall a, i: nat :: !Under(a, at) ==> Word(t, a, i) == Word(s, a, i))
    && (forall p: nat :: p < HI ==> PrunedAt(s, t, at, p))
  }

  predicate PrunedAt(s: State, t: State, at: Place, p: nat)
    requires Shape(s) && Shape(t) && p < HI
  {
    if s.role[p].Table? then t.role[p] == s.role[p] || (Under(s.role[p].at, at) && t.role[p].Free?)
    else t.role[p] == s.role[p] && t.pages[p] == s.pages[p]
  }

  // No page is mapped below `at`.
  ghost predicate Bare(s: State, at: Place)
  {
    forall a: Place, i: nat :: a in s.node && Depth(a.path) == 2 && Under(a, at) && i < ENTRIES ==>
      !Valid(Word(s, a, i))
  }

  // The first i entries of the table at `at` are out of use.
  ghost predicate Cleared(s: State, at: Place, i: nat)
  {
    forall j: nat :: j < i ==> Child(at, j) !in s.node && !Valid(Word(s, at, j))
  }

  lemma {:induction false} UnderDepth(a: Place, at: Place)
    requires Under(a, at)
    ensures Depth(at.path) <= Depth(a.path) && a.root == at.root
    decreases a.path
  {
    if a != at { UnderDepth(Place(a.root, a.path.init), at); }
  }

  lemma {:induction false} UnderChild(a: Place, at: Place, i: nat)
    requires Under(a, Child(at, i))
    ensures Under(a, at)
    decreases a.path
  {
    if a != Child(at, i) { UnderChild(Place(a.root, a.path.init), at, i); }
  }

  lemma NotUnder(at: Place, i: nat)
    ensures !Under(at, Child(at, i))
  {
    if Under(at, Child(at, i)) { UnderDepth(at, Child(at, i)); }
  }

  lemma {:induction false} NoneUnder(s: State, a: Place, at: Place)
    requires Shape(s) && NodeOk(s) && at !in s.node && Under(a, at)
    ensures a !in s.node
    decreases a.path
  {
    if a != at {
      NoneUnder(s, Place(a.root, a.path.init), at);
      assert a in s.node ==> NodeAt(s, a);
    }
  }

  lemma PrunedNone(s: State, at: Place)
    requires Shape(s)
    ensures Pruned(s, s, at)
  {
    forall p: nat | p < HI ensures PrunedAt(s, s, at, p) {
    }
  }

  // A child of `at` was taken apart as well.
  lemma PrunedChild(s: State, u: State, t: State, at: Place, i: nat)
    requires Shape(s) && Shape(u) && Shape(t) && Pruned(s, u, at) && Pruned(u, t, Child(at, i))
    ensures Pruned(s, t, at)
  {
    var c := Child(at, i);
    forall a | Under(a, c) ensures Under(a, at) {
      UnderChild(a, at, i);
    }
    forall p: nat | p < HI ensures PrunedAt(s, t, at, p) {
      assert PrunedAt(s, u, at, p) && PrunedAt(u, t, c, p);
    }
    forall a, j: nat | !Under(a, at) ensures Word(t, a, j) == Word(s, a, j) {
      assert Word(u, a, j) == Word(s, a, j);
    }
  }

  lemma ChildGone(u: State, t: State, at: Place, i: nat)
    requires Shape(u) && Shape(t) && NodeOk(t) && Pruned(u, t, Child(at, i)) && Child(at, i) !in t.node
    requires at in u.node && Bare(u, at) && Cleared(u, at, i)
    ensures at in t.node && t.node[at] == u.node[at] && Bare(t, at) && Cleared(t, at, i)
  {
    var c := Child(at, i);
    NotUnder(at, i);
    forall a: Place, j: nat | a in t.node && Depth(a.path) == 2 && Under(a, at) && j < ENTRIES
      ensures !Valid(Word(t, a, j))
    {
      if Under(a, c) { NoneUnder(t, a, c); }
      assert Word(t, a, j) == Word(u, a, j);
    }
    forall j: nat | j < i ensures Child(at, j) !in t.node && !Valid(Word(t, at, j)) {
      assert Word(t, at, j) == Word(u, at, j);
    }
  }

  lemma EntryCleared(s: State, u: State, at: Place, i: nat)
    requires Shape(s) && Shape(u) && NodeOk(u) && Pruned(s, u, at) && at in u.node && u.node[at] < HI && i < ENTRIES
    requires Bare(u, at) && Cleared(u, at, i) && Child(at, i) !in u.node
    ensures var t := PutWord(u, at, i, 0); Shape(t) && Pruned(s, t, at) && Bare(t, at) && Cleared(t, at, i + 1)
  {
    var t := PutWord(u, at, i, 0);
    assert NodeAt(u, at);
    forall a, j: nat ensures Word(t, a, j) == if a == at && j == i then 0 else Word(u, a, j) {
      PutWordAt(u, at, i, 0, a, j);
    }
    forall p: nat | p < HI ensures PrunedAt(s, t, at, p) {
      assert PrunedAt(s, u, at, p);
    }
    forall a, j: nat | !Under(a, at) ensures Word(t, a, j) == Word(s, a, j) {
      assert Word(u, a, j) == Word(s, a, j);
    }
  }

  lemma PrunedSelf(s: State, u: State, at: Place)
    requires Shape(s) && Shape(u) && NodeOk(u) && Pruned(s, u, at) && at in u.node && u.node[at] < HI
    ensures var t := PushPage(DropTable(u, at), u.node[at]); Shape(t) && Pruned(s, t, at)
  {
    var p := u.node[at];
    assert NodeAt(u, at);
    var t := PushPage(DropTable(u, at), p);
    forall a, j: nat | !Under(a, at) ensures Word(t, a, j) == Word(s, a, j) {
      assert Word(u, a, j) == Word(s, a, j);
      assert a in u.node ==> NodeAt(u, a);
    }
    forall q: nat | q < HI ensures PrunedAt(s, t, at, q) {
      assert PrunedAt(s, u, at, q);
    }
  }

  // Freeing a whole tree ------------------------------------------------------------

  ghost predicate AllVacant(s: State, r: nat)
  {
    forall v: nat :: v < PAGES ==> !Valid(Slot(s, r, v))
  }

  lemma VacantBare(s: State, r: nat)
    requires Inv(s) && AllVacant(s, r)
    ensures Bare(s, Place(r, Nil))
  {
    forall a: Place, i: nat | a in s.node && Depth(a.path) == 2 && Under(a, Place(r, Nil)) && i < ENTRIES
      ensures !Valid(Word(s, a, i))
    {
      UnderDepth(a, Place(r, Nil));
      LowPlace(s, a, i);
    }
  }

  // Every entry of a bottom-level table is the entry of some virtual page.
  lemma LowPlace(s: State, a: Place, i: nat)
    requires Inv(s) && a in s.node && Depth(a.path) == 2 && i < ENTRIES
    ensures var v := Vpn(Snoc(a.path, i)); v < PAGES && Slot(s, a.root, v) == Word(s, a, i)
  {
    assert NodeAt(s, a);
    assert NodeAt(s, Place(a.root, a.path.init));
    var path := Snoc(a.path, i);
    PathIsHome(a.root, path);
    Steps(a.root, Vpn(path));
  }

  // Page p is a table or a frame of tree r.
  predicate BelongsTo(s: State, r: nat, p: nat)
    requires Shape(s) && p < HI
  {
    (s.role[p].Table? || s.role[p].Frame?) && s.role[p].at.root == r
  }

  // Every table and frame of tree r went to the free list; every other page has
  // its role, and its contents unless it is a table; every other tree its entries.
  ghost predicate Released(s: State, t: State, r: nat)
    requires Shape(s) && Shape(t)
  {
    && t.lo == s.lo
    && (forall p: nat :: p < HI ==> ReleasedAt(s, t, r, p))
    && (forall r': nat, v: nat :: v < PAGES && r' != r ==> Slot(t, r', v) == Slot(s, r', v))
  }

  predicate ReleasedAt(s: State, t: State, r: nat, p: nat)
    requires Shape(s) && Shape(t) && p < HI
  {
    if BelongsTo(s, r, p) then t.role[p].Free?
    else t.role[p] == s.role[p] && (!s.role[p].Table? ==> t.pages[p] == s.pages[p])
  }

  // A frame's virtual page lies in the address space and is mapped.
  lemma FrameMapped(s: State, p: nat)
    requires Inv(s) && p < HI && s.role[p].Frame?
    ensures var v := Vpn(s.role[p].at.path); v < PAGES && Valid(Slot(s, s.role[p].at.root, v))
  {
    assert Owned(s, p);
    var at := s.role[p].at;
    LowPlace(s, Place(at.root, at.path.init), at.path.last);
    FrameHome(s, p);
  }

  /** Unmapping all pages of a tree and then taking its tables apart gives back
      every page the tree had, and touches no other. */
  lemma ReleasedAll(s: State, u: State, t: State, r: nat, n: nat)
    requires Inv(s) && Inv(u) && Inv(t) && Freed(s, u, r, 0, n) && Unmaps(s, u, r, 0, n) && n <= PAGES
    requires forall x: nat :: n <= x < PAGES ==> !Valid(Slot(s, r, x))
    requires Pruned(u, t, Place(r, Nil)) && !Tree(t, r)
    ensures Released(s, t, r)
  {
    var top := Place(r, Nil);
    forall r': nat, v: nat | v < PAGES && r' != r ensures Slot(t, r', v) == Slot(s, r', v) {
      if Under(Low(r', v), top) { UnderDepth(Low(r', v), top); }
      assert Slot(u, r', v) == Slot(s, r', v);
    }
    forall p: nat | p < HI ensures ReleasedAt(s, t, r, p) {
      ReleasedPage(s, u, t, r, n, p);
    }
  }

  lemma ReleasedPage(s: State, u: State, t: State, r: nat, n: nat, p: nat)
    requires Inv(s) && Inv(u) && Inv(t) && Freed(s, u, r, 0, n) && Unmaps(s, u, r, 0, n) && n <= PAGES
    requires forall x: nat :: n <= x < PAGES ==> !Valid(Slot(s, r, x))
    requires Pruned(u, t, Place(r, Nil)) && !Tree(t, r) && p < HI
    ensures ReleasedAt(s, t, r, p)
  {
    var top := Place(r, Nil);
    assert FreedAt(s, u, r, 0, n, p) && PrunedAt(u, t, top, p);
    if s.role[p].Frame? {
      FrameMapped(s, p);
    } else if s.role[p].Table? {
      assert TableAt(t, p);
      if t.role[p].Table? && t.role[p].at.root == r {
        Rooted(t, t.role[p].at);
      }
      if Under(s.role[p].at, top) {
        UnderDepth(s.role[p].at, top);
      }
    }
  }
}

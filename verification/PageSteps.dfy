/**
 * The single writes that the allocator and the page-table code are made of,
 * and what each keeps: the invariant, and the entries the MMU reads.
 */
module PageSteps {
  import opened PageState

  const FREED := 0x0101010101010101      // memset(pa, 1, PGSIZE)
  const ALLOCATED := 0x0505050505050505  // memset(r, 5, PGSIZE)

  function Fill(w: nat): (page: Page)
    ensures |page| == ENTRIES
    ensures forall i :: 0 <= i < ENTRIES ==> page[i] == w
  {
    seq(ENTRIES, _ => w)
  }

  // The page with one word stored.
  function With(page: Page, i: nat, w: nat): Page
    requires i < |page|
  {
    page[i := w]
  }

  // Both states have the same entries in all bottom-level tables.
  ghost predicate SameWords(s: State, t: State)
  {
    forall at: Place, i: nat :: Depth(at.path) == 2 ==> Word(t, at, i) == Word(s, at, i)
  }

  // The table pages and their roles are the same; frames may lose their role.
  ghost predicate SameTables(s: State, t: State)
    requires Shape(s) && Shape(t)
  {
    && t.lo == s.lo && t.node == s.node
    && (forall p: nat :: p < HI && s.role[p].Table? ==> t.role[p] == s.role[p] && t.pages[p] == s.pages[p])
    && (forall p: nat :: p < HI && (t.role[p].Table? || t.role[p].Frame?) ==> t.role[p] == s.role[p])
  }

  ghost predicate SameFree(s: State, t: State)
    requires Shape(s) && Shape(t)
  {
    && t.lo == s.lo && t.head == s.head && t.free == s.free
    && (forall p: nat :: p < HI && s.role[p].Free? ==> t.role[p] == s.role[p] && t.pages[p] == s.pages[p])
    && (forall p: nat :: p < HI && t.role[p].Free? ==> t.role[p] == s.role[p])
  }

  lemma FreeKept(s: State, t: State)
    requires Shape(s) && Shape(t) && FreeOk(s) && SameFree(s, t)
    ensures FreeOk(t)
  {
    forall k: nat | k < |t.free| ensures FreeAt(t, k) {
      assert FreeAt(s, k);
    }
    forall p: nat | p < HI ensures Ranked(t, p) {
      assert Ranked(s, p);
    }
  }

  lemma TablesKept(s: State, t: State, cut: set<Place>)
    requires InvBut(s, cut) && Shape(t) && SameTables(s, t)
    ensures NodeOk(t) && Edges(t, cut) && FramesOk(t)
    ensures SameWords(s, t)
    ensures forall at, i: nat :: at in s.node ==> Word(t, at, i) == Word(s, at, i)
  {
    forall at, i: nat ensures Word(t, at, i) == Word(s, at, i) {
      if at in s.node { assert NodeAt(s, at); }
    }
    forall at | at in t.node ensures NodeAt(t, at) {
      assert NodeAt(s, at);
    }
    forall p: nat | p < HI ensures TableAt(t, p) {
      assert TableAt(s, p);
    }
    forall at, i: nat | at in t.node && i < ENTRIES && Child(at, i) !in cut ensures Edge(t, at, i) {
      assert Edge(s, at, i);
    }
    forall p: nat | p < HI ensures Owned(t, p) {
      assert Owned(s, p);
    }
  }

  // Allocator ------------------------------------------------------------------

  function PopPage(s: State): State
    requires Shape(s) && |s.free| > 0 && s.free[|s.free| - 1] < HI
  {
    var p := s.free[|s.free| - 1];
    s.(head := s.pages[p][0], free := s.free[..|s.free| - 1],
       pages := s.pages[p := Fill(ALLOCATED)], role := s.role[p := Other])
  }

  lemma PopOk(s: State, cut: set<Place>)
    requires InvBut(s, cut) && |s.free| > 0
    ensures FreeAt(s, |s.free| - 1)
    ensures var t := PopPage(s); InvBut(t, cut) && SameWords(s, t)
  {
    var n := |s.free| - 1;
    assert FreeAt(s, n);
    var t := PopPage(s);
    TablesKept(s, t, cut);
    forall k: nat | k < |t.free| ensures FreeAt(t, k) {
      assert FreeAt(s, k);
    }
    forall p: nat | p < HI ensures Ranked(t, p) {
      assert Ranked(s, p);
    }
  }

  function PushPage(s: State, p: nat): State
    requires Shape(s) && p < HI
  {
    s.(head := p * 4096, free := s.free + [p],
       pages := s.pages[p := With(Fill(FREED), 0, s.head)], role := s.role[p := Free(|s.free|)])
  }

  lemma PushOk(s: State, p: nat, cut: set<Place>)
    requires InvBut(s, cut) && Managed(s, p) && (s.role[p].Other? || s.role[p].Frame?)
    ensures var t := PushPage(s, p); InvBut(t, cut) && SameWords(s, t)
    ensures forall at, i: nat :: at in s.node ==> Word(PushPage(s, p), at, i) == Word(s, at, i)
  {
    var t := PushPage(s, p);
    TablesKept(s, t, cut);
    forall k: nat | k < |t.free| ensures FreeAt(t, k) {
      if k < |s.free| { assert FreeAt(s, k); }
    }
    forall q: nat | q < HI ensures Ranked(t, q) {
      assert Ranked(s, q);
    }
  }

  function FillPage(s: State, p: nat, page: Page): State
    requires Shape(s) && p < HI
  {
    s.(pages := s.pages[p := page])
  }

  lemma FillOk(s: State, p: nat, page: Page)
    requires Inv(s) && p < HI && (s.role[p].Other? || s.role[p].Frame?) && |page| == ENTRIES
    ensures var t := FillPage(s, p, page); Inv(t) && SameWords(s, t)
  {
    var t := FillPage(s, p, page);
    TablesKept(s, t, {});
    FreeKept(s, t);
  }

  // Tables ---------------------------------------------------------------------

  function PutWord(s: State, at: Place, i: nat, w: nat): State
    requires Shape(s) && at in s.node && s.node[at] < HI && i < ENTRIES
  {
    var p := s.node[at];
    s.(pages := s.pages[p := With(s.pages[p], i, w)])
  }

  lemma PutWordShape(s: State, at: Place, i: nat, w: nat, cut: set<Place>)
    requires InvBut(s, cut) && at in s.node && i < ENTRIES
    ensures s.node[at] < HI
    ensures var t := PutWord(s, at, i, w); Shape(t) && FreeOk(t) && NodeOk(t)
  {
    assert NodeAt(s, at);
    var t := PutWord(s, at, i, w);
    FreeKept(s, t);
    forall a | a in t.node ensures NodeAt(t, a) {
      assert NodeAt(s, a);
    }
    forall p: nat | p < HI ensures TableAt(t, p) {
      assert TableAt(s, p);
    }
  }

  lemma PutWordAt(s: State, at: Place, i: nat, w: nat, a: Place, j: nat)
    requires Shape(s) && NodeOk(s) && at in s.node && i < ENTRIES
    ensures s.node[at] < HI
    ensures Word(PutWord(s, at, i, w), a, j) == if a == at && j == i then w else Word(s, a, j)
  {
    assert NodeAt(s, at);
    if a in s.node {
      assert NodeAt(s, a);
    }
  }

  /** Writing one bottom-level entry changes what the MMU reads there and nowhere else. */
  lemma LeafOk(s: State, at: Place, i: nat, w: nat)
    requires Inv(s) && at in s.node && i < ENTRIES && Depth(at.path) == 2
    requires Valid(w) ==> Leaf(w)
    requires forall p: nat :: p < HI ==> s.role[p] != Frame(Child(at, i))
    ensures s.node[at] < HI
    ensures var t := PutWord(s, at, i, w); Inv(t)
    ensures forall a, j: nat :: Word(PutWord(s, at, i, w), a, j) == if a == at && j == i then w else Word(s, a, j)
  {
    PutWordShape(s, at, i, w, {});
    var t := PutWord(s, at, i, w);
    forall a, j: nat ensures Word(t, a, j) == if a == at && j == i then w else Word(s, a, j) {
      PutWordAt(s, at, i, w, a, j);
    }
    forall a, j: nat | a in t.node && j < ENTRIES ensures Edge(t, a, j) {
      assert Edge(s, a, j);
    }
    forall p: nat | p < HI ensures Owned(t, p) {
      assert Owned(s, p);
    }
  }

  function AddTable(s: State, at: Place, i: nat, q: nat): State
    requires Shape(s) && at in s.node && s.node[at] < HI && i < ENTRIES && q < HI
  {
    PutWord(s, at, i, Mk(q, 1)).(role := s.role[q := Table(Child(at, i))], node := s.node[Child(at, i) := q])
  }

  lemma AddTableAt(s: State, at: Place, i: nat, q: nat, a: Place, j: nat)
    requires Inv(s) && at in s.node && i < Width(at.path) && Depth(at.path) < 2 && Child(at, i) !in s.node
    requires Managed(s, q) && s.role[q].Other? && s.pages[q] == Fill(0)
    ensures s.node[at] < HI
    ensures Word(AddTable(s, at, i, q), a, j) == if a == at && j == i then Mk(q, 1) else Word(s, a, j)
  {
    PutWordAt(s, at, i, Mk(q, 1), a, j);
    assert NodeAt(s, at);
  }

  lemma AddTableNode(s: State, at: Place, i: nat, q: nat)
    requires Inv(s) && at in s.node && i < Width(at.path) && Depth(at.path) < 2 && Child(at, i) !in s.node
    requires Managed(s, q) && s.role[q].Other? && s.pages[q] == Fill(0)
    ensures s.node[at] < HI
    ensures var t := AddTable(s, at, i, q); Shape(t) && FreeOk(t) && NodeOk(t)
  {
    assert NodeAt(s, at);
    var t := AddTable(s, at, i, q);
    FreeKept(s, t);
    forall a | a in t.node ensures NodeAt(t, a) {
      if a != Child(at, i) { assert NodeAt(s, a); }
    }
    forall p: nat | p < HI ensures TableAt(t, p) {
      assert TableAt(s, p);
    }
  }

  /** Hooking an empty table into a tree changes no entry the MMU reads. */
  lemma AddTableOk(s: State, at: Place, i: nat, q: nat)
    requires Inv(s) && at in s.node && i < Width(at.path) && Depth(at.path) < 2 && Child(at, i) !in s.node
    requires Managed(s, q) && s.role[q].Other? && s.pages[q] == Fill(0)
    ensures s.node[at] < HI
    ensures var t := AddTable(s, at, i, q); Inv(t) && SameWords(s, t)
  {
    AddTableNode(s, at, i, q);
    var t := AddTable(s, at, i, q);
    forall a, j: nat ensures Word(t, a, j) == if a == at && j == i then Mk(q, 1) else Word(s, a, j) {
      AddTableAt(s, at, i, q, a, j);
    }
    forall a, j: nat | a in t.node && j < ENTRIES ensures Edge(t, a, j) {
      if a == Child(at, i) {
        NoOrphan(s, a, j);
      } else {
        assert Edge(s, a, j);
      }
    }
    forall p: nat | p < HI ensures Owned(t, p) {
      assert Owned(s, p);
    }
  }

  function NewRoot(s: State, q: nat): State
    requires Shape(s) && q < HI
  {
    s.(role := s.role[q := Table(Place(q, Nil))], node := s.node[Place(q, Nil) := q])
  }

  lemma NewRootOk(s: State, q: nat)
    requires Inv(s) && Managed(s, q) && s.role[q].Other? && s.pages[q] == Fill(0)
    ensures var t := NewRoot(s, q); Inv(t) && SameWords(s, t)
    ensures !Tree(s, q) && (forall at: Place, i: nat :: at.root == q ==> Word(NewRoot(s, q), at, i) == 0)
  {
    var top := Place(q, Nil);
    assert top in s.node ==> NodeAt(s, top);
    var t := NewRoot(s, q);
    FreeKept(s, t);
    forall a, j: nat ensures Word(t, a, j) == Word(s, a, j) {
    }
    forall a | a in t.node ensures NodeAt(t, a) {
      if a != top { assert NodeAt(s, a); }
    }
    forall p: nat | p < HI ensures TableAt(t, p) {
      assert TableAt(s, p);
    }
    forall a, j: nat | a in t.node && j < ENTRIES ensures Edge(t, a, j) {
      if a == top {
        NoOrphan(s, top, j);
      } else {
        assert Edge(s, a, j);
      }
    }
    forall p: nat | p < HI ensures Owned(t, p) {
      assert Owned(s, p);
    }
    forall at: Place, i: nat | at.root == q ensures Word(t, at, i) == 0 {
      NoTables(s, at);
    }
  }

  // A table belongs to a tree whose root exists.
  lemma {:induction false} Rooted(s: State, at: Place)
    requires Shape(s) && NodeOk(s) && at in s.node
    ensures Place(at.root, Nil) in s.node
    decreases at.path
  {
    assert NodeAt(s, at);
    if at.path.Snoc? {
      Rooted(s, Place(at.root, at.path.init));
    }
  }

  lemma NoTables(s: State, at: Place)
    requires Shape(s) && NodeOk(s) && !Tree(s, at.root)
    ensures at !in s.node
  {
    if at in s.node {
      Rooted(s, at);
    }
  }

  function Adopt(s: State, q: nat, at: Place): State
    requires Shape(s) && q < HI
  {
    s.(role := s.role[q := Frame(at)])
  }

  lemma AdoptOk(s: State, q: nat, at: Place, i: nat)
    requires Inv(s) && Managed(s, q) && s.role[q].Other? && Depth(at.path) == 2 && i < ENTRIES
    requires Valid(Word(s, at, i)) && Ppn(Word(s, at, i)) == q
    ensures var t := Adopt(s, q, Child(at, i)); Inv(t) && SameWords(s, t)
  {
    var t := Adopt(s, q, Child(at, i));
    FreeKept(s, t);
    forall a, j: nat ensures Word(t, a, j) == Word(s, a, j) {
    }
    forall a | a in t.node ensures NodeAt(t, a) {
      assert NodeAt(s, a);
    }
    forall p: nat | p < HI ensures TableAt(t, p) {
      assert TableAt(s, p);
    }
    forall a, j: nat | a in t.node && j < ENTRIES ensures Edge(t, a, j) {
      assert Edge(s, a, j);
    }
    forall p: nat | p < HI ensures Owned(t, p) {
      assert Owned(s, p);
    }
  }

  // Taking a tree apart ---------------------------------------------------------

  function DropTable(s: State, at: Place): State
    requires Shape(s) && at in s.node && s.node[at] < HI
  {
    s.(role := s.role[s.node[at] := Other], node := s.node - {at})
  }

  // No entry of the table at `at` is in use.
  ghost predicate Empty(s: State, at: Place)
  {
    forall i: nat :: i < ENTRIES ==> Child(at, i) !in s.node && !Valid(Word(s, at, i))
  }

  lemma DropTableAt(s: State, at: Place, a: Place, j: nat)
    requires Shape(s) && NodeOk(s) && at in s.node
    ensures s.node[at] < HI
    ensures Word(DropTable(s, at), a, j) == if a == at then 0 else Word(s, a, j)
  {
    assert NodeAt(s, at);
  }

  lemma DropTableNode(s: State, at: Place, cut: set<Place>)
    requires InvBut(s, cut) && at in s.node && Empty(s, at)
    ensures s.node[at] < HI
    ensures var t := DropTable(s, at); Shape(t) && FreeOk(t) && NodeOk(t)
  {
    assert NodeAt(s, at);
    var t := DropTable(s, at);
    FreeKept(s, t);
    forall a | a in t.node ensures NodeAt(t, a) {
      assert NodeAt(s, a);
      assert a.path.Snoc? ==> Child(Place(a.root, a.path.init), a.path.last) == a;
    }
    forall p: nat | p < HI ensures TableAt(t, p) {
      assert TableAt(s, p);
    }
  }

  /** An empty table whose own edge is exempt can be given up. */
  lemma DropTableOk(s: State, at: Place, cut: set<Place>)
    requires InvBut(s, cut) && at in s.node && Empty(s, at) && (at.path.Nil? || at in cut)
    ensures s.node[at] < HI
    ensures var t := DropTable(s, at); InvBut(t, cut)
  {
    DropTableNode(s, at, cut);
    var t := DropTable(s, at);
    forall a, j: nat ensures Word(t, a, j) == if a == at then 0 else Word(s, a, j) {
      DropTableAt(s, at, a, j);
    }
    forall a, j: nat | a in t.node && j < ENTRIES && Child(a, j) !in cut ensures Edge(t, a, j) {
      assert Edge(s, a, j);
    }
    forall p: nat | p < HI ensures Owned(t, p) {
      assert Owned(s, p);
    }
  }

  /** Zeroing the entry of a table that is gone restores its edge. */
  lemma ClearEdgeOk(s: State, at: Place, i: nat, cut: set<Place>)
    requires InvBut(s, cut + {Child(at, i)}) && at in s.node && i < ENTRIES && Depth(at.path) < 2
    requires Child(at, i) !in s.node
    ensures s.node[at] < HI
    ensures var t := PutWord(s, at, i, 0); InvBut(t, cut)
    ensures forall a, j: nat :: Word(PutWord(s, at, i, 0), a, j) == if a == at && j == i then 0 else Word(s, a, j)
  {
    PutWordShape(s, at, i, 0, cut + {Child(at, i)});
    var t := PutWord(s, at, i, 0);
    forall a, j: nat ensures Word(t, a, j) == if a == at && j == i then 0 else Word(s, a, j) {
      PutWordAt(s, at, i, 0, a, j);
    }
    forall a, j: nat | a in t.node && j < ENTRIES && Child(a, j) !in cut ensures Edge(t, a, j) {
      if a != at || j != i { assert Edge(s, a, j); }
    }
    forall p: nat | p < HI ensures Owned(t, p) {
      assert Owned(s, p);
    }
  }

  // What a run of steps does to everyone else -----------------------------------

  function Vpn(path: Path): nat
  {
    match path
    case Snoc(Snoc(Snoc(Nil, a), b), c) => a * 262144 + b * 512 + c
    case _ => 0
  }

  lemma VpnHome(r: nat, v: nat)
    requires v < PAGES
    ensures Vpn(Home(r, v).path) == v
  {
    Steps(r, v);
    Recompose(v);
  }

  // The frame of a virtual page in [v, v + n) of tree r.
  predicate Ranged(role: Role, r: nat, v: nat, n: nat)
  {
    role.Frame? && role.at.root == r && v <= Vpn(role.at.path) < v + n
  }

  // Only free pages change hands: each stays free, becomes a table, or becomes
  // a frame of [v, v + n) in tree r.  Every other page keeps its role, and its
  // contents unless it is a table.
  ghost predicate Grew(s: State, t: State, r: nat, v: nat, n: nat)
    requires Shape(s) && Shape(t)
  {
    t.lo == s.lo && forall p: nat :: p < HI ==> GrewAt(s, t, r, v, n, p)
  }

  predicate GrewAt(s: State, t: State, r: nat, v: nat, n: nat, p: nat)
    requires Shape(s) && Shape(t) && p < HI
  {
    if s.role[p].Free? then t.role[p].Free? || t.role[p].Table? || Ranged(t.role[p], r, v, n)
    else t.role[p] == s.role[p] && (!s.role[p].Table? ==> t.pages[p] == s.pages[p])
  }

  // Exactly the frames of [v, v + n) in tree r go to the free list.
  ghost predicate Freed(s: State, t: State, r: nat, v: nat, n: nat)
    requires Shape(s) && Shape(t)
  {
    t.lo == s.lo && forall p: nat :: p < HI ==> FreedAt(s, t, r, v, n, p)
  }

  predicate FreedAt(s: State, t: State, r: nat, v: nat, n: nat, p: nat)
    requires Shape(s) && Shape(t) && p < HI
  {
    if Ranged(s.role[p], r, v, n) then t.role[p].Free?
    else t.role[p] == s.role[p] && (!s.role[p].Table? ==> t.pages[p] == s.pages[p])
  }

  ghost predicate Kept(s: State, t: State)
    requires Shape(s) && Shape(t)
  {
    Grew(s, t, 0, 0, 0)
  }

  lemma KeptThen(s: State, u: State, t: State, r: nat, v: nat, n: nat)
    requires Shape(s) && Shape(u) && Shape(t) && Kept(s, u) && Grew(u, t, r, v, n)
    ensures Grew(s, t, r, v, n)
  {
    forall p: nat | p < HI ensures GrewAt(s, t, r, v, n, p) {
      assert GrewAt(s, u, 0, 0, 0, p) && GrewAt(u, t, r, v, n, p);
    }
  }

  lemma KeptTrans(s: State, u: State, t: State)
    requires Shape(s) && Shape(u) && Shape(t) && Kept(s, u) && Kept(u, t)
    ensures Kept(s, t)
  {
    KeptThen(s, u, t, 0, 0, 0);
  }

  lemma TreesStay(s: State, t: State, r: nat, v: nat, n: nat)
    requires Shape(s) && Shape(t) && NodeOk(s) && NodeOk(t) && Grew(s, t, r, v, n)
    ensures forall at :: at in s.node ==> at in t.node && t.node[at] == s.node[at]
  {
    forall at | at in s.node ensures at in t.node && t.node[at] == s.node[at] {
      assert NodeAt(s, at);
      assert GrewAt(s, t, r, v, n, s.node[at]) && TableAt(t, s.node[at]);
    }
  }

  lemma ThenKept(s: State, u: State, t: State, r: nat, v: nat, n: nat)
    requires Shape(s) && Shape(u) && Shape(t) && Grew(s, u, r, v, n) && Kept(u, t)
    ensures Grew(s, t, r, v, n)
  {
    forall p: nat | p < HI ensures GrewAt(s, t, r, v, n, p) {
      assert GrewAt(s, u, r, v, n, p) && GrewAt(u, t, 0, 0, 0, p);
    }
  }

  // Pop a page, clear it, and hook it as a table under entry i of `at`.
  function NewTable(s: State, at: Place, i: nat): State
    requires Shape(s) && |s.free| > 0 && s.free[|s.free| - 1] < HI
    requires at in s.node && s.node[at] < HI && i < ENTRIES
  {
    var q := s.free[|s.free| - 1];
    AddTable(FillPage(PopPage(s), q, Fill(0)), at, i, q)
  }

  lemma NewTableOk(s: State, at: Place, i: nat)
    requires Inv(s) && |s.free| > 0 && at in s.node && i < Width(at.path) && Depth(at.path) < 2
    requires Child(at, i) !in s.node
    ensures FreeAt(s, |s.free| - 1) && s.node[at] < HI
    ensures var t := NewTable(s, at, i); Inv(t) && SameWords(s, t) && Kept(s, t)
  {
    var q := s.free[|s.free| - 1];
    assert NodeAt(s, at);
    PopOk(s, {});
    var u := PopPage(s);
    FillOk(u, q, Fill(0));
    AddTableOk(FillPage(u, q, Fill(0)), at, i, q);
    var t := NewTable(s, at, i);
    hide *;
    WordsTrans(s, u, FillPage(u, q, Fill(0)));
    WordsTrans(s, FillPage(u, q, Fill(0)), t);
    NewTableKept(s, at, i);
  }

  lemma NewTableKept(s: State, at: Place, i: nat)
    requires Inv(s) && |s.free| > 0 && FreeAt(s, |s.free| - 1) && at in s.node && NodeAt(s, at) && i < ENTRIES
    ensures var t := NewTable(s, at, i); Shape(t) && Kept(s, t)
  {
    var t := NewTable(s, at, i);
    hide FreeOk, NodeOk, Edges, FramesOk;
    forall p: nat | p < HI ensures GrewAt(s, t, 0, 0, 0, p) {
    }
  }

  lemma WordsTrans(s: State, u: State, t: State)
    requires SameWords(s, u) && SameWords(u, t)
    ensures SameWords(s, t)
  {
    forall at: Place, i: nat | Depth(at.path) == 2 ensures Word(t, at, i) == Word(s, at, i) {
      assert Word(u, at, i) == Word(s, at, i);
    }
  }

  // Bottom-level entries by virtual page ----------------------------------------

  lemma SlotsSame(s: State, t: State)
    requires SameWords(s, t)
    ensures forall r: nat, v: nat :: Slot(t, r, v) == Slot(s, r, v)
  {
    forall r: nat, v: nat ensures Slot(t, r, v) == Slot(s, r, v) {
      PrefixDepth(v, 2);
    }
  }

  // Between s and t exactly the pages [v, v + n) of tree r were mapped, to the
  // consecutive physical pages from p, with flags f.
  ghost predicate Maps(s: State, t: State, r: nat, v: nat, n: nat, p: nat, f: nat)
  {
    forall r': nat, v': nat :: v' < PAGES ==>
      Slot(t, r', v') == if r' == r && v <= v' < v + n then Mk(p + (v' - v), f) else Slot(s, r', v')
  }

  // Between s and t exactly the entries of [v, v + n) in tree r were cleared.
  ghost predicate Unmaps(s: State, t: State, r: nat, v: nat, n: nat)
  {
    forall r': nat, v': nat :: v' < PAGES ==>
      Slot(t, r', v') == if r' == r && v <= v' < v + n then 0 else Slot(s, r', v')
  }

  function PutSlot(s: State, r: nat, v: nat, w: nat): State
    requires Shape(s) && Low(r, v) in s.node && s.node[Low(r, v)] < HI
  {
    PutWord(s, Low(r, v), Index(0, v), w)
  }

  lemma PutSlotOk(s: State, r: nat, v: nat, w: nat)
    requires Inv(s) && Low(r, v) in s.node && v < PAGES && (Valid(w) ==> Leaf(w))
    requires forall p: nat :: p < HI ==> s.role[p] != Frame(Home(r, v))
    ensures s.node[Low(r, v)] < HI
    ensures var t := PutSlot(s, r, v, w); Inv(t) && Kept(s, t) && t.node == s.node
    ensures forall r': nat, v': nat :: v' < PAGES ==>
      Slot(PutSlot(s, r, v, w), r', v') == if r' == r && v' == v then w else Slot(s, r', v')
  {
    PrefixDepth(v, 2);
    Steps(r, v);
    LeafOk(s, Low(r, v), Index(0, v), w);
    var t := PutSlot(s, r, v, w);
    forall r': nat, v': nat | v' < PAGES
      ensures Slot(t, r', v') == if r' == r && v' == v then w else Slot(s, r', v')
    {
      HomeUnique(r, v, r', v');
      Steps(r', v');
    }
    assert NodeAt(s, Low(r, v));
    hide FreeOk, NodeOk, Edges, FramesOk;
    forall p: nat | p < HI ensures GrewAt(s, t, 0, 0, 0, p) {
    }
  }

  // A page without a valid entry owns no frame.
  lemma Unowned(s: State, r: nat, v: nat)
    requires Inv(s) && v < PAGES && !Valid(Slot(s, r, v))
    ensures forall p: nat :: p < HI ==> s.role[p] != Frame(Home(r, v))
  {
    Steps(r, v);
    forall p: nat | p < HI ensures s.role[p] != Frame(Home(r, v)) {
      assert Owned(s, p);
    }
  }

  lemma MapsNone(s: State, r: nat, v: nat, p: nat, f: nat)
    requires Shape(s)
    ensures Maps(s, s, r, v, 0, p, f) && Kept(s, s)
  {
  }

  lemma MapsRest(s: State, t: State, r: nat, v: nat, n: nat, p: nat, f: nat, v': nat)
    requires Maps(s, t, r, v, n, p, f) && v' < PAGES && !(v <= v' < v + n)
    ensures Slot(t, r, v') == Slot(s, r, v')
  {
  }

  lemma MapsMore(s: State, u: State, t: State, r: nat, v: nat, n: nat, p: nat, f: nat, m: nat)
    requires Maps(s, u, r, v, n, p, f) && Maps(u, t, r, v + n, m, p + n, f)
    ensures Maps(s, t, r, v, n + m, p, f)
  {
    forall r': nat, v': nat | v' < PAGES
      ensures Slot(t, r', v') == if r' == r && v <= v' < v + (n + m) then Mk(p + (v' - v), f) else Slot(s, r', v')
    {
      assert Slot(u, r', v') == Slot(u, r', v');
    }
  }

  // Virtual page v of tree r is mapped to a frame of its own.
  ghost predicate Mine(s: State, r: nat, v: nat)
    requires Shape(s)
  {
    var w := Slot(s, r, v);
    Valid(w) && Ppn(w) < HI && s.role[Ppn(w)] == Frame(Home(r, v))
  }

  // Virtual page v of tree r is mapped to a page the tree does not own.
  ghost predicate Lent(s: State, r: nat, v: nat)
    requires Shape(s)
  {
    Valid(Slot(s, r, v)) && forall p: nat :: p < HI ==> s.role[p] != Frame(Home(r, v))
  }

  ghost predicate AllMine(s: State, r: nat, v: nat, n: nat)
    requires Shape(s)
  {
    forall x: nat :: v <= x < v + n ==> Mine(s, r, x)
  }

  lemma PathIsHome(r: nat, path: Path)
    requires path.Snoc? && path.init.Snoc? && path.init.init.Snoc? && path.init.init.init.Nil?
    requires path.last < 512 && path.init.last < 512 && path.init.init.last < 512
    requires Vpn(path) < PAGES
    ensures Home(r, Vpn(path)) == Place(r, path)
  {
    var v := Vpn(path);
    Steps(r, v);
    var a, b, c := path.init.init.last, path.init.last, path.last;
    assert v == a * 262144 + b * 512 + c;
    assert v / 512 == a * 512 + b;
    assert v / 262144 == a;
    assert (a * 512 + b) % 512 == b;
  }

  // A frame within the address space has the place of its virtual page.
  lemma FrameHome(s: State, p: nat)
    requires Inv(s) && p < HI && s.role[p].Frame? && Vpn(s.role[p].at.path) < PAGES
    ensures var r, v := s.role[p].at.root, Vpn(s.role[p].at.path);
      s.role[p].at == Home(r, v) && Valid(Slot(s, r, v)) && Ppn(Slot(s, r, v)) == p
  {
    assert Owned(s, p);
    var r, path := s.role[p].at.root, s.role[p].at.path;
    var low := Place(r, path.init);
    assert NodeAt(s, low);
    assert NodeAt(s, Place(r, path.init.init));
    PathIsHome(r, path);
    Steps(r, Vpn(path));
  }

  // Free the frame of virtual page v and clear its entry.
  function FreeSlot(s: State, r: nat, v: nat): State
    requires Shape(s) && Low(r, v) in s.node && s.node[Low(r, v)] < HI && Ppn(Slot(s, r, v)) < HI
  {
    PutSlot(PushPage(s, Ppn(Slot(s, r, v))), r, v, 0)
  }

  lemma SlotTable(s: State, r: nat, v: nat)
    requires Inv(s) && Valid(Slot(s, r, v))
    ensures Low(r, v) in s.node && s.node[Low(r, v)] < HI && Leaf(Slot(s, r, v))
    ensures s.pages[s.node[Low(r, v)]][Index(0, v)] == Slot(s, r, v)
  {
    assert NodeAt(s, Low(r, v));
    PrefixDepth(v, 2);
    assert Edge(s, Low(r, v), Index(0, v));
  }

  lemma FreeSlotOk(s: State, r: nat, v: nat)
    requires Inv(s) && v < PAGES && Mine(s, r, v)
    ensures Low(r, v) in s.node && s.node[Low(r, v)] < HI && Managed(s, Ppn(Slot(s, r, v)))
    ensures var t := FreeSlot(s, r, v); Inv(t) && t.node == s.node && Unmaps(s, t, r, v, 1)
  {
    var p := Ppn(Slot(s, r, v));
    SlotTable(s, r, v);
    assert Owned(s, p);
    PushOk(s, p, {});
    var u := PushPage(s, p);
    SlotsSame(s, u);
    forall q: nat | q < HI ensures u.role[q] != Frame(Home(r, v)) {
      if s.role[q] == Frame(Home(r, v)) {
        VpnHome(r, v);
        FrameHome(s, q);
      }
    }
    PutSlotOk(u, r, v, 0);
  }

  lemma FreeSlotFrees(s: State, r: nat, v: nat)
    requires Inv(s) && v < PAGES && Mine(s, r, v)
    requires Low(r, v) in s.node && s.node[Low(r, v)] < HI
    ensures var t := FreeSlot(s, r, v); Shape(t) && Freed(s, t, r, v, 1)
  {
    var p := Ppn(Slot(s, r, v));
    var t := FreeSlot(s, r, v);
    assert NodeAt(s, Low(r, v));
    VpnHome(r, v);
    forall q: nat | q < HI ensures FreedAt(s, t, r, v, 1, q) {
      if Ranged(s.role[q], r, v, 1) {
        FrameHome(s, q);
      }
    }
  }

  // Clear the entry of a page the tree does not own.
  lemma ClearSlotOk(s: State, r: nat, v: nat)
    requires Inv(s) && v < PAGES && Lent(s, r, v)
    ensures Low(r, v) in s.node && s.node[Low(r, v)] < HI
    ensures var t := PutSlot(s, r, v, 0); Inv(t) && t.node == s.node && Unmaps(s, t, r, v, 1) && Freed(s, t, r, v, 0)
  {
    SlotTable(s, r, v);
    PutSlotOk(s, r, v, 0);
    var t := PutSlot(s, r, v, 0);
    assert NodeAt(s, Low(r, v));
    forall p: nat | p < HI ensures FreedAt(s, t, r, v, 0, p) {
    }
  }

  lemma UnmapsMore(s: State, u: State, t: State, r: nat, v: nat, n: nat)
    requires Unmaps(s, u, r, v, n) && Unmaps(u, t, r, v + n, 1)
    ensures Unmaps(s, t, r, v, n + 1)
  {
    forall r': nat, v': nat | v' < PAGES
      ensures Slot(t, r', v') == if r' == r && v <= v' < v + (n + 1) then 0 else Slot(s, r', v')
    {
      assert Slot(u, r', v') == Slot(u, r', v');
    }
  }

  lemma FreedMore(s: State, u: State, t: State, r: nat, v: nat, n: nat, m: nat)
    requires Shape(s) && Shape(u) && Shape(t) && Freed(s, u, r, v, n) && Freed(u, t, r, v + n, m)
    ensures Freed(s, t, r, v, n + m)
  {
    var k, w := n + m, v + n;
    forall p: nat | p < HI ensures FreedAt(s, t, r, v, k, p) {
      assert FreedAt(s, u, r, v, n, p) && FreedAt(u, t, r, w, m, p);
    }
  }

  lemma StillMine(s: State, t: State, r: nat, v: nat, n: nat, x: nat)
    requires Shape(s) && Shape(t) && Unmaps(s, t, r, v, n) && Freed(s, t, r, v, n)
    requires x < PAGES && !(v <= x < v + n) && Mine(s, r, x)
    ensures Mine(t, r, x)
  {
    VpnHome(r, x);
    assert FreedAt(s, t, r, v, n, Ppn(Slot(s, r, x)));
  }

  lemma StillLent(s: State, t: State, r: nat, v: nat, n: nat, x: nat)
    requires Shape(s) && Shape(t) && Unmaps(s, t, r, v, n) && Freed(s, t, r, v, 0)
    requires x < PAGES && !(v <= x < v + n) && Lent(s, r, x)
    ensures Lent(t, r, x)
  {
    forall p: nat | p < HI ensures t.role[p] != Frame(Home(r, x)) {
      assert FreedAt(s, t, r, v, 0, p);
    }
  }

  lemma UnmapsNone(s: State, r: nat, v: nat)
    requires Shape(s)
    ensures Unmaps(s, s, r, v, 0) && Freed(s, s, r, v, 0)
  {
    forall p: nat | p < HI ensures FreedAt(s, s, r, v, 0, p) {
    }
  }

  lemma FreedNone(s: State, u: State, t: State, r: nat, v: nat, w: nat)
    requires Shape(s) && Shape(u) && Shape(t) && Freed(s, u, r, v, 0) && Freed(u, t, r, w, 0)
    ensures Freed(s, t, r, v, 0)
  {
    forall p: nat | p < HI ensures FreedAt(s, t, r, v, 0, p) {
      assert FreedAt(s, u, r, v, 0, p) && FreedAt(u, t, r, w, 0, p);
    }
  }
}

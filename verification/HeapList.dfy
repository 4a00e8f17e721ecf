/**
 * The free list of the Kernighan and Ritchie allocator: headers linked in a
 * circle in address order, starting from a base of size zero below the heap.
 * Addresses are in bytes and sizes in 16-byte units, as in the source.
 */
module HeapList {
  const UNIT := 16   // sizeof(Header)

  datatype Heap = Heap(
    base: nat,
    ptr: map<nat, nat>,       // s.ptr of each header
    size: map<nat, nat>,      // s.size of each header
    free: seq<nat>,           // the free list from base on
    blocks: map<nat, nat>)    // every block, free or allocated, with its units

  function Next(i: nat, n: nat): nat { if i + 1 < n then i + 1 else 0 }

  function End(h: Heap, a: nat): nat
    requires a in h.blocks
  {
    a + UNIT * h.blocks[a]
  }

  // Header i links to the one after it, and the last to the first.
  predicate LinkAt(h: Heap, i: nat)
    requires i < |h.free|
  {
    h.free[i] in h.ptr && h.ptr[h.free[i]] == h.free[Next(i, |h.free|)]
  }

  ghost predicate Ascending(free: seq<nat>)
  {
    forall i: nat, j: nat :: i < j < |free| ==> free[i] < free[j]
  }

  ghost predicate Linked(h: Heap)
  {
    && 0 < |h.free| && h.free[0] == h.base && Ascending(h.free)
    && (forall i: nat {:trigger LinkAt(h, i)} :: i < |h.free| ==> LinkAt(h, i))
    && (forall i: nat :: 0 < i < |h.free| ==> h.free[i] in h.blocks)
  }

  predicate BlockOk(h: Heap, a: nat)
    requires a in h.blocks
  {
    a in h.size && h.size[a] == h.blocks[a] && 0 < h.blocks[a] && h.base + UNIT <= a
  }

  // Block a ends before block b begins.
  predicate Apart(h: Heap, a: nat, b: nat)
    requires a in h.blocks
  {
    a < b ==> End(h, a) <= b
  }

  ghost predicate BlocksOk(h: Heap)
  {
    && h.base in h.size && h.size[h.base] == 0
    && (forall a {:trigger BlockOk(h, a)} :: a in h.blocks ==> BlockOk(h, a))
    && (forall a, b {:trigger Apart(h, a, b)} :: a in h.blocks && b in h.blocks ==> Apart(h, a, b))
  }

  // Free blocks i and i + 1 do not touch.
  predicate Gap(h: Heap, i: nat)
  {
    0 < i && i + 1 < |h.free| && h.free[i] in h.blocks ==> End(h, h.free[i]) < h.free[i + 1]
  }

  // The list and the blocks, but for touching neighbours.
  ghost predicate Loose(h: Heap) { Linked(h) && BlocksOk(h) }

  ghost predicate Inv(h: Heap)
  {
    Loose(h) && forall i: nat :: Gap(h, i)
  }

  // Block a is in use.
  predicate Used(h: Heap, a: nat) { a in h.blocks && a !in h.free }

  // Sums over blocks -----------------------------------------------------------

  ghost function Units(blocks: map<nat, nat>): nat
    decreases |blocks|
  {
    if blocks == map[] then 0
    else
      var a :| a in blocks;
      assert |blocks - {a}| < |blocks| by { Fewer(blocks, a); }
      blocks[a] + Units(blocks - {a})
  }

  lemma Fewer(blocks: map<nat, nat>, a: nat)
    requires a in blocks
    ensures |blocks - {a}| == |blocks| - 1
  {
    assert (blocks - {a}).Keys == blocks.Keys - {a};
    assert |blocks.Keys| == |blocks| && |(blocks - {a}).Keys| == |blocks - {a}|;
  }

  lemma {:induction false} UnitsWithout(blocks: map<nat, nat>, a: nat)
    requires a in blocks
    ensures Units(blocks) == blocks[a] + Units(blocks - {a})
    decreases |blocks|
  {
    var b :| b in blocks && Units(blocks) == blocks[b] + Units(blocks - {b});
    if b != a {
      Fewer(blocks, a);
      Fewer(blocks, b);
      UnitsWithout(blocks - {b}, a);
      UnitsWithout(blocks - {a}, b);
      UnitsWithout2(blocks, a, b);
    }
  }

  lemma UnitsWithout2(blocks: map<nat, nat>, a: nat, b: nat)
    requires a in blocks && b in blocks && a != b
    ensures (blocks - {b}) - {a} == (blocks - {a}) - {b}
  {
  }

  lemma UnitsWith(blocks: map<nat, nat>, a: nat, n: nat)
    requires a !in blocks
    ensures Units(blocks[a := n]) == Units(blocks) + n
  {
    assert blocks[a := n] - {a} == blocks;
    UnitsWithout(blocks[a := n], a);
  }

  // Steps on the list -----------------------------------------------------------

  // Put block b after position t.
  function Insert(h: Heap, t: nat, b: nat): Heap
    requires t < |h.free| && h.free[t] in h.ptr
  {
    h.(free := h.free[..t + 1] + [b] + h.free[t + 1..],
       ptr := h.ptr[b := h.ptr[h.free[t]]][h.free[t] := b])
  }

  // Position t is where b belongs.
  predicate Spot(h: Heap, t: nat, b: nat)
  {
    t < |h.free| && h.free[t] < b && (t + 1 < |h.free| ==> b < h.free[t + 1])
  }

  lemma InsertAt(h: Heap, t: nat, b: nat)
    requires t < |h.free| && h.free[t] in h.ptr
    ensures |Insert(h, t, b).free| == |h.free| + 1
    ensures Insert(h, t, b).blocks == h.blocks && Insert(h, t, b).base == h.base
    ensures Insert(h, t, b).free[t] == h.free[t]
    ensures forall i: nat :: i <= |h.free| ==>
      Insert(h, t, b).free[i] == if i <= t then h.free[i] else if i == t + 1 then b else h.free[i - 1]
  {
  }

  lemma InsertAscending(h: Heap, t: nat, b: nat)
    requires Ascending(h.free) && Spot(h, t, b) && h.free[t] in h.ptr
    ensures Ascending(Insert(h, t, b).free)
  {
    InsertAt(h, t, b);
    var f := Insert(h, t, b).free;
    forall i: nat, j: nat | i < j < |f| ensures f[i] < f[j] {
      assert i <= t ==> h.free[i] <= h.free[t];
      assert t + 1 < j ==> h.free[t + 1] <= h.free[j - 1];
    }
  }

  lemma InsertLink(h: Heap, t: nat, b: nat, i: nat)
    requires Ascending(h.free) && b !in h.free && t < |h.free| && h.free[t] in h.ptr && i <= |h.free|
    requires LinkAt(h, t) && (i < |h.free| ==> LinkAt(h, i)) && (0 < i ==> LinkAt(h, i - 1))
    ensures i < |Insert(h, t, b).free| && LinkAt(Insert(h, t, b), i)
  {
    InsertAt(h, t, b);
  }

  lemma InsertLinked(h: Heap, t: nat, b: nat)
    requires Loose(h) && Used(h, b) && Spot(h, t, b)
    ensures h.free[t] in h.ptr && Linked(Insert(h, t, b))
  {
    hide Ascending, LinkAt, BlocksOk;
    LinkIn(h, t);
    InsertAt(h, t, b);
    InsertAscending(h, t, b);
    var g := Insert(h, t, b);
    forall i: nat | i < |g.free| ensures LinkAt(g, i) {
      InsertLink(h, t, b, i);
    }
  }

  lemma LinkIn(h: Heap, i: nat)
    requires Linked(h) && i < |h.free|
    ensures LinkAt(h, i) && h.free[i] in h.ptr
  {
  }

  lemma InsertOk(h: Heap, t: nat, b: nat)
    requires Loose(h) && Used(h, b) && Spot(h, t, b)
    ensures h.free[t] in h.ptr && Loose(Insert(h, t, b))
    ensures forall i: nat :: i < t && Gap(h, i) ==> Gap(Insert(h, t, b), i)
    ensures forall i: nat :: t < i && Gap(h, i) ==> Gap(Insert(h, t, b), i + 1)
  {
    InsertLinked(h, t, b);
    InsertAt(h, t, b);
    var g := Insert(h, t, b);
    forall a | a in g.blocks ensures BlockOk(g, a) {
      assert BlockOk(h, a);
    }
    forall a, c | a in g.blocks && c in g.blocks ensures Apart(g, a, c) {
      assert Apart(h, a, c);
    }
  }

  // Make one block of the touching blocks i and i + 1.
  function Join(h: Heap, i: nat): Heap
    requires 0 < i && i + 1 < |h.free|
    requires h.free[i] in h.blocks && h.free[i + 1] in h.blocks && h.free[i + 1] in h.ptr
  {
    var a, b := h.free[i], h.free[i + 1];
    h.(free := h.free[..i + 1] + h.free[i + 2..],
       ptr := h.ptr[a := h.ptr[b]],
       size := h.size[a := h.blocks[a] + h.blocks[b]],
       blocks := (h.blocks - {b})[a := h.blocks[a] + h.blocks[b]])
  }

  // Free blocks i and i + 1 touch.
  ghost predicate Touch(h: Heap, i: nat)
  {
    && Loose(h) && 0 < i && i + 1 < |h.free| && h.free[i + 1] in h.ptr
    && h.free[i] in h.blocks && h.free[i + 1] in h.blocks && End(h, h.free[i]) == h.free[i + 1]
  }

  lemma JoinAt(h: Heap, i: nat)
    requires Touch(h, i)
    ensures |Join(h, i).free| == |h.free| - 1
    ensures forall j: nat :: j < |h.free| - 1 ==> Join(h, i).free[j] == h.free[if j <= i then j else j + 1]
  {
  }

  lemma JoinLinked(h: Heap, i: nat)
    requires Touch(h, i)
    ensures Linked(Join(h, i))
  {
    JoinAt(h, i);
    var g := Join(h, i);
    forall j: nat | j < |g.free| ensures LinkAt(g, j) {
      assert LinkAt(h, if j < i then j else j + 1);
    }
  }

  lemma JoinBlocks(h: Heap, i: nat)
    requires Touch(h, i)
    ensures BlocksOk(Join(h, i))
  {
    hide Linked;
    var g, a, b := Join(h, i), h.free[i], h.free[i + 1];
    assert BlockOk(h, a) && BlockOk(h, b);
    forall c | c in g.blocks ensures BlockOk(g, c) {
      assert BlockOk(h, c);
    }
    forall c, d | c in g.blocks && d in g.blocks ensures Apart(g, c, d) {
      assert Apart(h, c, d) && Apart(h, b, d);
    }
  }

  lemma JoinGaps(h: Heap, i: nat)
    requires Touch(h, i)
    ensures forall j: nat :: j < i && Gap(h, j) ==> Gap(Join(h, i), j)
    ensures forall j: nat :: i < j && Gap(h, j) ==> Gap(Join(h, i), j - 1)
  {
    JoinAt(h, i);
  }

  lemma JoinUnits(blocks: map<nat, nat>, a: nat, b: nat)
    requires a in blocks && b in blocks && a != b
    ensures Units((blocks - {b})[a := blocks[a] + blocks[b]]) == Units(blocks)
  {
    UnitsWithout(blocks, b);
    UnitsWithout(blocks - {b}, a);
    assert (blocks - {b})[a := blocks[a] + blocks[b]] == (blocks - {b} - {a})[a := blocks[a] + blocks[b]];
    UnitsWith(blocks - {b} - {a}, a, blocks[a] + blocks[b]);
  }

  lemma JoinUsed(h: Heap, i: nat)
    requires Touch(h, i)
    ensures forall c :: Used(h, c) <==> Used(Join(h, i), c)
    ensures forall c :: Used(h, c) ==> Join(h, i).blocks[c] == h.blocks[c]
  {
    JoinAt(h, i);
    var g, n := Join(h, i), |h.free|;
    forall c ensures c in h.free <==> c in g.free || c == h.free[i + 1] {
      if c in h.free {
        var j: nat :| j < n && h.free[j] == c;
        if j <= i { assert g.free[j] == c; } else if j > i + 1 { assert g.free[j - 1] == c; }
      }
    }
  }

  // Freeing a block ---------------------------------------------------------------

  // Put block b at its place and join it to the neighbours it touches.
  ghost function Freed(h: Heap, t: nat, b: nat): Heap
    requires Loose(h) && Used(h, b) && Spot(h, t, b)
  {
    InsertOk(h, t, b);
    Close(Close(Insert(h, t, b), t + 1), t)
  }

  ghost function Close(h: Heap, i: nat): Heap { if Touch(h, i) then Join(h, i) else h }

  lemma CloseOk(h: Heap, i: nat, k: nat)
    requires Loose(h) && k <= i && forall j: nat :: j != i && j != k ==> Gap(h, j)
    ensures Loose(Close(h, i)) && Units(Close(h, i).blocks) == Units(h.blocks)
    ensures forall j: nat :: j != k || k == i ==> Gap(Close(h, i), j)
    ensures forall c :: Used(h, c) <==> Used(Close(h, i), c)
    ensures forall c :: Used(h, c) ==> Close(h, i).blocks[c] == h.blocks[c]
  {
    if Touch(h, i) {
      JoinOk(h, i);
      forall j: nat | j != k || k == i ensures Gap(Join(h, i), j) {
        if j < i { assert Gap(h, j); } else { assert Gap(h, j + 1); }
      }
    } else if 0 < i && i + 1 < |h.free| {
      Touches(h, i);
    }
  }

  lemma Touches(h: Heap, i: nat)
    requires Loose(h) && 0 < i && i + 1 < |h.free|
    ensures Touch(h, i) || Gap(h, i)
  {
    assert LinkAt(h, i + 1);
    assert Apart(h, h.free[i], h.free[i + 1]);
  }

  lemma JoinOk(h: Heap, i: nat)
    requires Touch(h, i)
    ensures Loose(Join(h, i)) && Units(Join(h, i).blocks) == Units(h.blocks)
    ensures forall j: nat :: j < i && Gap(h, j) ==> Gap(Join(h, i), j)
    ensures forall j: nat :: i < j && Gap(h, j) ==> Gap(Join(h, i), j - 1)
    ensures forall c :: Used(h, c) <==> Used(Join(h, i), c)
    ensures forall c :: Used(h, c) ==> Join(h, i).blocks[c] == h.blocks[c]
  {
    hide Linked, BlocksOk, Gap, Used, Units;
    JoinLinked(h, i);
    JoinBlocks(h, i);
    JoinGaps(h, i);
    JoinSame(h, i);
    JoinUsed(h, i);
  }

  lemma JoinSame(h: Heap, i: nat)
    requires Touch(h, i)
    ensures Units(Join(h, i).blocks) == Units(h.blocks)
  {
    JoinUnits(h.blocks, h.free[i], h.free[i + 1]);
  }

  /** free puts a block back in order, keeps the list free of touching blocks,
      leaves every other block in use alone and loses no unit. */
  lemma FreedOk(h: Heap, t: nat, b: nat)
    requires Inv(h) && Used(h, b) && Spot(h, t, b)
    ensures Inv(Freed(h, t, b)) && Units(Freed(h, t, b).blocks) == Units(h.blocks)
    ensures forall c :: Used(Freed(h, t, b), c) <==> Used(h, c) && c != b
    ensures forall c :: Used(h, c) && c != b ==> Freed(h, t, b).blocks[c] == h.blocks[c]
    ensures Freed(h, t, b).base == h.base && t < |Freed(h, t, b).free| && Freed(h, t, b).free[t] == h.free[t]
  {
    hide Linked, BlocksOk, Gap, Used, Units, Touch, Insert, Join;
    InsertOk(h, t, b);
    InsertUsed(h, t, b);
    InsertGaps(h, t, b);
    var g := Insert(h, t, b);
    CloseOk(g, t + 1, t);
    CloseOk(Close(g, t + 1), t, t);
    InsertAt(h, t, b);
    CloseAt(g, t + 1, t);
    CloseAt(Close(g, t + 1), t, t);
  }

  lemma InsertGaps(h: Heap, t: nat, b: nat)
    requires Inv(h) && Used(h, b) && Spot(h, t, b) && h.free[t] in h.ptr
    ensures forall i: nat :: i != t && i != t + 1 ==> Gap(Insert(h, t, b), i)
  {
    InsertOk(h, t, b);
    hide Linked, BlocksOk, Gap, Insert;
    forall i: nat | i != t && i != t + 1 ensures Gap(Insert(h, t, b), i) {
      if i < t { assert Gap(h, i); } else { assert Gap(h, i - 1); }
    }
  }

  lemma CloseAt(h: Heap, i: nat, k: nat)
    requires k <= i && k < |h.free|
    ensures k < |Close(h, i).free| && Close(h, i).free[k] == h.free[k] && Close(h, i).base == h.base
  {
    if Touch(h, i) { JoinAt(h, i); }
  }

  lemma InsertUsed(h: Heap, t: nat, b: nat)
    requires Loose(h) && Used(h, b) && Spot(h, t, b) && h.free[t] in h.ptr
    ensures forall c :: Used(Insert(h, t, b), c) <==> Used(h, c) && c != b
  {
    InsertAt(h, t, b);
    var g := Insert(h, t, b);
    forall c ensures c in g.free <==> c in h.free || c == b {
      if c in h.free {
        var i: nat :| i < |h.free| && h.free[i] == c;
        assert g.free[if i <= t then i else i + 1] == c;
      }
      assert g.free[t + 1] == b;
    }
  }

  // Allocating a block ---------------------------------------------------------------

  // Take block i off the list.
  function Take(h: Heap, i: nat): Heap
    requires 0 < i < |h.free| && h.free[i] in h.ptr
  {
    h.(free := h.free[..i] + h.free[i + 1..], ptr := h.ptr[h.free[i - 1] := h.ptr[h.free[i]]])
  }

  lemma TakeAt(h: Heap, i: nat)
    requires 0 < i < |h.free| && h.free[i] in h.ptr
    ensures |Take(h, i).free| == |h.free| - 1
    ensures forall j: nat :: j < |h.free| - 1 ==> Take(h, i).free[j] == h.free[if j < i then j else j + 1]
  {
  }

  lemma TakeOk(h: Heap, i: nat)
    requires Inv(h) && 0 < i < |h.free|
    ensures h.free[i] in h.ptr && Inv(Take(h, i)) && h.free[i - 1] in Take(h, i).free
    ensures forall c :: Used(Take(h, i), c) <==> Used(h, c) || c == h.free[i]
  {
    LinkIn(h, i);
    TakeAt(h, i);
    var g := Take(h, i);
    assert g.free[i - 1] == h.free[i - 1];
    TakeLinked(h, i);
    TakeBlocks(h, i);
    TakeUsed(h, i);
    forall j: nat ensures Gap(g, j) {
      assert Gap(h, j) && Gap(h, j + 1);
    }
  }

  lemma TakeLink(h: Heap, i: nat, j: nat)
    requires Ascending(h.free) && 0 < i < |h.free| && h.free[i] in h.ptr && j < |h.free| - 1
    requires LinkAt(h, if j < i then j else j + 1) && LinkAt(h, i)
    ensures j < |Take(h, i).free| && LinkAt(Take(h, i), j)
  {
    TakeAt(h, i);
    var k := if j < i then j else j + 1;
    assert j != i - 1 ==> h.free[k] != h.free[i - 1];
  }

  lemma TakeOrder(h: Heap, i: nat)
    requires Linked(h) && 0 < i < |h.free| && h.free[i] in h.ptr
    ensures var g := Take(h, i);
      && 0 < |g.free| && g.free[0] == g.base && Ascending(g.free)
      && forall j: nat :: 0 < j < |g.free| ==> g.free[j] in g.blocks
  {
    hide LinkAt;
    TakeAt(h, i);
  }

  lemma TakeLinked(h: Heap, i: nat)
    requires Loose(h) && 0 < i < |h.free| && h.free[i] in h.ptr
    ensures Linked(Take(h, i))
  {
    hide LinkAt, BlocksOk, Ascending, Take;
    TakeAt(h, i);
    TakeOrder(h, i);
    var g := Take(h, i);
    forall j: nat | j < |g.free| ensures LinkAt(g, j) {
      assert LinkAt(h, if j < i then j else j + 1) && LinkAt(h, i);
      TakeLink(h, i, j);
    }
  }

  lemma TakeBlocks(h: Heap, i: nat)
    requires Loose(h) && 0 < i < |h.free| && h.free[i] in h.ptr
    ensures BlocksOk(Take(h, i))
  {
    var g := Take(h, i);
    forall c | c in g.blocks ensures BlockOk(g, c) {
      assert BlockOk(h, c);
    }
    forall c, d | c in g.blocks && d in g.blocks ensures Apart(g, c, d) {
      assert Apart(h, c, d);
    }
  }

  lemma TakeUsed(h: Heap, i: nat)
    requires Loose(h) && 0 < i < |h.free| && h.free[i] in h.ptr
    ensures forall c :: Used(Take(h, i), c) <==> Used(h, c) || c == h.free[i]
  {
    hide LinkAt, Apart;
    TakeAt(h, i);
    var g, n := Take(h, i), |h.free|;
    forall c ensures c in h.free <==> c in g.free || c == h.free[i] {
      if c in h.free {
        var j: nat :| j < n && h.free[j] == c;
        if j < i { assert g.free[j] == c; } else if j > i { assert g.free[j - 1] == c; }
      }
    }
  }

  // Cut the last n units off the block at a; the new block begins at q.
  function Split(h: Heap, a: nat, n: nat): Heap
    requires a in h.blocks && n <= h.blocks[a]
  {
    var left := h.blocks[a] - n;
    var q := a + UNIT * left;
    h.(size := h.size[a := left][q := n], blocks := h.blocks[a := left][q := n])
  }

  lemma SplitFresh(h: Heap, a: nat, n: nat)
    requires Loose(h) && a in h.blocks && 0 < n < h.blocks[a]
    ensures a + UNIT * (h.blocks[a] - n) !in h.blocks
  {
    var q := a + UNIT * (h.blocks[a] - n);
    assert q in h.blocks ==> Apart(h, a, q);
  }

  lemma SplitBlocks(h: Heap, a: nat, n: nat)
    requires Loose(h) && a in h.blocks && a in h.free && 0 < n < h.blocks[a]
    ensures BlocksOk(Split(h, a, n))
  {
    hide Linked;
    SplitFresh(h, a, n);
    var g := Split(h, a, n);
    var q := a + UNIT * (h.blocks[a] - n);
    assert BlockOk(h, a);
    forall c | c in g.blocks ensures BlockOk(g, c) {
      if c != q { assert BlockOk(h, c); }
    }
    forall c, d | c in g.blocks && d in g.blocks ensures Apart(g, c, d) {
      SplitApart(h, a, n, c, d);
    }
  }

  lemma SplitApart(h: Heap, a: nat, n: nat, c: nat, d: nat)
    requires BlocksOk(h) && a in h.blocks && 0 < n < h.blocks[a]
    requires c in Split(h, a, n).blocks && d in Split(h, a, n).blocks
    ensures Apart(Split(h, a, n), c, d)
  {
    var q := a + UNIT * (h.blocks[a] - n);
    if c in h.blocks { assert Apart(h, c, if d == q then a else d) && Apart(h, a, c); }
    assert d != q ==> Apart(h, a, d);
  }

  lemma SplitLinked(h: Heap, a: nat, n: nat)
    requires Linked(h) && a in h.blocks && n <= h.blocks[a]
    ensures Linked(Split(h, a, n))
  {
    forall i: nat | i < |h.free| ensures LinkAt(Split(h, a, n), i) {
      assert LinkAt(h, i);
    }
  }

  lemma SplitUnits(blocks: map<nat, nat>, a: nat, q: nat, n: nat)
    requires a in blocks && q !in blocks && n <= blocks[a]
    ensures Units(blocks[a := blocks[a] - n][q := n]) == Units(blocks)
  {
    var left := blocks[a] - n;
    UnitsWithout(blocks, a);
    assert blocks[a := left] == (blocks - {a})[a := left];
    UnitsWith(blocks - {a}, a, left);
    UnitsWith(blocks[a := left], q, n);
  }

  lemma SplitOk(h: Heap, i: nat, n: nat)
    requires Inv(h) && 0 < i < |h.free| && h.free[i] in h.blocks && 0 < n < h.blocks[h.free[i]]
    ensures var g, a := Split(h, h.free[i], n), h.free[i];
      && Inv(g) && Units(g.blocks) == Units(h.blocks)
      && (forall c :: Used(g, c) <==> Used(h, c) || c == a + UNIT * (h.blocks[a] - n))
      && (forall c :: Used(h, c) ==> g.blocks[c] == h.blocks[c])
  {
    var a := h.free[i];
    var g, q := Split(h, a, n), a + UNIT * (h.blocks[a] - n);
    SplitFresh(h, a, n);
    SplitBlocks(h, a, n);
    SplitLinked(h, a, n);
    SplitUnits(h.blocks, a, q, n);
    SplitGaps(h, a, n);
    assert BlockOk(h, a);
    NotFree(h, q);
  }

  lemma NotFree(h: Heap, a: nat)
    requires Linked(h) && a != h.base && a !in h.blocks
    ensures a !in h.free
  {
    forall j: nat | j < |h.free| ensures h.free[j] != a {
    }
  }

  lemma SplitGaps(h: Heap, a: nat, n: nat)
    requires Inv(h) && a in h.blocks && 0 < n < h.blocks[a]
    ensures forall j: nat :: Gap(Split(h, a, n), j)
  {
    SplitFresh(h, a, n);
    forall j: nat ensures Gap(Split(h, a, n), j) {
      assert Gap(h, j);
    }
  }

  // A new block above all others.
  function Add(h: Heap, a: nat, n: nat): Heap
  {
    h.(size := h.size[a := n], blocks := h.blocks[a := n])
  }

  // Every block ends at or before `top`.
  ghost predicate Under(h: Heap, top: nat)
  {
    h.base + UNIT <= top && forall a :: a in h.blocks ==> End(h, a) <= top
  }

  lemma AddOk(h: Heap, a: nat, n: nat)
    requires Inv(h) && Under(h, a) && 0 < n
    ensures var g := Add(h, a, n); Inv(g) && Units(g.blocks) == Units(h.blocks) + n
    ensures a !in h.blocks && forall c :: Used(Add(h, a, n), c) <==> Used(h, c) || c == a
  {
    var g := Add(h, a, n);
    forall c | c in h.blocks ensures c < a {
      assert BlockOk(h, c);
    }
    AddBlocks(h, a, n);
    UnitsWith(h.blocks, a, n);
    forall j: nat | j < |h.free| ensures LinkAt(g, j) {
      assert LinkAt(h, j);
    }
    forall j: nat ensures Gap(g, j) {
      assert Gap(h, j);
    }
    NotFree(h, a);
  }

  lemma AddBlocks(h: Heap, a: nat, n: nat)
    requires BlocksOk(h) && Under(h, a) && 0 < n && a !in h.blocks
    ensures BlocksOk(Add(h, a, n))
  {
    var g := Add(h, a, n);
    forall c | c in g.blocks ensures BlockOk(g, c) {
      if c != a { assert BlockOk(h, c); }
    }
    forall c, d | c in g.blocks && d in g.blocks ensures Apart(g, c, d) {
      if c in h.blocks && d in h.blocks { assert Apart(h, c, d); }
      if d in h.blocks { assert BlockOk(h, d); }
    }
  }

  // What free's assignments amount to --------------------------------------------------

  predicate MeetsNext(h: Heap, t: nat, b: nat)
    requires t < |h.free| && h.free[t] in h.ptr && b in h.size
  {
    b + UNIT * h.size[b] == h.ptr[h.free[t]]
  }

  lemma UpMerge(h: Heap, t: nat, b: nat)
    requires Loose(h) && Used(h, b) && Spot(h, t, b) && h.free[t] in h.ptr && b in h.size
    ensures Touch(Insert(h, t, b), t + 1) <==> MeetsNext(h, t, b)
    ensures MeetsNext(h, t, b) ==> t + 1 < |h.free| && h.ptr[h.free[t]] == h.free[t + 1]
  {
    LinkIn(h, t);
    InsertOk(h, t, b);
    InsertAt(h, t, b);
    assert BlockOk(h, b);
    var g := Insert(h, t, b);
    if t + 1 < |h.free| {
      LinkIn(g, t + 2);
      assert g.free[t + 1] == b && g.free[t + 2] == h.free[t + 1];
    }
  }

  lemma UpResult(h: Heap, t: nat, b: nat)
    requires Loose(h) && Used(h, b) && Spot(h, t, b) && h.free[t] in h.ptr && b in h.size
    requires h.ptr[h.free[t]] in h.ptr && h.ptr[h.free[t]] in h.size
    ensures var g, p := Close(Insert(h, t, b), t + 1), h.free[t]; var q := h.ptr[p];
      && g.ptr == (if MeetsNext(h, t, b) then h.ptr[b := h.ptr[q]] else h.ptr[b := q])[p := b]
      && g.size == (if MeetsNext(h, t, b) then h.size[b := h.size[b] + h.size[q]] else h.size)
  {
    UpMerge(h, t, b);
    InsertAt(h, t, b);
    if MeetsNext(h, t, b) {
      var q := h.free[t + 1];
      assert BlockOk(h, b) && BlockOk(h, q);
      assert Insert(h, t, b).free[t + 1] == b && Insert(h, t, b).free[t + 2] == q;
    }
  }

  lemma DownResult(g: Heap, t: nat, b: nat, was: map<nat, nat>)
    requires Loose(g) && t + 1 < |g.free| && g.free[t + 1] == b
    requires g.free[t] in g.size && b in g.size && b in was && g.ptr == was[g.free[t] := b]
    ensures var p := g.free[t]; var down := p + UNIT * g.size[p] == b;
      && Close(g, t).ptr == (if down then was[p := was[b]] else g.ptr)
      && Close(g, t).size == (if down then g.size[p := g.size[p] + g.size[b]] else g.size)
  {
    var p := g.free[t];
    LinkIn(g, t + 1);
    assert BlockOk(g, b);
    if 0 < t {
      assert BlockOk(g, p);
    }
  }

  lemma NextIn(h: Heap, i: nat)
    requires Loose(h) && i < |h.free|
    ensures h.free[i] in h.ptr && h.ptr[h.free[i]] in h.ptr && h.ptr[h.free[i]] in h.size && h.free[i] in h.size
    ensures h.ptr[h.free[i]] == h.free[Next(i, |h.free|)]
  {
    LinkIn(h, i);
    var j := Next(i, |h.free|);
    LinkIn(h, j);
    if 0 < i { assert BlockOk(h, h.free[i]); }
    if 0 < j { assert BlockOk(h, h.free[j]); }
  }

  lemma {:induction false} SpotExists(h: Heap, b: nat, n: nat) returns (t: nat)
    requires Linked(h) && h.base < b && b !in h.free && 0 < n <= |h.free|
    requires forall i: nat :: n <= i < |h.free| ==> b < h.free[i]
    ensures Spot(h, t, b)
  {
    if h.free[n - 1] < b { t := n - 1; } else { t := SpotExists(h, b, n - 1); }
  }

  // free's search stops at the spot and nowhere else.
  lemma StopsAtSpot(h: Heap, i: nat, t: nat, b: nat)
    requires Loose(h) && Used(h, b) && Spot(h, t, b) && i < |h.free| && h.free[i] in h.ptr
    ensures var p, q := h.free[i], h.ptr[h.free[i]];
      i == t <==> (b > p && b < q) || (p >= q && (b > p || b < q))
  {
    LinkIn(h, i);
    assert BlockOk(h, b);
  }

  lemma CloseUnder(h: Heap, i: nat, top: nat)
    requires Under(h, top)
    ensures Under(Close(h, i), top)
  {
    hide Loose;
    if Touch(h, i) {
      var a, b := h.free[i], h.free[i + 1];
      assert End(h, b) <= top;
      assert End(Join(h, i), a) == End(h, b);
      forall c | c in Join(h, i).blocks ensures End(Join(h, i), c) <= top {
        if c != a { assert End(h, c) <= top; }
      }
    }
  }

  lemma FreedUnder(h: Heap, t: nat, b: nat, top: nat)
    requires Inv(h) && Used(h, b) && Spot(h, t, b) && Under(h, top)
    ensures Under(Freed(h, t, b), top)
  {
    hide Loose, Close, Under, Used, Spot, Gap;
    InsertOk(h, t, b);
    SpotIn(h, t, b);
    InsertUnder(h, t, b, top);
    CloseUnder(Insert(h, t, b), t + 1, top);
    CloseUnder(Close(Insert(h, t, b), t + 1), t, top);
  }

  lemma InsertUnder(h: Heap, t: nat, b: nat, top: nat)
    requires Under(h, top) && t < |h.free| && h.free[t] in h.ptr
    ensures Under(Insert(h, t, b), top)
  {
    forall a | a in h.blocks ensures End(Insert(h, t, b), a) <= top {
      assert End(h, a) <= top;
    }
  }

  // The assignments of free at p == free[t], as maps.
  function FreePtr(h: Heap, p: nat, b: nat): map<nat, nat>
    requires p in h.ptr && h.ptr[p] in h.ptr && h.ptr[p] in h.size && p in h.size && b in h.size
  {
    var q := h.ptr[p];
    var ptr1 := if b + UNIT * h.size[b] == q then h.ptr[b := h.ptr[q]] else h.ptr[b := q];
    if p + UNIT * h.size[p] == b then ptr1[p := ptr1[b]] else ptr1[p := b]
  }

  function FreeSize(h: Heap, p: nat, b: nat): map<nat, nat>
    requires p in h.ptr && h.ptr[p] in h.ptr && h.ptr[p] in h.size && p in h.size && b in h.size
  {
    var q := h.ptr[p];
    var size1 := if b + UNIT * h.size[b] == q then h.size[b := h.size[b] + h.size[q]] else h.size;
    if p + UNIT * h.size[p] == b then size1[p := h.size[p] + size1[b]] else size1
  }

  /** free's assignments insert the block and join it to the neighbours it touches. */
  lemma FreeIsFreed(h: Heap, t: nat, b: nat)
    requires Inv(h) && Used(h, b) && Spot(h, t, b)
    ensures b in h.size
    ensures var p := h.free[t];
      && p in h.ptr && h.ptr[p] in h.ptr && h.ptr[p] in h.size && p in h.size
      && Freed(h, t, b).ptr == FreePtr(h, p, b) && Freed(h, t, b).size == FreeSize(h, p, b)
  {
    hide Inv, Linked, BlocksOk, Gap, Insert, Join, Touch, Used, Spot;
    UpFacts(h, t, b);
    UpResult(h, t, b);
    var p, q := h.free[t], h.ptr[h.free[t]];
    DownResult(Close(Insert(h, t, b), t + 1), t, b, if MeetsNext(h, t, b) then h.ptr[b := h.ptr[q]] else h.ptr[b := q]);
  }

  lemma UpFacts(h: Heap, t: nat, b: nat)
    requires Inv(h) && Used(h, b) && Spot(h, t, b)
    ensures Loose(h) && b in h.size && t < |h.free| && b != h.free[t]
    ensures var p := h.free[t]; p in h.ptr && h.ptr[p] in h.ptr && h.ptr[p] in h.size && p in h.size
    ensures var g := Close(Insert(h, t, b), t + 1);
      Loose(g) && t + 1 < |g.free| && g.free[t + 1] == b && g.free[t] == h.free[t]
  {
    NextIn(h, t);
    assert BlockOk(h, b);
    InsertOk(h, t, b);
    InsertAt(h, t, b);
    var g := Insert(h, t, b);
    assert g.free[t + 1] == b;
    if Touch(g, t + 1) {
      JoinLinked(g, t + 1);
      JoinBlocks(g, t + 1);
      JoinAt(g, t + 1);
    }
  }

  // Position g of the free list is a block of at least n units that reaches up to e.
  ghost predicate Reaches(h: Heap, g: nat, n: nat, e: nat)
  {
    0 < g < |h.free| && h.free[g] in h.blocks && h.blocks[h.free[g]] >= n && End(h, h.free[g]) >= e
  }

  // Joining a block to its neighbour keeps that.
  lemma CloseReaches(h: Heap, i: nat, g: nat, n: nat, e: nat)
    requires Reaches(h, g, n, e) && (g == i || g == i + 1)
    ensures Reaches(Close(h, i), if Touch(h, i) then i else g, n, e)
  {
    hide Loose;
    if Touch(h, i) {
      JoinAt(h, i);
      assert Join(h, i).free[i] == h.free[i];
    }
  }

  // A freed block is part of a free block at least as big.
  lemma FreedFits(h: Heap, t: nat, b: nat) returns (g: nat)
    requires Inv(h) && Used(h, b) && Spot(h, t, b)
    ensures var k := Freed(h, t, b);
      && 0 < g < |k.free| && k.free[g] in k.blocks && k.blocks[k.free[g]] >= h.blocks[b]
      && End(k, k.free[g]) >= End(h, b)
  {
    hide Loose, Close, Touch, Insert, Spot, Gap;
    InsertOk(h, t, b);
    SpotIn(h, t, b);
    var i := Insert(h, t, b);
    InsertReaches(h, t, b);
    CloseReaches(i, t + 1, t + 1, h.blocks[b], End(h, b));
    var c := Close(i, t + 1);
    g := if Touch(c, t) then t else t + 1;
    CloseReaches(c, t, t + 1, h.blocks[b], End(h, b));
  }

  lemma SpotIn(h: Heap, t: nat, b: nat)
    requires Spot(h, t, b)
    ensures t < |h.free|
  {
  }

  lemma InsertReaches(h: Heap, t: nat, b: nat)
    requires t < |h.free| && h.free[t] in h.ptr && b in h.blocks
    ensures Reaches(Insert(h, t, b), t + 1, h.blocks[b], End(h, b))
  {
    InsertAt(h, t, b);
    assert Insert(h, t, b).free[t + 1] == b;
  }
}

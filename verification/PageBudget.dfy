/**
 * How many free pages an operation needs: a frame for each page it maps and a
 * table for each place on the way that has none yet.
 */
module PageBudget {
  import opened PageState
  import opened PageSteps
  import opened PageRuns
  import opened Common

  // The tables below the root on the way to the pages [v, v + n).
  ghost function Needed(r: nat, v: nat, n: nat): set<Place>
  {
    if n == 0 then {} else Needed(r, v, n - 1) + {Place(r, Prefix(v + n - 1, 1)), Low(r, v + n - 1)}
  }

  // Those of them that do not exist.
  ghost function Lacks(s: State, r: nat, v: nat, n: nat): set<Place> { Needed(r, v, n) - s.node.Keys }

  // Free pages that mapping n fresh frames from page v on takes.
  ghost function Cost(s: State, r: nat, v: nat, n: nat): nat { n + |Lacks(s, r, v, n)| }

  // Between s and t tables were added at places of `need` only, and every page
  // that left the free list is one of them or one of k frames.
  ghost predicate Paid(s: State, t: State, need: set<Place>, k: nat)
  {
    && s.node.Keys <= t.node.Keys <= s.node.Keys + need
    && |t.free| + |t.node.Keys - s.node.Keys| + k == |s.free|
  }

  // From a to b to c only members were added: the gains add up.
  lemma Gains<T>(a: set<T>, b: set<T>, c: set<T>)
    requires a <= b <= c
    ensures |c - a| == |c - b| + |b - a|
  {
    assert c - a == (c - b) + (b - a);
  }

  // What x + y lacks of a: what b, holding all of x, gained on a, and what y lacks of b.
  lemma Lacking<T>(a: set<T>, b: set<T>, x: set<T>, y: set<T>)
    requires a <= b <= a + x && x <= b
    ensures |x + y - a| == |b - a| + |y - b|
  {
    assert x + y - a == (b - a) + (y - b);
  }

  lemma FewMore<T>(a: set<T>, x: set<T>, p: T, q: T)
    ensures |x + {p, q} - a| <= |x - a| + 2
  {
    Larger(x + {p, q} - a, (x - a) + {p, q});
    assert |(x - a) + {p, q}| <= |x - a| + |{p, q}|;
    Larger({p, q}, {p} + {q});
    assert |{p} + {q}| <= 2;
  }

  lemma PaidNone(s: State)
    ensures Paid(s, s, {}, 0)
  {
    assert s.node.Keys - s.node.Keys == {};
  }

  lemma PaidThen(s: State, u: State, t: State, a: set<Place>, j: nat, b: set<Place>, k: nat)
    requires Paid(s, u, a, j) && Paid(u, t, b, k)
    ensures Paid(s, t, a + b, j + k)
  {
    Gains(s.node.Keys, u.node.Keys, t.node.Keys);
  }

  lemma PaidMore(s: State, t: State, a: set<Place>, b: set<Place>, k: nat)
    requires Paid(s, t, a, k) && a <= b
    ensures Paid(s, t, b, k)
  {
  }

  // All that was needed is there: the price was what was lacking.
  lemma PaidFull(s: State, t: State, need: set<Place>, k: nat)
    requires Paid(s, t, need, k) && need <= t.node.Keys
    ensures |s.free| == |t.free| + |need - s.node.Keys| + k
  {
    assert t.node.Keys - s.node.Keys == need - s.node.Keys;
  }

  // The free list ran out before all that was needed was there.
  lemma PaidShort(s: State, t: State, need: set<Place>, x: Place)
    requires Paid(s, t, need, 0) && t.free == [] && x in need && x !in t.node
    ensures |s.free| < |need - s.node.Keys|
  {
    Larger(t.node.Keys - s.node.Keys, need - s.node.Keys);
  }

  lemma {:induction false} NeededMore(r: nat, v: nat, m: nat, n: nat)
    requires m <= n
    ensures Needed(r, v, m) <= Needed(r, v, n)
    decreases n
  {
    hide Prefix, Low;
    if m < n { NeededMore(r, v, m, n - 1); }
  }

  lemma LacksMore(s: State, r: nat, v: nat, m: nat, n: nat)
    requires m <= n
    ensures |Lacks(s, r, v, m)| <= |Lacks(s, r, v, n)|
  {
    hide Needed;
    NeededMore(r, v, m, n);
    Larger(Lacks(s, r, v, m), Lacks(s, r, v, n));
  }

  lemma CostMore(s: State, r: nat, v: nat, m: nat, n: nat)
    requires m <= n
    ensures Cost(s, r, v, m) <= Cost(s, r, v, n)
  {
    LacksMore(s, r, v, m, n);
  }

  lemma LacksTwoMore(s: State, r: nat, v: nat, n: nat)
    ensures |Lacks(s, r, v, n + 1)| <= |Lacks(s, r, v, n)| + 2
  {
    hide Prefix, Low;
    var p, q := Place(r, Prefix(v + n, 1)), Low(r, v + n);
    assert Needed(r, v, n + 1) == Needed(r, v, n) + {p, q};
    FewMore(s.node.Keys, Needed(r, v, n), p, q);
  }

  /** Three free pages for each page are always enough. */
  lemma {:induction false} CostBound(s: State, r: nat, v: nat, n: nat)
    ensures Cost(s, r, v, n) <= 3 * n
  {
    hide Lacks;
    if n == 0 {
      LacksNothing(s, r, v);
    } else {
      CostBound(s, r, v, n - 1);
      LacksTwoMore(s, r, v, n - 1);
    }
  }

  lemma LacksNothing(s: State, r: nat, v: nat)
    ensures |Lacks(s, r, v, 0)| == 0
  {
  }

  lemma NeededOne(r: nat, v: nat, n: nat)
    ensures Needed(r, v, n + 1) == Needed(r, v, n) + Needed(r, v + n, 1)
  {
    hide Prefix, Low;
    assert Needed(r, v + n, 0) == {};
  }

  // After n pages were paid for, j of them with a frame, the price of one more
  // adds to the price of n.
  lemma LacksNext(s: State, u: State, r: nat, v: nat, n: nat, j: nat)
    requires Paid(s, u, Needed(r, v, n), j) && Needed(r, v, n) <= u.node.Keys
    ensures |Lacks(s, r, v, n + 1)| + j == |s.free| - |u.free| + |Lacks(u, r, v + n, 1)|
  {
    hide Needed;
    NeededOne(r, v, n);
    Lacking(s.node.Keys, u.node.Keys, Needed(r, v, n), Needed(r, v + n, 1));
  }

  // One more page was paid for, with i frames.
  lemma PaidNext(s: State, u: State, t: State, r: nat, v: nat, n: nat, j: nat, i: nat)
    requires Paid(s, u, Needed(r, v, n), j) && Needed(r, v, n) <= u.node.Keys
    requires Paid(u, t, Needed(r, v + n, 1), i) && Needed(r, v + n, 1) <= t.node.Keys
    ensures Paid(s, t, Needed(r, v, n + 1), j + i) && Needed(r, v, n + 1) <= t.node.Keys
  {
    hide Needed;
    NeededOne(r, v, n);
    PaidThen(s, u, t, Needed(r, v, n), j, Needed(r, v + n, 1), i);
  }

  // Tables were added on the way to one more page, perhaps not all of them.
  lemma PaidOn(s: State, u: State, t: State, r: nat, v: nat, n: nat)
    requires Paid(s, u, Needed(r, v, n), 0) && Paid(u, t, Needed(r, v + n, 1), 0)
    ensures Paid(s, t, Needed(r, v, n + 1), 0)
  {
    hide Needed, Paid;
    NeededOne(r, v, n);
    PaidThen(s, u, t, Needed(r, v, n), 0, Needed(r, v + n, 1), 0);
  }

  // Every table that was added is one of tree r.
  ghost predicate Local(s: State, t: State, r: nat) { forall at :: at in t.node ==> at in s.node || at.root == r }

  lemma LocalThen(s: State, u: State, t: State, r: nat)
    requires Local(s, u, r) && Local(u, t, r)
    ensures Local(s, t, r)
  {
  }

  lemma {:induction false} NeededRoot(r: nat, v: nat, n: nat)
    ensures forall at :: at in Needed(r, v, n) ==> at.root == r
  {
    hide Prefix;
    if n > 0 { NeededRoot(r, v, n - 1); }
  }

  lemma PaidLocal(s: State, t: State, r: nat, v: nat, n: nat, k: nat)
    requires Paid(s, t, Needed(r, v, n), k)
    ensures Local(s, t, r)
  {
    hide Needed;
    NeededRoot(r, v, n);
  }

  lemma PaidZero(s: State, r: nat, v: nat)
    ensures Paid(s, s, Needed(r, v, 0), 0) && Needed(r, v, 0) <= s.node.Keys
  {
    PaidNone(s);
  }

  lemma PaidKeys(s: State, t: State, need: set<Place>, k: nat)
    requires Paid(s, t, need, k)
    ensures s.node.Keys <= t.node.Keys
  {
  }

  lemma SamePaid(s: State, u: State, t: State, need: set<Place>, k: nat)
    requires Paid(s, u, need, k) && t.node == u.node && t.free == u.free
    ensures Paid(s, t, need, k)
  {
  }

  // Fresh frames ----------------------------------------------------------------------

  // Page v of tree r was given a fresh frame, at the price of that frame and the
  // tables missing on the way.
  ghost predicate Bought(s: State, t: State, r: nat, v: nat, f: nat, page: Page)
    requires Shape(s) && Shape(t)
  {
    Added(s, t, r, v, f, page) && Paid(s, t, Needed(r, v, 1), 1) && Needed(r, v, 1) <= t.node.Keys
  }

  // The same for the n pages from v on.
  ghost predicate Grown(s: State, t: State, r: nat, v: nat, n: nat, src: nat, f: nat)
    requires Shape(s) && Shape(t)
  {
    Built(s, t, r, v, n, src, f) && Paid(s, t, Needed(r, v, n), n) && Needed(r, v, n) <= t.node.Keys
  }

  lemma GrownNone(s: State, r: nat, v: nat, src: nat, f: nat)
    requires Shape(s)
    ensures Grown(s, s, r, v, 0, src, f)
  {
    hide Built;
    BuiltNone(s, r, v, src, f);
    PaidZero(s, r, v);
  }

  lemma GrownMore(s: State, u: State, t: State, r: nat, v: nat, n: nat, src: nat, f: nat)
    requires Shape(s) && Shape(u) && Shape(t) && v + n < PAGES && Grown(s, u, r, v, n, src, f)
    requires Bought(u, t, r, v + n, WantFlags(s, src, f, v + n), WantPage(s, src, v + n))
    ensures Grown(s, t, r, v, n + 1, src, f)
  {
    hide Built, Added, Paid, Needed, WantFlags, WantPage;
    BuiltMore(s, u, t, r, v, n, src, f);
    PaidNext(s, u, t, r, v, n, n, 1);
  }

  // Enough for what was bought.
  lemma GrownEnough(s: State, t: State, r: nat, v: nat, n: nat, src: nat, f: nat)
    requires Shape(s) && Shape(t) && Grown(s, t, r, v, n, src, f)
    ensures |s.free| >= Cost(s, r, v, n)
  {
    hide Built, Paid, Needed;
    PaidFull(s, t, Needed(r, v, n), n);
  }

  // Not enough for the next page: not enough for the whole range.
  lemma GrownShort(s: State, u: State, r: nat, v: nat, k: nat, src: nat, f: nat, n: nat)
    requires Shape(s) && Shape(u) && Grown(s, u, r, v, k, src, f) && k < n
    requires |u.free| < Cost(u, r, v + k, 1)
    ensures |s.free| < Cost(s, r, v, n)
  {
    hide Built, Paid, Needed, Lacks;
    LacksNext(s, u, r, v, k, k);
    CostMore(s, r, v, k + 1, n);
  }
}

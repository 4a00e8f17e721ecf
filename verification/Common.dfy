/** What several modules need: an optional value, and sizes of finite sets. */
module Common {

  datatype Option<T> = None | Some(value: T)

  lemma Larger<T>(a: set<T>, b: set<T>)
    requires a <= b
    ensures |a| <= |b| && (a < b ==> |a| < |b|)
  {
    assert b == a + (b - a);
    if a < b {
      var x :| x in b && x !in a;
      assert x in b - a;
    }
  }

  /** There are at most n numbers below n. */
  lemma {:induction false} Bounded(ns: set<nat>, n: nat)
    requires forall k :: k in ns ==> k < n
    ensures |ns| <= n
  {
    if n == 0 {
      assert ns == {};
    } else if n - 1 in ns {
      Bounded(ns - {n - 1}, n - 1);
    } else {
      Bounded(ns, n - 1);
    }
  }
}

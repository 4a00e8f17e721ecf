/** The doubly linked ring of kernel/bio.c as code: the prev/next pointers of the
    buffers and of the list head, and the scans and relinking done through them.
    Buffers are named by their index in bcache.buf; the head is index `n`. */
module BufferRing {
  import opened BufferCache

  /** Position i of the ring that starts and ends at the head. */
  function At(order: seq<nat>, head: nat, i: nat): nat
    requires i <= |order| + 1
  {
    if i == 0 || i == |order| + 1 then head else order[i - 1]
  }

  ghost predicate Nodes(order: seq<nat>, head: nat) {
    && (forall i :: 0 <= i < |order| ==> order[i] < head)
    && (forall i, j :: 0 <= i < j < |order| ==> order[i] != order[j])
  }

  /** next and prev thread exactly the ring head, order[0], order[1], ..., head. */
  ghost predicate Linked(next: seq<nat>, prev: seq<nat>, order: seq<nat>, head: nat) {
    && |next| == |prev| == head + 1 && Nodes(order, head)
    && (forall i :: 0 <= i <= |order| ==> next[At(order, head, i)] == At(order, head, i + 1))
    && (forall i :: 0 <= i <= |order| ==> prev[At(order, head, i + 1)] == At(order, head, i))
  }

  /** Taking one node out: the two writes at the start of brelse's relinking. */
  lemma UnlinkOk(next: seq<nat>, prev: seq<nat>, order: seq<nat>, head: nat, k: nat)
    requires Linked(next, prev, order, head) && k < |order|
    ensures var b := order[k];
            && next[b] <= head && prev[b] <= head
            && Linked(next[prev[b] := next[b]], prev[next[b] := prev[b]], order[..k] + order[k + 1..], head)
  {
    var b, rest := order[k], order[..k] + order[k + 1..];
    assert At(order, head, k + 1) == b;
    assert next[At(order, head, k + 1)] == At(order, head, k + 2);
    assert prev[At(order, head, k + 1)] == At(order, head, k);
    forall i | 0 <= i <= |rest| + 1
      ensures At(rest, head, i) == At(order, head, if i <= k then i else i + 1) {}
    UnlinkNext(next, prev, order, head, k, rest);
    UnlinkPrev(next, prev, order, head, k, rest);
  }

  lemma UnlinkNext(next: seq<nat>, prev: seq<nat>, order: seq<nat>, head: nat, k: nat, rest: seq<nat>)
    requires Linked(next, prev, order, head) && k < |order| && |rest| == |order| - 1 && Nodes(rest, head)
    requires forall i :: 0 <= i <= |rest| + 1 ==> At(rest, head, i) == At(order, head, if i <= k then i else i + 1)
    ensures forall i :: 0 <= i <= |rest| ==>
              next[At(order, head, k) := At(order, head, k + 2)][At(rest, head, i)] == At(rest, head, i + 1)
  {
    forall i | 0 <= i <= |rest|
      ensures next[At(order, head, k) := At(order, head, k + 2)][At(rest, head, i)] == At(rest, head, i + 1)
    {
      var j := if i <= k then i else i + 1;
      assert next[At(order, head, j)] == At(order, head, j + 1);
    }
  }

  lemma UnlinkPrev(next: seq<nat>, prev: seq<nat>, order: seq<nat>, head: nat, k: nat, rest: seq<nat>)
    requires Linked(next, prev, order, head) && k < |order| && |rest| == |order| - 1 && Nodes(rest, head)
    requires forall i :: 0 <= i <= |rest| + 1 ==> At(rest, head, i) == At(order, head, if i <= k then i else i + 1)
    ensures forall i :: 0 <= i <= |rest| ==>
              prev[At(order, head, k + 2) := At(order, head, k)][At(rest, head, i + 1)] == At(rest, head, i)
  {
    forall i | 0 <= i <= |rest|
      ensures prev[At(order, head, k + 2) := At(order, head, k)][At(rest, head, i + 1)] == At(rest, head, i)
    {
      var j := if i < k then i else i + 1;
      assert prev[At(order, head, j + 1)] == At(order, head, j);
    }
  }

  /** Putting a node behind the head: the four writes shared by binit and brelse. */
  lemma LinkOk(next: seq<nat>, prev: seq<nat>, order: seq<nat>, head: nat, b: nat)
    requires Linked(next, prev, order, head) && b < head && b !in order
    ensures var nx := next[b := next[head]]; var pv := prev[b := head];
            && next[head] <= head
            && Linked(nx[head := b], pv[nx[head] := b], [b] + order, head)
  {
    var all := [b] + order;
    assert next[At(order, head, 0)] == At(order, head, 1);
    forall i | 1 <= i <= |all| + 1 ensures At(all, head, i) == if i == 1 then b else At(order, head, i - 1) {}
    var nx, pv := next[b := next[head]][head := b], prev[b := head][next[head] := b];
    forall i | 0 <= i <= |all| ensures nx[At(all, head, i)] == At(all, head, i + 1) {
      if i >= 2 {
        assert next[At(order, head, i - 1)] == At(order, head, i);
      }
    }
    forall i | 0 <= i <= |all| ensures pv[At(all, head, i + 1)] == At(all, head, i) {
      if i >= 2 {
        assert prev[At(order, head, i)] == At(order, head, i - 1);
      }
    }
  }

  lemma {:induction false} WithoutIs(order: seq<nat>, k: nat)
    requires k < |order| && forall i, j :: 0 <= i < j < |order| ==> order[i] != order[j]
    ensures Without(order, order[k]) == order[..k] + order[k + 1..]
    decreases |order|
  {
    if k > 0 {
      WithoutIs(order[1..], k - 1);
      assert order[1..][..k - 1] == order[1..k] && order[1..][k - 1 + 1..] == order[k + 1..];
      assert order[..k] == [order[0]] + order[1..k];
    }
  }

  function Countdown(k: nat): seq<nat> {
    if k == 0 then [] else [k - 1] + Countdown(k - 1)
  }

  lemma CountdownBelow(k: nat)
    ensures |Countdown(k)| == k && forall i :: 0 <= i < k ==> Countdown(k)[i] == k - 1 - i
  {}

  class Ring {
    const n: nat                // NBUF; also the index of bcache.head
    const next: array<nat>
    const prev: array<nat>
    ghost var order: seq<nat>

    ghost predicate Valid()
      reads this, next, prev
    {
      && next.Length == prev.Length == n + 1 && next != prev
      && Linked(next[..], prev[..], order, n)
    }

    /** binit: the ring holds every buffer once, the last one linked in front. */
    constructor (n: nat)
      ensures Valid() && this.n == n && order == Countdown(n) && fresh(next) && fresh(prev)
    {
      this.n := n;
      next := new nat[n + 1](_ => n);
      prev := new nat[n + 1](_ => n);
      order := [];
      new;
      var b := 0;
      while b < n
        invariant 0 <= b <= n && Valid() && order == Countdown(b)
      {
        CountdownBelow(b);
        LinkFront(b);
        b := b + 1;
      }
    }

    /** Insert b right behind the head. */
    method LinkFront(b: nat)
      requires Valid() && b < n && b !in order
      modifies this`order, next, prev
      ensures Valid() && order == [b] + old(order)
    {
      LinkOk(next[..], prev[..], order, n, b);
      ghost var nx: seq<nat>, pv: seq<nat> := next[..], prev[..];
      next[b] := next[n];
      prev[b] := n;
      assert next[..] == nx[b := nx[n]];
      prev[next[n]] := b;
      next[n] := b;
      assert next[..] == nx[b := nx[n]][n := b];
      order := [b] + order;
    }

    /** brelse, once nobody refers to b: move it to the most recent end. */
    method MoveToFront(b: nat)
      requires Valid() && b in order
      modifies this`order, next, prev
      ensures Valid() && order == MoveFront(old(order), b)
    {
      ghost var k :| 0 <= k < |order| && order[k] == b;
      ghost var nx: seq<nat>, pv: seq<nat> := next[..], prev[..];
      UnlinkOk(nx, pv, order, n, k);
      WithoutIs(order, k);
      var right, left := next[b], prev[b];
      prev[right] := left;
      next[left] := right;
      assert next[..] == nx[left := right] && prev[..] == pv[right := left];
      order := order[..k] + order[k + 1..];
      LinkFront(b);
    }

    /** bget's two scans: the cached buffer, else the least recently used free one. */
    method Search(bufs: seq<Buf>, id: Id) returns (b: nat, hit: bool, panic: bool)
      requires Valid() && |bufs| == n
      ensures match Lookup(bufs, order, id)
              case Some(x) => hit && !panic && b == x
              case None => !hit && match Victim(bufs, order)
                                   case Some(x) => !panic && b == x
                                   case None => panic
    {
      b := next[n];
      ghost var k := 0;
      assert b == At(order, n, 1) by { assert next[..][At(order, n, 0)] == At(order, n, 1); }
      assert order[0..] == order;
      while b != n
        invariant 0 <= k <= |order| && b == At(order, n, k + 1)
        invariant Lookup(bufs, order[k..], id) == Lookup(bufs, order, id)
        decreases |order| - k
      {
        assert order[k..][0] == b && order[k..][1..] == order[k + 1..];
        if bufs[b].id == id {
          return b, true, false;
        }
        assert next[..][At(order, n, k + 1)] == At(order, n, k + 2);
        b := next[b];
        k := k + 1;
      }
      assert order[k..] == [];
      b := prev[n];
      k := |order|;
      assert b == At(order, n, k) by { assert prev[..][At(order, n, k + 1)] == At(order, n, k); }
      assert order[..k] == order;
      while b != n
        invariant 0 <= k <= |order| && b == At(order, n, k)
        invariant Victim(bufs, order[..k]) == Victim(bufs, order)
        decreases k
      {
        assert order[..k][k - 1] == b && order[..k][..k - 1] == order[..k - 1];
        if bufs[b].refcnt == 0 {
          return b, false, false;
        }
        assert prev[..][At(order, n, k)] == At(order, n, k - 1);
        b := prev[b];
        k := k - 1;
      }
      return n, false, true;
    }
  }
}

/** The buffer cache of kernel/bio.c: a doubly linked ring of buffers in order of last release,
    updated in place. */
module BufferCache {
  import opened Util

  /** The fields of struct buf that bget, brelse, bpin and bunpin use. */
  datatype Buf = Buf(dev: nat, blockno: nat, valid: bool, refcnt: nat)

  // ---------- the ring ----------

  /** The k-th buffer after the head; the head itself at both ends. */
  function At(order: seq<nat>, head: nat, k: int): nat {
    if 0 <= k < |order| then order[k] else head
  }

  /** Following next from the head visits `order` and returns to the head; prev is its inverse. */
  predicate Linked(next: seq<nat>, prev: seq<nat>, order: seq<nat>, head: nat) {
    && |next| == |prev| == head + 1
    && (forall k :: 0 <= k < |order| ==> order[k] < head)
    && (forall k :: -1 <= k < |order| ==> next[At(order, head, k)] == At(order, head, k + 1))
    && (forall k :: -1 <= k < |order| ==> prev[At(order, head, k + 1)] == At(order, head, k))
  }

  /** `order` lists every buffer 0..n exactly once. */
  predicate Permutation(order: seq<nat>, n: nat) {
    && |order| == n && Distinct(order)
    && (forall k :: 0 <= k < |order| ==> order[k] < n)
  }

  function Without(order: seq<nat>, b: nat): seq<nat> {
    if order == [] then [] else if order[0] == b then order[1..] else [order[0]] + Without(order[1..], b)
  }

  lemma {:induction false} WithoutAt(order: seq<nat>, k: nat)
    requires Distinct(order) && k < |order|
    ensures Without(order, order[k]) == order[..k] + order[k + 1..]
  {
    if k == 0 {
      assert order[..0] + order[1..] == order[1..];
    } else {
      assert order[0] != order[k];
      WithoutAt(order[1..], k - 1);
      assert order[..k] + order[k + 1..] == [order[0]] + (order[1..][..k - 1] + order[1..][k..]);
    }
  }

  /** Unlinking the buffer at position `k`. */
  lemma UnlinkRing(next: seq<nat>, prev: seq<nat>, order: seq<nat>, head: nat, k: nat)
    requires Linked(next, prev, order, head) && Distinct(order) && k < |order|
    ensures var b := order[k];
      && next[b] <= head && prev[b] <= head
      && Linked(next[prev[b] := next[b]], prev[next[b] := prev[b]], order[..k] + order[k + 1..], head)
  {
    var b := order[k];
    var order' := order[..k] + order[k + 1..];
    assert At(order, head, k) == b;
    assert next[b] == At(order, head, k + 1);
    assert At(order, head, (k - 1) + 1) == b && prev[b] == At(order, head, k - 1);
    var next' := next[prev[b] := next[b]];
    var prev' := prev[next[b] := prev[b]];
    forall m | -1 <= m < |order'|
      ensures next'[At(order', head, m)] == At(order', head, m + 1)
      ensures prev'[At(order', head, m + 1)] == At(order', head, m)
    {
      var was := if m < k then m else m + 1;
      assert At(order', head, m) == At(order, head, was);
      var up := if m + 1 < k then m + 1 else m + 2;
      assert At(order', head, m + 1) == At(order, head, up);
      assert next[At(order, head, was)] == At(order, head, was + 1);
      assert prev[At(order, head, (up - 1) + 1)] == At(order, head, up - 1);
    }
  }

  /** Inserting a detached buffer right after the head. */
  lemma PushRing(next: seq<nat>, prev: seq<nat>, order: seq<nat>, head: nat, b: nat)
    requires Linked(next, prev, order, head) && Distinct(order) && b < head && b !in order
    ensures next[head] <= head
    ensures Linked(next[b := next[head]][head := b], prev[b := head][next[head] := b], [b] + order, head)
  {
    var order' := [b] + order;
    assert next[At(order, head, -1)] == At(order, head, 0);
    var next' := next[b := next[head]][head := b];
    var prev' := prev[b := head][next[head] := b];
    forall m | -1 <= m < |order'|
      ensures next'[At(order', head, m)] == At(order', head, m + 1)
      ensures prev'[At(order', head, m + 1)] == At(order', head, m)
    {
      assert At(order', head, m + 1) == if m == -1 then b else At(order, head, m);
      if m > 0 {
        assert At(order', head, m) == At(order, head, m - 1);
        assert next[At(order, head, m - 1)] == At(order, head, (m - 1) + 1);
        assert prev[At(order, head, (m - 1) + 1)] == At(order, head, m - 1);
      }
    }
  }

  // ---------- what a lookup must find ----------

  predicate Holds(x: Buf, dev: nat, blockno: nat) { x.dev == dev && x.blockno == blockno }

  /** Among real devices no block is cached twice. */
  predicate Unique(bufs: seq<Buf>) {
    forall i, j :: 0 <= i < j < |bufs| && bufs[i].dev != 0 && bufs[i].dev == bufs[j].dev ==>
        bufs[i].blockno != bufs[j].blockno
  }

  class Cache {
    const n: nat
    const buf: array<Buf>
    const next: array<nat>
    const prev: array<nat>

    /** Ring order, and for each buffer the moment it was last put at the front. */
    ghost var order: seq<nat>
    ghost var stamp: seq<nat>
    ghost var now: nat

    ghost predicate Valid()
      reads this, buf, next, prev
    {
      && buf.Length == n && next.Length == n + 1 && prev.Length == n + 1 && next != prev
      && Permutation(order, n)
      && Linked(next[..], prev[..], order, n)
      && Unique(buf[..])
      && |stamp| == n
      && (forall i :: 0 <= i < n ==> stamp[i] < now)
      && (forall i, j :: 0 <= i < j < n ==> stamp[order[i]] > stamp[order[j]])
    }

    /** binit */
    constructor (nbuf: nat)
      ensures Valid() && n == nbuf && fresh(buf) && fresh(next) && fresh(prev)
      ensures forall i :: 0 <= i < n ==> buf[i] == Buf(0, 0, false, 0)
    {
      n := nbuf;
      buf := new Buf[nbuf](_ => Buf(0, 0, false, 0));
      next := new nat[nbuf + 1](_ => nbuf);
      prev := new nat[nbuf + 1](_ => nbuf);
      order, now, stamp := [], 1, seq(nbuf, _ => 0);
      new;
      prev[n] := n;
      next[n] := n;
      LinkAll();
    }

    /** The loop of binit. */
    method LinkAll()
      requires buf.Length == n && next.Length == prev.Length == n + 1 && next != prev
      requires order == [] && Linked(next[..], prev[..], [], n)
      requires |stamp| == n && forall i :: 0 <= i < n ==> stamp[i] < now
      requires forall i :: 0 <= i < n ==> buf[i].dev == 0
      modifies next, prev, this`order, this`stamp, this`now
      ensures Valid()
    {
      var b := 0;
      while b < n
        invariant 0 <= b <= n && next.Length == prev.Length == n + 1 && next != prev
        invariant |order| == b && Distinct(order) && forall k :: 0 <= k < b ==> order[k] < b
        invariant Linked(next[..], prev[..], order, n)
        invariant |stamp| == n && forall i :: 0 <= i < n ==> stamp[i] < now
        invariant forall i, j :: 0 <= i < j < b ==> stamp[order[i]] > stamp[order[j]]
      {
        InsertAfterHead(b, order);
        order, stamp, now := [b] + order, stamp[b := now], now + 1;
        b := b + 1;
      }
    }

    /** Links buffer `b` in right after the head. */
    method InsertAfterHead(b: nat, ghost rest: seq<nat>)
      requires next.Length == prev.Length == n + 1 && next != prev
      requires Linked(next[..], prev[..], rest, n) && Distinct(rest) && b < n && b !in rest
      modifies next, prev
      ensures Linked(next[..], prev[..], [b] + rest, n)
    {
      PushRing(next[..], prev[..], rest, n, b);
      ghost var next', prev' := next[..][b := next[n]][n := b], prev[..][b := n][next[n] := b];
      next[b] := next[n];
      prev[b] := n;
      prev[next[n]] := b;
      next[n] := b;
      assert next[..] == next' && prev[..] == prev';
    }

    /** Takes buffer `b`, at position `k`, out of the ring. */
    method Detach(b: nat, ghost k: nat)
      requires next.Length == prev.Length == n + 1 && next != prev
      requires Linked(next[..], prev[..], order, n) && Distinct(order) && k < |order| && order[k] == b
      modifies next, prev
      ensures Linked(next[..], prev[..], order[..k] + order[k + 1..], n)
    {
      UnlinkRing(next[..], prev[..], order, n, k);
      ghost var next', prev' := next[..][prev[b] := next[b]], prev[..][next[b] := prev[b]];
      prev[next[b]] := prev[b];
      next[prev[b]] := next[b];
      assert next[..] == next' && prev[..] == prev';
    }

    /** The first loop of bget: the buffer that holds the block, or -1. */
    method Lookup(dev: nat, blockno: nat) returns (b: int)
      requires Valid()
      ensures -1 <= b < n
      ensures b >= 0 ==> Holds(buf[b], dev, blockno)
      ensures b == -1 ==> forall i :: 0 <= i < n ==> !Holds(buf[i], dev, blockno)
    {
      var p := next[n];
      ghost var k := 0;
      assert At(order, n, -1) == n;
      while p != n
        invariant 0 <= k <= n && p == At(order, n, k)
        invariant forall j :: 0 <= j < k ==> !Holds(buf[order[j]], dev, blockno)
        decreases n - k
      {
        assert p == order[k];
        if buf[p].dev == dev && buf[p].blockno == blockno {
          return p;
        }
        p := next[p];
        k := k + 1;
      }
      forall i | 0 <= i < n
        ensures !Holds(buf[i], dev, blockno)
      {
        var j := Position(order, n, i);
      }
      return -1;
    }

    /** The free buffer closest to the end of the ring is the one released longest ago. */
    lemma OldestFree(k: nat)
      requires Valid() && k < n && forall j :: k < j < n ==> buf[order[j]].refcnt > 0
      ensures forall i :: 0 <= i < n && buf[i].refcnt == 0 ==> stamp[order[k]] <= stamp[i]
    {
      forall i | 0 <= i < n && buf[i].refcnt == 0
        ensures stamp[order[k]] <= stamp[i]
      {
        var j := Position(order, n, i);
      }
    }

    /** The second loop of bget: the unreferenced buffer released longest ago, or -1. */
    method Victim() returns (b: int)
      requires Valid()
      ensures -1 <= b < n
      ensures b >= 0 ==> buf[b].refcnt == 0 && forall i :: 0 <= i < n && buf[i].refcnt == 0 ==> stamp[b] <= stamp[i]
      ensures b == -1 ==> forall i :: 0 <= i < n ==> buf[i].refcnt > 0
    {
      hide Distinct;
      assert At(order, n, (n - 1) + 1) == n;
      var p := prev[n];
      ghost var k := n - 1;
      while p != n
        invariant -1 <= k < n && p == At(order, n, k)
        invariant forall j :: k < j < n ==> buf[order[j]].refcnt > 0
        decreases k
      {
        assert p == order[k];
        if buf[p].refcnt == 0 {
          OldestFree(k);
          return p;
        }
        assert prev[At(order, n, (k - 1) + 1)] == At(order, n, k - 1);
        p := prev[p];
        k := k - 1;
      }
      forall i | 0 <= i < n
        ensures buf[i].refcnt > 0
      {
        var j := Position(order, n, i);
      }
      return -1;
    }

    /** bget: a cached block gains a reference; otherwise the least recently released unreferenced
        buffer is given to it, invalid and with one reference; -1 stands for the panic. */
    method Bget(dev: nat, blockno: nat) returns (b: int)
      requires Valid()
      modifies buf
      ensures Valid() && -1 <= b < n
      ensures b == -1 ==>
        && buf[..] == old(buf[..])
        && (forall i :: 0 <= i < n ==> !Holds(buf[i], dev, blockno) && buf[i].refcnt > 0)
      ensures b >= 0 ==> Holds(buf[b], dev, blockno) && buf[b].refcnt > 0
      ensures b >= 0 && old(Holds(buf[b], dev, blockno)) ==>
        buf[..] == old(buf[..])[b := old(buf[b]).(refcnt := old(buf[b].refcnt) + 1)]
      ensures b >= 0 && !old(Holds(buf[b], dev, blockno)) ==>
        && (forall i :: 0 <= i < n ==> !old(Holds(buf[i], dev, blockno)))
        && old(buf[b].refcnt) == 0
        && (forall i :: 0 <= i < n && old(buf[i].refcnt) == 0 ==> stamp[b] <= stamp[i])
        && buf[..] == old(buf[..])[b := Buf(dev, blockno, false, 1)]
    {
      b := Lookup(dev, blockno);
      if b >= 0 {
        buf[b] := buf[b].(refcnt := buf[b].refcnt + 1);
        return;
      }
      b := Victim();
      if b >= 0 {
        buf[b] := buf[b].(dev := dev);
        buf[b] := buf[b].(blockno := blockno);
        buf[b] := buf[b].(valid := false);
        buf[b] := buf[b].(refcnt := 1);
      }
    }

    /** brelse, after the sleep lock is released: the last reference moves the buffer to the front. */
    method Brelse(b: nat)
      requires Valid() && b < n && buf[b].refcnt > 0
      modifies this, buf, next, prev
      ensures Valid()
      ensures buf[..] == old(buf[..])[b := old(buf[b]).(refcnt := old(buf[b].refcnt) - 1)]
      ensures order == if old(buf[b].refcnt) == 1 then [b] + Without(old(order), b) else old(order)
      ensures old(buf[b].refcnt) == 1 ==> stamp == old(stamp)[b := old(now)] && now == old(now) + 1
      ensures old(buf[b].refcnt) > 1 ==> stamp == old(stamp) && now == old(now)
    {
      buf[b] := buf[b].(refcnt := buf[b].refcnt - 1);
      if buf[b].refcnt == 0 {
        MoveToFront(b);
      }
    }

    method MoveToFront(b: nat)
      requires Valid() && b < n
      modifies this, next, prev
      ensures Valid() && order == [b] + Without(old(order), b)
      ensures stamp == old(stamp)[b := old(now)] && now == old(now) + 1
    {
      ghost var k := Position(order, n, b);
      WithoutAt(order, k);
      RestOfOrder(order, stamp, k);
      ghost var rest := order[..k] + order[k + 1..];
      Detach(b, k);
      InsertAfterHead(b, rest);
      order, stamp, now := [b] + rest, stamp[b := now], now + 1;
    }

    method Bpin(b: nat)
      requires Valid() && b < n
      modifies buf
      ensures Valid() && buf[..] == old(buf[..])[b := old(buf[b]).(refcnt := old(buf[b].refcnt) + 1)]
    {
      buf[b] := buf[b].(refcnt := buf[b].refcnt + 1);
    }

    method Bunpin(b: nat)
      requires Valid() && b < n && buf[b].refcnt > 0
      modifies buf
      ensures Valid() && buf[..] == old(buf[..])[b := old(buf[b]).(refcnt := old(buf[b].refcnt) - 1)]
    {
      buf[b] := buf[b].(refcnt := buf[b].refcnt - 1);
    }
  }

  // ---------- a list of n distinct numbers below n misses none ----------

  function Elems(order: seq<nat>): set<nat> { set x | x in order }

  lemma {:induction false} Position(order: seq<nat>, n: nat, i: nat) returns (k: nat)
    requires Permutation(order, n) && i < n
    ensures k < n && order[k] == i
  {
    if i in order {
      k :| k < n && order[k] == i;
    } else {
      Image(order);
      SubsetSize(Elems(order), Range(0, n) - {i});
      assert false;
    }
  }

  lemma {:induction false} Image(order: seq<nat>)
    requires Distinct(order)
    ensures |Elems(order)| == |order|
  {
    if order == [] {
      assert Elems(order) == {};
    } else {
      var m := |order| - 1;
      var front := order[..m];
      Image(front);
      assert order == front + [order[m]];
      assert order[m] !in front;
      assert Elems(order) == Elems(front) + {order[m]};
    }
  }

  /** Taking one buffer out keeps the rest distinct and in order of release. */
  lemma RestOfOrder(order: seq<nat>, stamp: seq<nat>, k: nat)
    requires Permutation(order, |stamp|) && k < |order|
    requires forall i, j :: 0 <= i < j < |order| ==> stamp[order[i]] > stamp[order[j]]
    ensures var rest := order[..k] + order[k + 1..];
      && Distinct(rest) && order[k] !in rest && |rest| == |order| - 1
      && (forall i :: 0 <= i < |rest| ==> rest[i] < |stamp|)
      && (forall i, j :: 0 <= i < j < |rest| ==> stamp[rest[i]] > stamp[rest[j]])
  {
    var rest := order[..k] + order[k + 1..];
    assert forall i :: 0 <= i < |rest| ==> rest[i] == order[if i < k then i else i + 1];
  }
}

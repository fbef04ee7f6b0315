/** kalloc.c and vm.c as code over physical pages: the free list, the walk, mapping and unmapping, growing,
    copying and freeing an address space, and the copies between kernel and user memory. */
module VmCode {
  import opened PageTable
  import opened TableCount
  import opened Teardown
  import opened Util

  function PagesUp(n: nat): nat { (n + PGSIZE - 1) / PGSIZE }       // PGROUNDUP, in pages

  /** Only tables were added: the code at hand and every address space keep their pages, and no page moved
      but from the free list to a table. */
  ghost predicate Grew(pages: seq<Page>, kind: seq<Kind>, pages': seq<Page>, kind': seq<Kind>) {
    && |pages'| == |kind'| == |kind| == |pages|
    && (forall p :: 0 <= p < |kind| && !kind[p].Free? ==> kind'[p] == kind[p])
    && (forall p :: 0 <= p < |kind| && !kind[p].Free? && !kind[p].Tab? ==> pages'[p] == pages[p])
    && (forall p :: 0 <= p < |kind| && kind[p].Free? ==> kind'[p].Free? || kind'[p].Tab?)
  }

  lemma GrewTrans(p0: seq<Page>, k0: seq<Kind>, p1: seq<Page>, k1: seq<Kind>, p2: seq<Page>, k2: seq<Kind>)
    requires Grew(p0, k0, p1, k1) && Grew(p1, k1, p2, k2)
    ensures Grew(p0, k0, p2, k2)
  {
  }

  lemma GrewSelf(p0: seq<Page>, k0: seq<Kind>)
    requires |p0| == |k0|
    ensures Grew(p0, k0, p0, k0) && SameMap(k0, p0, p0)
  {
  }

  lemma SameTrans(k0: seq<Kind>, p0: seq<Page>, k1: seq<Kind>, p1: seq<Page>, p2: seq<Page>)
    requires SameMap(k0, p0, p1) && SameMap(k1, p1, p2) && Grew(p0, k0, p1, k1)
    ensures SameMap(k0, p0, p2)
  {
    forall r, v | Root(k0, r) && 0 <= v < NVPN
      ensures Translate(p2, r, v) == Translate(p0, r, v)
    {
      assert Root(k1, r);
      assert Translate(p1, r, v) == Translate(p0, r, v);
    }
  }

  /** Pages below `first` hold the kernel and are never given out. */
  ghost predicate Bounded(kind: seq<Kind>, first: nat) {
    0 < first && forall p :: 0 <= p < |kind| ==> (kind[p].Outside? <==> p < first)
  }

  ghost predicate Same(p0: seq<Page>, k0: seq<Kind>, f0: seq<nat>, p1: seq<Page>, k1: seq<Kind>, f1: seq<nat>) {
    p1 == p0 && k1 == k0 && f1 == f0
  }

  /** Like Grew, except that pages lo..hi changed owner; their contents stay. */
  ghost predicate KeptBut(pages: seq<Page>, kind: seq<Kind>, pages': seq<Page>, kind': seq<Kind>, lo: nat, hi: nat) {
    && |pages'| == |kind'| == |kind| == |pages|
    && (forall p :: 0 <= p < |kind| && !kind[p].Free? && !(lo <= p < hi) ==> kind'[p] == kind[p])
    && (forall p :: 0 <= p < |kind| && !kind[p].Free? && !kind[p].Tab? ==> pages'[p] == pages[p])
    && (forall p :: 0 <= p < |kind| && kind[p].Free? ==> kind'[p].Free? || kind'[p].Tab?)
    && (forall p :: 0 <= p < |kind| && !kind[p].Free? && lo <= p < hi ==>
         kind'[p] == kind[p] || (kind[p].Held? && kind'[p].Leaf?))
  }

  /** Virtual pages v..hi map to the physical pages from pa on. */
  ghost predicate MapRun(pages: seq<Page>, root: nat, v: nat, hi: nat, pa: nat, perm: Perm) {
    forall x :: v <= x < hi ==> Translate(pages, root, x) == Pte(true, pa + (x - v), perm)
  }

  /** No virtual page in lo..hi is mapped. */
  ghost predicate NoRun(pages: seq<Page>, root: nat, lo: nat, hi: nat) {
    forall x :: lo <= x < hi ==> !Translate(pages, root, x).valid
  }

  /** The pages from pa on, as far as they are to become user pages from v on, are in the caller's hands. */
  ghost predicate HeldRun(kind: seq<Kind>, pa: nat, v: nat, n: nat) {
    && (n > 0 && v < USERTOP ==> pa + Min(n, USERTOP - v) <= |kind|)
    && forall p :: pa <= p < pa + n && p - pa + v < USERTOP ==> kind[p].Held?
  }

  /** The pages from pa on belong to the user pages of root from v on. */
  ghost predicate LeafRun(kind: seq<Kind>, root: nat, pa: nat, v: nat, n: nat) {
    && (n > 0 && v < USERTOP ==> pa + Min(n, USERTOP - v) <= |kind|)
    && forall p :: pa <= p < pa + n && p - pa + v < USERTOP ==>
                     kind[p].Leaf? && kind[p].root == root && kind[p].vpn == p - pa + v
  }

  predicate IsLeaf(kind: seq<Kind>, p: nat, root: nat, v: nat) {
    p < |kind| && kind[p].Leaf? && kind[p].root == root && kind[p].vpn == v
  }

  lemma KeptSelf(p0: seq<Page>, k0: seq<Kind>, root: nat, v: nat, pa: nat)
    requires |p0| == |k0|
    ensures KeptBut(p0, k0, p0, k0, pa, pa) && SameMapBut(k0, p0, p0, root, v, v)
  {
  }

  lemma NoStep(p0: seq<Page>, k0: seq<Kind>, p1: seq<Page>, k1: seq<Kind>, p2: seq<Page>, k2: seq<Kind>,
               root: nat, v: nat, a: nat, lo: nat, hi: nat)
    requires KeptBut(p0, k0, p1, k1, lo, hi) && SameMapBut(k0, p0, p1, root, v, a)
    requires Grew(p1, k1, p2, k2) && SameMap(k1, p1, p2) && Root(k0, root)
    ensures KeptBut(p0, k0, p2, k2, lo, hi) && SameMapBut(k0, p0, p2, root, v, a)
  {
    forall r, w | Root(k0, r) && 0 <= w < NVPN && !(r == root && v <= w < a)
      ensures Translate(p2, r, w) == Translate(p0, r, w)
    {
      assert Root(k1, r);
      assert Translate(p1, r, w) == Translate(p0, r, w);
    }
  }

  /** One page of mappages on top of the pages before it. */
  lemma MapStep(p0: seq<Page>, k0: seq<Kind>, p1: seq<Page>, k1: seq<Kind>, p2: seq<Page>, k2: seq<Kind>,
                p3: seq<Page>, k3: seq<Kind>, root: nat, v: nat, a: nat, lo: nat, q: nat, t: nat)
    requires KeptBut(p0, k0, p1, k1, lo, q) && SameMapBut(k0, p0, p1, root, v, a) && v <= a < NVPN && lo <= q
    requires Grew(p1, k1, p2, k2) && SameMap(k1, p1, p2) && Root(k0, root)
    requires SameMapBut(k2, p2, p3, root, a, a + 1) && |p3| == |p2| == |k2|
    requires a < USERTOP ==> q < |k1| && k1[q].Held?
    requires k3 == if a < USERTOP then k2[q := Leaf(root, a, t)] else k2
    requires t < |k2| && k2[t].Tab? && forall p :: 0 <= p < |k2| && p != t ==> p3[p] == p2[p]
    ensures KeptBut(p0, k0, p3, k3, lo, q + 1) && SameMapBut(k0, p0, p3, root, v, a + 1) && Root(k3, root)
    ensures forall x :: 0 <= x < NVPN && x != a ==> Translate(p3, root, x) == Translate(p1, root, x)
    ensures forall p :: 0 <= p < |k1| && !k1[p].Free? && p != q ==> k3[p] == k1[p]
  {
    NoStep(p0, k0, p1, k1, p2, k2, root, v, a, lo, q);
    assert Root(k1, root) && Root(k2, root);
    forall r, w | Root(k0, r) && 0 <= w < NVPN && !(r == root && v <= w < a + 1)
      ensures Translate(p3, r, w) == Translate(p0, r, w)
    {
      assert Root(k1, r) && Root(k2, r);
      assert Translate(p2, r, w) == Translate(p0, r, w);
    }
  }

  /** walk disturbs none of the runs mappages has made or has before it. */
  lemma WalkedRuns(p1: seq<Page>, k1: seq<Kind>, p2: seq<Page>, k2: seq<Kind>, root: nat, v: nat, a: nat, n: nat,
                   pa: nat, done: nat, perm: Perm)
    requires Grew(p1, k1, p2, k2) && SameMap(k1, p1, p2) && Root(k1, root) && v <= a < v + n <= NVPN && done == a - v
    requires MapRun(p1, root, v, a, pa, perm)
    requires LeafRun(k1, root, pa, v, done) && HeldRun(k1, pa + done, a, n - done)
    ensures |k2| == |k1| && Root(k2, root) && (a < USERTOP ==> pa + done < |k2| && k2[pa + done].Held?)
    ensures a < USERTOP ==> pa + done < |k1| && k1[pa + done].Held?
    ensures MapRun(p2, root, v, a, pa, perm) && LeafRun(k2, root, pa, v, done)
  {
    assert a < USERTOP ==> k1[pa + done].Held?;
    forall x | v <= x < a
      ensures Translate(p2, root, x) == Pte(true, pa + (x - v), perm)
    {
      assert Translate(p1, root, x) == Pte(true, pa + (x - v), perm);
    }
  }

  lemma RunsStart(pages: seq<Page>, kind: seq<Kind>, root: nat, v: nat, pa: nat, perm: Perm)
    ensures MapRun(pages, root, v, v, pa, perm) && LeafRun(kind, root, pa, v, 0) && NoRun(pages, root, v, v)
  {
  }

  lemma MapRuns(p1: seq<Page>, k1: seq<Kind>, p3: seq<Page>, k3: seq<Kind>, root: nat, v: nat, a: nat, n: nat, pa: nat,
                done: nat, perm: Perm, t: nat)
    requires v <= a < v + n <= NVPN && done == a - v && |k3| == |k1|
    requires MapRun(p1, root, v, a, pa, perm)
    requires LeafRun(k1, root, pa, v, done) && HeldRun(k1, pa + done, a, n - done)
    requires forall x :: 0 <= x < NVPN && x != a ==> Translate(p3, root, x) == Translate(p1, root, x)
    requires forall p :: 0 <= p < |k1| && !k1[p].Free? && p != pa + done ==> k3[p] == k1[p]
    requires Translate(p3, root, a) == Pte(true, pa + done, perm)
    requires a < USERTOP ==> pa + done < |k3| && k3[pa + done] == Leaf(root, a, t)
    ensures MapRun(p3, root, v, a + 1, pa, perm)
    ensures LeafRun(k3, root, pa, v, done + 1) && HeldRun(k3, pa + done + 1, a + 1, n - done - 1)
  {
    forall x | v <= x < a + 1
      ensures Translate(p3, root, x) == Pte(true, pa + (x - v), perm)
    {
      assert x < a ==> Translate(p1, root, x) == Pte(true, pa + (x - v), perm);
    }
  }

  /** The next entry is as mappages found it; where it is empty the run of empty pages grows. */
  lemma EntryFound(k0: seq<Kind>, p0: seq<Page>, p1: seq<Page>, root: nat, v: nat, a: nat)
    requires SameMapBut(k0, p0, p1, root, v, a) && Root(k0, root) && v <= a < NVPN && NoRun(p0, root, v, a)
    ensures Translate(p1, root, a) == Translate(p0, root, a)
    ensures !Translate(p0, root, a).valid ==> NoRun(p0, root, v, a + 1)
  {
  }

  /** A page registered as user page lo..hi of root. */
  predicate InRange(k: Kind, root: nat, lo: nat, hi: nat) { k.Leaf? && k.root == root && lo <= k.vpn < hi }

  /** Exactly the user pages lo..hi of root have passed to `to`; everything else kept owner and contents. */
  ghost predicate Released(pages: seq<Page>, kind: seq<Kind>, pages': seq<Page>, kind': seq<Kind>, root: nat, lo: nat,
                           hi: nat, to: Kind)
  {
    && |pages'| == |kind'| == |kind| == |pages|
    && (forall p :: 0 <= p < |kind| ==> kind'[p] == if InRange(kind[p], root, lo, hi) then to else kind[p])
    && (forall p :: 0 <= p < |kind| && !InRange(kind[p], root, lo, hi) && !kind[p].Tab? ==> pages'[p] == pages[p])
  }

  lemma ReleasedStart(p0: seq<Page>, k0: seq<Kind>, root: nat, v: nat, to: Kind)
    requires |p0| == |k0|
    ensures Released(p0, k0, p0, k0, root, v, v, to) && SameMapBut(k0, p0, p0, root, v, v) && NoRun(p0, root, v, v)
  {
  }

  /** uvmunmap passing over a virtual page that is not mapped. */
  lemma ReleaseSkip(p0: seq<Page>, k0: seq<Kind>, p1: seq<Page>, k1: seq<Kind>, root: nat, v: nat, a: nat, to: Kind)
    requires Released(p0, k0, p1, k1, root, v, a, to) && SameMapBut(k0, p0, p1, root, v, a) && NoRun(p1, root, v, a)
    requires Good(p0, k0) && Root(k0, root) && v <= a < NVPN && !Translate(p1, root, a).valid
    ensures Released(p0, k0, p1, k1, root, v, a + 1, to) && SameMapBut(k0, p0, p1, root, v, a + 1)
            && NoRun(p1, root, v, a + 1)
  {
    forall p | 0 <= p < |k0|
      ensures InRange(k0[p], root, v, a + 1) == InRange(k0[p], root, v, a)
    {
      if k0[p].Leaf? {
        LeafMapped(p0, k0, p);
        assert Translate(p1, root, a) == Translate(p0, root, a);
      }
    }
  }

  /** uvmunmap clearing the entry of virtual page a, which named page q. */
  lemma ReleaseStep(p0: seq<Page>, k0: seq<Kind>, p1: seq<Page>, k1: seq<Kind>, p2: seq<Page>, k2: seq<Kind>,
                    root: nat, v: nat, a: nat, to: Kind, q: nat, t: nat)
    requires Released(p0, k0, p1, k1, root, v, a, to) && SameMapBut(k0, p0, p1, root, v, a) && NoRun(p1, root, v, a)
    requires Good(p1, k1) && Root(k0, root) && v <= a < NVPN && !to.Leaf? && !to.Tab?
    requires SameMapBut(k1, p1, p2, root, a, a + 1) && Translate(p2, root, a) == NOPTE
    requires t < |k1| && k1[t].Tab? && |p2| == |p1| && forall p :: 0 <= p < |p1| && p != t && p != q ==> p2[p] == p1[p]
    requires a < USERTOP ==> q < |k1| && IsLeaf(k1, q, root, a)
    requires a >= USERTOP && q < |p2| && q != t ==> p2[q] == p1[q]
    requires k2 == if a < USERTOP then k1[q := to] else k1
    ensures Released(p0, k0, p2, k2, root, v, a + 1, to) && SameMapBut(k0, p0, p2, root, v, a + 1)
            && NoRun(p2, root, v, a + 1)
    ensures Root(k2, root)
  {
    hide Good;
    assert Root(k1, root);
    OnlyPageOf(p1, k1, root, a, q);
    ReleaseKinds(p0, k0, p1, k1, p2, k2, root, v, a, to, q, t);
    forall r, w | Root(k0, r) && 0 <= w < NVPN && !(r == root && v <= w < a + 1)
      ensures Translate(p2, r, w) == Translate(p0, r, w)
    {
      assert Root(k1, r);
      assert Translate(p1, r, w) == Translate(p0, r, w);
    }
    forall x | v <= x < a + 1
      ensures !Translate(p2, root, x).valid
    {
      assert x < a ==> !Translate(p1, root, x).valid;
      assert x < a ==> Translate(p2, root, x) == Translate(p1, root, x);
    }
  }

  lemma OnlyPageOf(pages: seq<Page>, kind: seq<Kind>, root: nat, a: nat, q: nat)
    requires Good(pages, kind) && (a < USERTOP ==> q < |kind| && IsLeaf(kind, q, root, a))
    ensures forall p :: 0 <= p < |kind| && InRange(kind[p], root, a, a + 1) ==> p == q && a < USERTOP
  {
    forall p | 0 <= p < |kind| && InRange(kind[p], root, a, a + 1)
      ensures p == q && a < USERTOP
    {
      LeafMapped(pages, kind, p);
      LeafMapped(pages, kind, q);
    }
  }

  lemma ReleaseKinds(p0: seq<Page>, k0: seq<Kind>, p1: seq<Page>, k1: seq<Kind>, p2: seq<Page>, k2: seq<Kind>,
                     root: nat, v: nat, a: nat, to: Kind, q: nat, t: nat)
    requires Released(p0, k0, p1, k1, root, v, a, to) && v <= a && !to.Leaf? && !to.Tab?
    requires forall p :: 0 <= p < |k1| && InRange(k1[p], root, a, a + 1) ==> p == q && a < USERTOP
    requires t < |k1| && k1[t].Tab? && |p2| == |p1| && forall p :: 0 <= p < |p1| && p != t && p != q ==> p2[p] == p1[p]
    requires a < USERTOP ==> q < |k1| && IsLeaf(k1, q, root, a)
    requires a >= USERTOP && q < |p2| && q != t ==> p2[q] == p1[q]
    requires k2 == if a < USERTOP then k1[q := to] else k1
    ensures Released(p0, k0, p2, k2, root, v, a + 1, to)
  {
    forall p | 0 <= p < |k0|
      ensures k2[p] == if InRange(k0[p], root, v, a + 1) then to else k0[p]
      ensures !InRange(k0[p], root, v, a + 1) && !k0[p].Tab? ==> p2[p] == p0[p]
    {
      assert InRange(k0[p], root, a, a + 1) ==> k1[p] == k0[p];
      assert a < USERTOP && p == q ==> InRange(k0[p], root, a, a + 1);
    }
  }

  /** Like Grew, except that free pages may also have become user pages lo..hi of root. */
  ghost predicate GrewTo(pages: seq<Page>, kind: seq<Kind>, pages': seq<Page>, kind': seq<Kind>, root: nat, lo: nat,
                         hi: nat) {
    && |pages'| == |kind'| == |kind| == |pages|
    && (forall p :: 0 <= p < |kind| && !kind[p].Free? ==> kind'[p] == kind[p])
    && (forall p :: 0 <= p < |kind| && !kind[p].Free? && !kind[p].Tab? ==> pages'[p] == pages[p])
    && (forall p :: 0 <= p < |kind| && kind[p].Free? ==>
         kind'[p].Free? || kind'[p].Tab? || InRange(kind'[p], root, lo, hi))
  }

  lemma GrewToTrans(p0: seq<Page>, k0: seq<Kind>, p1: seq<Page>, k1: seq<Kind>, p2: seq<Page>, k2: seq<Kind>,
                    root: nat, lo: nat, mid: nat, hi: nat)
    requires GrewTo(p0, k0, p1, k1, root, lo, mid) && GrewTo(p1, k1, p2, k2, root, mid, hi) && lo <= mid <= hi
    ensures GrewTo(p0, k0, p2, k2, root, lo, hi)
  {
  }

  lemma ButTrans(p0: seq<Page>, k0: seq<Kind>, p1: seq<Page>, k1: seq<Kind>, p2: seq<Page>, root: nat, lo: nat,
                 mid: nat, hi: nat)
    requires SameMapBut(k0, p0, p1, root, lo, mid) && SameMapBut(k1, p1, p2, root, mid, hi) && lo <= mid <= hi
    requires GrewTo(p0, k0, p1, k1, root, lo, mid)
    ensures SameMapBut(k0, p0, p2, root, lo, hi)
  {
    forall r, w | Root(k0, r) && 0 <= w < NVPN && !(r == root && lo <= w < hi)
      ensures Translate(p2, r, w) == Translate(p0, r, w)
    {
      assert Root(k1, r);
      assert Translate(p1, r, w) == Translate(p0, r, w);
    }
  }

  /** kalloc, filling and mapping one page, taken together. */
  lemma PageAdded(p0: seq<Page>, k0: seq<Kind>, p1: seq<Page>, k1: seq<Kind>, p2: seq<Page>, k2: seq<Kind>, q: nat,
                  root: nat, v: nat)
    requires |p0| == |k0| == |p1| && q < |k0| && k0[q].Free? && k1 == k0[q := Held]
    requires (forall p :: 0 <= p < |k0| && p != q ==> p1[p] == p0[p]) && SameMap(k0, p0, p1)
    requires KeptBut(p1, k1, p2, k2, q, q + 1) && SameMapBut(k1, p1, p2, root, v, v + 1) && LeafRun(k2, root, q, v, 1)
    requires v < USERTOP
    ensures GrewTo(p0, k0, p2, k2, root, v, v + 1) && SameMapBut(k0, p0, p2, root, v, v + 1)
    ensures IsLeaf(k2, q, root, v) && p2[q] == p1[q]
  {
    assert k2[q].Leaf? && k2[q].root == root && k2[q].vpn == v;
    forall r, w | Root(k0, r) && 0 <= w < NVPN && !(r == root && v <= w < v + 1)
      ensures Translate(p2, r, w) == Translate(p0, r, w)
    {
      assert Root(k1, r);
      assert Translate(p1, r, w) == Translate(p0, r, w);
    }
  }

  /** The same when there was no memory for a table and the page went back. */
  lemma PageReturned(p0: seq<Page>, k0: seq<Kind>, p1: seq<Page>, k1: seq<Kind>, p2: seq<Page>, k2: seq<Kind>,
                     p3: seq<Page>, k3: seq<Kind>, q: nat, root: nat, v: nat)
    requires |p0| == |k0| == |p1| && q < |k0| && k0[q].Free? && k1 == k0[q := Held]
    requires (forall p :: 0 <= p < |k0| && p != q ==> p1[p] == p0[p]) && SameMap(k0, p0, p1)
    requires KeptBut(p1, k1, p2, k2, q, q) && SameMapBut(k1, p1, p2, root, v, v)
    requires |p3| == |p2| && k3 == k2[q := Free] && (forall p :: 0 <= p < |p2| && p != q ==> p3[p] == p2[p])
             && SameMap(k2, p2, p3)
    ensures Grew(p0, k0, p3, k3) && SameMap(k0, p0, p3)
  {
    forall r, w | Root(k0, r) && 0 <= w < NVPN
      ensures Translate(p3, r, w) == Translate(p0, r, w)
    {
      assert Root(k1, r) && Root(k2, r);
      assert Translate(p2, r, w) == Translate(p1, r, w);
      assert Translate(p1, r, w) == Translate(p0, r, w);
    }
  }

  lemma FilledPage(p0: seq<Page>, k0: seq<Kind>, p1: seq<Page>, p2: seq<Page>, q: nat)
    requires |p0| == |k0| && q < |k0| && k0[q].Free? && SameMap(k0, p0, p1) && SameMap(k0[q := Held], p1, p2)
    ensures SameMap(k0, p0, p2)
    ensures forall r :: Root(k0, r) ==> Root(k0[q := Held], r)
  {
    forall r, w | Root(k0, r) && 0 <= w < NVPN
      ensures Translate(p2, r, w) == Translate(p0, r, w)
    {
      assert Root(k0[q := Held], r);
      assert Translate(p1, r, w) == Translate(p0, r, w);
    }
  }

  /** Virtual pages lo..hi are mapped with this permission to pages of zeros. */
  ghost predicate ZeroRun(pages: seq<Page>, root: nat, lo: nat, hi: nat, perm: Perm) {
    forall x :: lo <= x < hi ==> IsPage(pages, Translate(pages, root, x), perm, Filled(0))
  }

  predicate IsPage(pages: seq<Page>, e: Pte, perm: Perm, bytes: Bytes) {
    e.valid && e.perm == perm && e.pa < |pages| && pages[e.pa] == Data(bytes)
  }

  lemma ZeroStart(p0: seq<Page>, k0: seq<Kind>, root: nat, lo: nat, perm: Perm)
    requires |p0| == |k0|
    ensures ZeroRun(p0, root, lo, lo, perm) && GrewTo(p0, k0, p0, k0, root, lo, lo)
            && SameMapBut(k0, p0, p0, root, lo, lo)
  {
  }

  /** User memory survives everything that only takes free pages. */
  lemma PageSurvives(p0: seq<Page>, k0: seq<Kind>, p1: seq<Page>, k1: seq<Kind>, root: nat, lo: nat, hi: nat, r: nat,
                     x: nat)
    requires Good(p0, k0) && GrewTo(p0, k0, p1, k1, root, lo, hi) && SameMapBut(k0, p0, p1, root, lo, hi)
    requires Root(k0, r) && x < USERTOP && !(r == root && lo <= x < hi)
    ensures Translate(p1, r, x) == Translate(p0, r, x)
    ensures Translate(p0, r, x).valid ==> Translate(p0, r, x).pa < |p0| == |p1|
                                          && p0[Translate(p0, r, x).pa].Data?
                                          && p1[Translate(p0, r, x).pa] == p0[Translate(p0, r, x).pa]
  {
    Path(p0, k0, r, x);
    if Translate(p0, r, x).valid {
      var p := Translate(p0, r, x).pa;
      assert PageOk(p0[p], k0[p], p);
    }
  }

  /** One more page of uvmalloc. */
  lemma ZeroStep(p0: seq<Page>, k0: seq<Kind>, p1: seq<Page>, k1: seq<Kind>, p2: seq<Page>, k2: seq<Kind>,
                 root: nat, lo: nat, a: nat, hi: nat, perm: Perm, q: nat)
    requires Good(p1, k1) && Root(k0, root) && lo <= a < hi <= USERTOP
    requires GrewTo(p0, k0, p1, k1, root, lo, a) && SameMapBut(k0, p0, p1, root, lo, a)
    requires GrewTo(p1, k1, p2, k2, root, a, a + 1) && SameMapBut(k1, p1, p2, root, a, a + 1)
    requires ZeroRun(p1, root, lo, a, perm) && NoRun(p1, root, a, hi)
             && IsPage(p2, Translate(p2, root, a), perm, Filled(0))
    ensures GrewTo(p0, k0, p2, k2, root, lo, a + 1) && SameMapBut(k0, p0, p2, root, lo, a + 1)
    ensures ZeroRun(p2, root, lo, a + 1, perm) && NoRun(p2, root, a + 1, hi) && Root(k2, root)
  {
    hide Good;
    GrewToTrans(p0, k0, p1, k1, p2, k2, root, lo, a, a + 1);
    ButTrans(p0, k0, p1, k1, p2, root, lo, a, a + 1);
    RootKeptTo(p0, k0, p1, k1, root, lo, a);
    RootKeptTo(p1, k1, p2, k2, root, a, a + 1);
    forall x | lo <= x < a + 1
      ensures IsPage(p2, Translate(p2, root, x), perm, Filled(0))
    {
      if x < a {
        PageSurvives(p1, k1, p2, k2, root, a, a + 1, root, x);
        assert IsPage(p1, Translate(p1, root, x), perm, Filled(0));
      }
    }
    forall x | a + 1 <= x < hi
      ensures !Translate(p2, root, x).valid
    {
      PageSurvives(p1, k1, p2, k2, root, a, a + 1, root, x);
      assert !Translate(p1, root, x).valid;
    }
  }

  /** Undoing what was mapped on the way leaves every translation and every owner as it was. */
  lemma RolledBack(p0: seq<Page>, k0: seq<Kind>, p1: seq<Page>, k1: seq<Kind>, p2: seq<Page>, k2: seq<Kind>,
                   root: nat, lo: nat, a: nat)
    requires Good(p0, k0) && Good(p2, k2) && Root(k0, root) && lo <= a <= USERTOP && NoRun(p0, root, lo, a)
    requires GrewTo(p0, k0, p1, k1, root, lo, a) && SameMapBut(k0, p0, p1, root, lo, a)
    requires Released(p1, k1, p2, k2, root, lo, a, Free) && SameMapBut(k1, p1, p2, root, lo, a)
             && NoRun(p2, root, lo, a)
    ensures Grew(p0, k0, p2, k2) && SameMap(k0, p0, p2) && Root(k2, root)
  {
    forall p | 0 <= p < |k0| && !k0[p].Free?
      ensures !InRange(k0[p], root, lo, a)
    {
      if k0[p].Leaf? {
        LeafMapped(p0, k0, p);
      }
    }
    assert Root(k1, root) && Root(k2, root);
    forall r, w | Root(k0, r) && 0 <= w < NVPN
      ensures Translate(p2, r, w) == Translate(p0, r, w)
    {
      assert Root(k1, r) && Root(k2, r);
      if r == root && lo <= w < a {
        Path(p0, k0, r, w);
        Path(p2, k2, r, w);
      } else {
        assert Translate(p1, r, w) == Translate(p0, r, w);
      }
    }
  }

  // ---------- logical memory ----------

  /** The user byte at address x of an address space; a page not yet allocated reads as zeros. */
  function Byte(pages: seq<Page>, root: nat, x: nat): byte {
    var e := Translate(pages, root, x / PGSIZE);
    if e.valid && e.pa < |pages| && pages[e.pa].Data? then pages[e.pa].bytes[x % PGSIZE] else 0
  }

  /** Virtual page x of the two spaces: both absent, or equal contents and permissions on different pages. */
  predicate Copied(pages: seq<Page>, from: nat, to: nat, x: nat) {
    var e, f := Translate(pages, from, x), Translate(pages, to, x);
    && e.valid == f.valid
    && (e.valid ==> f.perm == e.perm && e.pa < |pages| && f.pa < |pages| && e.pa != f.pa && pages[f.pa] == pages[e.pa])
  }

  ghost predicate CopiedRun(pages: seq<Page>, from: nat, to: nat, hi: nat) {
    forall x :: 0 <= x < hi ==> Copied(pages, from, to, x)
  }

  /** uvmcopy moving on after page a, absent in both or just copied to page q. */
  lemma CopyStep(p0: seq<Page>, k0: seq<Kind>, p1: seq<Page>, k1: seq<Kind>, p2: seq<Page>, k2: seq<Kind>,
                 from: nat, to: nat, a: nat, hi: nat)
    requires Good(p0, k0) && Good(p1, k1) && Good(p2, k2) && Root(k0, from) && Root(k0, to) && from != to
             && a < hi <= USERTOP
    requires GrewTo(p0, k0, p1, k1, to, 0, a) && SameMapBut(k0, p0, p1, to, 0, a)
    requires GrewTo(p1, k1, p2, k2, to, a, a + 1) && SameMapBut(k1, p1, p2, to, a, a + 1)
    requires CopiedRun(p1, from, to, a) && NoRun(p1, to, a, hi)
    requires var e, f := Translate(p1, from, a), Translate(p2, to, a);
             e.valid == f.valid && (e.valid ==> f.perm == e.perm && e.pa < |p1| && f.pa < |p2| && p2[f.pa] == p1[e.pa])
    ensures GrewTo(p0, k0, p2, k2, to, 0, a + 1) && SameMapBut(k0, p0, p2, to, 0, a + 1)
    ensures CopiedRun(p2, from, to, a + 1) && NoRun(p2, to, a + 1, hi) && Root(k2, from) && Root(k2, to)
  {
    hide Good;
    GrewToTrans(p0, k0, p1, k1, p2, k2, to, 0, a, a + 1);
    ButTrans(p0, k0, p1, k1, p2, to, 0, a, a + 1);
    RootKeptTo(p0, k0, p1, k1, to, 0, a);
    RootKeptTo(p1, k1, p2, k2, to, a, a + 1);
    forall x | 0 <= x < a + 1
      ensures Copied(p2, from, to, x)
    {
      hide GrewTo, SameMapBut, NoRun;
      PageSurvives(p1, k1, p2, k2, to, a, a + 1, from, x);
      if x < a {
        assert Copied(p1, from, to, x);
        PageSurvives(p1, k1, p2, k2, to, a, a + 1, to, x);
      } else if Translate(p2, to, x).valid && Translate(p2, from, x).valid
                && Translate(p2, to, x).pa == Translate(p2, from, x).pa {
        NoAlias(p2, k2, from, x, to, x);
      }
    }
    forall x | a + 1 <= x < hi
      ensures !Translate(p2, to, x).valid
    {
      PageSurvives(p1, k1, p2, k2, to, a, a + 1, to, x);
      assert !Translate(p1, to, x).valid;
    }
  }

  lemma CopyStart(p0: seq<Page>, k0: seq<Kind>, from: nat, to: nat)
    requires |p0| == |k0|
    ensures GrewTo(p0, k0, p0, k0, to, 0, 0) && SameMapBut(k0, p0, p0, to, 0, 0) && CopiedRun(p0, from, to, 0)
  {
  }

  /** A page that the parent lacks is passed over. */
  lemma CopySkip(p1: seq<Page>, k1: seq<Kind>, to: nat, a: nat)
    requires |p1| == |k1|
    ensures GrewTo(p1, k1, p1, k1, to, a, a + 1) && SameMapBut(k1, p1, p1, to, a, a + 1)
  {
  }

  /** The child of uvmcopy has the parent's logical memory. */
  lemma CopyEqual(pages: seq<Page>, from: nat, to: nat, hi: nat, x: nat)
    requires CopiedRun(pages, from, to, hi) && x < hi * PGSIZE
    ensures Byte(pages, to, x) == Byte(pages, from, x)
  {
    assert Copied(pages, from, to, x / PGSIZE);
  }

  /** User memory of every address space is as before but for `bytes` written at dst in one of them. */
  ghost predicate Wrote(k0: seq<Kind>, p0: seq<Page>, p1: seq<Page>, root: nat, dst: nat, bytes: seq<byte>) {
    forall r, x {:trigger Byte(p1, r, x)} :: Root(k0, r) && 0 <= x < USERTOP * PGSIZE ==>
      Byte(p1, r, x) == if r == root && dst <= x < dst + |bytes| then bytes[x - dst] else Byte(p0, r, x)
  }

  ghost predicate RootsKept(k0: seq<Kind>, k1: seq<Kind>) {
    |k1| == |k0| && forall r :: Root(k0, r) ==> Root(k1, r)
  }

  /** Every page mapped before is mapped as before, in every address space. */
  ghost predicate MapsKept(k0: seq<Kind>, p0: seq<Page>, p1: seq<Page>) {
    forall s, w {:trigger Translate(p1, s, w)} ::
      Root(k0, s) && 0 <= w < NVPN && Translate(p0, s, w).valid ==> Translate(p1, s, w) == Translate(p0, s, w)
  }

  lemma MapsKeptSelf(k0: seq<Kind>, p0: seq<Page>)
    ensures MapsKept(k0, p0, p0)
  {
  }

  lemma MapsKeptSame(k0: seq<Kind>, p0: seq<Page>, p1: seq<Page>)
    requires SameMap(k0, p0, p1)
    ensures MapsKept(k0, p0, p1)
  {
  }

  lemma MapsKeptNew(k0: seq<Kind>, p0: seq<Page>, p1: seq<Page>, root: nat, v: nat)
    requires SameMapBut(k0, p0, p1, root, v, v + 1) && !Translate(p0, root, v).valid
    ensures MapsKept(k0, p0, p1)
  {
  }

  lemma MapsKeptTrans(k0: seq<Kind>, p0: seq<Page>, k1: seq<Kind>, p1: seq<Page>, p2: seq<Page>)
    requires MapsKept(k0, p0, p1) && RootsKept(k0, k1) && MapsKept(k1, p1, p2)
    ensures MapsKept(k0, p0, p2)
  {
    forall s, w | Root(k0, s) && 0 <= w < NVPN && Translate(p0, s, w).valid
      ensures Translate(p2, s, w) == Translate(p0, s, w)
    {
      assert Root(k1, s) && Translate(p1, s, w) == Translate(p0, s, w);
    }
  }

  /** User code may read the byte at address x, or write it. */
  predicate UserByte(pages: seq<Page>, root: nat, x: nat, write: bool) {
    var v := x / PGSIZE;
    v < USERTOP && Translate(pages, root, v).valid && Translate(pages, root, v).perm.u
    && (write ==> Translate(pages, root, v).perm.w)
  }

  predicate UserRange(pages: seq<Page>, root: nat, va: nat, n: nat, write: bool) {
    forall x :: va <= x < va + n ==> UserByte(pages, root, x, write)
  }

  lemma RangeKept(k0: seq<Kind>, p0: seq<Page>, p1: seq<Page>, root: nat, va: nat, n: nat, write: bool)
    requires MapsKept(k0, p0, p1) && Root(k0, root)
    ensures UserRange(p0, root, va, n, write) ==> UserRange(p1, root, va, n, write)
  {
    if UserRange(p0, root, va, n, write) {
      forall x | va <= x < va + n
        ensures UserByte(p1, root, x, write)
      {
        assert UserByte(p0, root, x, write);
      }
    }
  }

  lemma RangeGrows(pages: seq<Page>, root: nat, va: nat, k: nat, n: nat, write: bool)
    requires UserRange(pages, root, va, k, write) && (va + k) % PGSIZE + n <= PGSIZE
    requires UserByte(pages, root, va + k, write)
    ensures UserRange(pages, root, va, k + n, write)
  {
    forall x | va + k <= x < va + k + n
      ensures UserByte(pages, root, x, write)
    {
      assert x / PGSIZE == (va + k) / PGSIZE;
    }
  }

  /** A byte that could be reached at first still can, and so can its page. */
  lemma RangeFound(k0: seq<Kind>, p0: seq<Page>, p1: seq<Page>, root: nat, va: nat, n: nat, write: bool, x: nat)
    requires MapsKept(k0, p0, p1) && Root(k0, root) && va <= x < va + n
    ensures UserRange(p0, root, va, n, write) ==>
              UserByte(p1, root, x, write) && UserByte(p1, root, x / PGSIZE * PGSIZE, false)
  {
    RangeKept(k0, p0, p1, root, va, n, write);
    assert x / PGSIZE * PGSIZE / PGSIZE == x / PGSIZE;
  }

  lemma RangeReads(pages: seq<Page>, root: nat, va: nat, n: nat)
    requires UserRange(pages, root, va, n, true)
    ensures UserRange(pages, root, va, n, false)
  {
    forall x | va <= x < va + n
      ensures UserByte(pages, root, x, false)
    {
      assert UserByte(pages, root, x, true);
    }
  }

  lemma WroteNothing(k0: seq<Kind>, p0: seq<Page>, root: nat, dst: nat)
    ensures Wrote(k0, p0, p0, root, dst, []) && RootsKept(k0, k0)
  {
  }

  lemma WroteTrans(k0: seq<Kind>, p0: seq<Page>, k1: seq<Kind>, p1: seq<Page>, k2: seq<Kind>, p2: seq<Page>, root: nat,
                   dst: nat, bytes: seq<byte>, chunk: seq<byte>)
    requires Wrote(k0, p0, p1, root, dst, bytes) && RootsKept(k0, k1) && RootsKept(k1, k2)
    requires Wrote(k1, p1, p2, root, dst + |bytes|, chunk)
    ensures Wrote(k0, p0, p2, root, dst, bytes + chunk) && RootsKept(k0, k2)
  {
    forall r, x | Root(k0, r) && 0 <= x < USERTOP * PGSIZE
      ensures Byte(p2, r, x) == if r == root && dst <= x < dst + |bytes + chunk| then (bytes + chunk)[x - dst]
              else Byte(p0, r, x)
    {
      assert Root(k1, r);
      assert Byte(p1, r, x) == if r == root && dst <= x < dst + |bytes| then bytes[x - dst] else Byte(p0, r, x);
    }
  }

  /** Allocating an untouched page changes no user memory: it read as zeros and is filled with zeros. */
  lemma FaultInvisible(p0: seq<Page>, k0: seq<Kind>, p1: seq<Page>, k1: seq<Kind>, root: nat, v: nat, q: nat, dst: nat)
    requires Good(p0, k0) && Root(k0, root) && v < USERTOP && !Translate(p0, root, v).valid
    requires GrewTo(p0, k0, p1, k1, root, v, v + 1) && SameMapBut(k0, p0, p1, root, v, v + 1)
    requires Translate(p1, root, v).valid ==> Translate(p1, root, v).pa == q && q < |p1| && p1[q] == Data(Filled(0))
    ensures Wrote(k0, p0, p1, root, dst, []) && RootsKept(k0, k1)
  {
    hide Good;
    forall r, x | Root(k0, r) && 0 <= x < USERTOP * PGSIZE
      ensures Byte(p1, r, x) == Byte(p0, r, x)
    {
      var w := x / PGSIZE;
      if r == root && w == v {
        assert Byte(p0, r, x) == 0;
      } else {
        PageSurvives(p0, k0, p1, k1, root, v, v + 1, r, w);
      }
    }
  }

  lemma GrewInvisible(p0: seq<Page>, k0: seq<Kind>, p1: seq<Page>, k1: seq<Kind>, root: nat, dst: nat)
    requires Good(p0, k0) && Grew(p0, k0, p1, k1) && SameMap(k0, p0, p1)
    ensures Wrote(k0, p0, p1, root, dst, []) && RootsKept(k0, k1)
  {
    hide Good;
    assert GrewTo(p0, k0, p1, k1, root, 0, 0) && SameMapBut(k0, p0, p1, root, 0, 0);
    forall r, x | Root(k0, r) && 0 <= x < USERTOP * PGSIZE
      ensures Byte(p1, r, x) == Byte(p0, r, x)
    {
      PageSurvives(p0, k0, p1, k1, root, 0, 0, r, x / PGSIZE);
    }
  }

  /** Writing into one user page shows at its own addresses and nowhere else. */
  lemma StoreShows(pages: seq<Page>, kind: seq<Kind>, root: nat, v: nat, at: nat, chunk: seq<byte>)
    requires Good(pages, kind) && Root(kind, root) && v < USERTOP && Translate(pages, root, v).valid
             && at + |chunk| <= PGSIZE
    ensures var q := Translate(pages, root, v).pa;
            && q < |pages| == |kind| && pages[q].Data? && kind[q].Leaf?
            && var pages' := pages[q := Data(Overlaid(pages[q].bytes, at, chunk))];
               Good(pages', kind) && SameMap(kind, pages, pages')
                 && Wrote(kind, pages, pages', root, v * PGSIZE + at, chunk)
  {
    UserPage(pages, kind, root, v);
    var q := Translate(pages, root, v).pa;
    var page := Data(Overlaid(pages[q].bytes, at, chunk));
    var pages' := pages[q := page];
    PlainChange(pages, kind, q, page, kind[q]);
    assert kind[q := kind[q]] == kind;
    forall r, x | Root(kind, r) && 0 <= x < USERTOP * PGSIZE
      ensures Byte(pages', r, x)
           == if r == root && v * PGSIZE + at <= x < v * PGSIZE + at + |chunk| then chunk[x - (v * PGSIZE + at)]
              else Byte(pages, r, x)
    {
      StoreByte(pages, kind, root, v, at, chunk, r, x);
    }
  }

  lemma StoreByte(pages: seq<Page>, kind: seq<Kind>, root: nat, v: nat, at: nat, chunk: seq<byte>, r: nat, x: nat)
    requires Good(pages, kind) && Root(kind, root) && v < USERTOP && Translate(pages, root, v).valid
             && at + |chunk| <= PGSIZE
    requires Translate(pages, root, v).pa < |pages| && pages[Translate(pages, root, v).pa].Data?
    requires Root(kind, r) && x < USERTOP * PGSIZE
    requires var q := Translate(pages, root, v).pa;
             SameMap(kind, pages, pages[q := Data(Overlaid(pages[q].bytes, at, chunk))])
    ensures var q := Translate(pages, root, v).pa;
            Byte(pages[q := Data(Overlaid(pages[q].bytes, at, chunk))], r, x)
            == if r == root && v * PGSIZE + at <= x < v * PGSIZE + at + |chunk| then chunk[x - (v * PGSIZE + at)]
               else Byte(pages, r, x)
  {
    hide Good, Translate;
    var q := Translate(pages, root, v).pa;
    var pages' := pages[q := Data(Overlaid(pages[q].bytes, at, chunk))];
    var w := x / PGSIZE;
    assert Translate(pages', r, w) == Translate(pages, r, w);
    if r == root && w == v {
      assert x == v * PGSIZE + x % PGSIZE;
    } else if Translate(pages, r, w).valid && Translate(pages, r, w).pa == q {
      NoAlias(pages, kind, r, w, root, v);
    } else {
      assert r == root && w < v ==> x < v * PGSIZE;
      assert r == root && w > v ==> x >= v * PGSIZE + PGSIZE;
    }
  }

  /** dst is what user memory holds from address src on. */
  ghost predicate ReadAs(pages: seq<Page>, root: nat, src: nat, dst: seq<byte>) {
    forall i :: 0 <= i < |dst| ==> dst[i] == Byte(pages, root, src + i)
  }

  lemma ReadMore(k0: seq<Kind>, p0: seq<Page>, p1: seq<Page>, root: nat, src: nat, dst: seq<byte>, v: nat, at: nat,
                 n: nat)
    requires ReadAs(p0, root, src, dst) && Wrote(k0, p0, p1, root, 0, []) && Root(k0, root) && v < USERTOP
    requires v == (src + |dst|) / PGSIZE && at == (src + |dst|) % PGSIZE && at + n <= PGSIZE
    requires Translate(p1, root, v).valid && Translate(p1, root, v).pa < |p1| && p1[Translate(p1, root, v).pa].Data?
    ensures ReadAs(p0, root, src, dst + p1[Translate(p1, root, v).pa].bytes[at..at + n])
  {
    var run := p1[Translate(p1, root, v).pa].bytes[at..at + n];
    forall i | 0 <= i < |dst + run|
      ensures (dst + run)[i] == Byte(p0, root, src + i)
    {
      if i >= |dst| {
        var x := src + i;
        assert x / PGSIZE == v && x % PGSIZE == at + (i - |dst|);
        assert Byte(p1, root, x) == run[i - |dst|];
        assert Byte(p1, root, x) == Byte(p0, root, x);
      }
    }
  }

  /** Every page a user address maps to has that one owner, and is not on the free list; every page on the
      free list is there once. */
  lemma OwnedOnce(pages: seq<Page>, kind: seq<Kind>, head: nat, free: seq<nat>, r: nat, v: nat)
    requires Good(pages, kind) && FreeOk(pages, kind, head, free) && Root(kind, r) && v < USERTOP
             && Translate(pages, r, v).valid
    ensures var p := Translate(pages, r, v).pa;
            && p !in free
            && (forall s, w :: Root(kind, s) && 0 <= w < USERTOP
                               && Translate(pages, s, w).valid && Translate(pages, s, w).pa == p ==>
                  s == r && w == v)
    ensures forall i, j :: 0 <= i < j < |free| ==> free[i] != free[j]
    ensures forall p :: p in free <==> 0 <= p < |kind| && kind[p].Free?
  {
    UserPage(pages, kind, r, v);
    forall s, w | Root(kind, s) && 0 <= w < USERTOP && Translate(pages, s, w).valid
                  && Translate(pages, s, w).pa == Translate(pages, r, v).pa
      ensures s == r && w == v
    {
      NoAlias(pages, kind, s, w, r, v);
    }
  }

  // ---------- what kfree may be given ----------

  /** A page that nothing refers to: one in the caller's hands, a root without entries, or a table that is being torn
      down and is not the root of another one. */
  ghost predicate Releasable(pages: seq<Page>, kind: seq<Kind>, p: nat)
    requires p < |kind|
  {
    match kind[p]
    case Held => true
    case Tab(_, level, _, _) => level == 2 && forall j :: 0 <= j < ENTRIES ==> !Entry(pages, p, j).valid
    case Dead(_, _, _, _) => forall q :: 0 <= q < |kind| && q != p && kind[q].Dead? ==> kind[q].root != p
    case _ => false
  }

  lemma ReleasedGood(pages: seq<Page>, kind: seq<Kind>, p: nat, head: nat)
    requires Good(pages, kind) && p < |kind| && Releasable(pages, kind, p)
    ensures Good(pages[p := Run(head)], kind[p := Free])
  {
    var pages', kind' := pages[p := Run(head)], kind[p := Free];
    assert forall t, i {:trigger Entry(pages', t, i)} :: 0 <= t && t != p && 0 <= i ==>
      Entry(pages', t, i) == Entry(pages, t, i);
    forall t, i | 0 <= t < |kind'| && kind'[t].Tab? && 0 <= i < ENTRIES
      ensures EntryOk(kind', t, kind'[t], i, Entry(pages', t, i))
    {
      assert EntryOk(kind, t, kind[t], i, Entry(pages, t, i));
      assert PageOk(pages[t], kind[t], t);
    }
    forall q | 0 <= q < |kind'|
      ensures NamedOk(pages', kind', q, kind'[q])
    {
      assert NamedOk(pages, kind, q, kind[q]);
    }
    forall q | 0 <= q < |kind'|
      ensures PageOk(pages'[q], kind'[q], q)
    {
      assert PageOk(pages[q], kind[q], q);
    }
  }

  lemma ReleasedBad(pages: seq<Page>, kind: seq<Kind>, p: nat, head: nat)
    requires Good(pages, kind) && p < |kind| && !Releasable(pages, kind, p) && !kind[p].Free? && !kind[p].Outside?
    ensures !Good(pages[p := Run(head)], kind[p := Free])
  {
    var pages', kind', k := pages[p := Run(head)], kind[p := Free], kind[p];
    assert PageOk(pages[p], k, p) && NamedOk(pages, kind, p, k);
    if k.Leaf? || (k.Tab? && k.level < 2) {
      var j := if k.Leaf? then k.vpn % ENTRIES else k.prefix % ENTRIES;
      assert k.parent != p && Entry(pages', k.parent, j) == Entry(pages, k.parent, j);
      assert !EntryOk(kind', k.parent, kind'[k.parent], j, Entry(pages', k.parent, j));
    } else if k.Tab? {
      var j :| 0 <= j < ENTRIES && Entry(pages, p, j).valid;
      assert EntryOk(kind, p, k, j, Entry(pages, p, j));
      var c := Entry(pages, p, j).pa;
      assert kind'[c] == kind[c] && !NamedOk(pages', kind', c, kind'[c]);
    } else {
      var q :| 0 <= q < |kind| && q != p && kind[q].Dead? && kind[q].root == p;
      assert !NamedOk(pages', kind', q, kind'[q]);
    }
  }

  lemma ReleasedExactly(pages: seq<Page>, kind: seq<Kind>, p: nat, head: nat)
    requires Good(pages, kind) && p < |kind| && !kind[p].Free? && !kind[p].Outside?
    ensures Good(pages[p := Run(head)], kind[p := Free]) <==> Releasable(pages, kind, p)
    ensures kind[p].Held? ==> Releasable(pages, kind, p) && SameMap(kind, pages, pages[p := Run(head)])
  {
    hide Good, SameMap;
    if Releasable(pages, kind, p) {
      ReleasedGood(pages, kind, p, head);
    } else {
      ReleasedBad(pages, kind, p, head);
    }
    if kind[p].Held? {
      PlainChange(pages, kind, p, Run(head), Free);
    }
  }

  class Memory {
    const first: nat
    var pages: seq<Page>
    var freelist: nat
    ghost var kind: seq<Kind>
    ghost var free: seq<nat>

    ghost predicate Valid()
      reads this
    { Good(pages, kind) && FreeOk(pages, kind, freelist, free) && Bounded(kind, first) }

    /** kinit: freerange hands every page from `first` up to the free list. */
    constructor (first: nat, n: nat)
      requires 0 < first <= n
      ensures Valid() && this.first == first && |pages| == n && |free| == n - first
      ensures forall p :: 0 <= p < n ==> kind[p] == if p < first then Outside else Free
    {
      this.first := first;
      pages := seq(n, _ => Data(Filled(0)));
      freelist := 0;
      kind := seq(n, p => if p < first then Outside else Held);
      free := [];
      new;
      var p := first;
      while p < n
        invariant first <= p <= n && |pages| == |kind| == n && |free| == p - first
        invariant Valid()
        invariant forall q :: 0 <= q < n ==> kind[q] == if q < first then Outside else if q < p then Free else Held
      {
        hide Good, FreeOk, Bounded, SameMap;
        var ok := Kfree(p);
        p := p + 1;
      }
    }

    method Kalloc() returns (p: nat)
      requires Valid()
      modifies this
      ensures Valid()
      ensures p == 0 ==> Same(old(pages), old(kind), old(free), pages, kind, free) && free == []
      ensures p != 0 ==>
                && |old(free)| > 0 && p == old(free)[|old(free)| - 1] && p < |old(kind)| && old(kind)[p].Free?
                && free == old(free)[..|old(free)| - 1] && kind == old(kind)[p := Held]
                && |old(pages)| == |kind| && pages == old(pages)[p := Data(Filled(5))]
                && SameMap(old(kind), old(pages), pages)
    {
      hide Good, FreeOk;
      FreeEmpty(pages, kind, freelist, free);
      if freelist == 0 {
        return 0;
      }
      p := freelist;
      FreePopped(pages, kind, freelist, free, Data(Filled(5)), Held);
      PlainChange(pages, kind, p, Data(Filled(5)), Held);
      freelist := pages[p].next;
      pages := pages[p := Data(Filled(5))];
      kind := kind[p := Held];
      free := free[..|free| - 1];
    }

    /** kfree's test and push; ok is false exactly where the source panics: a page kalloc does not manage. */
    method Push(p: nat) returns (ok: bool)
      requires FreeOk(pages, kind, freelist, free) && Bounded(kind, first)
      modifies this
      ensures ok == (first <= p < |old(pages)|) && Bounded(kind, first)
      ensures !ok ==> Same(old(pages), old(kind), old(free), pages, kind, free) && freelist == old(freelist)
      ensures ok ==> p < |old(kind)| == |old(pages)| && freelist == p
                     && pages == old(pages)[p := Run(old(freelist))] && kind == old(kind)[p := Free]
                        && free == old(free) + [p]
      ensures ok && old(kind)[p].Free? ==> forall l :: !FreeOk(pages, kind, freelist, l)
      ensures ok && !old(kind)[p].Free? ==> FreeOk(pages, kind, freelist, free)
    {
      hide FreeOk;
      FreeEmpty(pages, kind, freelist, free);
      if p < first || p >= |pages| {
        return false;
      }
      if kind[p].Free? {
        FreedTwice(pages, kind, freelist, free, p, pages[p := Run(freelist)], kind[p := Free]);
      } else {
        FreePushed(pages, kind, freelist, free, p);
      }
      pages := pages[p := Run(freelist)];
      kind := kind[p := Free];
      free := free + [p];
      freelist := p;
      ok := true;
    }

    /** kfree. It does not ask whose page it is given: everything stays consistent if and only if nothing refers to
        the page, and the free pages no longer form a list if and only if the page was free already. */
    method Kfree(p: nat) returns (ok: bool)
      requires Valid()
      modifies this
      ensures ok == (first <= p < |old(pages)|)
      ensures !ok ==> Valid() && Same(old(pages), old(kind), old(free), pages, kind, free)
      ensures ok ==> p < |old(kind)| == |old(pages)|
                     && pages == old(pages)[p := Run(old(freelist))] && kind == old(kind)[p := Free]
                        && free == old(free) + [p]
      ensures ok ==> (old(kind)[p].Free? <==> forall l :: !FreeOk(pages, kind, freelist, l))
      ensures ok ==> (Valid() <==> Releasable(old(pages), old(kind), p))
      ensures ok && old(kind)[p].Held? ==> SameMap(old(kind), old(pages), pages)
    {
      hide Good, FreeOk, SameMap;
      FreeEmpty(pages, kind, freelist, free);
      if first <= p < |pages| && !kind[p].Free? {
        ReleasedExactly(pages, kind, p, freelist);
      }
      ok := Push(p);
    }

    /** One level of walk: the table below slot PX(level, v), made if missing and asked for. */
    method Descend(table: nat, ghost root: nat, v: nat, level: nat, alloc: bool) returns (t: nat)
      requires Valid() && v < NVPN && 0 < level <= 2
      requires TableFor(kind, table, root, level, v)
      modifies this
      ensures Valid() && Grew(old(pages), old(kind), pages, kind) && SameMap(old(kind), old(pages), pages)
      ensures !alloc ==> Same(old(pages), old(kind), old(free), pages, kind, free)
      ensures t != 0 ==> TableFor(kind, t, root, level - 1, v)
      ensures t == 0 ==> !Translate(pages, root, v).valid && (alloc ==> free == [])
      ensures |free| <= |old(free)|
      ensures alloc && t != 0 ==>
                Hung(old(kind), kind, root, level - 1, v) && |free| + Miss(old(kind), root, level - 1, v) == |old(free)|
      ensures alloc && t == 0 ==> |old(free)| < Miss(old(kind), root, level - 1, v)
    {
      hide Good, FreeOk, SameMap, Grew, Hung, HasTab;
      TableIsNode(pages, kind, table, root, level, v);
      PrefixStep(v, level);
      var e := pages[table].ptes[PX(level, v)];
      if e.valid {
        ChildTable(pages, kind, table, root, level, v);
        GrewSelf(pages, kind);
        TabThere(kind, e.pa, root, level - 1, v);
        return e.pa;
      }
      DeadEnd(pages, kind, table, root, v, level);
      TabMissing(pages, kind, table, root, v, level);
      if !alloc {
        GrewSelf(pages, kind);
        return 0;
      }
      ghost var p0, k0 := pages, kind;
      t := Kalloc();
      if t == 0 {
        GrewSelf(pages, kind);
        return;
      }
      ghost var p1, k1, k := pages, kind, Tab(root, level - 1, Prefix(level - 1, v), table);
      AddTable(pages, kind, table, PX(level, v), t);
      pages := WithTable(pages, table, PX(level, v), t);
      kind := kind[t := k];
      FreeKept(p1, k1, freelist, free, pages, kind);
      HungTable(p0, k0, p1, k1, pages, t, k);
      assert k1[t := k] == k0[t := k];
      HungNew(k0, t, k, root, level - 1, v);
    }

    /** The level-0 table for v, or 0. Without alloc nothing changes; with it only tables are added. */
    method Walk(root: nat, v: nat, alloc: bool) returns (t: nat)
      requires Valid() && Root(kind, root) && v < NVPN
      modifies this
      ensures Valid() && Grew(old(pages), old(kind), pages, kind) && SameMap(old(kind), old(pages), pages)
      ensures !alloc ==> Same(old(pages), old(kind), old(free), pages, kind, free)
      ensures t != 0 ==> TableFor(kind, t, root, 0, v)
      ensures t == 0 ==> !Translate(pages, root, v).valid && (alloc ==> free == [])
      ensures |free| <= |old(free)|
      ensures alloc && t != 0 ==>
                TabsFor(old(kind), kind, root, {v}) && |free| + Tables(old(kind), root, {v}) == |old(free)|
      ensures alloc && t == 0 ==> |old(free)| < Tables(old(kind), root, {v})
    {
      hide Good, FreeOk, Grew, SameMap, Hung, TabsFor, Tables, Miss, HasTab;
      FreeEmpty(pages, kind, freelist, free);
      t := root;
      var level := 2;
      GrewSelf(pages, kind);
      while level > 0
        invariant 0 <= level <= 2 && Valid() && TableFor(kind, t, root, level, v)
        invariant Grew(old(pages), old(kind), pages, kind) && SameMap(old(kind), old(pages), pages)
        invariant !alloc ==> Same(old(pages), old(kind), old(free), pages, kind, free)
        invariant |free| <= |old(free)|
        invariant alloc && level == 2 ==> kind == old(kind) && free == old(free)
        invariant alloc && level == 1 ==>
                    Hung(old(kind), kind, root, 1, v) && |free| + Miss(old(kind), root, 1, v) == |old(free)|
        invariant alloc && level == 0 ==>
                    TabsFor(old(kind), kind, root, {v}) && |free| + Tables(old(kind), root, {v}) == |old(free)|
      {
        ghost var p1, k1 := pages, kind;
        t := Descend(t, root, v, level, alloc);
        SameTrans(old(kind), old(pages), k1, p1, pages);
        GrewTrans(old(pages), old(kind), p1, k1, pages, kind);
        if alloc {
          if level == 2 {
            TablesOne(old(kind), root, v);
          } else {
            WalkShort(old(kind), k1, root, v);
          }
        }
        if t == 0 {
          return;
        }
        if alloc && level == 1 {
          HungBoth(old(kind), k1, kind, root, v);
        }
        level := level - 1;
      }
    }

    /** The assignment in mappages: v now maps to pa. */
    method SetLeaf(t: nat, ghost root: nat, v: nat, pa: nat, perm: Perm)
      requires Valid() && v < NVPN && TableFor(kind, t, root, 0, v) && Leafy(perm)
      requires !Translate(pages, root, v).valid
      requires if v < USERTOP then pa < |kind| && kind[pa].Held? else !perm.u
      modifies this
      ensures Valid() && free == old(free) && |kind| == |old(kind)| == |pages| == |old(pages)|
      ensures SameMapBut(old(kind), old(pages), pages, root, v, v + 1)
              && Translate(pages, root, v) == Pte(true, pa, perm)
      ensures kind == if v < USERTOP then old(kind)[pa := Leaf(root, v, t)] else old(kind)
      ensures forall p :: 0 <= p < |kind| && p != t ==> pages[p] == old(pages)[p]
    {
      hide Good, FreeOk, SameMapBut;
      TableIsNode(pages, kind, t, root, 0, v);
      Indices(v);
      PathTo(pages, kind, t, root, v);
      var i := Index0(v);
      MapLeaf(pages, kind, t, i, pa, perm);
      LeafWrite(pages, kind, t, i, Pte(true, pa, perm));
      ghost var p0, k0 := pages, kind;
      pages := SetPte(pages, t, i, Pte(true, pa, perm));
      kind := Mapped(kind, t, i, pa);
      FreeKept(p0, k0, freelist, free, pages, kind);
    }

    /** Maps v, v+1, ... to pa, pa+1, ...; done counts the pages mapped before the memory for tables ran out. */
    method Mappages(root: nat, v: nat, n: nat, pa: nat, perm: Perm) returns (r: int, panicked: bool, ghost done: nat)
      requires Valid() && Root(kind, root) && v + n <= NVPN && Leafy(perm) && (USERTOP < v + n ==> !perm.u)
      requires HeldRun(kind, pa, v, n)
      modifies this
      ensures Valid() && done <= n && r == (if done == n && !panicked then 0 else -1)
      ensures NoRun(old(pages), root, v, v + done)
      ensures panicked <==> n == 0 || (done < n && Translate(old(pages), root, v + done).valid)
      ensures done < n && !panicked ==> free == []
      ensures SameMapBut(old(kind), old(pages), pages, root, v, v + done)
      ensures MapRun(pages, root, v, v + done, pa, perm)
      ensures KeptBut(old(pages), old(kind), pages, kind, pa, pa + done)
      ensures LeafRun(kind, root, pa, v, done)
      ensures r == 0 ==> Paid(old(kind), |old(free)|, kind, |free|, root, Range(v, n), 0)
      ensures r == -1 && !panicked ==> |old(free)| < Tables(old(kind), root, Range(v, n))
    {
      hide Translate, Paid, TabsFor, Tables, Range, Bounded;
      hide Good, FreeOk, SameMap, SameMapBut, KeptBut, Grew, MapRun, NoRun, LeafRun, HeldRun;
      FreeEmpty(pages, kind, freelist, free);
      KeptSelf(pages, kind, root, v, pa);
      RunsStart(pages, kind, root, v, pa, perm);
      done := 0;
      ghost var k0, f0 := kind, |free|;
      PaidNone(kind, |free|, root, 0);
      RangeOn(v, 0);
      if n == 0 {
        return -1, true, 0;
      }
      var a := v;
      while a < v + n
        invariant v <= a <= v + n && done == a - v
        invariant Valid() && Root(kind, root)
        invariant SameMapBut(old(kind), old(pages), pages, root, v, a)
        invariant KeptBut(old(pages), old(kind), pages, kind, pa, pa + done)
        invariant MapRun(pages, root, v, a, pa, perm) && NoRun(old(pages), root, v, a)
        invariant LeafRun(kind, root, pa, v, done) && HeldRun(kind, pa + done, a, n - done)
        invariant Paid(k0, f0, kind, |free|, root, Range(v, done), 0)
        decreases v + n - a
      {
        ghost var p1, k1, f1 := pages, kind, |free|;
        var t := Walk(root, a, true);
        ghost var p2, k2 := pages, kind;
        WalkedRuns(p1, k1, p2, k2, root, v, a, n, pa, done, perm);
        NoStep(old(pages), old(kind), p1, k1, pages, kind, root, v, a, pa, pa + done);
        EntryFound(old(kind), old(pages), pages, root, v, a);
        if t == 0 {
          PaidStops(k0, f0, k1, f1, root, v, done, n, 0);
          return -1, false, done;
        }
        TableIsNode(pages, kind, t, root, 0, a);
        PathTo(pages, kind, t, root, a);
        if pages[t].ptes[Index0(a)].valid {
          return -1, true, done;
        }
        SetLeaf(t, root, a, pa + (a - v), perm);
        PaidMap(k0, f0, k1, f1, k2, kind, |free|, root, v, done, pa + (a - v), t);
        MapStep(old(pages), old(kind), p1, k1, p2, k2, pages, kind, root, v, a, pa, pa + done, t);
        MapRuns(p1, k1, pages, kind, root, v, a, n, pa, done, perm, t);
        a := a + 1;
        done := done + 1;
      }
      r, panicked := 0, false;
    }

    /** The body of uvmunmap for a mapped page: free its memory if asked, then clear the entry. */
    method ClearLeaf(t: nat, ghost root: nat, v: nat, doFree: bool) returns (ok: bool, ghost q: nat)
      requires Valid() && v < NVPN && TableFor(kind, t, root, 0, v) && Translate(pages, root, v).valid
      requires doFree ==> v < USERTOP
      modifies this
      ensures ok && Valid() && |kind| == |old(kind)| == |pages| == |old(pages)|
      ensures SameMapBut(old(kind), old(pages), pages, root, v, v + 1) && Translate(pages, root, v) == NOPTE
      ensures v < USERTOP ==> q < |kind| && IsLeaf(old(kind), q, root, v)
      ensures kind == if v < USERTOP then old(kind)[q := if doFree then Free else Held] else old(kind)
      ensures forall p :: 0 <= p < |kind| && p != t && p != q ==> pages[p] == old(pages)[p]
      ensures !doFree && q < |kind| && q != t ==> pages[q] == old(pages)[q]
    {
      hide Good, FreeOk, SameMapBut, Bounded;
      TableIsNode(pages, kind, t, root, 0, v);
      Indices(v);
      PathTo(pages, kind, t, root, v);
      var i := Index0(v);
      var pa := pages[t].ptes[i].pa;
      q := pa;
      ok := true;
      ghost var p0, k0 := pages, kind;
      UnmapLeaf(pages, kind, t, i);
      LeafWrite(pages, kind, t, i, NOPTE);
      ghost var p1, k1 := SetPte(pages, t, i, NOPTE), PageTable.Unmapped(kind, t, i, pa);
      if doFree {
        FreedLeaf(p0, k0, p1, k1, first, t, q, freelist);
        ok := Push(pa);
        ghost var p2, k2 := pages, kind;
        pages := SetPte(pages, t, i, NOPTE);
        FreeKept(p2, k2, freelist, free, pages, kind);
        SwapWrites(p0, t, i, q, p2[q]);
        FreedMap(k0, p0, p1, pages, root, v);
      } else {
        pages := SetPte(pages, t, i, NOPTE);
        kind := k1;
        FreeKept(p0, k0, freelist, free, pages, kind);
        BoundedKept(k0, kind, first);
      }
    }

    /** Removes the mappings of virtual pages v..v+n, of which some may be missing; with doFree their memory
        goes back to the free list. */
    method Uvmunmap(root: nat, v: nat, n: nat, doFree: bool) returns (ok: bool)
      requires Valid() && Root(kind, root) && v + n <= NVPN && (doFree ==> v + n <= USERTOP)
      modifies this
      ensures ok && Valid()
      ensures Released(old(pages), old(kind), pages, kind, root, v, v + n, if doFree then Free else Held)
      ensures SameMapBut(old(kind), old(pages), pages, root, v, v + n) && NoRun(pages, root, v, v + n)
    {
      hide Good, FreeOk, SameMapBut, Released, NoRun, Bounded, SameMap, Grew;
      FreeEmpty(pages, kind, freelist, free);
      ok := true;
      ghost var to := if doFree then Free else Held;
      ReleasedStart(pages, kind, root, v, to);
      var a := v;
      while a < v + n
        invariant v <= a <= v + n && ok && Valid() && Root(kind, root)
        invariant Released(old(pages), old(kind), pages, kind, root, v, a, to)
        invariant SameMapBut(old(kind), old(pages), pages, root, v, a) && NoRun(pages, root, v, a)
      {
        ghost var p1, k1 := pages, kind;
        var t := Walk(root, a, false);
        var mapped := false;
        if t != 0 {
          TableIsNode(pages, kind, t, root, 0, a);
          PathTo(pages, kind, t, root, a);
          mapped := pages[t].ptes[Index0(a)].valid;
        }
        if !mapped {
          ReleaseSkip(old(pages), old(kind), pages, kind, root, v, a, to);
        } else {
          var cleared;
          ghost var q;
          cleared, q := ClearLeaf(t, root, a, doFree);
          ok := ok && cleared;
          ReleaseStep(old(pages), old(kind), p1, k1, pages, kind, root, v, a, to, q, t);
        }
        a := a + 1;
      }
    }

    /** The sequence uvmalloc, uvmcopy and vmfault share: kalloc a page, fill it, map it at v, and give it
        back if no table can be had. The result is the page, or 0. */
    method NewPage(root: nat, v: nat, bytes: Bytes, perm: Perm) returns (q: nat)
      requires Valid() && Root(kind, root) && v < USERTOP && Leafy(perm) && !Translate(pages, root, v).valid
      modifies this
      ensures Valid() && Root(kind, root)
      ensures q == 0 ==> Grew(old(pages), old(kind), pages, kind) && |free| <= 1
      ensures q == 0 ==> SameMap(old(kind), old(pages), pages)
      ensures q != 0 ==>
                && GrewTo(old(pages), old(kind), pages, kind, root, v, v + 1)
                && SameMapBut(old(kind), old(pages), pages, root, v, v + 1)
                && Translate(pages, root, v) == Pte(true, q, perm)
                && q < |pages| && pages[q] == Data(bytes) && IsLeaf(kind, q, root, v)
      ensures q == 0 ==> |old(free)| < 1 + Tables(old(kind), root, {v})
      ensures q != 0 ==>
                TabsFor(old(kind), kind, root, {v}) && |free| + 1 + Tables(old(kind), root, {v}) == |old(free)|
    {
      hide Good, FreeOk, SameMap, SameMapBut, Grew, GrewTo, KeptBut, Bounded, Paid, TabsFor, Tables;
      ghost var p0, k0 := pages, kind;
      FreeEmpty(pages, kind, freelist, free);
      GrewSelf(pages, kind);
      q := Kalloc();
      if q == 0 {
        return;
      }
      ghost var pk := pages;
      PlainChange(pages, kind, q, Data(bytes), Held);
      FreeKept(pages, kind, freelist, free, pages[q := Data(bytes)], kind[q := Held]);
      pages := pages[q := Data(bytes)];
      assert kind[q := Held] == kind;
      FilledPage(p0, k0, pk, pages, q);
      StillUnmapped(k0, p0, pages, root, v);
      ghost var p1, k1, f1 := pages, kind, |free|;
      HeldTabs(k0, k1, root, v, q);
      var r, panicked;
      ghost var done;
      r, panicked, done := Mappages(root, v, 1, q, perm);
      if r != 0 {
        ghost var p2, k2 := pages, kind;
        KeptHeld(p1, k1, p2, k2, first, q);
        var ok := Kfree(q);
        PageReturned(p0, k0, p1, k1, p2, k2, pages, kind, q, root, v);
        RootKept(p0, k0, pages, kind, root);
        return 0;
      }
      PageAdded(p0, k0, p1, k1, pages, kind, q, root, v);
      RootKeptTo(p0, k0, pages, kind, root, v, v + 1);
      PaidFor(k1, f1, kind, |free|, root, v);
      SameThenFor(k0, k1, kind, root, {v});
      assert Translate(pages, root, v) == Pte(true, q, perm);
    }

    /** Grows the address space from oldsz to newsz bytes with zeroed pages; on failure every translation and
        every owner is as before, but for tables. */
    method Uvmalloc(root: nat, oldsz: nat, newsz: nat, xperm: Perm) returns (r: nat, ghost failed: bool)
      requires Valid() && Root(kind, root) && newsz <= USERTOP * PGSIZE
      requires NoRun(pages, root, PagesUp(oldsz), PagesUp(newsz))
      modifies this
      ensures Valid() && Root(kind, root)
      ensures newsz < oldsz ==> r == oldsz && !failed && Same(old(pages), old(kind), old(free), pages, kind, free)
      ensures failed ==> r == 0 && Grew(old(pages), old(kind), pages, kind) && SameMap(old(kind), old(pages), pages)
      ensures !failed && oldsz <= newsz ==>
                && r == newsz
                && GrewTo(old(pages), old(kind), pages, kind, root, PagesUp(oldsz), PagesUp(newsz))
                && SameMapBut(old(kind), old(pages), pages, root, PagesUp(oldsz), PagesUp(newsz))
                && ZeroRun(pages, root, PagesUp(oldsz), PagesUp(newsz), Perm(true, xperm.w, xperm.x, true))
                && |free| + Need(old(kind), root, Range(PagesUp(oldsz), PagesUp(newsz) - PagesUp(oldsz))) == |old(free)|
      ensures oldsz <= newsz ==>
                (failed <==>
                  |old(free)| < Need(old(kind), root, Range(PagesUp(oldsz), PagesUp(newsz) - PagesUp(oldsz))))
    {
      hide Translate;
      hide Good, FreeOk, SameMap, SameMapBut, Grew, GrewTo, NoRun, ZeroRun, Released, Bounded;
      hide Paid, TabsFor, Tables, Range;
      failed := false;
      if newsz < oldsz {
        return oldsz, false;
      }
      FreeEmpty(pages, kind, freelist, free);
      ghost var p0, k0 := pages, kind;
      var lo, hi, perm := PagesUp(oldsz), PagesUp(newsz), Perm(true, xperm.w, xperm.x, true);
      ZeroStart(pages, kind, root, lo, perm);
      ghost var f0 := |free|;
      PaidNone(kind, f0, root, 1);
      RangeOn(lo, 0);
      var a := lo;
      while a < hi
        invariant lo <= a <= hi <= USERTOP && Valid() && Root(kind, root)
        invariant GrewTo(p0, k0, pages, kind, root, lo, a) && SameMapBut(k0, p0, pages, root, lo, a)
        invariant ZeroRun(pages, root, lo, a, perm) && NoRun(pages, root, a, hi)
        invariant Paid(k0, f0, kind, |free|, root, Range(lo, a - lo), 1)
      {
        ghost var p1, k1, f1 := pages, kind, |free|;
        RangeOn(lo, a - lo);
        FirstUnmapped(pages, root, a, hi);
        var q := NewPage(root, a, Filled(0), perm);
        if q == 0 {
          ghost var p2, k2 := pages, kind;
          GrewNothing(p0, k0, p1, k1, p2, k2, root, lo, a);
          PaidStops(k0, f0, k1, f1, root, lo, a - lo, hi - lo, 1);
          var ok := Uvmunmap(root, lo, a - lo, true);
          NoRunPart(p0, root, lo, a, hi);
          RolledBack(p0, k0, p2, k2, pages, kind, root, lo, a);
          return 0, true;
        }
        ZeroStep(p0, k0, p1, k1, pages, kind, root, lo, a, hi, perm, q);
        PaidOne(k0, f0, k1, f1, kind, |free|, root, Range(lo, a - lo), a, 1);
        a := a + 1;
      }
      PaidAll(k0, f0, kind, |free|, root, Range(lo, hi - lo));
      r := newsz;
    }

    /** Shrinks the address space; the pages wholly above newsz go back to the free list. */
    method Uvmdealloc(root: nat, oldsz: nat, newsz: nat) returns (r: nat)
      requires Valid() && Root(kind, root) && oldsz <= USERTOP * PGSIZE
      modifies this
      ensures Valid() && r == Min(oldsz, newsz)
      ensures newsz >= oldsz ==> Same(old(pages), old(kind), old(free), pages, kind, free)
      ensures newsz < oldsz ==>
                && Released(old(pages), old(kind), pages, kind, root, PagesUp(newsz), PagesUp(oldsz), Free)
                && SameMapBut(old(kind), old(pages), pages, root, PagesUp(newsz), PagesUp(oldsz))
                && NoRun(pages, root, PagesUp(newsz), PagesUp(oldsz))
    {
      hide Good, FreeOk, SameMapBut, Released, NoRun, Bounded;
      if newsz >= oldsz {
        return oldsz;
      }
      FreeEmpty(pages, kind, freelist, free);
      if PagesUp(newsz) < PagesUp(oldsz) {
        var ok := Uvmunmap(root, PagesUp(newsz), PagesUp(oldsz) - PagesUp(newsz), true);
      } else {
        ReleasedStart(pages, kind, root, PagesUp(newsz), Free);
      }
      r := newsz;
    }

    /** An empty address space, or 0 when there is no page for its root. */
    method Uvmcreate() returns (r: nat)
      requires Valid()
      modifies this
      ensures Valid() && SameMap(old(kind), old(pages), pages)
      ensures r == 0 ==> Same(old(pages), old(kind), old(free), pages, kind, free) && free == []
      ensures r != 0 ==>
                && r < |old(kind)| && old(kind)[r].Free? && kind == old(kind)[r := Tab(r, 2, 0, 0)]
                && |pages| == |old(pages)| && pages == old(pages)[r := pages[r]]
                && forall v :: 0 <= v < NVPN ==> Translate(pages, r, v) == NOPTE
    {
      hide Good, FreeOk, SameMap, Bounded;
      FreeEmpty(pages, kind, freelist, free);
      GrewSelf(pages, kind);
      ghost var p0, k0 := pages, kind;
      r := Kalloc();
      if r != 0 {
        ghost var p1, k1 := pages, kind;
        AddRoot(pages, kind, r);
        pages := pages[r := Node(Empty())];
        kind := kind[r := Tab(r, 2, 0, 0)];
        FreeKept(p1, k1, freelist, free, pages, kind);
        BoundedKept(k1, kind, first);
        FilledPage(p0, k0, p1, pages, r);
      }
    }

    /** Copies the memory of `from` below sz into `to`; 0 on success, -1 with `to` as it was on failure. */
    method Uvmcopy(from: nat, to: nat, sz: nat) returns (r: int)
      requires Valid() && Root(kind, from) && Root(kind, to) && from != to && sz <= USERTOP * PGSIZE
      requires NoRun(pages, to, 0, PagesUp(sz))
      modifies this
      ensures Valid() && (r == 0 || r == -1)
      ensures r == 0 ==>
                && GrewTo(old(pages), old(kind), pages, kind, to, 0, PagesUp(sz))
                && SameMapBut(old(kind), old(pages), pages, to, 0, PagesUp(sz))
                && CopiedRun(pages, from, to, PagesUp(sz))
      ensures r == -1 ==> Grew(old(pages), old(kind), pages, kind) && SameMap(old(kind), old(pages), pages)
      ensures r == 0 <==> |old(free)| >= Need(old(kind), to, MappedBelow(old(pages), from, PagesUp(sz)))
      ensures r == 0 ==> |free| + Need(old(kind), to, MappedBelow(old(pages), from, PagesUp(sz))) == |old(free)|
    {
      hide Good, FreeOk, SameMap, SameMapBut, Grew, GrewTo, NoRun, CopiedRun, Released, Bounded;
      hide Paid, TabsFor, Tables, MappedBelow;
      FreeEmpty(pages, kind, freelist, free);
      ghost var p0, k0 := pages, kind;
      CopyStart(pages, kind, from, to);
      ghost var f0 := |free|;
      PaidNone(kind, f0, to, 1);
      MappedNone(pages, from);
      var hi := PagesUp(sz);
      var a := 0;
      while a < hi
        invariant 0 <= a <= hi <= USERTOP && Valid() && Root(kind, from) && Root(kind, to)
        invariant GrewTo(p0, k0, pages, kind, to, 0, a) && SameMapBut(k0, p0, pages, to, 0, a)
        invariant CopiedRun(pages, from, to, a) && NoRun(pages, to, a, hi)
        invariant Paid(k0, f0, kind, |free|, to, MappedBelow(p0, from, a), 1)
      {
        ghost var p1, k1, f1 := pages, kind, |free|;
        StillMapped(k0, p0, pages, to, a, from, a);
        FirstUnmapped(pages, to, a, hi);
        var t := Walk(from, a, false);
        var mapped := false;
        if t != 0 {
          TableIsNode(pages, kind, t, from, 0, a);
          PathTo(pages, kind, t, from, a);
          mapped := pages[t].ptes[Index0(a)].valid;
        }
        if mapped {
          var e := pages[t].ptes[Index0(a)];
          UserPage(pages, kind, from, a);
          var q := NewPage(to, a, pages[e.pa].bytes, e.perm);
          if q == 0 {
            ghost var p2, k2 := pages, kind;
            GrewNothing(p0, k0, p1, k1, p2, k2, to, 0, a);
            CopyShort(p0, k0, f0, k1, f1, from, to, a, hi);
            var ok := Uvmunmap(to, 0, a, true);
            NoRunPart(p0, to, 0, a, hi);
            RolledBack(p0, k0, p2, k2, pages, kind, to, 0, a);
            return -1;
          }
        } else {
          FreeEmpty(pages, kind, freelist, free);
          CopySkip(pages, kind, to, a);
        }
        CopyStep(p0, k0, p1, k1, pages, kind, from, to, a, hi);
        CopyPaid(p0, k0, f0, k1, f1, kind, |free|, from, to, a);
        a := a + 1;
      }
      PaidAll(k0, f0, kind, |free|, to, MappedBelow(p0, from, hi));
      r := 0;
    }

    /** The page user code would reach at virtual page v, or 0. */
    method Walkaddr(root: nat, v: nat) returns (p: nat)
      requires Valid() && Root(kind, root)
      modifies this
      ensures Valid() && Same(old(pages), old(kind), old(free), pages, kind, free)
      ensures p == 0 <==> !(v < USERTOP && Translate(pages, root, v).valid && Translate(pages, root, v).perm.u)
      ensures p != 0 ==> p == Translate(pages, root, v).pa
    {
      hide Good, FreeOk, SameMap, Grew;
      if v >= NVPN {
        return 0;
      }
      var t := Walk(root, v, false);
      if t == 0 {
        return 0;
      }
      TableIsNode(pages, kind, t, root, 0, v);
      PathTo(pages, kind, t, root, v);
      var e := pages[t].ptes[Index0(v)];
      if !e.valid || !e.perm.u {
        return 0;
      }
      Path(pages, kind, root, v);
      p := e.pa;
    }

    /** Gives an untouched page below sz its memory; 0 for an address at or above sz, a page that is there
        already, or no memory. */
    method Vmfault(root: nat, sz: nat, va: nat) returns (q: nat)
      requires Valid() && Root(kind, root) && sz <= USERTOP * PGSIZE
      modifies this
      ensures Valid() && RootsKept(old(kind), kind) && Wrote(old(kind), old(pages), pages, root, 0, [])
      ensures MapsKept(old(kind), old(pages), pages)
      ensures q == 0 ==> va >= sz || Translate(old(pages), root, va / PGSIZE).valid || |free| <= 1
      ensures q == 0 <==> va >= sz || Translate(old(pages), root, va / PGSIZE).valid
                          || |old(free)| < Need(old(kind), root, {va / PGSIZE})
      ensures va >= sz || Translate(old(pages), root, va / PGSIZE).valid ==>
                q == 0 && Same(old(pages), old(kind), old(free), pages, kind, free)
      ensures q != 0 ==> Translate(pages, root, va / PGSIZE) == Pte(true, q, Perm(true, true, false, true))
    {
      hide Good, FreeOk, SameMap, SameMapBut, Grew, GrewTo, Wrote, RootsKept, MapsKept, TabsFor, Tables;
      WroteNothing(kind, pages, root, 0);
      MapsKeptSelf(kind, pages);
      if va >= sz {
        return 0;
      }
      var v := va / PGSIZE;
      ghost var p0, k0 := pages, kind;
      var t := Walk(root, v, false);
      if t != 0 {
        TableIsNode(pages, kind, t, root, 0, v);
        PathTo(pages, kind, t, root, v);
        if pages[t].ptes[Index0(v)].valid {
          return 0;
        }
      }
      q := NewPage(root, v, Filled(0), Perm(true, true, false, true));
      if q == 0 {
        GrewInvisible(p0, k0, pages, kind, root, 0);
        MapsKeptSame(k0, p0, pages);
      } else {
        MapsKeptNew(k0, p0, pages, root, v);
        FaultInvisible(p0, k0, pages, kind, root, v, q, 0);
      }
    }

    /** How copyout and copyin find a page: walkaddr, and vmfault where that fails. */
    method Reach(root: nat, sz: nat, v: nat) returns (p: nat)
      requires Valid() && Root(kind, root) && sz <= USERTOP * PGSIZE
      modifies this
      ensures Valid() && RootsKept(old(kind), kind) && Wrote(old(kind), old(pages), pages, root, 0, [])
      ensures MapsKept(old(kind), old(pages), pages)
      ensures UserByte(old(pages), root, v * PGSIZE, false) ==> p != 0
      ensures p != 0 ==> v < USERTOP && Translate(pages, root, v).valid && Translate(pages, root, v).perm.u
                         && p == Translate(pages, root, v).pa
      ensures p == 0 ==> Barred(pages, root, sz, v, false) || |free| <= 1
    {
      hide Good, FreeOk, Wrote, RootsKept, MapsKept;
      WroteNothing(kind, pages, root, 0);
      MapsKeptSelf(kind, pages);
      p := Walkaddr(root, v);
      if p == 0 {
        p := Vmfault(root, sz, v * PGSIZE);
      }
    }

    /** The second walk of copyout, for the permission bits. */
    method PermOf(root: nat, v: nat) returns (perm: Perm)
      requires Valid() && Root(kind, root) && v < NVPN && Translate(pages, root, v).valid
      modifies this
      ensures Valid() && Same(old(pages), old(kind), old(free), pages, kind, free)
      ensures perm == Translate(pages, root, v).perm
    {
      hide Good, FreeOk, SameMap, Grew;
      var t := Walk(root, v, false);
      TableIsNode(pages, kind, t, root, 0, v);
      PathTo(pages, kind, t, root, v);
      perm := pages[t].ptes[Index0(v)].perm;
    }

    /** The memmove of copyout. */
    method Store(ghost root: nat, ghost v: nat, pa: nat, at: nat, chunk: seq<byte>)
      requires Valid() && Root(kind, root) && v < USERTOP && at + |chunk| <= PGSIZE
      requires Translate(pages, root, v).valid && Translate(pages, root, v).pa == pa
      modifies this`pages
      ensures Valid() && Wrote(kind, old(pages), pages, root, v * PGSIZE + at, chunk)
              && SameMap(kind, old(pages), pages)
    {
      hide Good, FreeOk, Wrote, SameMap, Translate, Bounded;
      StoreShows(pages, kind, root, v, at, chunk);
      ghost var p0 := pages;
      pages := pages[pa := Data(Overlaid(pages[pa].bytes, at, chunk))];
      FreeKept(p0, kind, freelist, free, pages, kind);
    }

    /** Copies src to user address dst; done counts the bytes that arrived. */
    method Copyout(root: nat, sz: nat, dst: nat, src: seq<byte>) returns (r: int, ghost done: nat)
      requires Valid() && Root(kind, root) && sz <= USERTOP * PGSIZE
      modifies this
      ensures Valid() && RootsKept(old(kind), kind) && done <= |src| && r == (if done == |src| then 0 else -1)
      ensures Wrote(old(kind), old(pages), pages, root, dst, src[..done]) && MapsKept(old(kind), old(pages), pages)
      ensures r == 0 ==> UserRange(pages, root, dst, |src|, true)
      ensures UserRange(old(pages), root, dst, |src|, true) ==> r == 0
      ensures r == -1 ==> Barred(pages, root, sz, (dst + done) / PGSIZE, true) || |free| <= 1
      ensures done > 0 ==> dst + done <= USERTOP * PGSIZE
    {
      hide Good, FreeOk, Wrote, RootsKept, SameMap, Translate, Byte, Bounded, MapsKept, UserRange, CopiedOut;
      ghost var p0, k0 := pages, kind;
      OutStart(kind, pages, root, dst);
      var k := 0;
      assert src[..0] == [];
      done := 0;
      while k < |src|
        invariant 0 <= k <= |src| && done == k && Valid() && Root(kind, root)
        invariant k > 0 ==> dst + k <= USERTOP * PGSIZE
        invariant CopiedOut(k0, p0, kind, pages, root, dst, src[..k])
      {
        var v := (dst + k) / PGSIZE;
        OutFound(k0, p0, kind, pages, root, dst, src[..k], |src|);
        if v >= NVPN {
          OutEnd(k0, p0, kind, pages, root, dst, src[..k]);
          return -1, k;
        }
        ghost var p1, k1 := pages, kind;
        var pa := Reach(root, sz, v);
        OutReached(k0, p0, k1, p1, kind, pages, root, dst, src[..k]);
        OutFound(k0, p0, kind, pages, root, dst, src[..k], |src|);
        OutEnd(k0, p0, kind, pages, root, dst, src[..k]);
        if pa == 0 {
          return -1, k;
        }
        var perm := PermOf(root, v);
        if !perm.w {
          return -1, k;
        }
        var at := (dst + k) % PGSIZE;
        var n := Min(PGSIZE - at, |src| - k);
        ghost var p2 := pages;
        Store(root, v, pa, at, src[k..k + n]);
        OutStored(k0, p0, kind, p2, pages, root, dst, src[..k], src[k..k + n]);
        assert src[..k] + src[k..k + n] == src[..k + n];
        k := k + n;
        done := k;
      }
      OutEnd(k0, p0, kind, pages, root, dst, src[..k]);
      r := 0;
    }

    /** Copies len bytes from user address src; dst is what was read before an error, if any. */
    method Copyin(root: nat, sz: nat, src: nat, len: nat) returns (r: int, dst: seq<byte>)
      requires Valid() && Root(kind, root) && sz <= USERTOP * PGSIZE
      modifies this
      ensures Valid() && RootsKept(old(kind), kind) && |dst| <= len && r == (if |dst| == len then 0 else -1)
      ensures Wrote(old(kind), old(pages), pages, root, 0, []) && ReadAs(old(pages), root, src, dst)
      ensures MapsKept(old(kind), old(pages), pages) && (UserRange(old(pages), root, src, len, false) ==> r == 0)
      ensures r == -1 ==> Barred(pages, root, sz, (src + |dst|) / PGSIZE, false) || |free| <= 1
    {
      hide Good, FreeOk, Wrote, RootsKept, ReadAs, MapsKept, UserRange;
      ghost var p0, k0 := pages, kind;
      WroteNothing(kind, pages, root, 0);
      MapsKeptSelf(kind, pages);
      dst := [];
      ReadNothing(pages, root, src);
      while |dst| < len
        invariant |dst| <= len && Valid() && Root(kind, root) && RootsKept(k0, kind)
        invariant Wrote(k0, p0, pages, root, 0, []) && ReadAs(p0, root, src, dst) && MapsKept(k0, p0, pages)
        decreases len - |dst|
      {
        var v := (src + |dst|) / PGSIZE;
        RangeFound(k0, p0, pages, root, src, len, false, src + |dst|);
        ghost var p1, k1 := pages, kind;
        var pa := Reach(root, sz, v);
        RootStill(k1, kind, root);
        ReachedStill(k0, p0, k1, p1, kind, pages, root, 0, []);
        MapsKeptTrans(k0, p0, k1, p1, pages);
        if pa == 0 {
          return -1, dst;
        }
        var at := (src + |dst|) % PGSIZE;
        var n := Min(PGSIZE - at, len - |dst|);
        UserPage(pages, kind, root, v);
        ReadMore(k0, p0, pages, root, src, dst, v, at, n);
        dst := dst + pages[pa].bytes[at..at + n];
      }
      r := 0;
    }

    /** What copyout wrote, copyin reads back, at any alignment and length; r is copyout's result. */
    method CopyRoundTrip(root: nat, sz: nat, va: nat, bytes: seq<byte>) returns (r: int, back: seq<byte>)
      requires Valid() && Root(kind, root) && sz <= USERTOP * PGSIZE
      modifies this
      ensures Valid() && (UserRange(old(pages), root, va, |bytes|, true) ==> r == 0)
      ensures r == 0 ==> back == bytes && Wrote(old(kind), old(pages), pages, root, va, bytes)
    {
      hide Good, FreeOk, Wrote, RootsKept, ReadAs, MapsKept, UserRange;
      ghost var p0, k0, done := pages, kind, 0;
      r, done := Copyout(root, sz, va, bytes);
      if r != 0 {
        return r, [];
      }
      assert bytes[..done] == bytes;
      RootStill(k0, kind, root);
      RangeReads(pages, root, va, |bytes|);
      ghost var p1, k1 := pages, kind;
      var got;
      got, back := Copyin(root, sz, va, |bytes|);
      SameBytes(k0, p0, p1, root, va, bytes, back);
      ReachedStill(k0, p0, k1, p1, kind, pages, root, va, bytes);
    }

    /** Frees table t and the tables below it, bottom up; the leaf panic is not reached. */
    method Freewalk(t: nat, ghost root: nat) returns (panicked: bool)
      requires Good(pages, kind) && FreeOk(pages, kind, freelist, free) && Bounded(kind, first)
      requires Tree(pages, kind, root) && t < |kind| && DeadKind(kind[t], root)
      modifies this
      decreases kind[t].level
      ensures !panicked && Good(pages, kind) && FreeOk(pages, kind, freelist, free) && Bounded(kind, first)
      ensures Gone(old(pages), old(kind), pages, kind, root, old(kind)[t].level, old(kind)[t].prefix)
      ensures TreeBut(pages, kind, root, old(kind)[t].parent, old(kind)[t].prefix % ENTRIES)
      ensures SameMap(old(kind), old(pages), pages)
    {
      hide Good, FreeOk, Bounded, TreeBut, Gone, Cut, SameMap;
      ghost var p0, k0 := pages, kind;
      FreeEmpty(pages, kind, freelist, free);
      CutStart(pages, kind, root, t);
      GrewSelf(pages, kind);
      panicked := false;
      var i := 0;
      while i < ENTRIES
        invariant 0 <= i <= ENTRIES && !panicked
        invariant Good(pages, kind) && FreeOk(pages, kind, freelist, free) && Bounded(kind, first)
        invariant Tree(pages, kind, root) && Cut(p0, k0, pages, kind, root, t, i) && SameMap(k0, p0, pages)
        invariant t < |kind| == |k0| == |pages| && kind[t] == k0[t]
      {
        ghost var p1, k1 := pages, kind;
        ChildIs(pages, kind, root, t, i);
        TabsKept(p0, k0, pages, kind, root, t, i);
        var e := pages[t].ptes[i];
        if e.valid && !Leafy(e.perm) {
          var stuck := Freewalk(e.pa, root);
          panicked := panicked || stuck;
          ghost var p2, k2 := pages, kind;
          Quotient(k0[t].prefix, i);
          SlotEmpty(p1, k1, p2, k2, root, t, i);
          TabsStill(p1, k1, p2, k2, root, k0[t].level - 1, k0[t].prefix * ENTRIES + i);
          SameOver(k0, p0, k1, p1, p2);
          CutStep(p0, k0, p1, k1, p2, k2, root, t, i);
          TreeMended(p2, k2, root, t, i);
          DeadChange(p2, k2, t, Node(p2[t].ptes[i := NOPTE]), k2[t]);
          pages := SetPte(pages, t, i, NOPTE);
          assert k2[t := k2[t]] == k2;
          FreeKept(p2, k2, freelist, free, pages, kind);
          TabsKept(p0, k0, pages, kind, root, t, i + 1);
          SameOver(k0, p0, k2, p2, pages);
        } else {
          panicked := panicked || e.valid;
          CutSkip(p0, k0, pages, kind, root, t, i);
        }
        i := i + 1;
      }
      LastOne(p0, k0, pages, kind, root, t);
      NotOutside(kind, first, t);
      TreeLoses(pages, kind, root, t, Run(freelist));
      DeadChange(pages, kind, t, Run(freelist), Free);
      CutGone(p0, k0, pages, kind, root, t, Run(freelist));
      TabsKept(p0, k0, pages, kind, root, t, ENTRIES);
      SameOver(k0, p0, kind, pages, pages[t := Run(freelist)]);
      var ok := Push(t);
    }

    /** Gives back the whole address space: every page registered under root, once each, and no other. */
    method Uvmfree(root: nat, sz: nat) returns (panicked: bool)
      requires Valid() && Root(kind, root) && sz <= USERTOP * PGSIZE && NoRun(pages, root, PagesUp(sz), NVPN)
      modifies this
      ensures !panicked && Valid()
      ensures Vacated(old(pages), old(kind), pages, kind, root)
    {
      hide Good, FreeOk, Bounded, TreeBut, Gone, SameMap, SameMapBut, Released, NoRun, Retired, Teardown.Unmapped,
        Vacated;
      ghost var p0, k0 := pages, kind;
      FreeEmpty(pages, kind, freelist, free);
      panicked := false;
      ReleasedStart(pages, kind, root, 0, Free);
      if sz > 0 {
        var ok := Uvmunmap(root, 0, PagesUp(sz), true);
        panicked := !ok;
      }
      ghost var p1, k1 := pages, kind;
      NowUnmapped(p0, k0, p1, k1, root, PagesUp(sz));
      RetireGood(pages, kind, root);
      RetireTree(pages, kind, root);
      RetiredFree(pages, kind, freelist, free, first, root);
      kind := Retired(kind, root);
      ghost var k2 := kind;
      RetiredRoot(k1, root);
      var stuck := Freewalk(root, root);
      panicked := panicked || stuck;
      AllVacated(p0, k0, p1, k1, pages, kind, root, PagesUp(sz));
    }
  }

  /** Page t is the table of the given level on the way to v. */
  predicate TableFor(kind: seq<Kind>, t: nat, root: nat, level: nat, v: nat) {
    t < |kind| && kind[t].Tab? && kind[t].root == root && kind[t].level == level && kind[t].prefix == Prefix(level, v)
  }

  lemma TableIsNode(pages: seq<Page>, kind: seq<Kind>, t: nat, root: nat, level: nat, v: nat)
    requires Good(pages, kind) && TableFor(kind, t, root, level, v)
    ensures t < |pages| == |kind| && pages[t].Node?
  {
    assert PageOk(pages[t], kind[t], t);
  }

  lemma ChildTable(pages: seq<Page>, kind: seq<Kind>, t: nat, root: nat, level: nat, v: nat)
    requires Good(pages, kind) && TableFor(kind, t, root, level, v) && 0 < level <= 2 && v < NVPN
    requires Entry(pages, t, PX(level, v)).valid
    ensures TableFor(kind, Entry(pages, t, PX(level, v)).pa, root, level - 1, v)
  {
    PrefixStep(v, level);
    assert EntryOk(kind, t, kind[t], PX(level, v), Entry(pages, t, PX(level, v)));
  }

  /** Between freeing a user page and clearing its entry the two writes do not meet. */
  lemma FreedLeaf(p0: seq<Page>, k0: seq<Kind>, p1: seq<Page>, k1: seq<Kind>, first: nat, t: nat, q: nat, head: nat)
    requires Good(p0, k0) && Good(p1, k1) && Bounded(k0, first) && t < |k0| && k0[t].Tab?
    requires q < |k0| && k0[q].Leaf? && k1 == k0[q := Held]
    ensures first <= q < |p0| && q != t && p0[q].Data?
    ensures Good(p1[q := Run(head)], k0[q := Free]) && SameMap(k1, p1, p1[q := Run(head)])
  {
    assert PageOk(p0[q], k0[q], q);
    PlainChange(p1, k1, q, Run(head), Free);
    assert k1[q := Free] == k0[q := Free];
  }

  lemma SwapWrites(p0: seq<Page>, t: nat, i: nat, q: nat, page: Page)
    requires t < |p0| && q < |p0| && q != t && p0[t].Node? && i < ENTRIES
    ensures SetPte(p0[q := page], t, i, NOPTE) == SetPte(p0, t, i, NOPTE)[q := page]
  {
  }

  lemma FreedMap(k0: seq<Kind>, p0: seq<Page>, p1: seq<Page>, p2: seq<Page>, root: nat, v: nat)
    requires SameMapBut(k0, p0, p1, root, v, v + 1) && v < NVPN && Root(k0, root)
    requires Translate(p1, root, v) == NOPTE
    requires forall r, w :: Root(k0, r) && 0 <= w < NVPN ==> Translate(p2, r, w) == Translate(p1, r, w)
    ensures SameMapBut(k0, p0, p2, root, v, v + 1) && Translate(p2, root, v) == NOPTE
  {
  }

  lemma BoundedKept(k0: seq<Kind>, k1: seq<Kind>, first: nat)
    requires Bounded(k0, first) && |k1| == |k0| && forall p :: 0 <= p < |k0| ==> k1[p].Outside? == k0[p].Outside?
    ensures Bounded(k1, first)
  {
  }

  lemma HeldTabs(k0: seq<Kind>, k1: seq<Kind>, root: nat, v: nat, q: nat)
    requires q < |k0| && k0[q].Free? && k1 == k0[q := Held]
    ensures SameTabs(k0, k1) && Range(v, 1) == {v} && Tables(k1, root, {v}) == Tables(k0, root, {v})
  {
    SameTables(k0, k1, root, {v});
  }

  lemma PaidFor(k0: seq<Kind>, f0: nat, k1: seq<Kind>, f1: nat, root: nat, v: nat)
    requires Paid(k0, f0, k1, f1, root, Range(v, 1), 0)
    ensures TabsFor(k0, k1, root, {v}) && f1 + Tables(k0, root, {v}) == f0
  {
    assert Range(v, 1) == {v};
  }

  lemma PaidMap(k0: seq<Kind>, f0: nat, k1: seq<Kind>, f1: nat, k2: seq<Kind>, k3: seq<Kind>, f3: nat, root: nat,
                v: nat, done: nat, pa: nat, t: nat)
    requires Paid(k0, f0, k1, f1, root, Range(v, done), 0)
    requires TabsFor(k1, k2, root, {v + done}) && f3 + Tables(k1, root, {v + done}) == f1
    requires v + done < USERTOP ==> pa < |k2| && k2[pa].Held?
    requires k3 == if v + done < USERTOP then k2[pa := Leaf(root, v + done, t)] else k2
    ensures Paid(k0, f0, k3, f3, root, Range(v, done + 1), 0)
  {
    hide Paid, TabsFor, Tables;
    RangeOn(v, done);
    PaidStill(k1, k2, k3, root, {v + done});
    PaidOne(k0, f0, k1, f1, k3, f3, root, Range(v, done), v + done, 0);
  }

  lemma PaidStops(k0: seq<Kind>, f0: nat, k1: seq<Kind>, f1: nat, root: nat, v: nat, done: nat, n: nat, each: nat)
    requires Paid(k0, f0, k1, f1, root, Range(v, done), each) && done < n
    requires f1 < each + Tables(k1, root, {v + done})
    ensures f0 < each * n + Tables(k0, root, Range(v, n))
  {
    hide Paid, Tables;
    RangeOn(v, done);
    RangeWithin(v, done, n);
    PaidShort(k0, f0, k1, f1, root, Range(v, done), v + done, each, Range(v, n));
  }

  /** The memory that mapping all of want in an address space takes: the pages, and the tables it lacks for them. */
  ghost function Need(kind: seq<Kind>, root: nat, want: set<nat>): nat { |want| + Tables(kind, root, want) }

  lemma PaidAll(k0: seq<Kind>, f0: nat, k: seq<Kind>, f: nat, root: nat, want: set<nat>)
    requires Paid(k0, f0, k, f, root, want, 1)
    ensures f + Need(k0, root, want) == f0
  {
  }

  /** The user pages below hi. */
  ghost function MappedBelow(pages: seq<Page>, root: nat, hi: nat): set<nat> {
    set v | v in Range(0, hi) && Translate(pages, root, v).valid
  }

  lemma MappedOn(pages: seq<Page>, root: nat, a: nat)
    ensures MappedBelow(pages, root, a + 1) ==
            if Translate(pages, root, a).valid then MappedBelow(pages, root, a) + {a} else MappedBelow(pages, root, a)
    ensures a !in MappedBelow(pages, root, a)
  {
  }

  lemma MappedNone(pages: seq<Page>, root: nat)
    ensures MappedBelow(pages, root, 0) == {}
  {
  }

  /** Copying one page pays for it; a page that is not mapped costs nothing. */
  lemma CopyPaid(p0: seq<Page>, k0: seq<Kind>, f0: nat, k1: seq<Kind>, f1: nat, k2: seq<Kind>, f2: nat, from: nat,
                 to: nat, a: nat)
    requires Paid(k0, f0, k1, f1, to, MappedBelow(p0, from, a), 1)
    requires if Translate(p0, from, a).valid then TabsFor(k1, k2, to, {a}) && f2 + 1 + Tables(k1, to, {a}) == f1
             else k2 == k1 && f2 == f1
    ensures Paid(k0, f0, k2, f2, to, MappedBelow(p0, from, a + 1), 1)
  {
    hide Paid, TabsFor, Tables, MappedBelow;
    MappedOn(p0, from, a);
    if Translate(p0, from, a).valid {
      PaidOne(k0, f0, k1, f1, k2, f2, to, MappedBelow(p0, from, a), a, 1);
    }
  }

  lemma CopyShort(p0: seq<Page>, k0: seq<Kind>, f0: nat, k1: seq<Kind>, f1: nat, from: nat, to: nat, a: nat, hi: nat)
    requires Paid(k0, f0, k1, f1, to, MappedBelow(p0, from, a), 1) && a < hi && Translate(p0, from, a).valid
    requires f1 < 1 + Tables(k1, to, {a})
    ensures f0 < Need(k0, to, MappedBelow(p0, from, hi))
  {
    MappedOn(p0, from, a);
    assert MappedBelow(p0, from, a) + {a} <= MappedBelow(p0, from, hi);
    hide Paid, Tables, MappedBelow;
    PaidShort(k0, f0, k1, f1, to, MappedBelow(p0, from, a), a, 1, MappedBelow(p0, from, hi));
  }

  lemma StillMapped(k0: seq<Kind>, p0: seq<Page>, p1: seq<Page>, to: nat, hi: nat, from: nat, a: nat)
    requires SameMapBut(k0, p0, p1, to, 0, hi) && Root(k0, from) && from != to && a < NVPN
    ensures Translate(p1, from, a) == Translate(p0, from, a)
  {
  }

  lemma StillUnmapped(k0: seq<Kind>, p0: seq<Page>, p1: seq<Page>, root: nat, v: nat)
    requires SameMap(k0, p0, p1) && Root(k0, root) && v < NVPN && !Translate(p0, root, v).valid
    ensures NoRun(p1, root, v, v + 1)
  {
  }

  lemma KeptHeld(p1: seq<Page>, k1: seq<Kind>, p2: seq<Page>, k2: seq<Kind>, first: nat, q: nat)
    requires KeptBut(p1, k1, p2, k2, q, q) && Bounded(k1, first) && q < |k1| && k1[q].Held?
    ensures q < |k2| == |p2| && k2[q].Held? && first <= q
  {
  }

  lemma RootKept(p0: seq<Page>, k0: seq<Kind>, p1: seq<Page>, k1: seq<Kind>, root: nat)
    requires Grew(p0, k0, p1, k1) && Root(k0, root)
    ensures Root(k1, root) && |k1| == |k0|
  {
  }

  lemma RootKeptTo(p0: seq<Page>, k0: seq<Kind>, p1: seq<Page>, k1: seq<Kind>, root: nat, lo: nat, hi: nat)
    requires GrewTo(p0, k0, p1, k1, root, lo, hi)
    ensures |k1| == |k0| && forall r :: Root(k0, r) ==> Root(k1, r)
  {
  }

  lemma FirstUnmapped(pages: seq<Page>, root: nat, a: nat, hi: nat)
    requires NoRun(pages, root, a, hi) && a < hi
    ensures !Translate(pages, root, a).valid
  {
  }

  lemma NoRunPart(pages: seq<Page>, root: nat, lo: nat, a: nat, hi: nat)
    requires NoRun(pages, root, lo, hi) && a <= hi
    ensures NoRun(pages, root, lo, a)
  {
  }

  lemma GrewNothing(p0: seq<Page>, k0: seq<Kind>, p1: seq<Page>, k1: seq<Kind>, p2: seq<Page>, k2: seq<Kind>,
                    root: nat, lo: nat, a: nat)
    requires GrewTo(p0, k0, p1, k1, root, lo, a) && SameMapBut(k0, p0, p1, root, lo, a)
    requires Grew(p1, k1, p2, k2) && SameMap(k1, p1, p2)
    ensures GrewTo(p0, k0, p2, k2, root, lo, a) && SameMapBut(k0, p0, p2, root, lo, a)
  {
    forall r, w | Root(k0, r) && 0 <= w < NVPN && !(r == root && lo <= w < a)
      ensures Translate(p2, r, w) == Translate(p0, r, w)
    {
      assert Root(k1, r);
      assert Translate(p1, r, w) == Translate(p0, r, w);
    }
  }

  lemma UserPage(pages: seq<Page>, kind: seq<Kind>, root: nat, x: nat)
    requires Good(pages, kind) && Root(kind, root) && x < USERTOP && Translate(pages, root, x).valid
    ensures var e := Translate(pages, root, x);
            e.pa < |pages| == |kind| && pages[e.pa].Data? && IsLeaf(kind, e.pa, root, x) && Leafy(e.perm)
  {
    Path(pages, kind, root, x);
    assert PageOk(pages[Translate(pages, root, x).pa], kind[Translate(pages, root, x).pa],
           Translate(pages, root, x).pa);
  }

  /** User code may not reach virtual page v, or not write it: there is a page without that permission, or
      there is none and the address is not below sz. */
  predicate Barred(pages: seq<Page>, root: nat, sz: nat, v: nat, write: bool) {
    var e := Translate(pages, root, v);
    if v >= NVPN then true
    else if e.valid then v >= USERTOP || !e.perm.u || (write && !e.perm.w)
    else v * PGSIZE >= sz
  }

  lemma RootStill(k0: seq<Kind>, k1: seq<Kind>, root: nat)
    requires RootsKept(k0, k1) && Root(k0, root)
    ensures Root(k1, root)
  {
  }

  lemma ReachedStill(k0: seq<Kind>, p0: seq<Page>, k1: seq<Kind>, p1: seq<Page>, k2: seq<Kind>, p2: seq<Page>,
                     root: nat, dst: nat, bytes: seq<byte>)
    requires Wrote(k0, p0, p1, root, dst, bytes) && RootsKept(k0, k1) && RootsKept(k1, k2)
             && Wrote(k1, p1, p2, root, 0, [])
    ensures Wrote(k0, p0, p2, root, dst, bytes) && RootsKept(k0, k2)
  {
    forall r, x | Root(k0, r) && 0 <= x < USERTOP * PGSIZE
      ensures Byte(p2, r, x) == if r == root && dst <= x < dst + |bytes| then bytes[x - dst] else Byte(p0, r, x)
    {
      assert Root(k1, r);
      assert Byte(p1, r, x) == if r == root && dst <= x < dst + |bytes| then bytes[x - dst] else Byte(p0, r, x);
    }
  }

  /** Where copyout stands after writing `bytes`. */
  ghost predicate CopiedOut(k0: seq<Kind>, p0: seq<Page>, k1: seq<Kind>, p1: seq<Page>, root: nat, dst: nat,
                            bytes: seq<byte>) {
    && Root(k0, root) && RootsKept(k0, k1) && MapsKept(k0, p0, p1)
    && Wrote(k0, p0, p1, root, dst, bytes) && UserRange(p1, root, dst, |bytes|, true)
  }

  lemma OutStart(k0: seq<Kind>, p0: seq<Page>, root: nat, dst: nat)
    requires Root(k0, root)
    ensures CopiedOut(k0, p0, k0, p0, root, dst, [])
  {
  }

  lemma OutEnd(k0: seq<Kind>, p0: seq<Page>, k1: seq<Kind>, p1: seq<Page>, root: nat, dst: nat, bytes: seq<byte>)
    requires CopiedOut(k0, p0, k1, p1, root, dst, bytes)
    ensures RootsKept(k0, k1) && MapsKept(k0, p0, p1) && Wrote(k0, p0, p1, root, dst, bytes) && Root(k1, root)
    ensures UserRange(p1, root, dst, |bytes|, true)
  {
  }

  /** Where all of the range could be written at first, the next byte can. */
  lemma OutFound(k0: seq<Kind>, p0: seq<Page>, k1: seq<Kind>, p1: seq<Page>, root: nat, dst: nat, bytes: seq<byte>,
                 n: nat)
    requires CopiedOut(k0, p0, k1, p1, root, dst, bytes) && |bytes| < n
    ensures UserRange(p0, root, dst, n, true) ==>
              var x := dst + |bytes|;
              UserByte(p1, root, x, true) && UserByte(p1, root, x / PGSIZE * PGSIZE, false)
  {
    hide Wrote, Translate;
    RangeFound(k0, p0, p1, root, dst, n, true, dst + |bytes|);
  }

  lemma OutReached(k0: seq<Kind>, p0: seq<Page>, k1: seq<Kind>, p1: seq<Page>, k2: seq<Kind>, p2: seq<Page>, root: nat,
                   dst: nat, bytes: seq<byte>)
    requires CopiedOut(k0, p0, k1, p1, root, dst, bytes)
    requires RootsKept(k1, k2) && Wrote(k1, p1, p2, root, 0, []) && MapsKept(k1, p1, p2)
    ensures CopiedOut(k0, p0, k2, p2, root, dst, bytes)
  {
    hide Wrote, MapsKept, UserRange, Translate;
    ReachedStill(k0, p0, k1, p1, k2, p2, root, dst, bytes);
    MapsKeptTrans(k0, p0, k1, p1, p2);
    RangeKept(k1, p1, p2, root, dst, |bytes|, true);
  }

  lemma OutStored(k0: seq<Kind>, p0: seq<Page>, k1: seq<Kind>, p1: seq<Page>, p2: seq<Page>, root: nat, dst: nat,
                  bytes: seq<byte>, chunk: seq<byte>)
    requires CopiedOut(k0, p0, k1, p1, root, dst, bytes) && (dst + |bytes|) % PGSIZE + |chunk| <= PGSIZE
    requires UserByte(p1, root, dst + |bytes|, true)
    requires Wrote(k1, p1, p2, root, dst + |bytes|, chunk) && SameMap(k1, p1, p2)
    ensures CopiedOut(k0, p0, k1, p2, root, dst, bytes + chunk)
  {
    hide Wrote, MapsKept, UserRange, Translate, SameMap;
    WroteNothing(k1, p1, root, 0);
    WroteTrans(k0, p0, k1, p1, k1, p2, root, dst, bytes, chunk);
    MapsKeptSame(k1, p1, p2);
    MapsKeptTrans(k0, p0, k1, p1, p2);
    RangeGrows(p1, root, dst, |bytes|, |chunk|, true);
    RangeKept(k1, p1, p2, root, dst, |bytes + chunk|, true);
  }

  lemma ReadNothing(pages: seq<Page>, root: nat, src: nat)
    ensures ReadAs(pages, root, src, [])
  {
  }

  lemma SameBytes(k0: seq<Kind>, p0: seq<Page>, p1: seq<Page>, root: nat, va: nat, bytes: seq<byte>, back: seq<byte>)
    requires Wrote(k0, p0, p1, root, va, bytes) && Root(k0, root) && (|bytes| > 0 ==> va + |bytes| <= USERTOP * PGSIZE)
    requires ReadAs(p1, root, va, back) && |back| == |bytes|
    ensures back == bytes
  {
    forall i | 0 <= i < |bytes|
      ensures back[i] == bytes[i]
    {
      assert back[i] == Byte(p1, root, va + i);
    }
  }

  lemma NotOutside(kind: seq<Kind>, first: nat, t: nat)
    requires Bounded(kind, first) && t < |kind| && !kind[t].Outside?
    ensures first <= t
  {
  }

  predicate Belongs(k: Kind, root: nat) { (k.Tab? || k.Leaf?) && k.root == root }

  /** Exactly the pages of root have become free; other address spaces translate as before and their memory,
      and every page in other hands, is untouched. */
  ghost predicate Vacated(p0: seq<Page>, k0: seq<Kind>, p1: seq<Page>, k1: seq<Kind>, root: nat) {
    && |p1| == |k1| == |k0| == |p0|
    && (forall p :: 0 <= p < |k0| ==> k1[p] == if Belongs(k0[p], root) then Free else k0[p])
    && (forall p :: 0 <= p < |k0| && !Belongs(k0[p], root) && !k0[p].Tab? ==> p1[p] == p0[p])
    && (forall r, v {:trigger Translate(p1, r, v)} ::
          Root(k0, r) && r != root && 0 <= v < NVPN ==> Translate(p1, r, v) == Translate(p0, r, v))
  }

  lemma NowUnmapped(p0: seq<Page>, k0: seq<Kind>, p1: seq<Page>, k1: seq<Kind>, root: nat, hi: nat)
    requires Root(k0, root) && NoRun(p0, root, hi, NVPN) && hi <= USERTOP
    requires SameMapBut(k0, p0, p1, root, 0, hi) && NoRun(p1, root, 0, hi)
             && Released(p0, k0, p1, k1, root, 0, hi, Free)
    ensures Teardown.Unmapped(p1, root) && Root(k1, root)
  {
    forall v | 0 <= v < NVPN
      ensures !Translate(p1, root, v).valid
    {
      assert v >= hi ==> !Translate(p0, root, v).valid;
    }
  }

  lemma RetiredFree(pages: seq<Page>, kind: seq<Kind>, head: nat, free: seq<nat>, first: nat, root: nat)
    requires FreeOk(pages, kind, head, free) && Bounded(kind, first)
    ensures FreeOk(pages, Retired(kind, root), head, free) && Bounded(Retired(kind, root), first)
  {
    FreeKept(pages, kind, head, free, pages, Retired(kind, root));
  }

  lemma RetiredRoot(kind: seq<Kind>, root: nat)
    requires Root(kind, root)
    ensures root < |Retired(kind, root)| && Retired(kind, root)[root] == Dead(root, 2, 0, 0)
  {
  }

  lemma AllVacated(p0: seq<Page>, k0: seq<Kind>, p1: seq<Page>, k1: seq<Kind>, p2: seq<Page>, k2: seq<Kind>, root: nat,
                   hi: nat)
    requires Good(p0, k0) && Good(p1, k1) && Root(k1, root) && Teardown.Unmapped(p1, root)
    requires Released(p0, k0, p1, k1, root, 0, hi, Free) && SameMapBut(k0, p0, p1, root, 0, hi)
    requires Gone(p1, Retired(k1, root), p2, k2, root, 2, 0) && SameMap(Retired(k1, root), p1, p2)
    ensures Vacated(p0, k0, p2, k2, root)
  {
    RetireGood(p1, k1, root);
    RetireTree(p1, k1, root);
    var dead := Retired(k1, root);
    forall p | 0 <= p < |k0|
      ensures k2[p] == if Belongs(k0[p], root) then Free else k0[p]
      ensures !Belongs(k0[p], root) && !k0[p].Tab? ==> p2[p] == p0[p]
    {
      assert PageOk(p0[p], k0[p], p) && NamedOk(p1, dead, p, dead[p]);
    }
  }

  /** Taking a page from the free list and hanging it in as a table only grows the tables. */
  lemma HungTable(p0: seq<Page>, k0: seq<Kind>, p1: seq<Page>, k1: seq<Kind>, p2: seq<Page>, t: nat, k: Kind)
    requires |p0| == |k0| && t < |k0| && k0[t].Free? && k1 == k0[t := Held] && p1 == p0[t := Data(Filled(5))]
    requires SameMap(k0, p0, p1) && SameMap(k1, p1, p2) && k.Tab? && k.level < 2 && |p2| == |p1|
    requires forall q :: 0 <= q < |p1| && !k1[q].Tab? && q != t ==> p2[q] == p1[q]
    ensures Grew(p0, k0, p2, k1[t := k]) && SameMap(k0, p0, p2)
  {
    forall r, v | Root(k0, r) && 0 <= v < NVPN
      ensures Translate(p2, r, v) == Translate(p0, r, v)
    {
      assert Root(k1, r);
      assert Translate(p1, r, v) == Translate(p0, r, v);
    }
  }
}

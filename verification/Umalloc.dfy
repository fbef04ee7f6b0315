/** The first-fit allocator of user/umalloc.c. Memory is a sequence of header-sized units, address 0 is the
    null pointer, and BASE is the static header `base`, which lies below everything sbrk returns. */
module Umalloc {
  import opened Util

  const BASE: nat := 1
  const UNIT: nat := 16        // sizeof(Header)
  const NALLOC: nat := 4096    // smallest request to sbrk, in units

  datatype Header = Header(ptr: nat, size: nat)

  /** A free block: the address of its header and its length in units, header included. */
  datatype Block = Block(at: nat, size: nat)

  /** What sbrk answers: nothing, or the first unit of the new region. */
  datatype Grant = Refused | At(addr: nat)

  function Units(nbytes: nat): nat { (nbytes + UNIT - 1) / UNIT + 1 }

  /** How many units morecore asks for, and the bytes that sbrk is then asked for, as the int it takes. */
  function Asked(nu: nat): nat { if nu < NALLOC then NALLOC else nu }

  function SbrkArg(nu: nat): int {
    var bytes := Asked(nu) * UNIT % 0x1_0000_0000;
    if bytes < 0x8000_0000 then bytes else bytes - 0x1_0000_0000
  }

  /** sbrk is asked for as many bytes as morecore then records. */
  predicate AskedWhole(nbytes: nat) { SbrkArg(Units(nbytes)) == Asked(Units(nbytes)) * UNIT }

  function Next(n: nat, k: nat): nat { if k + 1 >= n then 0 else k + 1 }

  /** The node d steps after node f on a ring of n, for d up to n. */
  function Step(n: nat, f: nat, d: nat): int { if f + d < n then f + d else f + d - n }

  /** Address order, starting at base, with a gap between neighbours: no two free blocks touch. */
  ghost predicate Ordered(bs: seq<Block>) {
    && |bs| > 0 && bs[0] == Block(BASE, 0)
    && (forall i :: 0 < i < |bs| ==> bs[i].size > 0)
    && (forall i, j :: 0 <= i < j < |bs| ==> bs[i].at + bs[i].size < bs[j].at)
  }

  /** The headers in memory form one circle through the blocks in that order. */
  ghost predicate Ring(mem: seq<Header>, bs: seq<Block>) {
    && (forall k :: 0 <= k < |bs| ==>
                      bs[k].at < |mem| && bs[k].at + bs[k].size <= |mem| && mem[bs[k].at].size == bs[k].size)
    && (forall k, q :: 0 <= k < |bs| && 0 <= q < |bs| && q == Next(|bs|, k) ==> mem[bs[k].at].ptr == bs[q].at)
  }

  predicate Apart(a: Block, b: Block) { a.at + a.size <= b.at || b.at + b.size <= a.at }

  ghost predicate InFree(bs: seq<Block>, u: nat) {
    exists k :: 0 <= k < |bs| && bs[k].at <= u < bs[k].at + bs[k].size
  }

  ghost predicate InUsed(used: map<nat, nat>, u: nat) {
    exists a :: a in used && a <= u < a + used[a]
  }

  ghost predicate UsedOk(mem: seq<Header>, bs: seq<Block>, used: map<nat, nat>) {
    && (forall a :: a in used ==> BASE < a < |mem| && 0 < used[a] && a + used[a] <= |mem| && mem[a].size == used[a])
    && (forall a, b :: a in used && b in used && a != b ==> Apart(Block(a, used[a]), Block(b, used[b])))
    && (forall a, k :: a in used && 0 <= k < |bs| ==> Apart(Block(a, used[a]), bs[k]))
  }

  /** Every unit sbrk ever gave is in exactly one block (UsedOk and Ordered make it at most one). */
  ghost predicate Partition(bs: seq<Block>, used: map<nat, nat>, granted: set<nat>) {
    forall u :: u in granted <==> InFree(bs, u) || InUsed(used, u)
  }

  // ---------- putting a block back ----------

  predicate Fits(bs: seq<Block>, t: nat, b: Block) {
    && t < |bs| && bs[t].at + bs[t].size <= b.at
    && (t + 1 < |bs| ==> b.at + b.size <= bs[t + 1].at)
  }

  predicate TouchesRight(bs: seq<Block>, t: nat, b: Block) {
    t + 1 < |bs| && b.at + b.size == bs[t + 1].at
  }

  predicate TouchesLeft(bs: seq<Block>, t: nat, b: Block) {
    t < |bs| && bs[t].at + bs[t].size == b.at
  }

  /** b merged with the block after position t if they touch. */
  function Grown(bs: seq<Block>, t: nat, b: Block): Block {
    if TouchesRight(bs, t, b) then Block(b.at, b.size + bs[t + 1].size) else b
  }

  /** The list with b put back after position t and merged with the neighbours it touches. */
  function Inserted(bs: seq<Block>, t: nat, b: Block): seq<Block>
    requires t < |bs|
  {
    var g := Grown(bs, t, b);
    bs[..t]
    + (if TouchesLeft(bs, t, b) then [Block(bs[t].at, bs[t].size + g.size)] else [bs[t], g])
    + bs[(if TouchesRight(bs, t, b) then t + 2 else t + 1)..]
  }

  /** Where the put-back block ends up, and how far later blocks move. */
  function Place(bs: seq<Block>, t: nat, b: Block): nat { if TouchesLeft(bs, t, b) then t else t + 1 }

  function Shift(bs: seq<Block>, t: nat, b: Block): int {
    (if TouchesLeft(bs, t, b) then 1 else 0) + (if TouchesRight(bs, t, b) then 1 else 0) - 1
  }

  /** cs is bs with b put back after position t, index by index. */
  ghost predicate Merged(bs: seq<Block>, t: nat, b: Block, cs: seq<Block>)
    requires t < |bs|
  {
    var d, p := Shift(bs, t, b), Place(bs, t, b);
    && |cs| == |bs| - d && p < |cs|
    && (forall k {:trigger cs[k]} :: 0 <= k < t ==> cs[k] == bs[k])
    && cs[t].at == bs[t].at
    && (p != t ==> cs[t] == bs[t])
    && cs[p] == (if p == t then Block(bs[t].at, bs[t].size + Grown(bs, t, b).size) else Grown(bs, t, b))
    && (forall k {:trigger cs[k]} :: p < k < |cs| ==> cs[k] == bs[k + d])
  }

  lemma InsertedShape(bs: seq<Block>, t: nat, b: Block)
    requires t < |bs|
    ensures Merged(bs, t, b, Inserted(bs, t, b))
  {
  }

  lemma InsertedOrdered(bs: seq<Block>, t: nat, b: Block)
    requires Ordered(bs) && Fits(bs, t, b) && b.size > 0 && BASE < b.at
    ensures Ordered(Inserted(bs, t, b))
  {
    hide Inserted;
    InsertedShape(bs, t, b);
    var cs := Inserted(bs, t, b);
    var d, p := Shift(bs, t, b), Place(bs, t, b);
    forall i, j | 0 <= i < j < |cs|
      ensures cs[i].at + cs[i].size < cs[j].at
    {
      hide Ordered, Merged;
      MergedPair(bs, t, b, cs, i, j);
    }
    forall i | 0 < i < |cs|
      ensures cs[i].size > 0
    {
      assert i > p ==> cs[i] == bs[i + d];
    }
  }

  lemma MergedPair(bs: seq<Block>, t: nat, b: Block, cs: seq<Block>, i: nat, j: nat)
    requires Ordered(bs) && Fits(bs, t, b) && b.size > 0 && BASE < b.at && Merged(bs, t, b, cs) && i < j < |cs|
    ensures cs[i].at + cs[i].size < cs[j].at
  {
    var d, p := Shift(bs, t, b), Place(bs, t, b);
    if j > p {
      assert cs[j] == bs[j + d];
      if i > p {
        assert cs[i] == bs[i + d];
      } else if i < t {
        assert cs[i] == bs[i];
      } else if i == p {
        assert bs[t].at + bs[t].size < bs[j + d].at;
        assert TouchesRight(bs, t, b) ==> bs[t + 1].at + bs[t + 1].size < bs[j + d].at;
        assert !TouchesRight(bs, t, b) && j + d > t + 1 ==> bs[t + 1].at + bs[t + 1].size < bs[j + d].at;
      } else {
        assert cs[i] == bs[t] && bs[t].at + bs[t].size < bs[j + d].at;
      }
    } else {
      assert i < t ==> cs[i] == bs[i] && bs[i].at + bs[i].size < bs[t].at;
    }
  }

  lemma InsertedCovers(bs: seq<Block>, t: nat, b: Block, u: nat)
    requires Ordered(bs) && Fits(bs, t, b)
    ensures InFree(Inserted(bs, t, b), u) <==> InFree(bs, u) || b.at <= u < b.at + b.size
  {
    hide Inserted, Ordered;
    InsertedShape(bs, t, b);
    var cs := Inserted(bs, t, b);
    var d, p := Shift(bs, t, b), Place(bs, t, b);
    if InFree(bs, u) {
      var k :| 0 <= k < |bs| && bs[k].at <= u < bs[k].at + bs[k].size;
      var q := if k < t then k else if k == t then t else if k == t + 1 && TouchesRight(bs, t, b) then p else k - d;
      assert cs[q].at <= u < cs[q].at + cs[q].size;
    }
    if b.at <= u < b.at + b.size {
      assert cs[p].at <= u < cs[p].at + cs[p].size;
    }
    if InFree(cs, u) {
      var k :| 0 <= k < |cs| && cs[k].at <= u < cs[k].at + cs[k].size;
      if k < t || (k == t && u < bs[t].at + bs[t].size) {
        assert bs[k].at <= u < bs[k].at + bs[k].size;
      } else if k > p {
        assert bs[k + d].at <= u < bs[k + d].at + bs[k + d].size;
      } else if !(b.at <= u < b.at + b.size) {
        assert bs[t + 1].at <= u < bs[t + 1].at + bs[t + 1].size;
      }
    }
  }

  lemma InsertedApart(bs: seq<Block>, t: nat, b: Block, a: Block)
    requires Fits(bs, t, b) && 0 < a.size
    requires Apart(a, b) && forall k :: 0 <= k < |bs| ==> Apart(a, bs[k])
    ensures forall k :: 0 <= k < |Inserted(bs, t, b)| ==> Apart(a, Inserted(bs, t, b)[k])
  {
    hide Inserted;
    InsertedShape(bs, t, b);
    var cs := Inserted(bs, t, b);
    var d, p := Shift(bs, t, b), Place(bs, t, b);
    forall k | 0 <= k < |cs|
      ensures Apart(a, cs[k])
    {
      assert Apart(a, bs[t]);
      assert t + 1 < |bs| ==> Apart(a, bs[t + 1]);
      assert k > p ==> cs[k] == bs[k + d];
    }
  }

  /** What free writes: the header of b, then that of the block before it. */
  ghost predicate Relinked(mem: seq<Header>, bs: seq<Block>, t: nat, b: Block, mem': seq<Header>)
    requires t < |bs|
  {
    var succ := bs[Next(|bs|, t)].at;
    && |mem| == |mem'| && b.at < |mem| && bs[t].at < |mem| && succ < |mem|
    && (forall x :: 0 <= x < |mem| && x != b.at && x != bs[t].at ==> mem'[x] == mem[x])
    && mem'[b.at] == Header(if TouchesRight(bs, t, b) then mem[succ].ptr else succ, Grown(bs, t, b).size)
    && mem'[bs[t].at] == if TouchesLeft(bs, t, b) then Header(mem'[b.at].ptr, bs[t].size + mem'[b.at].size)
                         else Header(b.at, bs[t].size)
  }

  /** The pointer and size updates of free leave the circle through the merged list. */
  lemma InsertedRing(mem: seq<Header>, bs: seq<Block>, t: nat, b: Block, mem': seq<Header>)
    requires Ordered(bs) && Ring(mem, bs) && Fits(bs, t, b) && b.size > 0 && BASE < b.at && b.at + b.size <= |mem|
    requires Relinked(mem, bs, t, b, mem')
    ensures Ring(mem', Inserted(bs, t, b))
  {
    hide Inserted;
    InsertedShape(bs, t, b);
    var cs := Inserted(bs, t, b);
    forall k | 0 <= k < |cs|
      ensures LinkOk(mem', cs, k)
    {
      hide Merged, Relinked, Ring, Ordered;
      if k < t {
        LinkBefore(mem, bs, t, b, mem', cs, k);
      } else if k <= Place(bs, t, b) {
        LinkHere(mem, bs, t, b, mem', cs, k);
      } else {
        LinkAfter(mem, bs, t, b, mem', cs, k);
      }
    }
    LinksRing(mem', cs);
  }

  lemma LinksRing(mem: seq<Header>, cs: seq<Block>)
    requires forall k :: 0 <= k < |cs| ==> LinkOk(mem, cs, k)
    ensures Ring(mem, cs)
  {
    forall k, q | 0 <= k < |cs| && 0 <= q < |cs| && q == Next(|cs|, k)
      ensures cs[k].at < |mem| && mem[cs[k].at].ptr == cs[q].at
    {
      assert LinkOk(mem, cs, k);
    }
    forall k | 0 <= k < |cs|
      ensures cs[k].at < |mem| && cs[k].at + cs[k].size <= |mem| && mem[cs[k].at].size == cs[k].size
    {
      assert LinkOk(mem, cs, k);
    }
  }

  ghost predicate Restored(mem: seq<Header>, bs: seq<Block>, t: nat, b: Block, mem': seq<Header>, cs: seq<Block>) {
    && Ordered(bs) && Ring(mem, bs) && Fits(bs, t, b) && b.size > 0 && BASE < b.at && b.at + b.size <= |mem|
    && Relinked(mem, bs, t, b, mem') && Merged(bs, t, b, cs)
  }

  predicate LinkOk(mem: seq<Header>, cs: seq<Block>, k: nat)
    requires k < |cs|
  {
    && cs[k].at < |mem| && cs[k].at + cs[k].size <= |mem|
    && mem[cs[k].at] == Header(cs[Next(|cs|, k)].at, cs[k].size)
  }

  lemma LinkBefore(mem: seq<Header>, bs: seq<Block>, t: nat, b: Block, mem': seq<Header>, cs: seq<Block>, k: nat)
    requires Restored(mem, bs, t, b, mem', cs) && k < t
    ensures LinkOk(mem', cs, k)
  {
    assert bs[k].at + bs[k].size < bs[t].at;
    assert mem[bs[k].at].ptr == bs[k + 1].at;
    assert cs[k + 1].at == bs[k + 1].at;
  }

  lemma LinkAfter(mem: seq<Header>, bs: seq<Block>, t: nat, b: Block, mem': seq<Header>, cs: seq<Block>, k: nat)
    requires Restored(mem, bs, t, b, mem', cs) && Place(bs, t, b) < k < |cs|
    ensures LinkOk(mem', cs, k)
  {
    var q := k + Shift(bs, t, b);
    assert cs[k] == bs[q];
    assert bs[t].at + bs[t].size < bs[q].at;
    assert bs[t + 1].at <= bs[q].at;
    assert mem[bs[q].at].ptr == bs[Next(|bs|, q)].at;
    assert cs[0].at == bs[0].at;
    assert k + 1 < |cs| ==> cs[k + 1] == bs[q + 1];
  }

  lemma LinkHere(mem: seq<Header>, bs: seq<Block>, t: nat, b: Block, mem': seq<Header>, cs: seq<Block>, k: nat)
    requires Restored(mem, bs, t, b, mem', cs) && t <= k <= Place(bs, t, b)
    ensures LinkOk(mem', cs, k)
  {
    hide Ordered;
    var p := Place(bs, t, b);
    assert cs[0].at == bs[0].at;
    if k == p {
      assert TouchesRight(bs, t, b) ==> mem[bs[t + 1].at].ptr == bs[Next(|bs|, t + 1)].at;
      assert p + 1 < |cs| ==> cs[p + 1] == bs[p + 1 + Shift(bs, t, b)];
      assert TouchesRight(bs, t, b) ==> bs[t + 1].at + bs[t + 1].size <= |mem|;
    } else {
      assert bs[t].at + bs[t].size <= |mem|;
    }
  }

  // ---------- taking units from a block ----------

  /** The list after n units are taken from block j: the whole block, or its tail. */
  function Taken(bs: seq<Block>, j: nat, n: nat): seq<Block>
    requires j < |bs| && n <= bs[j].size
  {
    if bs[j].size == n then bs[..j] + bs[j + 1..] else bs[j := Block(bs[j].at, bs[j].size - n)]
  }

  lemma TakenOrdered(bs: seq<Block>, j: nat, n: nat)
    requires Ordered(bs) && 0 < j < |bs| && 0 < n <= bs[j].size
    ensures Ordered(Taken(bs, j, n))
    ensures forall k :: 0 <= k < |Taken(bs, j, n)| ==> Apart(Block(bs[j].at + bs[j].size - n, n), Taken(bs, j, n)[k])
  {
  }

  lemma TakenShape(bs: seq<Block>, j: nat, n: nat)
    requires j < |bs| && n <= bs[j].size
    ensures var cs := Taken(bs, j, n);
            && (bs[j].size == n ==> |cs| == |bs| - 1 && (forall k {:trigger cs[k]} :: 0 <= k < j ==> cs[k] == bs[k])
                                    && (forall k {:trigger cs[k]} :: j <= k < |cs| ==> cs[k] == bs[k + 1]))
            && (bs[j].size != n ==> |cs| == |bs| && cs[j] == Block(bs[j].at, bs[j].size - n)
                                    && (forall k {:trigger cs[k]} :: 0 <= k < |cs| && k != j ==> cs[k] == bs[k]))
  {
  }

  lemma TakenCovers(bs: seq<Block>, j: nat, n: nat, u: nat)
    requires 0 < j < |bs| && 0 < n <= bs[j].size
    ensures InFree(bs, u) <==> InFree(Taken(bs, j, n), u) || bs[j].at + bs[j].size - n <= u < bs[j].at + bs[j].size
  {
    hide Taken;
    TakenShape(bs, j, n);
    var cs := Taken(bs, j, n);
    if InFree(bs, u) && !(bs[j].at + bs[j].size - n <= u < bs[j].at + bs[j].size) {
      var k :| 0 <= k < |bs| && bs[k].at <= u < bs[k].at + bs[k].size;
      var q := if k > j && bs[j].size == n then k - 1 else k;
      assert cs[q].at <= u < cs[q].at + cs[q].size;
    }
    if InFree(cs, u) {
      var q :| 0 <= q < |cs| && cs[q].at <= u < cs[q].at + cs[q].size;
      var k := if q >= j && bs[j].size == n then q + 1 else q;
      assert bs[k].at <= u < bs[k].at + bs[k].size;
    }
    if bs[j].at + bs[j].size - n <= u < bs[j].at + bs[j].size {
      assert bs[j].at <= u < bs[j].at + bs[j].size;
    }
  }

  lemma TakenApart(bs: seq<Block>, j: nat, n: nat, a: Block)
    requires j < |bs| && 0 < n <= bs[j].size && 0 < a.size
    requires forall k :: 0 <= k < |bs| ==> Apart(a, bs[k])
    ensures forall k :: 0 <= k < |Taken(bs, j, n)| ==> Apart(a, Taken(bs, j, n)[k])
    ensures Apart(a, Block(bs[j].at + bs[j].size - n, n))
  {
    var cs := Taken(bs, j, n);
    assert Apart(a, bs[j]);
    forall k | 0 <= k < |cs|
      ensures Apart(a, cs[k])
    {
      assert bs[j].size == n ==> cs[k] == bs[if k < j then k else k + 1];
      assert bs[j].size != n && k != j ==> cs[k] == bs[k];
    }
  }

  /** Unlinking block j, when it fits exactly. */
  lemma TakenWholeRing(mem: seq<Header>, bs: seq<Block>, j: nat, mem': seq<Header>)
    requires Ordered(bs) && Ring(mem, bs) && 0 < j < |bs| && |mem'| == |mem|
    requires forall x :: 0 <= x < |mem| && x != bs[j - 1].at ==> mem'[x] == mem[x]
    requires mem'[bs[j - 1].at] == Header(mem[bs[j].at].ptr, bs[j - 1].size)
    ensures Ring(mem', Taken(bs, j, bs[j].size))
  {
    hide Taken;
    TakenShape(bs, j, bs[j].size);
    var cs := Taken(bs, j, bs[j].size);
    forall k | 0 <= k < |cs|
      ensures cs[k].at < |mem'| && cs[k].at + cs[k].size <= |mem'|
      ensures mem'[cs[k].at] == Header(cs[Next(|cs|, k)].at, cs[k].size)
    {
      var q := if k < j then k else k + 1;
      assert cs[k] == bs[q];
      assert mem[bs[q].at] == Header(bs[Next(|bs|, q)].at, bs[q].size);
      assert cs[0].at == bs[0].at;
      assert mem[bs[j].at] == Header(bs[Next(|bs|, j)].at, bs[j].size);
      assert k + 1 < |cs| ==> cs[k + 1] == bs[if k + 1 < j then k + 1 else k + 2];
      assert q < j - 1 ==> bs[q].at + bs[q].size < bs[j - 1].at;
      assert q > j - 1 ==> bs[j - 1].at + bs[j - 1].size < bs[q].at;
    }
  }

  /** Cutting n units off the end of block j. */
  lemma TakenTailRing(mem: seq<Header>, bs: seq<Block>, j: nat, n: nat, mem': seq<Header>)
    requires Ordered(bs) && Ring(mem, bs) && 0 < j < |bs| && 0 < n < bs[j].size && |mem'| == |mem|
    requires forall x :: 0 <= x < |mem| && x != bs[j].at && x != bs[j].at + bs[j].size - n ==> mem'[x] == mem[x]
    requires mem'[bs[j].at] == Header(mem[bs[j].at].ptr, bs[j].size - n)
    ensures Ring(mem', Taken(bs, j, n))
  {
    var cs := Taken(bs, j, n);
    forall k | 0 <= k < |cs|
      ensures cs[k].at < |mem'| && cs[k].at + cs[k].size <= |mem'|
      ensures mem'[cs[k].at] == Header(cs[Next(|cs|, k)].at, cs[k].size)
    {
      assert cs[Next(|cs|, k)].at == bs[Next(|bs|, k)].at;
      assert k < j ==> bs[k].at + bs[k].size < bs[j].at;
      assert k > j ==> bs[j].at + bs[j].size < bs[k].at;
    }
  }

  /** The last block below an address. */
  ghost function LastBelow(bs: seq<Block>, bp: nat): (t: nat)
    requires Ordered(bs) && BASE < bp
    requires forall k :: 0 <= k < |bs| ==> bs[k].at != bp
    ensures t < |bs| && bs[t].at < bp && (t + 1 < |bs| ==> bp < bs[t + 1].at)
  { Below(bs, bp, |bs| - 1) }

  ghost function Below(bs: seq<Block>, bp: nat, k: nat): (t: nat)
    requires Ordered(bs) && BASE < bp && k < |bs|
    requires forall q :: 0 <= q < |bs| ==> bs[q].at != bp
    requires k + 1 < |bs| ==> bp < bs[k + 1].at
    ensures t < |bs| && bs[t].at < bp && (t + 1 < |bs| ==> bp < bs[t + 1].at)
  { if bs[k].at < bp then k else Below(bs, bp, k - 1) }

  /** The place of b in the list, and what free reads from memory there. */
  lemma FreeSetup(mem: seq<Header>, bs: seq<Block>, b: Block) returns (t: nat)
    requires Ordered(bs) && Ring(mem, bs) && BASE < b.at && 0 < b.size
    requires forall k :: 0 <= k < |bs| ==> Apart(b, bs[k])
    ensures Fits(bs, t, b) && bs[t].at < b.at && (t + 1 < |bs| ==> b.at < bs[t + 1].at)
    ensures bs[t].at < |mem| && bs[Next(|bs|, t)].at < |mem| && bs[Next(|bs|, t)].at != b.at
    ensures mem[bs[t].at] == Header(bs[Next(|bs|, t)].at, bs[t].size)
    ensures mem[bs[Next(|bs|, t)].at].size == bs[Next(|bs|, t)].size
    ensures b.at + b.size == bs[Next(|bs|, t)].at <==> TouchesRight(bs, t, b)
  {
    assert forall k :: 0 <= k < |bs| ==> bs[k].at != b.at by {
      assert forall k :: 0 <= k < |bs| ==> Apart(b, bs[k]);
    }
    t := LastBelow(bs, b.at);
    assert Apart(b, bs[t]);
    assert t + 1 < |bs| ==> Apart(b, bs[t + 1]);
  }

  lemma InsertedHas(bs: seq<Block>, t: nat, b: Block)
    requires t < |bs|
    ensures t < |Inserted(bs, t, b)| && Inserted(bs, t, b)[t].at == bs[t].at
    ensures Inserted(bs, t, b)[t].size >= b.size || Inserted(bs, t, b)[Next(|Inserted(bs, t, b)|, t)].size >= b.size
  {
    hide Inserted;
    InsertedShape(bs, t, b);
  }

  // ---------- the allocator ----------

  /** Nothing inside a block in use has changed. */
  ghost predicate Kept(mem: seq<Header>, mem': seq<Header>, used: map<nat, nat>) {
    && |mem| <= |mem'|
    && forall a, u :: a in used && a <= u < a + used[a] && u < |mem| ==> mem'[u] == mem[u]
  }

  lemma FreedPartition(bs: seq<Block>, used: map<nat, nat>, granted: set<nat>, t: nat, bp: nat)
    requires Partition(bs, used, granted) && Ordered(bs) && bp in used && Fits(bs, t, Block(bp, used[bp]))
    ensures Partition(Inserted(bs, t, Block(bp, used[bp])), used - {bp}, granted)
  {
    var cs, rest := Inserted(bs, t, Block(bp, used[bp])), used - {bp};
    forall u: nat
      ensures u in granted <==> InFree(cs, u) || InUsed(rest, u)
    {
      InsertedCovers(bs, t, Block(bp, used[bp]), u);
      if InUsed(used, u) && !(bp <= u < bp + used[bp]) {
        var a :| a in used && a <= u < a + used[a];
        assert a in rest && rest[a] == used[a];
      }
      if InUsed(rest, u) {
        var a :| a in rest && a <= u < a + rest[a];
        assert a in used && used[a] == rest[a];
      }
      if bp <= u < bp + used[bp] {
        assert InUsed(used, u);
      }
    }
  }

  lemma GrantedPartition(bs: seq<Block>, used: map<nat, nat>, granted: set<nat>, t: nat, b: Block)
    requires Partition(bs, used, granted) && Ordered(bs) && Fits(bs, t, b)
    ensures Partition(Inserted(bs, t, b), used, granted + Range(b.at, b.size))
  {
    forall u: nat
      ensures u in granted + Range(b.at, b.size) <==> InFree(Inserted(bs, t, b), u) || InUsed(used, u)
    {
      InsertedCovers(bs, t, b, u);
    }
  }

  lemma TakenPartition(bs: seq<Block>, used: map<nat, nat>, granted: set<nat>, j: nat, n: nat)
    requires Partition(bs, used, granted) && Ordered(bs) && 0 < j < |bs| && 0 < n <= bs[j].size
    requires bs[j].at + bs[j].size - n !in used
    ensures Partition(Taken(bs, j, n), used[bs[j].at + bs[j].size - n := n], granted)
  {
    var a0 := bs[j].at + bs[j].size - n;
    var cs, more := Taken(bs, j, n), used[a0 := n];
    forall u: nat
      ensures u in granted <==> InFree(cs, u) || InUsed(more, u)
    {
      TakenCovers(bs, j, n, u);
      if InUsed(used, u) {
        var a :| a in used && a <= u < a + used[a];
        assert a in more && more[a] == used[a];
      }
      if InUsed(more, u) && !(a0 <= u < a0 + n) {
        var a :| a in more && a <= u < a + more[a];
        assert a in used && used[a] == more[a];
      }
      if a0 <= u < a0 + n {
        assert a0 in more && more[a0] == n;
      }
    }
  }

  lemma FreedUsed(mem: seq<Header>, bs: seq<Block>, used: map<nat, nat>, t: nat, bp: nat, mem': seq<Header>)
    requires UsedOk(mem, bs, used) && Ordered(bs) && bp in used && Fits(bs, t, Block(bp, used[bp])) && |mem'| == |mem|
    requires forall x :: 0 <= x < |mem| && x != bp && x != bs[t].at ==> mem'[x] == mem[x]
    ensures UsedOk(mem', Inserted(bs, t, Block(bp, used[bp])), used - {bp}) && Kept(mem, mem', used - {bp})
  {
    var rest := used - {bp};
    forall a | a in rest
      ensures forall k :: 0 <= k < |Inserted(bs, t, Block(bp, used[bp]))| ==>
                            Apart(Block(a, used[a]), Inserted(bs, t, Block(bp, used[bp]))[k])
      ensures Apart(Block(a, used[a]), bs[t]) && Apart(Block(a, used[a]), Block(bp, used[bp]))
    {
      InsertedApart(bs, t, Block(bp, used[bp]), Block(a, used[a]));
    }
  }

  class Allocator {
    var mem: seq<Header>
    var freep: nat
    ghost var bs: seq<Block>
    ghost var used: map<nat, nat>
    ghost var granted: set<nat>

    ghost predicate Listed()
      reads this
    { Ordered(bs) && Ring(mem, bs) && exists k :: 0 <= k < |bs| && bs[k].at == freep }

    ghost predicate Valid()
      reads this
    {
      && |mem| > BASE
      && UsedOk(mem, bs, used) && Partition(bs, used, granted)
      && (if freep == 0 then bs == [] && used == map[] else Listed())
    }

    constructor ()
      ensures Valid() && freep == 0 && granted == {}
    {
      mem := [Header(0, 0), Header(0, 0)];
      freep := 0;
      bs, used, granted := [], map[], {};
    }

    /** The body of free, on a block that is apart from every free one. */
    method FreeBlock(bp: nat) returns (ghost t: nat)
      requires Listed()
      requires BASE < bp < |mem| && 0 < mem[bp].size && bp + mem[bp].size <= |mem|
      requires forall k :: 0 <= k < |bs| ==> Apart(Block(bp, mem[bp].size), bs[k])
      modifies this`mem, this`freep, this`bs
      ensures t < |old(bs)| && Fits(old(bs), t, Block(bp, old(mem)[bp].size))
      ensures bs == Inserted(old(bs), t, Block(bp, old(mem)[bp].size)) && Listed()
      ensures t < |bs| && freep == bs[t].at == old(bs)[t].at
      ensures |mem| == |old(mem)|
      ensures forall x :: 0 <= x < |mem| && x != bp && x != freep ==> mem[x] == old(mem)[x]
    {
      hide Ordered, Ring, Inserted;
      ghost var b := Block(bp, mem[bp].size);
      t := FreeSetup(mem, bs, b);
      var p := Predecessor(bp, t);
      if bp + mem[bp].size == mem[p].ptr {
        mem := mem[bp := Header(mem[mem[p].ptr].ptr, mem[bp].size + mem[mem[p].ptr].size)];
      } else {
        mem := mem[bp := Header(mem[p].ptr, mem[bp].size)];
      }
      if p + mem[p].size == bp {
        mem := mem[p := Header(mem[bp].ptr, mem[p].size + mem[bp].size)];
      } else {
        mem := mem[p := Header(bp, mem[p].size)];
      }
      freep := p;
      InsertedRing(old(mem), bs, t, b, mem);
      InsertedOrdered(bs, t, b);
      InsertedHas(bs, t, b);
      bs := Inserted(bs, t, b);
    }

    /** The search of free: it stops at the last free block below bp, from wherever freep points. */
    method Predecessor(bp: nat, ghost t: nat) returns (p: nat)
      requires Listed() && BASE < bp
      requires t < |bs| && bs[t].at < bp && (t + 1 < |bs| ==> bp < bs[t + 1].at)
      ensures p == bs[t].at
    {
      hide Ordered, Ring;
      p := freep;
      ghost var k :| 0 <= k < |bs| && bs[k].at == p;
      NodeAt(mem, bs, k);
      while !(bp > p && bp < mem[p].ptr)
        invariant 0 <= k < |bs| && bs[k].at == p
        invariant p < |mem| && mem[p].ptr == bs[Next(|bs|, k)].at
        decreases if k <= t then t - k else t + |bs| - k
      {
        SearchStep(bs, bp, t, k);
        if p >= mem[p].ptr && (bp > p || bp < mem[p].ptr) {
          break;
        }
        p := mem[p].ptr;
        k := Next(|bs|, k);
        NodeAt(mem, bs, k);
      }
      SearchStep(bs, bp, t, k);
    }

    method Free(ap: nat)
      requires Valid() && 0 < ap && ap - 1 in used
      modifies this
      ensures Valid() && granted == old(granted)
      ensures used == old(used) - {ap - 1}
      ensures Kept(old(mem), mem, used)
    {
      var bp := ap - 1;
      ghost var t := FreeBlock(bp);
      FreedUsed(old(mem), old(bs), used, t, bp, mem);
      FreedPartition(old(bs), used, granted, t, bp);
      used := used - {bp};
    }

    /** t is where the new block went: it, or the block it was merged into, now has room. */
    method Morecore(nu: nat, grant: Grant) returns (q: nat, ghost t: nat)
      requires Valid() && freep != 0 && 0 < nu
      requires grant.At? ==> |mem| <= grant.addr
      modifies this
      ensures Valid() && freep != 0 && used == old(used) && Kept(old(mem), mem, used)
      ensures grant.Refused? ==>
                q == 0 && mem == old(mem) && freep == old(freep) && bs == old(bs) && granted == old(granted)
      ensures grant.At? ==>
                && q == freep && t < |bs| && bs[t].at == freep
                && (bs[t].size >= nu || bs[Next(|bs|, t)].size >= nu)
                && granted == old(granted) + Grants(grant.addr, nu)
    {
      hide Ordered, Ring, UsedOk, Partition, Inserted, Kept;
      var n := Asked(nu);
      if grant.Refused? {
        KeptSelf(mem, used);
        return 0, 0;
      }
      var hp := grant.addr;
      mem := mem + seq(hp + n - |mem|, _ => Header(0, 0));
      mem := mem[hp := Header(0, n)];
      ghost var m1 := mem;
      MemoryExtended(old(mem), bs, used, m1, Block(hp, n));
      t := FreeBlock(hp);
      GrantedUsed(m1, old(bs), used, t, Block(hp, n), mem);
      KeptTrans(old(mem), m1, mem, used);
      InsertedHas(old(bs), t, Block(hp, n));
      GrantedPartition(old(bs), used, granted, t, Block(hp, n));
      granted := granted + Range(hp, n);
      NodeAt(mem, bs, t);
      q := freep;
    }

    /** Taking n units from block j, whose predecessor in the circle is prevp. */
    method Take(prevp: nat, p: nat, n: nat, ghost j: nat) returns (a: nat)
      requires Valid() && freep != 0
      requires 0 < j < |bs| && bs[j].at == p && bs[j - 1].at == prevp && 0 < n <= bs[j].size
      modifies this
      ensures Valid() && freep == prevp && granted == old(granted)
      ensures a > BASE && a !in old(used) && used == old(used)[a := n]
      ensures Kept(old(mem), mem, old(used))
    {
      hide Ordered, Ring, UsedOk, Partition, Taken, Kept;
      NodeAt(mem, bs, j);
      NodeAt(mem, bs, j - 1);
      NodesApart(bs, j - 1, j);
      TakenOrdered(bs, j, n);
      a := p;
      if mem[p].size == n {
        mem := mem[prevp := mem[prevp].(ptr := mem[p].ptr)];
        TakenWholeRing(old(mem), bs, j, mem);
      } else {
        mem := mem[p := mem[p].(size := mem[p].size - n)];
        a := p + mem[p].size;
        mem := mem[a := mem[a].(size := n)];
        TakenTailRing(old(mem), bs, j, n, mem);
      }
      freep := prevp;
      TakenUsed(old(mem), bs, used, j, n, mem);
      TakenPartition(bs, used, granted, j, n);
      bs := Taken(bs, j, n);
      used := used[a := n];
      TakenHas(old(bs), j, n);
    }

    /** grant is what sbrk would answer if asked; it is asked at most once. A null result means that no
        free block was large enough and sbrk refused. `broken` stands for the state in which morecore has recorded
        more units than it asked sbrk for; the model stops before it. */
    method Malloc(nbytes: nat, grant: Grant) returns (ap: nat, broken: bool)
      requires Valid() && nbytes < 0x1_0000_0000
      requires grant.At? ==> |mem| <= grant.addr
      modifies this
      ensures Valid()
      ensures broken <==> nbytes > 0x7fff_ffe0 && grant.At? && NoneFits(old(bs), Units(nbytes))
      ensures broken ==> ap == 0 && used == old(used) && granted == old(granted)
      ensures ap == 0 && !broken ==>
                grant.Refused? && used == old(used) && granted == old(granted) && NoneFits(old(bs), Units(nbytes))
      ensures ap != 0 ==>
                && ap - 1 !in old(used) && used == old(used)[ap - 1 := Units(nbytes)]
                && (granted == old(granted)
                    || (grant.At? && granted == old(granted) + Grants(grant.addr, Units(nbytes))))
      ensures Kept(old(mem), mem, old(used))
    {
      hide Valid, Listed, Kept, SmallSoFar, Begun, Units, Grants, AskedWhole, NoneFits;
      AskedWholeExactly(nbytes);
      var n := Units(nbytes);
      UnitsFit(nbytes);
      ghost var f := Start();
      var prevp := freep;
      ghost var c, room, grown := 1, 0, false;
      Node(f);
      NoneYet(bs, f, n);
      var p := mem[prevp].ptr;
      while true
        invariant Valid() && freep != 0 && used == old(used) && Kept(old(mem), mem, used)
        invariant 0 <= f < |bs| && bs[f].at == freep && 1 <= c <= |bs|
        invariant prevp == bs[Step(|bs|, f, c - 1)].at && p == bs[Step(|bs|, f, c)].at
        invariant !grown ==> granted == old(granted) && |mem| == |old(mem)|
        invariant !grown ==> Begun(old(bs), bs) && SmallSoFar(bs, f, c, n)
        invariant grown ==> AskedWhole(nbytes) && grant.At? && granted == old(granted) + Grants(grant.addr, n)
        invariant grown ==> c <= room <= |bs| && bs[Step(|bs|, f, room)].size >= n
        decreases !grown, |bs| - c
      {
        ghost var j := Step(|bs|, f, c);
        Node(j);
        ghost var m1 := mem;
        if mem[p].size >= n {
          if !grown {
            SomeLarge(old(bs), bs, j, n);
          }
          var a := Take(prevp, p, n, j);
          KeptTrans(old(mem), m1, mem, old(used));
          return a + 1, false;
        }
        Distinct(f, j);
        SmallStep(bs, f, c, n);
        if p == freep {
          if !AskedWhole(nbytes) && grant.At? {
            AllSmall(old(bs), bs, f, n);
            return 0, true;
          }
          var q;
          ghost var t;
          q, t := Morecore(n, grant);
          KeptTrans(old(mem), m1, mem, used);
          if q == 0 {
            AllSmall(old(bs), bs, f, n);
            return 0, false;
          }
          p := q;
          f, c, grown := t, 0, true;
          room := if bs[Next(|bs|, t)].size >= n then 1 else |bs|;
          Node(t);
        }
        prevp := p;
        p := mem[p].ptr;
        c := c + 1;
      }
    }

    /** The first call sets up the circle of base alone. */
    method Start() returns (ghost f: nat)
      requires Valid()
      modifies this`mem, this`freep, this`bs
      ensures Valid() && freep != 0 && |mem| == |old(mem)| && Begun(old(bs), bs) && Kept(old(mem), mem, used)
      ensures f < |bs| && bs[f].at == freep
    {
      if freep == 0 {
        mem := mem[BASE := Header(BASE, 0)];
        freep := BASE;
        bs := [Block(BASE, 0)];
      }
      f :| 0 <= f < |bs| && bs[f].at == freep;
    }

    lemma Node(k: nat)
      requires Valid() && freep != 0 && k < |bs|
      ensures bs[k].at < |mem| && mem[bs[k].at] == Header(bs[Next(|bs|, k)].at, bs[k].size)
      ensures k == 0 ==> bs[k].size == 0
    {
      NodeAt(mem, bs, k);
    }

    lemma Distinct(i: nat, j: nat)
      requires Valid() && freep != 0 && i < |bs| && j < |bs|
      ensures bs[i].at == bs[j].at ==> i == j
    {
      NodesApart(bs, i, j);
    }
  }

  ghost function Grants(addr: nat, n: nat): set<nat> { Range(addr, Asked(n)) }

  /** The conversion to int is exact for requests up to 0x7fffffe0 bytes and for no larger one. */
  lemma AskedWholeExactly(nbytes: nat)
    requires nbytes < 0x1_0000_0000
    ensures AskedWhole(nbytes) <==> nbytes <= 0x7fff_ffe0
    ensures nbytes > 0x7fff_ffe0 ==> SbrkArg(Units(nbytes)) < Units(nbytes) * UNIT
  {
    var n := Units(nbytes);
    UnitsFit(nbytes);
    assert Asked(n) * UNIT <= 0x1_0000_0010;
    if nbytes > 0x7fff_ffe0 {
      assert 0x8000_0000 <= n * UNIT;
    } else {
      assert n * UNIT < 0x8000_0000;
    }
  }

  /** The largest request asks sbrk for a single unit and records 0x10000001 of them. */
  lemma LargestRequest()
    ensures SbrkArg(Units(0xffff_ffff)) == UNIT && Units(0xffff_ffff) == 0x1000_0001
  {
  }

  /** The blocks met before the c-th step from f are too small. */
  /** No free block has n units. */
  ghost predicate NoneFits(bs: seq<Block>, n: nat) { forall k :: 0 <= k < |bs| ==> bs[k].size < n }

  ghost predicate SmallSoFar(bs: seq<Block>, f: nat, c: nat, n: nat)
    requires f < |bs| && c <= |bs| + 1
  { forall d :: 1 <= d < c ==> bs[Step(|bs|, f, d)].size < n }

  lemma NoneYet(bs: seq<Block>, f: nat, n: nat)
    requires f < |bs|
    ensures SmallSoFar(bs, f, 1, n)
  {
  }

  lemma SmallStep(bs: seq<Block>, f: nat, c: nat, n: nat)
    requires f < |bs| && 1 <= c <= |bs| && bs[Step(|bs|, f, c)].size < n
    ensures SmallSoFar(bs, f, c, n) ==> SmallSoFar(bs, f, c + 1, n)
  {
  }

  /** The free list before malloc, or just base where there was none. */
  predicate Begun(bs0: seq<Block>, bs: seq<Block>) { bs == bs0 || (bs0 == [] && bs == [Block(BASE, 0)]) }

  lemma SomeLarge(bs0: seq<Block>, bs: seq<Block>, j: nat, n: nat)
    requires Begun(bs0, bs) && j < |bs| && bs[j].size >= n > 0
    ensures !NoneFits(bs0, n)
  {
  }

  lemma AllSmall(bs0: seq<Block>, bs: seq<Block>, f: nat, n: nat)
    requires Begun(bs0, bs) && f < |bs| && SmallSoFar(bs, f, |bs| + 1, n)
    ensures NoneFits(bs0, n)
  {
    forall k | 0 <= k < |bs|
      ensures bs[k].size < n
    {
      var d := if k > f then k - f else k - f + |bs|;
      assert bs[Step(|bs|, f, d)].size < n;
    }
  }

  lemma NodeAt(mem: seq<Header>, bs: seq<Block>, k: nat)
    requires Ordered(bs) && Ring(mem, bs) && k < |bs|
    ensures bs[k].at < |mem| && bs[k].at + bs[k].size <= |mem|
    ensures mem[bs[k].at] == Header(bs[Next(|bs|, k)].at, bs[k].size)
    ensures k == 0 ==> bs[k].size == 0
    ensures bs[k].at >= BASE
  {
  }

  /** The two exit tests of free's search hold together at the last block below bp and nowhere else. */
  lemma SearchStep(bs: seq<Block>, bp: nat, t: nat, k: nat)
    requires Ordered(bs) && BASE < bp && k < |bs|
    requires t < |bs| && bs[t].at < bp && (t + 1 < |bs| ==> bp < bs[t + 1].at)
    ensures var p, q := bs[k].at, bs[Next(|bs|, k)].at;
            (bp > p && bp < q) || (p >= q && (bp > p || bp < q)) <==> k == t
  {
    assert k < t ==> bs[k].at < bs[t].at && bs[k + 1].at <= bs[t].at;
    assert k > t ==> bs[t + 1].at <= bs[k].at;
    assert k + 1 < |bs| ==> bs[k].at < bs[k + 1].at;
    assert bs[0].at <= bs[k].at;
  }

  lemma NodesApart(bs: seq<Block>, i: nat, j: nat)
    requires Ordered(bs) && i < |bs| && j < |bs|
    ensures bs[i].at == bs[j].at ==> i == j
    ensures i < j ==> bs[i].at + bs[i].size < bs[j].at
  {
  }

  lemma KeptSelf(mem: seq<Header>, used: map<nat, nat>)
    ensures Kept(mem, mem, used)
  {
  }

  lemma KeptTrans(m0: seq<Header>, m1: seq<Header>, m2: seq<Header>, used: map<nat, nat>)
    requires Kept(m0, m1, used) && Kept(m1, m2, used)
    ensures Kept(m0, m2, used)
  {
  }

  lemma TakenHas(bs: seq<Block>, j: nat, n: nat)
    requires 0 < j < |bs| && n <= bs[j].size
    ensures j - 1 < |Taken(bs, j, n)| && Taken(bs, j, n)[j - 1].at == bs[j - 1].at
  {
  }

  lemma MemoryExtended(mem: seq<Header>, bs: seq<Block>, used: map<nat, nat>, mem': seq<Header>, b: Block)
    requires Ring(mem, bs) && UsedOk(mem, bs, used) && 0 < b.size
    requires |mem| <= b.at && |mem'| == b.at + b.size && mem <= mem'
    ensures Ring(mem', bs) && UsedOk(mem', bs, used) && Kept(mem, mem', used)
    ensures forall k :: 0 <= k < |bs| ==> Apart(b, bs[k])
    ensures forall a :: a in used ==> a + used[a] <= b.at
  {
    assert forall x :: 0 <= x < |mem| ==> mem'[x] == mem[x];
  }

  lemma GrantedUsed(mem: seq<Header>, bs: seq<Block>, used: map<nat, nat>, t: nat, b: Block, mem': seq<Header>)
    requires UsedOk(mem, bs, used) && Ordered(bs) && Fits(bs, t, b) && |mem'| == |mem| && 0 < b.size
    requires forall a :: a in used ==> a + used[a] <= b.at
    requires forall x :: 0 <= x < |mem| && x != b.at && x != bs[t].at ==> mem'[x] == mem[x]
    ensures UsedOk(mem', Inserted(bs, t, b), used) && Kept(mem, mem', used)
  {
    forall a | a in used
      ensures forall k :: 0 <= k < |Inserted(bs, t, b)| ==> Apart(Block(a, used[a]), Inserted(bs, t, b)[k])
      ensures Apart(Block(a, used[a]), bs[t])
    {
      InsertedApart(bs, t, b, Block(a, used[a]));
    }
  }

  lemma TakenUsed(mem: seq<Header>, bs: seq<Block>, used: map<nat, nat>, j: nat, n: nat, mem': seq<Header>)
    requires UsedOk(mem, bs, used) && Ordered(bs) && Ring(mem, bs) && 0 < j < |bs| && 0 < n <= bs[j].size
             && |mem'| == |mem|
    requires var a := bs[j].at + bs[j].size - n;
             && (forall x :: 0 <= x < |mem| && x != bs[j - 1].at && x != bs[j].at && x != a ==> mem'[x] == mem[x])
             && mem'[a].size == n
    ensures var a := bs[j].at + bs[j].size - n;
            && a !in used
            && UsedOk(mem', Taken(bs, j, n), used[a := n]) && Kept(mem, mem', used)
  {
    var a := bs[j].at + bs[j].size - n;
    TakenOrdered(bs, j, n);
    forall x | x in used
      ensures forall k :: 0 <= k < |Taken(bs, j, n)| ==> Apart(Block(x, used[x]), Taken(bs, j, n)[k])
      ensures Apart(Block(x, used[x]), Block(a, n)) && x != a
      ensures Apart(Block(x, used[x]), bs[j]) && Apart(Block(x, used[x]), bs[j - 1])
    {
      TakenApart(bs, j, n, Block(x, used[x]));
    }
  }

  // ---------- the account ----------

  ghost function SumFree(bs: seq<Block>): nat { if bs == [] then 0 else SumFree(bs[..|bs| - 1]) + bs[|bs| - 1].size }

  ghost function SumUsed(used: map<nat, nat>): nat {
    if used == map[] then 0 else (var a :| a in used; used[a] + SumUsed(used - {a}))
  }

  /** Taking one block's units out of a set that holds them. */
  lemma Carved(granted: set<nat>, lo: nat, n: nat)
    requires Range(lo, n) <= granted
    ensures |granted| == n + |granted - Range(lo, n)|
  {
    assert granted == Range(lo, n) + (granted - Range(lo, n));
  }

  ghost predicate Disjoint(bs: seq<Block>) {
    forall i, j :: 0 <= i < j < |bs| ==> bs[i].at + bs[i].size <= bs[j].at
  }

  /** A unit outside the last block is free if and only if it is in one of the others. */
  lemma PeelLast(bs: seq<Block>, u: nat)
    requires Disjoint(bs) && bs != []
    ensures var n := |bs| - 1; var inside := bs[n].at <= u < bs[n].at + bs[n].size;
            && (InFree(bs, u) && !inside <==> InFree(bs[..n], u))
            && (inside ==> InFree(bs, u))
  {
    var n := |bs| - 1;
    var rest := bs[..n];
    if InFree(rest, u) {
      var k :| 0 <= k < |rest| && rest[k].at <= u < rest[k].at + rest[k].size;
      assert bs[k].at <= u < bs[k].at + bs[k].size && bs[k].at + bs[k].size <= bs[n].at;
    }
    if InFree(bs, u) && !(bs[n].at <= u < bs[n].at + bs[n].size) {
      var k :| 0 <= k < |bs| && bs[k].at <= u < bs[k].at + bs[k].size;
      assert rest[k].at <= u < rest[k].at + rest[k].size;
    }
  }

  lemma {:induction false} FreeCount(bs: seq<Block>, granted: set<nat>)
    requires Disjoint(bs) && forall u :: u in granted <==> InFree(bs, u)
    ensures |granted| == SumFree(bs)
  {
    if bs == [] {
      assert granted == {};
    } else {
      hide InFree;
      var n := |bs| - 1;
      var b := bs[n];
      forall u: nat
        ensures u in granted - Range(b.at, b.size) <==> InFree(bs[..n], u)
        ensures u in Range(b.at, b.size) ==> u in granted
      {
        PeelLast(bs, u);
      }
      Carved(granted, b.at, b.size);
      FreeCount(bs[..n], granted - Range(b.at, b.size));
    }
  }

  /** Every unit sbrk gave is accounted for: free and used sizes add up to what was granted. */
  lemma {:induction false} Conservation(mem: seq<Header>, bs: seq<Block>, used: map<nat, nat>, granted: set<nat>)
    requires Disjoint(bs) && UsedOk(mem, bs, used) && Partition(bs, used, granted)
    ensures |granted| == SumFree(bs) + SumUsed(used)
    decreases |used|
  {
    if used == map[] {
      assert forall u :: !InUsed(used, u);
      FreeCount(bs, granted);
    } else {
      var a :| a in used && SumUsed(used) == used[a] + SumUsed(used - {a});
      var rest := used - {a};
      PeelUsed(mem, bs, used, granted, a);
      Carved(granted, a, used[a]);
      Conservation(mem, bs, rest, granted - Range(a, used[a]));
    }
  }

  lemma PeelUsed(mem: seq<Header>, bs: seq<Block>, used: map<nat, nat>, granted: set<nat>, a: nat)
    requires UsedOk(mem, bs, used) && Partition(bs, used, granted) && a in used
    ensures Range(a, used[a]) <= granted && Partition(bs, used - {a}, granted - Range(a, used[a]))
    ensures UsedOk(mem, bs, used - {a})
  {
    forall u: nat
      ensures u in granted - Range(a, used[a]) <==> InFree(bs, u) || InUsed(used - {a}, u)
      ensures u in Range(a, used[a]) ==> u in granted
    {
      hide InFree, InUsed;
      PeelUnit(mem, bs, used, a, u);
    }
  }

  /** A unit of block a is in no other block. */
  lemma PeelUnit(mem: seq<Header>, bs: seq<Block>, used: map<nat, nat>, a: nat, u: nat)
    requires UsedOk(mem, bs, used) && a in used
    ensures if a <= u < a + used[a] then InUsed(used, u) && !InFree(bs, u) && !InUsed(used - {a}, u)
            else InUsed(used, u) <==> InUsed(used - {a}, u)
  {
    var rest := used - {a};
    if InUsed(rest, u) {
      var b :| b in rest && b <= u < b + rest[b];
      assert b in used && used[b] == rest[b] && Apart(Block(a, used[a]), Block(b, used[b]));
    }
    if InFree(bs, u) {
      var k :| 0 <= k < |bs| && bs[k].at <= u < bs[k].at + bs[k].size;
      assert Apart(Block(a, used[a]), bs[k]);
    }
    if InUsed(used, u) && !(a <= u < a + used[a]) {
      var b :| b in used && b <= u < b + used[b];
      assert b in rest && rest[b] == used[b];
    }
  }

  /** A request is rounded up to whole units plus a header, and by less than one unit. */
  lemma UnitsFit(nbytes: nat)
    ensures nbytes <= UNIT * (Units(nbytes) - 1) < nbytes + UNIT
  {
  }
}

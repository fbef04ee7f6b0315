/** Block allocation and inode content of kernel/fs.c, updated in place: balloc, bfree, bmap, itrunc,
    readi, writei, and the chunked write of kernel/file.c. User memory enters as the bytes themselves and
    the length of the prefix that is mapped; `logged` collects the blocks passed to log_write. */
module FsCode {
  import opened FsLayout
  import opened Util

  const LIMIT := 0x1_0000_0000
  const CHUNK := 3072        // ((MAXOPBLOCKS - 1 - 1 - 2) / 2) * BSIZE

  function NonZero(b: nat): set<nat> { if b == 0 then {} else {b} }

  function NBitmap(g: Geometry): nat { (g.size + BPB - 1) / BPB }

  function BitmapBlocks(g: Geometry): set<nat> { Range(g.bmapstart, NBitmap(g)) }

  ghost predicate DiskFull(g: Geometry, blocks: seq<Block>) {
    forall x :: 0 <= x < g.size ==> Used(g, blocks, x)
  }

  lemma BitmapListed(g: Geometry, b: nat)
    requires b < g.size
    ensures BitmapBlock(g, b) in BitmapBlocks(g)
  {
    assert b / BPB < NBitmap(g);
  }

  // ---------- writing one data block ----------

  /** The bytes of ip are those of the earlier inode ip0 with `bytes` laid over from off on, and every
      block they live in is allocated. */
  ghost predicate Written(blocks0: seq<Block>, ip0: Inode, blocks: seq<Block>, ip: Inode, off: nat, bytes: seq<byte>) {
    && ip0.size <= MAXFILE * BSIZE && off + |bytes| <= MAXFILE * BSIZE
    && forall x :: 0 <= x < Max(ip0.size, off + |bytes|) ==>
                     && Ptr(blocks, ip, SlotOf(x / BSIZE)) != 0
                     && ByteAt(blocks, ip, x) == if off <= x < off + |bytes| then bytes[x - off]
                        else ByteAt(blocks0, ip0, x)
  }

  lemma WrittenStart(blocks: seq<Block>, ip: Inode, off: nat)
    requires HoleFree(blocks, ip) && off <= ip.size
    ensures Written(blocks, ip, blocks, ip, off, [])
  {
    forall x | 0 <= x < ip.size
      ensures Ptr(blocks, ip, SlotOf(x / BSIZE)) != 0
    {
      var bn := x / BSIZE;
      assert bn * BSIZE < ip.size;
    }
  }

  lemma WrittenBlock(blocks0: seq<Block>, ip0: Inode, blocks: seq<Block>, ip: Inode, off: nat, bytes: seq<byte>,
                     bn: nat)
    requires Written(blocks0, ip0, blocks, ip, off, bytes) && bn < MAXFILE
    ensures bn * BSIZE < ip0.size ==> Ptr(blocks, ip, SlotOf(bn)) != 0
  {
    var x := bn * BSIZE;
    assert x / BSIZE == bn;
    if x < ip0.size {
      assert ByteAt(blocks, ip, x) == if off <= x < off + |bytes| then bytes[x - off] else ByteAt(blocks0, ip0, x);
    }
  }

  lemma WrittenExtends(blocks0: seq<Block>, ip0: Inode, blocks1: seq<Block>, ip1: Inode, blocks: seq<Block>, ip: Inode,
                       off: nat, bytes: seq<byte>)
    requires Written(blocks0, ip0, blocks1, ip1, off, bytes) && Extends(blocks1, ip1, blocks, ip)
    ensures Written(blocks0, ip0, blocks, ip, off, bytes)
  {
    forall x | 0 <= x < Max(ip0.size, off + |bytes|)
      ensures Ptr(blocks, ip, SlotOf(x / BSIZE)) != 0
      ensures ByteAt(blocks, ip, x) == if off <= x < off + |bytes| then bytes[x - off] else ByteAt(blocks0, ip0, x)
    {
      assert ByteAt(blocks1, ip1, x) == if off <= x < off + |bytes| then bytes[x - off] else ByteAt(blocks0, ip0, x);
      assert Ptr(blocks1, ip1, SlotOf(x / BSIZE)) != 0;
    }
  }

  /** What overwriting the data block in slot k of inode i leaves alone. */
  lemma DataWrite(g: Geometry, blocks: seq<Block>, inodes: seq<Inode>, owner: map<nat, Owner>, i: nat, k: nat,
                  data: Block)
    requires Good(g, blocks, inodes, owner, {}) && i < |inodes| && k < NSLOTS && k != NDIRECT
    requires Ptr(blocks, inodes[i], k) != 0
    ensures g.datastart <= Ptr(blocks, inodes[i], k) < |blocks|
    ensures var blocks' := blocks[Ptr(blocks, inodes[i], k) := data];
            && Good(g, blocks', inodes, owner, {})
            && (forall n, q :: 0 <= n < |inodes| && 0 <= q < NSLOTS ==>
                 Ptr(blocks', inodes[n], q) == Ptr(blocks, inodes[n], q))
            && (forall n :: 0 <= n < |inodes| && n != i ==> Extends(blocks, inodes[n], blocks', inodes[n]))
            && (forall q :: 0 <= q < NSLOTS && q != k && Ptr(blocks, inodes[i], q) != 0 ==>
                              Ptr(blocks, inodes[i], q) != Ptr(blocks, inodes[i], k))
  {
    var p := Ptr(blocks, inodes[i], k);
    assert owner[p] == Owner(i, k) && OwnedOk(g, blocks, inodes, p, owner[p]);
    var blocks' := blocks[p := data];
    forall n, q | 0 <= n < |inodes| && 0 <= q < NSLOTS
      ensures Ptr(blocks', inodes[n], q) == Ptr(blocks, inodes[n], q)
    {
      assert Ptr(blocks, inodes[n], NDIRECT) == inodes[n].addrs[NDIRECT];
    }
    forall b | b in owner
      ensures OwnedOk(g, blocks', inodes, b, owner[b])
    {
      assert OwnedOk(g, blocks, inodes, b, owner[b]);
    }
    forall x | 0 <= x < g.size
      ensures Used(g, blocks', x) == Used(g, blocks, x)
    {
      BitmapInside(g, |inodes|, x);
    }
    forall n | 0 <= n < |inodes|
      ensures HoleFree(blocks', inodes[n])
      ensures n != i ==> Extends(blocks, inodes[n], blocks', inodes[n])
    {
      assert HoleFree(blocks, inodes[n]);
    }
  }

  /** A chunk written into the block at the end of what was written so far makes one longer write. */
  lemma WrittenChunk(blocks0: seq<Block>, ip0: Inode, blocks: seq<Block>, ip: Inode, blocks': seq<Block>,
                     off: nat, bytes: seq<byte>, chunk: seq<byte>)
    requires Written(blocks0, ip0, blocks, ip, off, bytes) && off <= ip0.size
    requires off + |bytes| + |chunk| <= MAXFILE * BSIZE
    requires off + |bytes| < MAXFILE * BSIZE && (off + |bytes|) % BSIZE + |chunk| <= BSIZE
    requires var k := SlotOf((off + |bytes|) / BSIZE);
             var p := Ptr(blocks, ip, k);
             && 0 < p < |blocks|
             && blocks' == blocks[p := Overlaid(blocks[p], (off + |bytes|) % BSIZE, chunk)]
             && (forall q :: 0 <= q < NSLOTS ==> Ptr(blocks', ip, q) == Ptr(blocks, ip, q))
             && (forall q :: 0 <= q < NSLOTS && q != k && Ptr(blocks, ip, q) != 0 ==> Ptr(blocks, ip, q) != p)
    ensures Written(blocks0, ip0, blocks', ip, off, bytes + chunk)
  {
    var here := off + |bytes|;
    var bn := here / BSIZE;
    forall x | 0 <= x < Max(ip0.size, off + |bytes + chunk|)
      ensures Ptr(blocks', ip, SlotOf(x / BSIZE)) != 0
      ensures ByteAt(blocks', ip, x) == if off <= x < off + |bytes + chunk| then (bytes + chunk)[x - off]
              else ByteAt(blocks0, ip0, x)
    {
      assert Ptr(blocks', ip, SlotOf(x / BSIZE)) == Ptr(blocks, ip, SlotOf(x / BSIZE));
      if here <= x < here + |chunk| {
        SameBlock(here, |chunk|, x);
      } else {
        assert ByteAt(blocks, ip, x) == if off <= x < here then bytes[x - off] else ByteAt(blocks0, ip0, x);
        if x / BSIZE == bn {
          assert x % BSIZE < here % BSIZE || here % BSIZE + |chunk| <= x % BSIZE;
        }
      }
    }
  }

  lemma SameBlock(here: nat, n: nat, x: nat)
    requires here % BSIZE + n <= BSIZE && here <= x < here + n
    ensures x / BSIZE == here / BSIZE && x % BSIZE == here % BSIZE + (x - here)
  {
  }

  /** Written, once the size is settled, is a splice of the old content. */
  lemma WrittenContent(blocks0: seq<Block>, ip0: Inode, blocks: seq<Block>, ip: Inode, off: nat, bytes: seq<byte>,
                       tot: nat)
    requires Written(blocks0, ip0, blocks, ip, off, bytes) && off <= ip0.size && tot <= |bytes|
    requires ip.size == Max(ip0.size, off + tot)
    ensures HoleFree(blocks, ip)
    ensures Content(blocks, ip) == Splice(Content(blocks0, ip0), off, bytes)[..ip.size]
  {
    forall bn | 0 <= bn < MAXFILE && bn * BSIZE < ip.size
      ensures Ptr(blocks, ip, SlotOf(bn)) != 0
    {
      assert (bn * BSIZE) / BSIZE == bn;
      assert ByteAt(blocks, ip, bn * BSIZE) == ByteAt(blocks, ip, bn * BSIZE);
    }
    var c := Splice(Content(blocks0, ip0), off, bytes);
    forall x | 0 <= x < ip.size
      ensures Content(blocks, ip)[x] == c[x]
    {
      assert ByteAt(blocks, ip, x) == if off <= x < off + |bytes| then bytes[x - off] else ByteAt(blocks0, ip0, x);
    }
  }

  lemma SizeChange(g: Geometry, blocks: seq<Block>, inodes: seq<Inode>, owner: map<nat, Owner>, i: nat, size: nat)
    requires Good(g, blocks, inodes, owner, {}) && i < |inodes| && HoleFree(blocks, inodes[i].(size := size))
    ensures Good(g, blocks, inodes[i := inodes[i].(size := size)], owner, {})
  {
    var ip' := inodes[i].(size := size);
    var inodes' := inodes[i := ip'];
    assert forall k :: 0 <= k < NSLOTS ==> Ptr(blocks, ip', k) == Ptr(blocks, inodes[i], k);
    assert forall n, k :: 0 <= n < |inodes| && 0 <= k < NSLOTS ==>
             Ptr(blocks, inodes'[n], k) == Ptr(blocks, inodes[n], k);
    forall b | b in owner
      ensures OwnedOk(g, blocks, inodes', b, owner[b])
    {
      assert OwnedOk(g, blocks, inodes, b, owner[b]);
    }
  }

  /** balloc followed by storing the block in slot k of the inode itself. */
  lemma SlotAllocated(g: Geometry, blocks: seq<Block>, inodes: seq<Inode>, owner: map<nat, Owner>, i: nat, k: nat,
                      b: nat)
    requires Good(g, blocks, inodes, owner, {}) && b < g.size && !Used(g, blocks, b)
    requires i < |inodes| && k <= NDIRECT && inodes[i].addrs[k] == 0
    ensures BitmapBlock(g, b) < |blocks|
    ensures var inodes' := inodes[i := inodes[i].(addrs := inodes[i].addrs[k := b])];
            var blocks' := PutUsed(g, blocks, b, true)[b := ZERO];
            Good(g, blocks', inodes', owner[b := Owner(i, k)], {}) && AllExtend(blocks, inodes, blocks', inodes')
  {
    BallocKeeps(g, blocks, inodes, owner, b);
    var blocks' := PutUsed(g, blocks, b, true)[b := ZERO];
    LinkSlot(g, blocks', inodes, owner, i, k, b);
    ExtendsTrans(blocks, inodes, blocks', inodes, blocks', inodes[i := inodes[i].(addrs := inodes[i].addrs[k := b])]);
  }

  /** balloc followed by storing the block as entry j of the indirect block. */
  lemma EntryAllocated(g: Geometry, blocks: seq<Block>, inodes: seq<Inode>, owner: map<nat, Owner>, i: nat, j: nat,
                       b: nat)
    requires Good(g, blocks, inodes, owner, {}) && b < g.size && !Used(g, blocks, b)
    requires i < |inodes| && j < NINDIRECT && inodes[i].addrs[NDIRECT] != 0
    requires Ptr(blocks, inodes[i], NDIRECT + 1 + j) == 0
    ensures BitmapBlock(g, b) < |blocks| && inodes[i].addrs[NDIRECT] < |blocks|
    ensures var p := inodes[i].addrs[NDIRECT];
            var mid := PutUsed(g, blocks, b, true)[b := ZERO];
            var blocks' := mid[p := SetWord(mid[p], j, b)];
            && Good(g, blocks', inodes, owner[b := Owner(i, NDIRECT + 1 + j)], {})
            && AllExtend(blocks, inodes, blocks', inodes)
            && Ptr(blocks', inodes[i], NDIRECT + 1 + j) == b
  {
    BallocKeeps(g, blocks, inodes, owner, b);
    var p := inodes[i].addrs[NDIRECT];
    assert Ptr(blocks, inodes[i], NDIRECT) == p;
    var mid := PutUsed(g, blocks, b, true)[b := ZERO];
    assert OwnedOk(g, blocks, inodes, p, owner[p]);
    BitmapInside(g, |inodes|, b);
    assert mid[p] == blocks[p];
    LinkEntry(g, mid, inodes, owner, i, j, b);
    var blocks' := mid[p := SetWord(mid[p], j, b)];
    WordSet(mid[p], j, b, j);
    ExtendsTrans(blocks, inodes, mid, inodes, blocks', inodes);
  }

  lemma IndirectInside(g: Geometry, blocks: seq<Block>, inodes: seq<Inode>, owner: map<nat, Owner>, i: nat)
    requires Good(g, blocks, inodes, owner, {}) && i < |inodes| && inodes[i].addrs[NDIRECT] != 0
    ensures inodes[i].addrs[NDIRECT] < |blocks| == g.size < LIMIT
  {
    assert Ptr(blocks, inodes[i], NDIRECT) == inodes[i].addrs[NDIRECT];
  }

  // ---------- freeing a whole inode ----------

  const NOBLOCKS: Addrs := seq(NDIRECT + 1, _ => 0)

  /** How far itrunc has come: direct slots below `direct`, indirect entries below `entries`, and slot 12. */
  datatype Done = Done(direct: nat, entries: nat, indirect: bool) {
    predicate Has(k: nat) {
      k < Min(direct, NDIRECT) || NDIRECT < k <= NDIRECT + entries || (indirect && k == NDIRECT)
    }
  }

  const ALL := Done(NDIRECT, NINDIRECT, true)

  predicate FreedBy(owner: map<nat, Owner>, i: nat, done: Done, x: nat) {
    x in owner && owner[x].ino == i && done.Has(owner[x].slot)
  }

  /** The bitmap has lost exactly the blocks in the given slots of inode i; nothing else changed. */
  ghost predicate Freeing(g: Geometry, blocks0: seq<Block>, owner: map<nat, Owner>, blocks: seq<Block>, i: nat,
                          done: Done)
  {
    && |blocks| == |blocks0|
    && (forall x :: g.datastart <= x < |blocks| ==> blocks[x] == blocks0[x])
    && (forall x :: 0 <= x < g.size ==> (Used(g, blocks, x) <==> Used(g, blocks0, x) && !FreedBy(owner, i, done, x)))
  }

  lemma FreeStep(g: Geometry, blocks0: seq<Block>, inodes: seq<Inode>, owner: map<nat, Owner>, blocks: seq<Block>,
                 i: nat, done: Done, done': Done, k: nat)
    requires Good(g, blocks0, inodes, owner, {}) && i < |inodes| && k < NSLOTS && !done.Has(k)
    requires forall q :: 0 <= q < NSLOTS ==> done'.Has(q) == (done.Has(q) || q == k)
    requires Freeing(g, blocks0, owner, blocks, i, done)
    ensures var x := Ptr(blocks0, inodes[i], k);
            && (x == 0 ==> Freeing(g, blocks0, owner, blocks, i, done'))
            && (x != 0 ==> && g.datastart <= x < g.size && Used(g, blocks, x) && BitmapBlock(g, x) < |blocks|
                           && Freeing(g, blocks0, owner, PutUsed(g, blocks, x, false), i, done'))
  {
    var x := Ptr(blocks0, inodes[i], k);
    if x == 0 {
      forall y | 0 <= y < g.size
        ensures FreedBy(owner, i, done', y) == FreedBy(owner, i, done, y)
      {
        if y in owner {
          assert OwnedOk(g, blocks0, inodes, y, owner[y]);
        }
      }
    } else {
      assert OwnedOk(g, blocks0, inodes, x, owner[x]);
      BitmapInside(g, |inodes|, x);
      forall y | 0 <= y < g.size
        ensures Used(g, PutUsed(g, blocks, x, false), y) <==> Used(g, blocks0, y) && !FreedBy(owner, i, done', y)
      {
        BitmapInside(g, |inodes|, y);
        UsedPut(g, blocks, x, false, y);
        if y in owner {
          assert OwnedOk(g, blocks0, inodes, y, owner[y]);
        }
      }
    }
  }

  /** Slots with no block in them need no freeing. */
  /** While the direct blocks are freed the indirect block stays as it was. */
  lemma IndirectEntries(g: Geometry, b0: seq<Block>, i0: seq<Inode>, owner: map<nat, Owner>, blocks: seq<Block>, i: nat)
    requires Good(g, b0, i0, owner, {}) && i < |i0| && Freeing(g, b0, owner, blocks, i, Done(NDIRECT, 0, false))
    ensures var p := i0[i].addrs[NDIRECT];
            && p == Ptr(b0, i0[i], NDIRECT)
            && (p != 0 ==> p < |blocks| && forall j :: 0 <= j < NINDIRECT ==>
                  Word(blocks[p], j) == Ptr(b0, i0[i], NDIRECT + 1 + j))
            && (p == 0 ==> forall k :: 0 <= k < NSLOTS && !Done(NDIRECT, 0, false).Has(k) ==> Ptr(b0, i0[i], k) == 0)
  {
    var p := i0[i].addrs[NDIRECT];
    if p != 0 {
      assert p == Ptr(b0, i0[i], NDIRECT);
      assert OwnedOk(g, b0, i0, p, owner[p]);
      assert blocks[p] == b0[p];
    }
  }

  lemma FreeEmptySlots(g: Geometry, blocks0: seq<Block>, inodes: seq<Inode>, owner: map<nat, Owner>, blocks: seq<Block>,
                       i: nat, done: Done)
    requires Good(g, blocks0, inodes, owner, {}) && i < |inodes|
    requires Freeing(g, blocks0, owner, blocks, i, done)
    requires forall k :: 0 <= k < NSLOTS && !done.Has(k) ==> Ptr(blocks0, inodes[i], k) == 0
    ensures Freeing(g, blocks0, owner, blocks, i, ALL)
  {
    forall y | 0 <= y < g.size
      ensures FreedBy(owner, i, ALL, y) == FreedBy(owner, i, done, y)
    {
      if y in owner {
        assert OwnedOk(g, blocks0, inodes, y, owner[y]);
      }
    }
  }

  function Others(owner: map<nat, Owner>, i: nat): map<nat, Owner> {
    map b | b in owner && owner[b].ino != i :: owner[b]
  }

  lemma EmptyInode(blocks: seq<Block>, k: nat)
    requires k < NSLOTS
    ensures Ptr(blocks, Inode(NOBLOCKS, 0), k) == 0
  {
  }

  /** Freeing touched no owned block, so every pointer and every other file is as before. */
  lemma TruncPointers(g: Geometry, blocks0: seq<Block>, inodes: seq<Inode>, owner: map<nat, Owner>, blocks: seq<Block>,
                      i: nat)
    requires Good(g, blocks0, inodes, owner, {}) && i < |inodes| && Freeing(g, blocks0, owner, blocks, i, ALL)
    ensures Linked(blocks, inodes, owner) && Owned(g, blocks, inodes, owner)
            && AllExtend(blocks0, inodes, blocks, inodes)
  {
    forall b | b in owner
      ensures b < |blocks| && blocks[b] == blocks0[b]
    {
      assert OwnedOk(g, blocks0, inodes, b, owner[b]);
    }
    UnownedWrite(g, blocks0, inodes, owner, blocks);
  }

  lemma TruncOwners(g: Geometry, inodes: seq<Inode>, owner: map<nat, Owner>, blocks: seq<Block>, i: nat)
    requires Linked(blocks, inodes, owner) && Owned(g, blocks, inodes, owner) && i < |inodes|
    ensures var inodes' := inodes[i := Inode(NOBLOCKS, 0)];
            Linked(blocks, inodes', Others(owner, i)) && Owned(g, blocks, inodes', Others(owner, i))
  {
    var inodes' := inodes[i := Inode(NOBLOCKS, 0)];
    var owner' := Others(owner, i);
    forall n, k | 0 <= n < |inodes'| && 0 <= k < NSLOTS && Ptr(blocks, inodes'[n], k) != 0
      ensures Ptr(blocks, inodes'[n], k) in owner' && owner'[Ptr(blocks, inodes'[n], k)] == Owner(n, k)
    {
      EmptyInode(blocks, k);
      assert Ptr(blocks, inodes[n], k) in owner;
    }
    forall b | b in owner'
      ensures OwnedOk(g, blocks, inodes', b, owner'[b])
    {
      assert OwnedOk(g, blocks, inodes, b, owner[b]);
    }
  }

  lemma TruncMapped(g: Geometry, blocks0: seq<Block>, inodes: seq<Inode>, owner: map<nat, Owner>, blocks: seq<Block>,
                    i: nat)
    requires Mapped(g, blocks0, owner, {}) && Owned(g, blocks0, inodes, owner)
    requires Freeing(g, blocks0, owner, blocks, i, ALL)
    ensures Mapped(g, blocks, Others(owner, i), {})
  {
    forall x | 0 <= x < g.size
      ensures Used(g, blocks, x) <==> x < g.datastart || x in Others(owner, i)
    {
      if x in owner {
        assert OwnedOk(g, blocks0, inodes, x, owner[x]);
        assert ALL.Has(owner[x].slot);
      }
    }
  }

  lemma TruncKeeps(g: Geometry, blocks0: seq<Block>, inodes: seq<Inode>, owner: map<nat, Owner>, blocks: seq<Block>,
                   i: nat)
    requires Good(g, blocks0, inodes, owner, {}) && i < |inodes| && Freeing(g, blocks0, owner, blocks, i, ALL)
    ensures Good(g, blocks, inodes[i := Inode(NOBLOCKS, 0)], Others(owner, i), {})
    ensures forall n :: 0 <= n < |inodes| && n != i ==>
                          HoleFree(blocks, inodes[n]) && HoleFree(blocks0, inodes[n])
                          && Content(blocks, inodes[n]) == Content(blocks0, inodes[n])
  {
    TruncPointers(g, blocks0, inodes, owner, blocks, i);
    TruncOwners(g, inodes, owner, blocks, i);
    TruncMapped(g, blocks0, inodes, owner, blocks, i);
    forall n | 0 <= n < |inodes|
      ensures HoleFree(blocks, inodes[n]) && HoleFree(blocks0, inodes[n])
      ensures Content(blocks, inodes[n]) == Content(blocks0, inodes[n])
    {
      assert Extends(blocks0, inodes[n], blocks, inodes[n]);
      ExtendsContent(blocks0, inodes[n], blocks, inodes[n]);
    }
  }

  lemma NothingFreed(g: Geometry, blocks: seq<Block>, owner: map<nat, Owner>, i: nat)
    ensures Freeing(g, blocks, owner, blocks, i, Done(0, 0, false))
  {
  }

  lemma AllFreed(g: Geometry, blocks0: seq<Block>, inodes: seq<Inode>, owner: map<nat, Owner>, blocks: seq<Block>,
                 i: nat)
    requires Good(g, blocks0, inodes, owner, {}) && Freeing(g, blocks0, owner, blocks, i, ALL)
    ensures forall x :: 0 <= x < g.size ==>
                          (Used(g, blocks, x) <==> Used(g, blocks0, x) && !(x in owner && owner[x].ino == i))
  {
    forall x | x in owner
      ensures ALL.Has(owner[x].slot)
    {
      assert OwnedOk(g, blocks0, inodes, x, owner[x]);
    }
  }

  // ---------- reading and writing runs of bytes ----------

  /** The part of a block that a file run inside one block occupies. */
  lemma BlockRun(blocks: seq<Block>, ip: Inode, here: nat, m: nat)
    requires HoleFree(blocks, ip) && 0 < m && here + m <= ip.size && here % BSIZE + m <= BSIZE
    ensures Ptr(blocks, ip, SlotOf(here / BSIZE)) != 0
    ensures var p := Ptr(blocks, ip, SlotOf(here / BSIZE));
            p < |blocks| ==> blocks[p][here % BSIZE..here % BSIZE + m] == Content(blocks, ip)[here..here + m]
  {
    var bn := here / BSIZE;
    assert bn * BSIZE < ip.size;
    var p := Ptr(blocks, ip, SlotOf(bn));
    if p < |blocks| {
      var run, c := blocks[p][here % BSIZE..here % BSIZE + m], Content(blocks, ip)[here..here + m];
      forall x | 0 <= x < m
        ensures run[x] == c[x]
      {
        BlockByte(blocks, ip, here, m, here + x);
      }
      assert run == c;
    }
  }

  lemma BlockByte(blocks: seq<Block>, ip: Inode, here: nat, m: nat, x: nat)
    requires ip.size <= MAXFILE * BSIZE && here <= x < here + m <= ip.size && here % BSIZE + m <= BSIZE
    requires Ptr(blocks, ip, SlotOf(here / BSIZE)) < |blocks|
    ensures Content(blocks, ip)[x] == blocks[Ptr(blocks, ip, SlotOf(here / BSIZE))][here % BSIZE + (x - here)]
  {
    SameBlock(here, m, x);
    assert Content(blocks, ip)[x] == ByteAt(blocks, ip, x);
  }

  /** Every inode but i keeps what it pointed to. */
  ghost predicate OthersExtend(blocks: seq<Block>, inodes: seq<Inode>, blocks': seq<Block>, inodes': seq<Inode>,
                               i: nat) {
    && |inodes'| == |inodes|
    && forall n :: 0 <= n < |inodes| && n != i ==>
         inodes'[n] == inodes[n] && Extends(blocks, inodes[n], blocks', inodes[n])
  }

  lemma OthersTrans(b0: seq<Block>, i0: seq<Inode>, b1: seq<Block>, i1: seq<Inode>, b2: seq<Block>, i2: seq<Inode>,
                    i: nat)
    requires OthersExtend(b0, i0, b1, i1, i) && OthersExtend(b1, i1, b2, i2, i)
    ensures OthersExtend(b0, i0, b2, i2, i)
  {
    forall n | 0 <= n < |i0| && n != i
      ensures Extends(b0, i0[n], b2, i0[n])
    {
      assert Extends(b0, i0[n], b1, i0[n]) && Extends(b1, i1[n], b2, i1[n]);
    }
  }

  lemma OthersAfterMap(b0: seq<Block>, i0: seq<Inode>, b1: seq<Block>, i1: seq<Inode>, i: nat)
    requires AllExtend(b0, i0, b1, i1) && i < |i0| && i1 == i0[i := i1[i]]
    ensures OthersExtend(b0, i0, b1, i1, i)
  {
    forall n | 0 <= n < |i0| && n != i
      ensures i1[n] == i0[n] && Extends(b0, i0[n], b1, i0[n])
    {
      assert Extends(b0, i0[n], b1, i1[n]);
    }
  }

  lemma OthersAfterData(b0: seq<Block>, i0: seq<Inode>, b1: seq<Block>, i1: seq<Inode>, b2: seq<Block>, i: nat)
    requires OthersExtend(b0, i0, b1, i1, i)
    requires forall n :: 0 <= n < |i1| && n != i ==> Extends(b1, i1[n], b2, i1[n])
    ensures OthersExtend(b0, i0, b2, i1, i)
  {
    OthersTrans(b0, i0, b1, i1, b2, i1, i);
  }

  lemma OthersContent(g: Geometry, b0: seq<Block>, i0: seq<Inode>, o0: map<nat, Owner>, b1: seq<Block>, i1: seq<Inode>,
                      i: nat)
    requires Good(g, b0, i0, o0, {}) && OthersExtend(b0, i0, b1, i1, i)
    ensures forall n :: 0 <= n < |i0| && n != i ==>
                          i1[n] == i0[n] && i0[n].size <= MAXFILE * BSIZE && Content(b1, i0[n]) == Content(b0, i0[n])
  {
    forall n | 0 <= n < |i0| && n != i
      ensures i0[n].size <= MAXFILE * BSIZE && Content(b1, i0[n]) == Content(b0, i0[n])
    {
      assert HoleFree(b0, i0[n]);
      ExtendsContent(b0, i0[n], b1, i0[n]);
    }
  }

  /** The outcome of readi: the wanted run, or -1 and the part of it that could be delivered. */
  predicate IsRead(c: seq<byte>, off: nat, want: nat, room: nat, tot: int, dst: seq<byte>)
    requires off + want <= |c|
  {
    && dst == c[off..off + Min(want, room)]
    && tot == if want <= room then want else -1
  }

  /** The argument checks of writei. */
  predicate Refused(off: nat, n: nat, size: nat) {
    off > size || off + n >= LIMIT || off + n > MAXFILE * BSIZE
  }

  /** Everything logged since l0 is a bitmap block, the indirect block or one of the data blocks. */
  ghost predicate LogBound(g: Geometry, l0: set<nat>, logged: set<nat>, indirect: nat, data: set<nat>) {
    logged <= l0 + BitmapBlocks(g) + NonZero(indirect) + data
  }

  /** log_write has been called for every block that changed, but for those in cut. */
  ghost predicate Journaled(b0: seq<Block>, l0: set<nat>, b1: seq<Block>, l1: set<nat>, cut: set<nat>) {
    l0 <= l1 && |b1| == |b0| && forall b :: 0 <= b < |b0| && b1[b] != b0[b] ==> b in l1 || b in cut
  }

  lemma JournalStart(b0: seq<Block>, l0: set<nat>)
    ensures Journaled(b0, l0, b0, l0, {})
  {
  }

  lemma JournalTrans(b0: seq<Block>, l0: set<nat>, b1: seq<Block>, l1: set<nat>, b2: seq<Block>, l2: set<nat>,
                     cut: set<nat>)
    requires Journaled(b0, l0, b1, l1, {}) && Journaled(b1, l1, b2, l2, cut)
    ensures Journaled(b0, l0, b2, l2, cut)
  {
  }

  lemma JournalWrite(b0: seq<Block>, l0: set<nat>, b1: seq<Block>, l1: set<nat>, p: nat, data: Block)
    requires Journaled(b0, l0, b1, l1, {}) && p < |b1|
    ensures Journaled(b0, l0, b1[p := data], l1 + {p}, {})
    ensures Journaled(b0, l0, b1[p := data], l1, {p})
  {
  }

  lemma JournalMore(b0: seq<Block>, l0: set<nat>, b1: seq<Block>, l1: set<nat>, cut: set<nat>, b: nat)
    requires Journaled(b0, l0, b1, l1, cut)
    ensures Journaled(b0, l0, b1, l1 + {b}, cut)
  {
  }

  /** One transaction of filewrite: the blocks before and after, those logged, and the one a faulting copy changed
      without logging it. */
  datatype Tx = Tx(before: seq<Block>, after: seq<Block>, logged: set<nat>, cut: set<nat>)

  /** It logs what it changes and the inode, or it was refused; and it fits the log. */
  ghost predicate TxOk(g: Geometry, i: nat, t: Tx) {
    && Journaled(t.before, {}, t.after, t.logged, t.cut) && |t.logged| <= NBitmap(g) + 6
    && (InodeBlock(g, i) in t.logged || t.after == t.before)
  }

  /** The transactions lead from b0 to b1; only the last may have been cut. */
  ghost predicate Chained(g: Geometry, i: nat, b0: seq<Block>, b1: seq<Block>, txs: seq<Tx>)
    decreases |txs|
  {
    if txs == [] then b1 == b0
    else
      var n := |txs| - 1;
      && txs[n].after == b1 && TxOk(g, i, txs[n]) && Chained(g, i, b0, txs[n].before, txs[..n])
      && forall k :: 0 <= k < n ==> txs[k].cut == {}
  }

  lemma ChainStart(g: Geometry, i: nat, b0: seq<Block>)
    ensures Chained(g, i, b0, b0, [])
  {
  }

  lemma ChainOn(g: Geometry, i: nat, b0: seq<Block>, txs: seq<Tx>, t: Tx)
    requires Chained(g, i, b0, t.before, txs) && TxOk(g, i, t) && forall k :: 0 <= k < |txs| ==> txs[k].cut == {}
    ensures Chained(g, i, b0, t.after, txs + [t])
  {
    assert (txs + [t])[..|txs|] == txs;
  }

  lemma LogCount(g: Geometry, l0: set<nat>, logged: set<nat>, indirect: nat, data: set<nat>, ib: nat)
    requires LogBound(g, l0, logged, indirect, data)
    ensures |logged + {ib} - l0| <= NBitmap(g) + 2 + |data|
  {
    var all := BitmapBlocks(g) + NonZero(indirect) + data + {ib};
    assert logged + {ib} - l0 <= all;
    SubsetSize(logged + {ib} - l0, all);
  }

  lemma SpliceTwice(c: seq<byte>, off: nat, a: seq<byte>, b: seq<byte>, tot: nat)
    requires off <= |c| && tot <= |b|
    ensures var d := Splice(c, off, a);
            Splice(d, off + |a|, b)[..Max(|d|, off + |a| + tot)] == Splice(c, off, a + b)[..Max(|d|, off + |a| + tot)]
  {
  }

  lemma PrefixOn(src: seq<byte>, a: nat, b: nat)
    requires a <= b <= |src|
    ensures src[..a] + src[a..b] == src[..b]
  {
  }

  lemma RunsJoin(c: seq<byte>, off: nat, tot: nat, m: nat, j: nat)
    requires off + tot + m <= |c| && j <= m
    ensures var run := c[off + tot..off + tot + m];
            && c[off..off + tot] + run == c[off..off + tot + m]
            && c[off..off + tot] + run[..j] == c[off..off + tot + j]
  {
  }

  lemma PointerInside(g: Geometry, blocks: seq<Block>, inodes: seq<Inode>, owner: map<nat, Owner>, i: nat, k: nat)
    requires Good(g, blocks, inodes, owner, {}) && i < |inodes| && k < NSLOTS && Ptr(blocks, inodes[i], k) != 0
    ensures Ptr(blocks, inodes[i], k) < |blocks|
  {
    assert OwnedOk(g, blocks, inodes, Ptr(blocks, inodes[i], k), owner[Ptr(blocks, inodes[i], k)]);
  }

  lemma OthersStart(blocks: seq<Block>, inodes: seq<Inode>, i: nat)
    ensures OthersExtend(blocks, inodes, blocks, inodes, i)
  {
  }

  lemma LogStart(g: Geometry, logged: set<nat>, indirect: nat)
    ensures LogBound(g, logged, logged, indirect, {})
  {
  }

  lemma LogMapped(g: Geometry, l0: set<nat>, l1: set<nat>, logged: set<nat>, ind1: nat, ind: nat, data: set<nat>,
                  addr: nat)
    requires LogBound(g, l0, l1, ind1, data) && (ind1 != 0 ==> ind == ind1)
    requires logged <= l1 + BitmapBlocks(g) + NonZero(addr) + NonZero(ind)
    ensures LogBound(g, l0, logged, ind, data + NonZero(addr))
  {
  }

  lemma LogData(g: Geometry, l0: set<nat>, logged: set<nat>, ind: nat, data: set<nat>, addr: nat)
    requires LogBound(g, l0, logged, ind, data) && addr in data
    ensures LogBound(g, l0, logged + {addr}, ind, data)
  {
  }

  lemma MapKeeps(g: Geometry, b0: seq<Block>, i0: seq<Inode>, b1: seq<Block>, i1: seq<Inode>, b2: seq<Block>,
                 i2: seq<Inode>, i: nat, off: nat, bytes: seq<byte>)
    requires i < |i0| && OthersExtend(b0, i0, b1, i1, i) && AllExtend(b1, i1, b2, i2) && i2 == i1[i := i2[i]]
    requires Written(b0, i0[i], b1, i1[i], off, bytes)
    ensures OthersExtend(b0, i0, b2, i2, i) && Written(b0, i0[i], b2, i2[i], off, bytes) && i2[i].size == i1[i].size
  {
    OthersAfterMap(b1, i1, b2, i2, i);
    OthersTrans(b0, i0, b1, i1, b2, i2, i);
    assert Extends(b1, i1[i], b2, i2[i]);
    WrittenExtends(b0, i0[i], b1, i1[i], b2, i2[i], off, bytes);
  }

  /** After count blocks of a write of n bytes at off, tot bytes are done: whole blocks but for the ends. */
  predicate Counted(off: nat, n: nat, tot: nat, count: nat) {
    && count * BSIZE < off % BSIZE + n + BSIZE
    && (tot == n || (tot == 0 && count == 0) || (off % BSIZE + tot == count * BSIZE && 0 < tot))
  }

  lemma CountStart(off: nat, n: nat)
    ensures Counted(off, n, 0, 0)
  {
  }

  lemma CountStep(off: nat, n: nat, tot: nat, m: nat, count: nat, good: nat)
    requires Counted(off, n, tot, count) && tot < n && m == Min(n - tot, BSIZE - (off + tot) % BSIZE)
    ensures 0 < m && Counted(off, n, tot + m, count + 1) && (count + 1) * BSIZE < off % BSIZE + n + BSIZE
    ensures tot <= good < tot + m ==> (good == tot <==> good == 0 || (off + good) % BSIZE == 0)
    ensures tot == 0 || (off + tot) % BSIZE == 0
  {
    if tot == 0 {
      assert good < m ==> (off + good) % BSIZE == off % BSIZE + good;
    } else {
      assert (off + tot) % BSIZE == 0;
      assert tot <= good < tot + m ==> (off + good) % BSIZE == good - tot;
    }
  }

  /** The blocks copied whole before a fault are what is reported. */
  lemma ReportedIs(off: nat, tot: nat, good: nat, m: nat)
    requires tot <= good && (tot == 0 || (off + tot) % BSIZE == 0) && m <= BSIZE - (off + tot) % BSIZE
    ensures tot <= Reported(off, good)
    ensures good < tot + m ==> tot == Reported(off, good)
  {
    var q := (off + good) / BSIZE * BSIZE;
    if tot > 0 {
      assert off + tot == (off + tot) / BSIZE * BSIZE;
      assert (off + tot) / BSIZE <= (off + good) / BSIZE;
      assert good < tot + m ==> (off + good) / BSIZE == (off + tot) / BSIZE;
    } else {
      assert good < m ==> (off + good) / BSIZE == off / BSIZE;
    }
  }

  /** How the loop of writei ends: by a fault after `good` bytes; past the old end of the file, on a full disk; or
      with all n bytes written. */
  predicate Ended(off: nat, n: nat, good: nat, size: nat, laid: nat, tot: nat, faulted: bool) {
    && (faulted ==> laid == good < n && tot == Reported(off, good))
    && (faulted ==> (laid == tot <==> good == 0 || (off + good) % BSIZE == 0))
    && (!faulted ==> laid == tot && (tot == n || (size <= off + tot && tot <= Reported(off, good))))
    && (tot == 0 || tot == n || (off + tot) % BSIZE == 0)
  }

  lemma EndsHere(off: nat, n: nat, tot: nat, m: nat, count: nat, good: nat, size: nat)
    requires Counted(off, n, tot, count) && tot < n && m == Min(n - tot, BSIZE - (off + tot) % BSIZE) && tot <= good
    ensures good < tot + m ==> Ended(off, n, good, size, good, tot, true)
    ensures size <= (off + tot) / BSIZE * BSIZE ==> Ended(off, n, good, size, tot, tot, false)
  {
    hide Counted, Reported;
    CountStep(off, n, tot, m, count, good);
    ReportedIs(off, tot, good, m);
  }

  lemma EndsWhole(off: nat, n: nat, good: nat, size: nat)
    ensures Ended(off, n, good, size, n, n, false)
  {
  }

  /** Inodes other than i are the same and so are their files. */
  ghost predicate OthersSame(b0: seq<Block>, i0: seq<Inode>, b1: seq<Block>, i1: seq<Inode>, i: nat) {
    && |i1| == |i0|
    && forall n :: 0 <= n < |i0| && n != i ==>
                     i1[n] == i0[n] && i0[n].size <= MAXFILE * BSIZE && Content(b1, i1[n]) == Content(b0, i0[n])
  }

  lemma SameTrans(b0: seq<Block>, i0: seq<Inode>, b1: seq<Block>, i1: seq<Inode>, b2: seq<Block>, i2: seq<Inode>,
                  i: nat)
    requires OthersSame(b0, i0, b1, i1, i)
    requires OthersSame(b1, i1, b2, i2, i) || (b2 == b1 && i2 == i1)
    ensures OthersSame(b0, i0, b2, i2, i)
    ensures |i2| == |i0|
  {
  }

  lemma SameCount(b0: seq<Block>, i0: seq<Inode>, b1: seq<Block>, i1: seq<Inode>, i: nat)
    requires OthersSame(b0, i0, b1, i1, i)
    ensures |i1| == |i0|
  {
  }

  lemma SameSelf(g: Geometry, b0: seq<Block>, i0: seq<Inode>, o0: map<nat, Owner>, i: nat)
    requires Good(g, b0, i0, o0, {})
    ensures OthersSame(b0, i0, b0, i0, i)
  {
    assert forall n :: 0 <= n < |i0| ==> HoleFree(b0, i0[n]);
  }

  ghost function FileOf(blocks: seq<Block>, inodes: seq<Inode>, n: nat): seq<byte> {
    if n < |inodes| && inodes[n].size <= MAXFILE * BSIZE then Content(blocks, inodes[n]) else []
  }

  lemma FileSize(g: Geometry, blocks: seq<Block>, inodes: seq<Inode>, owner: map<nat, Owner>, i: nat)
    requires Good(g, blocks, inodes, owner, {}) && i < |inodes|
    ensures |FileOf(blocks, inodes, i)| == inodes[i].size
  {
    assert HoleFree(blocks, inodes[i]);
  }

  lemma SizeBound(g: Geometry, blocks: seq<Block>, inodes: seq<Inode>, owner: map<nat, Owner>, i: nat)
    requires Good(g, blocks, inodes, owner, {}) && i < |inodes|
    ensures inodes[i].size <= MAXFILE * BSIZE
  {
    assert HoleFree(blocks, inodes[i]);
  }

  /** File f is c with src[..laid] laid over it from off on, of which the size takes in tot bytes. */
  ghost predicate Spliced(c: seq<byte>, f: seq<byte>, off: nat, src: seq<byte>, laid: nat, tot: nat) {
    && off <= |c| && tot <= laid <= |src|
    && |f| == Max(|c|, off + tot) <= MAXFILE * BSIZE
    && f == Splice(c, off, src[..laid])[..|f|]
  }

  lemma SplicedSize(c: seq<byte>, f: seq<byte>, off: nat, src: seq<byte>, k: nat)
    ensures Spliced(c, f, off, src, k, k) ==> |f| == Max(|c|, off + k)
  {
  }

  lemma SplicedFits(c: seq<byte>, f: seq<byte>, off: nat, src: seq<byte>, laid: nat, tot: nat)
    requires Spliced(c, f, off, src, laid, tot)
    ensures off <= |c| && tot <= laid <= |src|
  {
  }

  lemma SplicedWhole(c: seq<byte>, f: seq<byte>, off: nat, src: seq<byte>, k: nat)
    requires Spliced(c, f, off, src, k, k)
    ensures f == Splice(c, off, src[..k])
  {
  }

  lemma SplicedStart(c: seq<byte>, off: nat, src: seq<byte>)
    requires off <= |c| <= MAXFILE * BSIZE
    ensures Spliced(c, c, off, src, 0, 0)
  {
  }

  /** One more chunk of a chunked write is one longer splice. */
  lemma SplicedJoin(c: seq<byte>, f: seq<byte>, f': seq<byte>, off: nat, src: seq<byte>, k: nat, n1: nat, at: nat,
                    r: nat)
    requires Spliced(c, f, off, src, k, k) && k + n1 <= |src|
    requires Spliced(f, f', off + k, src[k..k + n1], at, r)
    ensures Spliced(c, f', off, src, k + at, k + r)
  {
    assert src[k..k + n1][..at] == src[k..k + at];
    assert src[..k] + src[k..k + at] == src[..k + at];
    assert f == Splice(c, off, src[..k]);
    SpliceTwice(c, off, src[..k], src[k..k + at], r);
  }

  /** The end of writei: the size is set and the file is the splice. */
  lemma WriteSettled(g: Geometry, b0: seq<Block>, i0: seq<Inode>, o0: map<nat, Owner>, b1: seq<Block>, i1: seq<Inode>,
                     o1: map<nat, Owner>, i: nat, off: nat, src: seq<byte>, laid: nat, tot: nat)
    requires Good(g, b0, i0, o0, {}) && Good(g, b1, i1, o1, {}) && i < |i0|
    requires OthersExtend(b0, i0, b1, i1, i) && i1[i].size == i0[i].size
    requires tot <= laid <= |src| && Written(b0, i0[i], b1, i1[i], off, src[..laid]) && off <= i0[i].size
    ensures var i2 := i1[i := i1[i].(size := Max(i1[i].size, off + tot))];
            && Good(g, b1, i2, o1, {}) && OthersSame(b0, i0, b1, i2, i)
            && Spliced(FileOf(b0, i0, i), FileOf(b1, i2, i), off, src, laid, tot)
  {
    var size := Max(i0[i].size, off + tot);
    assert HoleFree(b0, i0[i]);
    WrittenResized(b0, i0[i], b1, i1[i], off, src[..laid], size);
    WrittenContent(b0, i0[i], b1, i1[i].(size := size), off, src[..laid], tot);
    SizeChange(g, b1, i1, o1, i, size);
    OthersContent(g, b0, i0, o0, b1, i1, i);
  }

  lemma WrittenResized(b0: seq<Block>, ip0: Inode, b1: seq<Block>, ip: Inode, off: nat, bytes: seq<byte>, size: nat)
    requires Written(b0, ip0, b1, ip, off, bytes)
    ensures Written(b0, ip0, b1, ip.(size := size), off, bytes)
  {
    var ip' := ip.(size := size);
    assert forall k :: 0 <= k < NSLOTS ==> Ptr(b1, ip', k) == Ptr(b1, ip, k);
    forall x | 0 <= x < Max(ip0.size, off + |bytes|)
      ensures ByteAt(b1, ip', x) == ByteAt(b1, ip, x)
    {
    }
  }

  lemma DinodesFollow(b0: seq<Block>, i0: seq<Inode>, b1: seq<Block>, i1: seq<Inode>, i: nat, ip: Inode)
    requires OthersExtend(b0, i0, b1, i1, i) && i < |i0|
    ensures i0[i := ip] == i1[i := ip]
  {
  }

  lemma ZeroBit(bi: nat)
    requires bi < BPB
    ensures !BlockBit(ZERO, bi)
  {
    NoBit(bi % 8);
  }

  lemma {:induction false} NoBit(k: nat)
    ensures !Bit(0, k)
  {
    if k > 0 {
      NoBit(k - 1);
    }
  }

  // ---------- accounts ----------

  ghost function FreeBlocks(g: Geometry, blocks: seq<Block>): set<nat> {
    set x | x in Range(0, g.size) && !Used(g, blocks, x)
  }

  /** Free, owned and metadata blocks make up the disk. */
  lemma Conservation(g: Geometry, blocks: seq<Block>, inodes: seq<Inode>, owner: map<nat, Owner>)
    requires Good(g, blocks, inodes, owner, {})
    ensures |FreeBlocks(g, blocks)| + |owner| + g.datastart == g.size
  {
    forall b | b in owner
      ensures g.datastart <= b < g.size
    {
      assert OwnedOk(g, blocks, inodes, b, owner[b]);
    }
    assert Mapped(g, blocks, owner, {});
    hide Good;
    PartsAdd(g.size, g.datastart, owner.Keys, FreeBlocks(g, blocks));
    assert |owner.Keys| == |owner|;
  }

  lemma PartsAdd(size: nat, datastart: nat, owned: set<nat>, free: set<nat>)
    requires datastart <= size
    requires forall b :: b in owned ==> datastart <= b < size
    requires forall b :: b in free <==> datastart <= b < size && b !in owned
    ensures |free| + |owned| + datastart == size
  {
    var meta := Range(0, datastart);
    var both := owned + free;
    assert owned !! free;
    assert |both| == |owned| + |free|;
    assert meta !! both;
    assert |meta + both| == |meta| + |both|;
    assert Range(0, size) == meta + both;
  }

  /** No block is reachable from two inode slots. */
  lemma NoSharing(g: Geometry, blocks: seq<Block>, inodes: seq<Inode>, owner: map<nat, Owner>, i: nat, k: nat, j: nat,
                  q: nat)
    requires Good(g, blocks, inodes, owner, {}) && i < |inodes| && j < |inodes| && k < NSLOTS && q < NSLOTS
    requires Ptr(blocks, inodes[i], k) == Ptr(blocks, inodes[j], q) != 0
    ensures i == j && k == q
  {
    assert owner[Ptr(blocks, inodes[i], k)] == Owner(i, k);
    assert owner[Ptr(blocks, inodes[j], q)] == Owner(j, q);
  }

  // ---------- what a write that faults shows ----------

  /** How many bytes writei reports when user memory faults after `good` bytes: those in the blocks that were
      copied whole. */
  function Reported(off: nat, good: nat): nat { Max(0, (off + good) / BSIZE * BSIZE - off) }

  /** The bytes copied before a fault and not reported are no change to file c. */
  predicate Honest(c: seq<byte>, off: nat, src: seq<byte>, good: nat) {
    good >= |src| || forall k :: Reported(off, good) <= k < good && off + k < |c| ==> src[k] == c[off + k]
  }

  /** A file with laid bytes laid over it shows exactly tot of them if and only if the others change nothing. */
  lemma SplicedExact(c: seq<byte>, f: seq<byte>, off: nat, src: seq<byte>, laid: nat, tot: nat)
    requires Spliced(c, f, off, src, laid, tot)
    ensures f == Splice(c, off, src[..tot]) <==> forall k :: tot <= k < laid && off + k < |c| ==> src[k] == c[off + k]
  {
    var g := Splice(c, off, src[..tot]);
    assert |f| == |g|;
    forall k | tot <= k < laid && off + k < |c|
      ensures f[off + k] == src[k] && g[off + k] == c[off + k]
    {
    }
    if forall k :: tot <= k < laid && off + k < |c| ==> src[k] == c[off + k] {
      forall x | 0 <= x < |f|
        ensures f[x] == g[x]
      {
        if off + tot <= x < off + laid && x < |c| {
          assert src[x - off] == c[off + (x - off)];
        }
      }
    }
  }

  /** The two ways a write ends early, and what the file then shows. */
  lemma WriteExact(c: seq<byte>, f: seq<byte>, off: nat, src: seq<byte>, good: nat, laid: nat, tot: nat, faulted: bool)
    requires Spliced(c, f, off, src, laid, tot) && good <= |src|
    requires faulted ==> laid == good < |src| && tot == Reported(off, good)
    requires !faulted ==> laid == tot && (tot == |src| || (|c| <= off + tot && tot <= Reported(off, good)))
    requires tot == |src| ==> good == |src|
    ensures f == Splice(c, off, src[..tot]) <==> Honest(c, off, src, good)
  {
    SplicedExact(c, f, off, src, laid, tot);
  }

  /** As Honest, for filewrite: the fault falls in the chunk that starts at k, unless writei refuses that chunk. */
  predicate HonestChunks(c: seq<byte>, off: nat, src: seq<byte>, good: nat) {
    var k := good / CHUNK * CHUNK;
    || good >= |src|
    || off + k + Min(|src| - k, CHUNK) > MAXFILE * BSIZE
    || forall q :: k + Reported(off + k, good - k) <= q < good && off + q < |c| ==> src[q] == c[off + q]
  }

  lemma HonestChunk(c: seq<byte>, off: nat, src: seq<byte>, good: nat, k: nat, n1: nat)
    requires off <= |c| && k == good / CHUNK * CHUNK && n1 == Min(|src| - k, CHUNK) && good < |src|
    requires off + k + n1 <= MAXFILE * BSIZE
    ensures Honest(Splice(c, off, src[..k]), off + k, src[k..k + n1], good - k) <==> HonestChunks(c, off, src, good)
  {
    var f, s, lo := Splice(c, off, src[..k]), src[k..k + n1], k + Reported(off + k, good - k);
    forall q | lo <= q < good && off + q < |c|
      ensures s[q - k] == src[q] && f[off + k + (q - k)] == c[off + q]
    {
    }
    if Honest(f, off + k, s, good - k) {
      forall q | lo <= q < good && off + q < |c|
        ensures src[q] == c[off + q]
      {
        assert s[q - k] == f[off + k + (q - k)];
      }
    }
  }

  /** The chunk that ends filewrite decides what the file shows. */
  lemma ChunkExact(c: seq<byte>, f1: seq<byte>, f: seq<byte>, off: nat, src: seq<byte>, good: nat, k: nat, n1: nat,
                   r: nat)
    requires off <= |c| <= MAXFILE * BSIZE && k % CHUNK == 0 && k <= good <= |src| && n1 == Min(|src| - k, CHUNK)
    requires f1 == Splice(c, off, src[..k]) && off + k + n1 <= MAXFILE * BSIZE && r < n1
    requires var s := src[k..k + n1];
             f == Splice(f1, off + k, s[..r]) <==> Honest(f1, off + k, s, Min(good - k, n1))
    requires good >= k + n1 ==> |f1| <= off + k + r
    ensures f == Splice(c, off, src[..k + r]) <==> HonestChunks(c, off, src, good)
  {
    hide Splice, Honest, HonestChunks;
    SpliceOn(c, off, src, k, n1, r);
    if good < k + n1 {
      HonestChunk(c, off, src, good, k, n1);
    } else {
      LaterFault(c, off, src, good, k, n1);
      WholeIsHonest(f1, off + k, src[k..k + n1]);
    }
  }

  lemma SpliceOn(c: seq<byte>, off: nat, src: seq<byte>, k: nat, n1: nat, r: nat)
    requires off <= |c| && k + n1 <= |src| && r <= n1
    ensures |Splice(c, off, src[..k])| == Max(|c|, off + k)
    ensures Splice(Splice(c, off, src[..k]), off + k, src[k..k + n1][..r]) == Splice(c, off, src[..k + r])
  {
    assert src[k..k + n1][..r] == src[k..k + r] && src[..k] + src[k..k + r] == src[..k + r];
    SpliceTwice(c, off, src[..k], src[k..k + r], r);
  }

  lemma WholeIsHonest(c: seq<byte>, off: nat, src: seq<byte>)
    ensures Honest(c, off, src, |src|)
  {
  }

  /** A fault in a later chunk than the last one tried, which ran past the old end of the file, shows nothing. */
  lemma LaterFault(c: seq<byte>, off: nat, src: seq<byte>, good: nat, k: nat, n1: nat)
    requires k % CHUNK == 0 && k + n1 <= good <= |src| && n1 == Min(|src| - k, CHUNK) && |c| <= off + k + n1
    ensures HonestChunks(c, off, src, good)
  {
    if good < |src| {
      assert k + CHUNK <= good / CHUNK * CHUNK;
    }
  }

  /** What one chunk of filewrite leaves in the file, and what it shows if it is the last. */
  lemma ChunkShows(c: seq<byte>, f1: seq<byte>, f: seq<byte>, off: nat, src: seq<byte>, good: nat, k: nat, n1: nat,
                   r: int, at: nat)
    requires |c| <= MAXFILE * BSIZE && k % CHUNK == 0 && k <= good <= |src| && n1 == Min(|src| - k, CHUNK) && r <= n1
    requires if off <= |c| then Spliced(c, f1, off, src, k, k) else k == 0 && f1 == c
    requires r == -1 || (0 <= r && !Refused(off + k, n1, |f1|))
    requires r == -1 ==> f == f1 && Refused(off + k, n1, |f1|)
    requires r != -1 ==> Spliced(f1, f, off + k, src[k..k + n1], at, r)
    requires r != -1 ==>
               var s := src[k..k + n1];
               (f == Splice(f1, off + k, s[..r]) <==> Honest(f1, off + k, s, Min(good - k, n1)))
    requires r != -1 && r < n1 && good >= k + n1 ==> |f1| <= off + k + r
    ensures r != -1 ==> off <= |c| && Spliced(c, f, off, src, k + at, k + r)
    ensures r < n1 && off <= |c| ==>
              (f == Splice(c, off, src[..k + Max(r, 0)]) <==> HonestChunks(c, off, src, good))
  {
    hide Reported, Honest, HonestChunks;
    if r != -1 {
      SplicedJoin(c, f1, f, off, src, k, n1, at, r);
    }
    if r < n1 && off <= |c| {
      SplicedWhole(c, f1, off, src, k);
      if r == -1 {
        RefusedShows(c, off, src, good, k, n1);
      } else {
        ChunkExact(c, f1, f, off, src, good, k, n1, r);
      }
    }
  }

  lemma RefusedShows(c: seq<byte>, off: nat, src: seq<byte>, good: nat, k: nat, n1: nat)
    requires |c| <= MAXFILE * BSIZE && k % CHUNK == 0 && k <= good <= |src| && n1 == Min(|src| - k, CHUNK)
    requires off + k + n1 > MAXFILE * BSIZE
    ensures HonestChunks(c, off, src, good)
  {
    if good >= k + n1 {
      LaterFault(c, off, src, good, k, n1);
    }
  }

  lemma AllShows(c: seq<byte>, f: seq<byte>, off: nat, src: seq<byte>, good: nat)
    requires good == |src| && Spliced(c, f, off, src, good, good)
    ensures f == Splice(c, off, src[..good]) && HonestChunks(c, off, src, good)
  {
    SplicedWhole(c, f, off, src, good);
  }

  lemma UsedAt(g: Geometry, blocks: seq<Block>, base: nat, bi: nat)
    requires base % BPB == 0 && bi < BPB && BitmapBlock(g, base) < |blocks|
    ensures Used(g, blocks, base + bi) == BlockBit(blocks[BitmapBlock(g, base)], bi)
  {
    assert (base + bi) / BPB == base / BPB && (base + bi) % BPB == bi;
  }

  class FileSystem {
    const g: Geometry
    var blocks: seq<Block>
    var inodes: seq<Inode>              // in-memory inodes
    var dinodes: seq<Inode>             // their on-disk copies
    ghost var owner: map<nat, Owner>
    ghost var logged: set<nat>

    ghost predicate Consistent()
      reads this
    { Good(g, blocks, inodes, owner, {}) }

    /** Between operations the on-disk inodes agree with the in-memory ones. */
    ghost predicate Valid()
      reads this
    { Consistent() && dinodes == inodes }

    /** A freshly made file system: every file empty, the metadata blocks marked in the bitmap. */
    constructor (g: Geometry, ninodes: nat)
      requires GeometryOk(g, ninodes)
      ensures Valid() && this.g == g && |inodes| == ninodes && owner == map[]
      ensures forall n :: 0 <= n < ninodes ==> inodes[n] == Inode(NOBLOCKS, 0)
    {
      this.g := g;
      blocks := seq(g.size, _ => ZERO);
      inodes := seq(ninodes, _ => Inode(NOBLOCKS, 0));
      dinodes := seq(ninodes, _ => Inode(NOBLOCKS, 0));
      owner, logged := map[], {};
      new;
      forall x | 0 <= x < g.size
        ensures !Used(g, blocks, x)
      {
        BitmapInside(g, ninodes, x);
        ZeroBit(x % BPB);
      }
      var b := 0;
      while b < g.datastart
        invariant 0 <= b <= g.datastart && |blocks| == g.size
        invariant inodes == seq(ninodes, _ => Inode(NOBLOCKS, 0)) && dinodes == inodes && owner == map[]
        invariant forall x :: 0 <= x < g.size ==> (Used(g, blocks, x) <==> x < b)
      {
        BitmapInside(g, ninodes, b);
        forall x | 0 <= x < g.size
          ensures Used(g, PutUsed(g, blocks, b, true), x) <==> x < b + 1
        {
          BitmapInside(g, ninodes, x);
          UsedPut(g, blocks, b, true, x);
        }
        blocks := PutUsed(g, blocks, b, true);
        b := b + 1;
      }
      forall n, k | 0 <= n < |inodes| && 0 <= k < NSLOTS
        ensures Ptr(blocks, inodes[n], k) == 0
      {
        EmptyInode(blocks, k);
      }
    }

    /** The scan of balloc: the lowest free block, if there is one. */
    method ScanBitmap() returns (found: bool, b: nat)
      requires Shape(g, blocks, inodes)
      ensures !found ==> DiskFull(g, blocks)
      ensures found ==> b < g.size && !Used(g, blocks, b) && forall x :: 0 <= x < b ==> Used(g, blocks, x)
    {
      hide Used;
      var base := 0;
      while base < g.size
        invariant base % BPB == 0
        invariant forall x :: 0 <= x < base && x < g.size ==> Used(g, blocks, x)
        decreases g.size - base
      {
        found, b := ScanBlock(base);
        if found {
          return;
        }
        base := base + BPB;
      }
      return false, 0;
    }

    /** The inner loop of balloc, over the blocks that one bitmap block stands for. */
    method ScanBlock(base: nat) returns (found: bool, b: nat)
      requires Shape(g, blocks, inodes) && base < g.size && base % BPB == 0
      ensures !found ==> forall x :: base <= x < base + BPB && x < g.size ==> Used(g, blocks, x)
      ensures found ==> base <= b < g.size && !Used(g, blocks, b) && forall x :: base <= x < b ==> Used(g, blocks, x)
    {
      hide Used, BlockBit, BitmapBlock;
      BitmapInside(g, |inodes|, base);
      var bp := blocks[BitmapBlock(g, base)];
      var bi := 0;
      while bi < BPB && base + bi < g.size
        invariant 0 <= bi <= BPB
        invariant forall x :: base <= x < base + bi && x < g.size ==> Used(g, blocks, x)
      {
        UsedAt(g, blocks, base, bi);
        if !BlockBit(bp, bi) {
          return true, base + bi;
        }
        bi := bi + 1;
      }
      return false, 0;
    }

    method Balloc() returns (b: nat)
      requires Consistent()
      modifies this`blocks, this`logged
      ensures |blocks| == |old(blocks)|
      ensures b == 0 ==> blocks == old(blocks) && logged == old(logged) && DiskFull(g, blocks)
      ensures b != 0 ==>
                && g.datastart <= b < g.size && b !in owner
                && !Used(g, old(blocks), b) && (forall x :: 0 <= x < b ==> Used(g, old(blocks), x))
                && BitmapBlock(g, b) < |old(blocks)|
                && blocks == PutUsed(g, old(blocks), b, true)[b := ZERO]
                && logged == old(logged) + {BitmapBlock(g, b), b}
      ensures Journaled(old(blocks), old(logged), blocks, logged, {})
    {
      var found;
      found, b := ScanBitmap();
      if !found {
        return 0;
      }
      BallocKeeps(g, blocks, inodes, owner, b);
      blocks := PutUsed(g, blocks, b, true);
      blocks := blocks[b := ZERO];
      logged := logged + {BitmapBlock(g, b), b};
    }

    /** ok is false exactly where the source panics: the block is already free. */
    method Bfree(b: nat) returns (ok: bool)
      requires Shape(g, blocks, inodes) && b < g.size
      modifies this`blocks, this`logged
      ensures ok == Used(g, old(blocks), b)
      ensures BitmapBlock(g, b) < |old(blocks)|
      ensures ok ==> blocks == PutUsed(g, old(blocks), b, false) && logged == old(logged) + {BitmapBlock(g, b)}
      ensures !ok ==> blocks == old(blocks) && logged == old(logged)
      ensures Journaled(old(blocks), old(logged), blocks, logged, {})
    {
      BitmapInside(g, |inodes|, b);
      var bp := blocks[BitmapBlock(g, b)];
      var bi := b % BPB;
      if !BlockBit(bp, bi) {
        return false;
      }
      blocks := blocks[BitmapBlock(g, b) := PutBlockBit(bp, bi, false)];
      logged := logged + {BitmapBlock(g, b)};
      ok := true;
    }

    /** The block in slot k of the inode itself, allocated if missing. */
    method MapSlot(i: nat, k: nat) returns (addr: nat)
      requires Consistent() && i < |inodes| && k <= NDIRECT
      modifies this`blocks, this`inodes, this`owner, this`logged
      ensures Consistent() && AllExtend(old(blocks), old(inodes), blocks, inodes)
      ensures addr == inodes[i].addrs[k]
      ensures inodes == old(inodes)[i := inodes[i]]
      ensures forall q :: 0 <= q <= NDIRECT && q != k ==> inodes[i].addrs[q] == old(inodes[i].addrs[q])
      ensures old(inodes[i].addrs[k]) != 0 ==>
                addr == old(inodes[i].addrs[k]) && blocks == old(blocks) && inodes == old(inodes)
                && owner == old(owner) && logged == old(logged)
      ensures addr == 0 ==> DiskFull(g, blocks) && blocks == old(blocks)
      ensures logged <= old(logged) + BitmapBlocks(g) + NonZero(addr)
      ensures Journaled(old(blocks), old(logged), blocks, logged, {})
    {
      hide Good, AllExtend, DiskFull, Journaled;
      JournalStart(blocks, logged);
      addr := inodes[i].addrs[k];
      if addr != 0 {
        SelfExtends(blocks, inodes);
        assert inodes == inodes[i := inodes[i]];
        return;
      }
      addr := Balloc();
      if addr == 0 {
        SelfExtends(blocks, inodes);
        assert inodes == inodes[i := inodes[i]];
        return;
      }
      BitmapListed(g, addr);
      SlotAllocated(g, old(blocks), inodes, owner, i, k, addr);
      inodes := inodes[i := inodes[i].(addrs := inodes[i].addrs[k := addr])];
      owner := owner[addr := Owner(i, k)];
    }

    /** Entry j of the inode's indirect block, allocated if missing. */
    method MapEntry(i: nat, j: nat) returns (addr: nat)
      requires Consistent() && i < |inodes| && j < NINDIRECT && inodes[i].addrs[NDIRECT] != 0
      modifies this`blocks, this`owner, this`logged
      ensures Consistent() && AllExtend(old(blocks), inodes, blocks, inodes)
      ensures addr == Ptr(blocks, inodes[i], NDIRECT + 1 + j)
      ensures Ptr(old(blocks), inodes[i], NDIRECT + 1 + j) != 0 ==>
                addr == Ptr(old(blocks), inodes[i], NDIRECT + 1 + j) && blocks == old(blocks)
                && owner == old(owner) && logged == old(logged)
      ensures addr == 0 ==> DiskFull(g, blocks)
      ensures logged <= old(logged) + BitmapBlocks(g) + NonZero(addr) + NonZero(inodes[i].addrs[NDIRECT])
      ensures Journaled(old(blocks), old(logged), blocks, logged, {})
    {
      hide Good, AllExtend, DiskFull, Journaled;
      JournalStart(blocks, logged);
      var p := inodes[i].addrs[NDIRECT];
      IndirectInside(g, blocks, inodes, owner, i);
      addr := Word(blocks[p], j);
      assert addr == Ptr(blocks, inodes[i], NDIRECT + 1 + j);
      if addr != 0 {
        SelfExtends(blocks, inodes);
        return;
      }
      addr := Balloc();
      if addr == 0 {
        SelfExtends(blocks, inodes);
        return;
      }
      BitmapListed(g, addr);
      EntryAllocated(g, old(blocks), inodes, owner, i, j, addr);
      JournalWrite(old(blocks), old(logged), blocks, logged, p, SetWord(blocks[p], j, addr));
      blocks := blocks[p := SetWord(blocks[p], j, addr)];
      owner := owner[addr := Owner(i, NDIRECT + 1 + j)];
      logged := logged + {p};
    }

    method Bmap(i: nat, bn: nat) returns (addr: nat)
      requires Consistent() && i < |inodes| && bn < MAXFILE
      modifies this`blocks, this`inodes, this`owner, this`logged
      ensures Consistent() && AllExtend(old(blocks), old(inodes), blocks, inodes)
      ensures inodes == old(inodes)[i := inodes[i]]
      ensures addr != 0 ==> addr == Ptr(blocks, inodes[i], SlotOf(bn))
      ensures Ptr(old(blocks), old(inodes)[i], SlotOf(bn)) != 0 ==>
                addr != 0 && blocks == old(blocks) && inodes == old(inodes) && owner == old(owner)
                  && logged == old(logged)
      ensures addr == 0 ==> DiskFull(g, blocks) && (bn < NDIRECT ==> blocks == old(blocks))
      ensures logged <= old(logged) + BitmapBlocks(g) + NonZero(addr) + NonZero(inodes[i].addrs[NDIRECT])
      ensures old(inodes)[i].addrs[NDIRECT] != 0 ==> inodes[i].addrs[NDIRECT] == old(inodes)[i].addrs[NDIRECT]
      ensures Journaled(old(blocks), old(logged), blocks, logged, {})
    {
      hide Good, AllExtend, Journaled;
      if bn < NDIRECT {
        addr := MapSlot(i, bn);
        return;
      }
      var p := MapSlot(i, NDIRECT);
      if p == 0 {
        return 0;
      }
      ghost var b1, i1, l1 := blocks, inodes, logged;
      addr := MapEntry(i, bn - NDIRECT);
      JournalTrans(old(blocks), old(logged), b1, l1, blocks, logged, {});
      ExtendsTrans(old(blocks), old(inodes), b1, i1, blocks, inodes);
    }

    /** bfree on the block that slot k of inode i points to, if any: it is in use, so there is no panic. */
    method FreeSlot(a: nat, ghost b0: seq<Block>, ghost i0: seq<Inode>, ghost i: nat,
                    ghost done: Done, ghost done': Done, ghost k: nat) returns (panicked: bool)
      requires Good(g, b0, i0, owner, {}) && |inodes| == |i0| && i < |i0|
      requires k < NSLOTS && !done.Has(k) && a == Ptr(b0, i0[i], k)
      requires forall q :: 0 <= q < NSLOTS ==> done'.Has(q) == (done.Has(q) || q == k)
      requires Freeing(g, b0, owner, blocks, i, done)
      modifies this`blocks, this`logged
      ensures !panicked && Freeing(g, b0, owner, blocks, i, done')
      ensures logged <= old(logged) + BitmapBlocks(g)
      ensures Journaled(old(blocks), old(logged), blocks, logged, {})
    {
      FreeStep(g, b0, i0, owner, blocks, i, done, done', k);
      panicked := false;
      if a != 0 {
        BitmapListed(g, a);
        var ok := Bfree(a);
        panicked := !ok;
      }
    }

    /** Frees exactly the blocks of inode i; bfree's panic is not reached. */
    method Itrunc(i: nat) returns (panicked: bool)
      requires Valid() && i < |inodes|
      modifies this
      ensures !panicked && Valid()
      ensures inodes == old(inodes)[i := Inode(NOBLOCKS, 0)]
      ensures owner == Others(old(owner), i)
      ensures forall x :: 0 <= x < g.size ==>
                            (Used(g, blocks, x) <==>
                                Used(g, old(blocks), x) && !(x in old(owner) && old(owner)[x].ino == i))
      ensures forall n :: 0 <= n < |inodes| && n != i ==> Content(blocks, inodes[n]) == Content(old(blocks), inodes[n])
      ensures logged <= old(logged) + BitmapBlocks(g) + {InodeBlock(g, i)}
      ensures Journaled(old(blocks), old(logged), blocks, logged, {}) && InodeBlock(g, i) in logged
    {
      hide Good, Freeing, Journaled;
      ghost var b0, i0 := blocks, inodes;
      panicked := TruncDirect(i);
      ghost var b1, l1 := blocks, logged;
      var stuck := TruncIndirect(i, b0, i0);
      JournalTrans(b0, old(logged), b1, l1, blocks, logged, {});
      JournalMore(b0, old(logged), blocks, logged, {}, InodeBlock(g, i));
      panicked := panicked || stuck;
      TruncKeeps(g, b0, i0, owner, blocks, i);
      AllFreed(g, b0, i0, owner, blocks, i);
      inodes := inodes[i := inodes[i].(size := 0)];
      assert inodes[i].addrs == NOBLOCKS;
      assert inodes == i0[i := Inode(NOBLOCKS, 0)];
      dinodes := dinodes[i := inodes[i]];
      logged := logged + {InodeBlock(g, i)};
      owner := Others(owner, i);
    }

    method TruncDirect(i: nat) returns (panicked: bool)
      requires Consistent() && i < |inodes|
      modifies this`blocks, this`inodes, this`logged
      ensures !panicked
      ensures |inodes| == |old(inodes)| && forall n :: 0 <= n < |inodes| && n != i ==> inodes[n] == old(inodes)[n]
      ensures forall q :: 0 <= q <= NDIRECT ==> inodes[i].addrs[q] == if q < NDIRECT then 0 else old(inodes)[i].addrs[q]
      ensures Freeing(g, old(blocks), owner, blocks, i, Done(NDIRECT, 0, false))
      ensures logged <= old(logged) + BitmapBlocks(g)
      ensures Journaled(old(blocks), old(logged), blocks, logged, {})
    {
      ghost var b0, i0 := blocks, inodes;
      hide Good, Freeing, Journaled;
      JournalStart(blocks, logged);
      panicked := false;
      var k := 0;
      NothingFreed(g, b0, owner, i);
      while k < NDIRECT
        invariant 0 <= k <= NDIRECT && !panicked
        invariant |inodes| == |i0| && forall n :: 0 <= n < |inodes| && n != i ==> inodes[n] == i0[n]
        invariant forall q :: 0 <= q <= NDIRECT ==> inodes[i].addrs[q] == if q < k then 0 else i0[i].addrs[q]
        invariant Freeing(g, b0, owner, blocks, i, Done(k, 0, false))
        invariant logged <= old(logged) + BitmapBlocks(g)
        invariant Journaled(b0, old(logged), blocks, logged, {})
      {
        var a := inodes[i].addrs[k];
        ghost var b1, l1 := blocks, logged;
        var stuck := FreeSlot(a, b0, i0, i, Done(k, 0, false), Done(k + 1, 0, false), k);
        JournalTrans(b0, old(logged), b1, l1, blocks, logged, {});
        panicked := panicked || stuck;
        if a != 0 {
          inodes := inodes[i := inodes[i].(addrs := inodes[i].addrs[k := 0])];
        }
        k := k + 1;
      }
    }

    method TruncIndirect(i: nat, ghost b0: seq<Block>, ghost i0: seq<Inode>) returns (panicked: bool)
      requires Good(g, b0, i0, owner, {}) && i < |i0|
      requires |inodes| == |i0| && inodes[i].addrs[NDIRECT] == i0[i].addrs[NDIRECT]
      requires Freeing(g, b0, owner, blocks, i, Done(NDIRECT, 0, false))
      modifies this`blocks, this`inodes, this`logged
      ensures !panicked
      ensures inodes == old(inodes)[i := old(inodes)[i].(addrs := old(inodes)[i].addrs[NDIRECT := 0])]
      ensures Freeing(g, b0, owner, blocks, i, ALL)
      ensures logged <= old(logged) + BitmapBlocks(g)
      ensures Journaled(old(blocks), old(logged), blocks, logged, {})
    {
      hide Good, Freeing, Journaled, Ptr;
      panicked := false;
      JournalStart(blocks, logged);
      var p := inodes[i].addrs[NDIRECT];
      IndirectEntries(g, b0, i0, owner, blocks, i);
      if p == 0 {
        FreeEmptySlots(g, b0, i0, owner, blocks, i, Done(NDIRECT, 0, false));
        assert inodes[i].addrs[NDIRECT := 0] == inodes[i].addrs;
        return;
      }
      var bp := blocks[p];
      var j := 0;
      while j < NINDIRECT
        invariant 0 <= j <= NINDIRECT && !panicked
        invariant inodes == old(inodes)
        invariant Freeing(g, b0, owner, blocks, i, Done(NDIRECT, j, false))
        invariant logged <= old(logged) + BitmapBlocks(g)
        invariant Journaled(old(blocks), old(logged), blocks, logged, {})
      {
        ghost var b1, l1 := blocks, logged;
        var a := Word(bp, j);
        var stuck := FreeSlot(a, b0, i0, i, Done(NDIRECT, j, false), Done(NDIRECT, j + 1, false), NDIRECT + 1 + j);
        JournalTrans(old(blocks), old(logged), b1, l1, blocks, logged, {});
        panicked := panicked || stuck;
        j := j + 1;
      }
      ghost var b2, l2 := blocks, logged;
      var stuck := FreeSlot(p, b0, i0, i, Done(NDIRECT, NINDIRECT, false), ALL, NDIRECT);
      JournalTrans(old(blocks), old(logged), b2, l2, blocks, logged, {});
      panicked := panicked || stuck;
      inodes := inodes[i := inodes[i].(addrs := inodes[i].addrs[NDIRECT := 0])];
    }

    ghost function Snap(): (seq<Block>, seq<Inode>, map<nat, Owner>, set<nat>)
      reads this
    { (blocks, inodes, owner, logged) }

    /** Bytes off.. of the file, clipped to its size; `room` is how many destination bytes are mapped. */
    method Readi(i: nat, off: nat, n: nat, room: nat) returns (tot: int, dst: seq<byte>)
      requires Valid() && i < |inodes| && off < LIMIT && n < LIMIT
      modifies this`blocks, this`inodes, this`owner, this`logged
      ensures Snap() == old(Snap())
      ensures off > inodes[i].size || off + n >= LIMIT ==> tot == 0 && dst == []
      ensures inodes[i].size <= MAXFILE * BSIZE
      ensures off <= inodes[i].size && off + n < LIMIT ==>
                IsRead(Content(blocks, inodes[i]), off, Min(n, inodes[i].size - off), room, tot, dst)
    {
      assert HoleFree(blocks, inodes[i]);
      if off > inodes[i].size || off + n >= LIMIT {
        return 0, [];
      }
      tot, dst := ReadBlocks(i, off, Min(n, inodes[i].size - off), room);
    }

    /** The loop of readi. */
    method ReadBlocks(i: nat, off: nat, want: nat, room: nat) returns (tot: int, dst: seq<byte>)
      requires Consistent() && i < |inodes| && HoleFree(blocks, inodes[i])
      requires off + want <= inodes[i].size <= MAXFILE * BSIZE
      modifies this`blocks, this`inodes, this`owner, this`logged
      ensures Snap() == old(Snap())
      ensures IsRead(Content(blocks, inodes[i]), off, want, room, tot, dst)
    {
      hide Good, HoleFree, ByteAt, Ptr;
      ghost var c := Content(blocks, inodes[i]);
      tot, dst := 0, [];
      while tot < want
        invariant 0 <= tot <= want && tot <= room
        invariant dst == c[off..off + tot]
        invariant Snap() == old(Snap())
        decreases want - tot
      {
        var m := Min(want - tot, BSIZE - (off + tot) % BSIZE);
        var run := ReadChunk(i, off + tot, m);
        RunsJoin(c, off, tot, m, Min(m, room - tot));
        if room < tot + m {
          return -1, dst + run[..room - tot];
        }
        dst := dst + run;
        tot := tot + m;
      }
    }

    /** One block of readi. */
    method ReadChunk(i: nat, here: nat, m: nat) returns (run: seq<byte>)
      requires Consistent() && i < |inodes| && HoleFree(blocks, inodes[i])
      requires 0 < m && here + m <= inodes[i].size && here % BSIZE + m <= BSIZE
      modifies this`blocks, this`inodes, this`owner, this`logged
      ensures Snap() == old(Snap())
      ensures run == Content(blocks, inodes[i])[here..here + m]
    {
      hide Good, AllExtend;
      BlockRun(blocks, inodes[i], here, m);
      var addr := Bmap(i, here / BSIZE);
      PointerInside(g, blocks, inodes, owner, i, SlotOf(here / BSIZE));
      run := blocks[addr][here % BSIZE..here % BSIZE + m];
    }

    /** In the middle of writei: `bytes` laid down so far, `data` the data blocks touched. */
    ghost predicate Writing(b0: seq<Block>, i0: seq<Inode>, l0: set<nat>, i: nat, off: nat, bytes: seq<byte>,
                            data: set<nat>)
      reads this
    {
      && Consistent() && i < |inodes| == |i0| && inodes[i].size == i0[i].size && off <= i0[i].size
      && OthersExtend(b0, i0, blocks, inodes, i)
      && Written(b0, i0[i], blocks, inodes[i], off, bytes)
      && LogBound(g, l0, logged, inodes[i].addrs[NDIRECT], data)
    }

    /** bmap inside writei. */
    method MapForWrite(i: nat, off: nat, ghost bytes: seq<byte>, bn: nat, ghost b0: seq<Block>, ghost i0: seq<Inode>,
                       ghost l0: set<nat>, ghost data: set<nat>)
      returns (addr: nat)
      requires Writing(b0, i0, l0, i, off, bytes, data) && bn < MAXFILE
      modifies this`blocks, this`inodes, this`owner, this`logged
      ensures Writing(b0, i0, l0, i, off, bytes, data + NonZero(addr))
      ensures addr == 0 ==> DiskFull(g, blocks) && i0[i].size <= bn * BSIZE && (bn < NDIRECT ==> blocks == old(blocks))
      ensures addr != 0 ==> addr == Ptr(blocks, inodes[i], SlotOf(bn))
      ensures Journaled(old(blocks), old(logged), blocks, logged, {})
    {
      hide Good, AllExtend, Written, OthersExtend, LogBound, DiskFull, Journaled;
      WrittenBlock(b0, i0[i], blocks, inodes[i], off, bytes, bn);
      ghost var b1, i1, l1 := blocks, inodes, logged;
      addr := Bmap(i, bn);
      MapKeeps(g, b0, i0, b1, i1, blocks, inodes, i, off, bytes);
      LogMapped(g, l0, l1, logged, i1[i].addrs[NDIRECT], inodes[i].addrs[NDIRECT], data, addr);
    }

    /** One block of writei: chunk laid into the block that holds file position off + |bytes|. */
    method WriteChunk(i: nat, addr: nat, chunk: seq<byte>, off: nat, at: nat, log: bool, ghost bytes: seq<byte>,
                      ghost b0: seq<Block>, ghost i0: seq<Inode>, ghost l0: set<nat>, ghost data: set<nat>)
      requires Writing(b0, i0, l0, i, off, bytes, data) && addr in data
      requires off + |bytes| < MAXFILE * BSIZE && at == (off + |bytes|) % BSIZE
      requires at + |chunk| <= BSIZE && off + |bytes| + |chunk| <= MAXFILE * BSIZE
      requires addr == Ptr(blocks, inodes[i], SlotOf((off + |bytes|) / BSIZE)) != 0
      modifies this`blocks, this`logged
      ensures Writing(b0, i0, l0, i, off, bytes + chunk, data)
      ensures Journaled(old(blocks), old(logged), blocks, logged, if log then {} else {addr})
      ensures StoppedIn(i, off + |bytes|) == addr
    {
      hide Good, Written, OthersExtend, LogBound, Extends, DiskFull, HoleFree, Journaled;
      JournalStart(blocks, logged);
      ghost var k := SlotOf((off + |bytes|) / BSIZE);
      PointerInside(g, blocks, inodes, owner, i, k);
      DataWrite(g, blocks, inodes, owner, i, k, Overlaid(blocks[addr], at, chunk));
      ghost var b1 := blocks;
      JournalWrite(b1, logged, b1, logged, addr, Overlaid(blocks[addr], at, chunk));
      blocks := blocks[addr := Overlaid(blocks[addr], at, chunk)];
      WrittenChunk(b0, i0[i], b1, inodes[i], blocks, off, bytes, chunk);
      OthersAfterData(b0, i0, b1, inodes, blocks, i);
      if log {
        LogData(g, l0, logged, inodes[i].addrs[NDIRECT], data, addr);
        logged := logged + {addr};
      }
    }

    /** The loop of writei. `laid` counts the bytes that reached the file's blocks: more than tot when the
        copy from user memory faults in the middle of a block. */
    method WriteBlocks(i: nat, off: nat, src: seq<byte>, good: nat)
      returns (tot: nat, ghost laid: nat, ghost faulted: bool, ghost data: set<nat>)
      requires Consistent() && i < |inodes| && !Refused(off, |src|, inodes[i].size) && good <= |src|
      modifies this`blocks, this`inodes, this`owner, this`logged
      ensures tot <= good && tot <= laid <= |src|
              && Writing(old(blocks), old(inodes), old(logged), i, off, src[..laid], data)
      ensures Ended(off, |src|, good, old(inodes)[i].size, laid, tot, faulted)
      ensures !faulted && tot < |src| ==> DiskFull(g, blocks)
      ensures !faulted && tot == 0 < |src| && off < NDIRECT * BSIZE ==> DiskFull(g, old(blocks))
      ensures |data| * BSIZE < off % BSIZE + |src| + BSIZE
      ensures Journaled(old(blocks), old(logged), blocks, logged, if faulted then {StoppedIn(i, off + tot)} else {})
    {
      hide StoppedIn, Ptr, SlotOf;
      hide Good, Writing, DiskFull, Counted, Ended, Journaled;
      ghost var b0, i0, l0, count := blocks, inodes, logged, 0;
      JournalStart(b0, l0);
      WritingStarts(i, off);
      tot, laid, faulted, data := 0, 0, false, {};
      assert src[..0] == [];
      CountStart(off, |src|);
      EndsWhole(off, |src|, good, i0[i].size);
      while tot < |src|
        invariant tot <= good && laid == tot && !faulted && (tot == 0 ==> blocks == b0)
        invariant Writing(b0, i0, l0, i, off, src[..tot], data) && Journaled(b0, l0, blocks, logged, {})
        invariant |data| <= count && Counted(off, |src|, tot, count) && count * BSIZE < off % BSIZE + |src| + BSIZE
        decreases |src| - tot
      {
        var here := off + tot;
        var m := Min(|src| - tot, BSIZE - here % BSIZE);
        CountStep(off, |src|, tot, m, count, good);
        EndsHere(off, |src|, tot, m, count, good, i0[i].size);
        ghost var b1, l1 := blocks, logged;
        var addr := MapForWrite(i, off, src[..tot], here / BSIZE, b0, i0, l0, data);
        JournalTrans(b0, l0, b1, l1, blocks, logged, {});
        data, count := data + NonZero(addr), count + 1;
        if addr == 0 {
          break;
        }
        faulted := good < tot + m;
        var end := Min(good, tot + m);
        b1, l1 := blocks, logged;
        WriteChunk(i, addr, src[tot..end], off, here % BSIZE, good >= tot + m, src[..tot], b0, i0, l0, data);
        JournalTrans(b0, l0, b1, l1, blocks, logged, if faulted then {addr} else {});
        PrefixOn(src, tot, end);
        laid := end;
        if good < tot + m {
          break;
        }
        tot := end;
      }
    }

    /** The block that holds position x of file i. */
    ghost function StoppedIn(i: nat, x: nat): nat
      reads this
    { if i < |inodes| && x / BSIZE < MAXFILE then Ptr(blocks, inodes[i], SlotOf(x / BSIZE)) else 0 }

    /** The bytes of file n. */
    ghost function File(n: nat): seq<byte>
      reads this
    { FileOf(blocks, inodes, n) }

    /** Lays src over the file from off on. The result counts the bytes logged; the file shows exactly those
        unless the copy from user memory faulted inside a block (see `laid`). */
    method Writei(i: nat, off: nat, src: seq<byte>, good: nat) returns (tot: int, ghost laid: nat, ghost faulted: bool)
      requires Valid() && i < |inodes| && off < LIMIT && |src| < LIMIT && good <= |src|
      modifies this
      ensures Valid()
      ensures tot >= -1 && (tot == -1 <==> Refused(off, |src|, |old(File(i))|))
      ensures tot <= good
      ensures tot == -1 ==> Snap() == old(Snap()) && !faulted
      ensures tot != -1 ==> Spliced(old(File(i)), File(i), off, src, laid, tot)
      ensures tot != -1 ==> OthersSame(old(blocks), old(inodes), blocks, inodes, i)
      ensures tot != -1 && !faulted ==> laid == tot && (tot == |src| || DiskFull(g, blocks))
      ensures faulted ==> laid == good < |src| && (laid == tot <==> good == 0 || (off + good) % BSIZE == 0)
      ensures tot != -1 ==>
                (File(i) == Splice(old(File(i)), off, src[..tot]) <==> Honest(old(File(i)), off, src, good))
      ensures tot != -1 && !faulted && tot < |src| ==> |old(File(i))| <= off + tot
      ensures tot <= 0 || tot == |src| || (off + tot) % BSIZE == 0
      ensures !faulted && tot == 0 < |src| && off < NDIRECT * BSIZE ==> DiskFull(g, old(blocks))
      ensures |logged - old(logged)| <= NBitmap(g) + 2 + (off % BSIZE + |src| + BSIZE - 1) / BSIZE
      ensures tot != -1 ==> InodeBlock(g, i) in logged
      ensures Journaled(old(blocks), old(logged), blocks, logged, if faulted then {StoppedIn(i, off + tot)} else {})
    {
      hide Journaled;
      JournalStart(blocks, logged);
      hide Good, Written, DiskFull, OthersExtend, OthersSame, LogBound, Spliced, FileOf, Honest, Reported, Splice;
      FileSize(g, blocks, inodes, owner, i);
      if Refused(off, |src|, inodes[i].size) {
        assert logged - logged == {};
        return -1, 0, false;
      }
      ghost var b0, i0, o0, l0 := blocks, inodes, owner, logged;
      ghost var data;
      tot, laid, faulted, data := WriteBlocks(i, off, src, good);
      ghost var i1 := inodes;
      inodes := inodes[i := inodes[i].(size := Max(inodes[i].size, off + tot))];
      WriteSettled(g, b0, i0, o0, blocks, i1, owner, i, off, src, laid, tot);
      SplicedFits(FileOf(b0, i0, i), FileOf(blocks, inodes, i), off, src, laid, tot);
      WriteExact(FileOf(b0, i0, i), FileOf(blocks, inodes, i), off, src, good, laid, tot, faulted);
      dinodes := dinodes[i := inodes[i]];
      DinodesFollow(b0, i0, blocks, i1, i, inodes[i]);
      LogCount(g, l0, logged, inodes[i].addrs[NDIRECT], data, InodeBlock(g, i));
      JournalMore(b0, l0, blocks, logged, if faulted then {StoppedIn(i, off + tot)} else {}, InodeBlock(g, i));
      logged := logged + {InodeBlock(g, i)};
      assert |data| <= (off % BSIZE + |src| + BSIZE - 1) / BSIZE;
    }

    /** One chunk of filewrite, in a transaction of its own. */
    method WriteTx(i: nat, off: nat, src: seq<byte>, good: nat) returns (r: int, ghost at: nat, ghost t: Tx)
      requires Valid() && i < |inodes| && off < LIMIT && |src| <= CHUNK && good <= |src|
      modifies this
      ensures Valid() && i < |inodes| && -1 <= r <= good
      ensures t.before == old(blocks) && t.after == blocks && TxOk(g, i, t) && (good == |src| ==> t.cut == {})
      ensures r == -1 <==> Refused(off, |src|, |old(File(i))|)
      ensures r == -1 ==> blocks == old(blocks) && inodes == old(inodes) && File(i) == old(File(i))
      ensures r != -1 ==> OthersSame(old(blocks), old(inodes), blocks, inodes, i)
      ensures r != -1 ==> Spliced(old(File(i)), File(i), off, src, at, r)
      ensures r != -1 ==> (File(i) == Splice(old(File(i)), off, src[..r]) <==> Honest(old(File(i)), off, src, good))
      ensures r != -1 && r < |src| && good == |src| ==> |old(File(i))| <= off + r && DiskFull(g, blocks)
      ensures r == |src| ==> at == r && t.cut == {}
      ensures r != -1 ==> r <= at <= |src|
    {
      hide Good, DiskFull, OthersSame, Spliced, FileOf, Splice, Honest, Journaled;
      ghost var b0, i0, faulted := blocks, inodes, false;
      logged := {};
      r, at, faulted := Writei(i, off, src, good);
      assert logged - {} == logged;
      t := Tx(b0, blocks, logged, if faulted then {StoppedIn(i, off + r)} else {});
      if r != -1 {
        SameCount(b0, i0, blocks, inodes, i);
        SplicedFits(FileOf(b0, i0, i), File(i), off, src, at, r);
      }
    }

    /** filewrite on an inode: chunks of at most CHUNK bytes, each in a transaction of its own. */
    method Filewrite(i: nat, off: nat, n: int, src: seq<byte>, good: nat)
      returns (ret: int, off': nat, ghost laid: nat, ghost txs: seq<Tx>)
      requires Valid() && i < |inodes| && off < LIMIT && n < LIMIT / 2 && |src| == Max(n, 0) && good <= |src|
      modifies this
      ensures Valid()
      ensures ret == n || ret == -1
      ensures off <= off' && off' - off <= laid <= |src|
      ensures ret == n >= 0 ==> off' == off + n && laid == n
      ensures if off <= |old(File(i))| then Spliced(old(File(i)), File(i), off, src, laid, off' - off)
              else off' == off && File(i) == old(File(i))
      ensures OthersSame(old(blocks), old(inodes), blocks, inodes, i)
      ensures off <= |old(File(i))| ==>
                (File(i) == Splice(old(File(i)), off, src[..off' - off]) <==>
                    HonestChunks(old(File(i)), off, src, good))
      ensures ret == -1 && 0 < n && !Refused(off, n, |old(File(i))|) && good == n ==> DiskFull(g, blocks)
      ensures Chained(g, i, old(blocks), blocks, txs)
      ensures good == n ==> forall k :: 0 <= k < |txs| ==> txs[k].cut == {}
    {
      hide Ptr;
      hide Good, DiskFull, OthersSame, Spliced, FileOf, Splice, Honest, HonestChunks, Chained, TxOk;
      ghost var b0, i0, c := blocks, inodes, File(i);
      SameSelf(g, b0, i0, owner, i);
      FileSize(g, blocks, inodes, owner, i);
      SizeBound(g, blocks, inodes, owner, i);
      ChainStart(g, i, b0);
      if off <= |c| {
        SplicedStart(c, off, src);
      }
      off', laid, txs := off, 0, [];
      var k := 0;
      while k < n
        invariant 0 <= k <= good && off' == off + k && laid == k && off' < LIMIT && (k == n || k % CHUNK == 0)
        invariant Valid() && i < |inodes| && OthersSame(b0, i0, blocks, inodes, i)
        invariant if off <= |c| then Spliced(c, File(i), off, src, k, k) else k == 0 && File(i) == c
        invariant Chained(g, i, b0, blocks, txs) && forall j :: 0 <= j < |txs| ==> txs[j].cut == {}
        decreases n - k
      {
        var n1 := Min(n - k, CHUNK);
        SplicedSize(c, File(i), off, src, k);
        ghost var b1, i1, f1 := blocks, inodes, File(i);
        var r;
        ghost var at, t;
        r, at, t := WriteTx(i, off', src[k..k + n1], Min(good - k, n1));
        ChainOn(g, i, b0, txs, t);
        txs := txs + [t];
        SameTrans(b0, i0, b1, i1, blocks, inodes, i);
        ChunkShows(c, f1, File(i), off, src, good, k, n1, r, at);
        if r != -1 {
          laid := k + at;
        }
        if r > 0 {
          off' := off' + r;
        }
        if r != n1 {
          break;
        }
        k := k + r;
      }
      if k >= n && off <= |c| {
        AllShows(c, File(i), off, src, good);
      }
      ret := if k == n then n else -1;
    }

    lemma WritingStarts(i: nat, off: nat)
      requires Consistent() && i < |inodes| && off <= inodes[i].size
      ensures Writing(blocks, inodes, logged, i, off, [], {})
    {
      WrittenStart(blocks, inodes[i], off);
      LogStart(g, logged, inodes[i].addrs[NDIRECT]);
      OthersStart(blocks, inodes, i);
    }
  }

  /** What was written and counted reads back from the same place, whole or cut short. */
  method WriteThenRead(fs: FileSystem, i: nat, off: nat, src: seq<byte>, good: nat) returns (tot: int, back: seq<byte>)
    requires fs.Valid() && i < |fs.inodes| && off < LIMIT && |src| < LIMIT && good <= |src|
    modifies fs
    ensures fs.Valid() && tot <= good && (tot == -1 <==> Refused(off, |src|, |old(fs.File(i))|))
    ensures back == src[..Max(tot, 0)]
  {
    hide Good, DiskFull, OthersSame, Spliced, FileOf, Splice, Honest;
    ghost var b0, i0, c, laid, faulted := fs.blocks, fs.inodes, fs.File(i), 0, false;
    tot, laid, faulted := fs.Writei(i, off, src, good);
    if tot == -1 {
      return -1, [];
    }
    SameCount(b0, i0, fs.blocks, fs.inodes, i);
    FileContent(fs.g, fs.blocks, fs.inodes, fs.owner, i);
    SplicedShows(c, fs.File(i), off, src, laid, tot);
    var r;
    r, back := fs.Readi(i, off, tot, tot);
  }

  lemma FileContent(g: Geometry, blocks: seq<Block>, inodes: seq<Inode>, owner: map<nat, Owner>, i: nat)
    requires Good(g, blocks, inodes, owner, {}) && i < |inodes|
    ensures inodes[i].size <= MAXFILE * BSIZE && FileOf(blocks, inodes, i) == Content(blocks, inodes[i])
  {
    assert HoleFree(blocks, inodes[i]);
  }

  lemma SplicedShows(c: seq<byte>, f: seq<byte>, off: nat, src: seq<byte>, laid: nat, tot: nat)
    requires Spliced(c, f, off, src, laid, tot)
    ensures off + tot <= |f| && f[off..off + tot] == src[..tot]
  {
    forall x | 0 <= x < tot
      ensures f[off + x] == src[x]
    {
    }
  }

  /** A write that faults can change bytes it does not report: over a file of the bytes 1, 2, 3 a write of two
      nines whose second byte is unmapped counts none and leaves 9, 2, 3. */
  method FaultShows() returns (tot: int, ghost before: seq<byte>, ghost after: seq<byte>)
    ensures tot == 0 && before == [1, 2, 3] && after == [9, 2, 3]
  {
    hide Good, DiskFull, OthersSame, Spliced, FileOf, Splice, Honest;
    var fs := new FileSystem(Geometry(8, 1, 2, 3), 1);
    NotFull(fs.g, fs.blocks, fs.inodes, fs.owner, 3);
    FileSize(fs.g, fs.blocks, fs.inodes, fs.owner, 0);
    var src := [1, 2, 3];
    ghost var b0, i0, c, laid, faulted := fs.blocks, fs.inodes, fs.File(0), 0, false;
    tot, laid, faulted := fs.Writei(0, 0, src, 3);
    SameCount(b0, i0, fs.blocks, fs.inodes, 0);
    before := fs.File(0);
    SpliceEmpty(c, before, src, laid);
    tot, laid, faulted := fs.Writei(0, 0, [9, 9], 1);
    after := fs.File(0);
    SpliceFirst(before, after, laid, tot);
  }

  lemma NotFull(g: Geometry, blocks: seq<Block>, inodes: seq<Inode>, owner: map<nat, Owner>, b: nat)
    requires Good(g, blocks, inodes, owner, {}) && g.datastart <= b < g.size && b !in owner
    ensures !DiskFull(g, blocks)
  {
    assert !Used(g, blocks, b);
  }

  lemma SpliceEmpty(c: seq<byte>, f: seq<byte>, src: seq<byte>, laid: nat)
    requires c == [] && Spliced(c, f, 0, src, laid, |src|)
    ensures f == src
  {
  }

  lemma SpliceFirst(c: seq<byte>, f: seq<byte>, laid: nat, tot: nat)
    requires c == [1, 2, 3] && laid == 1 && tot == 0 && Spliced(c, f, 0, [9, 9], laid, tot)
    ensures f == [9, 2, 3]
  {
  }

  lemma SelfExtends(blocks: seq<Block>, inodes: seq<Inode>)
    ensures AllExtend(blocks, inodes, blocks, inodes)
  {
  }
}

/** The block layer of kernel/fs.c as data: bitmap bits and little-endian words inside blocks, inode
    pointers, who owns which block, and the bytes of a file. */
module FsLayout {
  import opened Util

  const BSIZE := 1024
  const NDIRECT := 12
  const NINDIRECT := 256
  const MAXFILE := 268
  const BPB := 8192
  const NSLOTS := 269       // 12 direct pointers, the indirect pointer, 256 indirect entries

  type Block = b: seq<byte> | |b| == BSIZE witness seq(BSIZE, _ => 0)

  const ZERO: Block := seq(BSIZE, _ => 0)

  // ---------- 32-bit words in a block ----------

  function Word(b: Block, i: nat): nat
    requires i < NINDIRECT
  { b[4 * i] as int + 256 * (b[4 * i + 1] as int) + 65536 * (b[4 * i + 2] as int) + 16777216 * (b[4 * i + 3] as int) }

  function SetWord(b: Block, i: nat, v: nat): Block
    requires i < NINDIRECT && v < 0x1_0000_0000
  {
    b[4 * i := v % 256][4 * i + 1 := v / 256 % 256][4 * i + 2 := v / 65536 % 256][4 * i + 3 := v / 16777216]
  }

  lemma WordSet(b: Block, i: nat, v: nat, j: nat)
    requires i < NINDIRECT && j < NINDIRECT && v < 0x1_0000_0000
    ensures Word(SetWord(b, i, v), j) == if i == j then v else Word(b, j)
  {
    if i == j {
      Bytes(v);
    }
  }

  lemma Bytes(v: nat)
    requires v < 0x1_0000_0000
    ensures v == v % 256 + 256 * (v / 256 % 256) + 65536 * (v / 65536 % 256) + 16777216 * (v / 16777216)
  {
    assert v / 65536 == v / 256 / 256;
    assert v / 16777216 == v / 65536 / 256;
  }

  // ---------- bits in a block ----------

  predicate Bit(x: nat, k: nat) {
    if k == 0 then x % 2 == 1 else Bit(x / 2, k - 1)
  }

  /** x with bit k set to v. */
  function PutBit(x: nat, k: nat, v: bool): nat {
    if k == 0 then x / 2 * 2 + (if v then 1 else 0) else PutBit(x / 2, k - 1, v) * 2 + x % 2
  }

  function Power(n: nat): nat {
    if n == 0 then 1 else 2 * Power(n - 1)
  }

  lemma {:induction false} PutBitBound(x: nat, k: nat, v: bool, n: nat)
    requires k < n && x < Power(n)
    ensures PutBit(x, k, v) < Power(n)
  {
    if k > 0 {
      PutBitBound(x / 2, k - 1, v, n - 1);
    }
  }

  lemma {:induction false} BitPut(x: nat, k: nat, v: bool, j: nat)
    ensures Bit(PutBit(x, k, v), j) == if j == k then v else Bit(x, j)
  {
    if k > 0 && j > 0 {
      BitPut(x / 2, k - 1, v, j - 1);
    }
  }

  function PutByteBit(x: byte, k: nat, v: bool): byte
    requires k < 8
  {
    assert PutBit(x, k, v) < 256 by { assert Power(8) == 256; PutBitBound(x, k, v, 8); }
    PutBit(x, k, v)
  }

  predicate BlockBit(b: Block, bi: nat)
    requires bi < BPB
  { Bit(b[bi / 8], bi % 8) }

  function PutBlockBit(b: Block, bi: nat, v: bool): Block
    requires bi < BPB
  { b[bi / 8 := PutByteBit(b[bi / 8], bi % 8, v)] }

  lemma BlockBitPut(b: Block, bi: nat, v: bool, bj: nat)
    requires bi < BPB && bj < BPB
    ensures BlockBit(PutBlockBit(b, bi, v), bj) == if bi == bj then v else BlockBit(b, bj)
  {
    if bi / 8 == bj / 8 {
      BitPut(b[bi / 8], bi % 8, v, bj % 8);
    }
  }

  // ---------- inodes, pointers, ownership ----------

  type Addrs = a: seq<nat> | |a| == NDIRECT + 1 witness seq(NDIRECT + 1, _ => 0)

  datatype Inode = Inode(addrs: Addrs, size: nat)

  /** The part of the superblock the block layer uses; datastart is the first block after the bitmap. */
  datatype Geometry = Geometry(size: nat, inodestart: nat, bmapstart: nat, datastart: nat)

  const IPB := 16

  predicate GeometryOk(g: Geometry, ninodes: nat) {
    && 0 < g.inodestart
    && g.inodestart + (ninodes + IPB - 1) / IPB <= g.bmapstart
    && g.bmapstart + (g.size + BPB - 1) / BPB <= g.datastart <= g.size < 0x1_0000_0000
  }

  function BitmapBlock(g: Geometry, b: nat): nat {
    g.bmapstart + b / BPB
  }

  function InodeBlock(g: Geometry, i: nat): nat {
    g.inodestart + i / IPB
  }

  /** Slot k of an inode: 0..11 direct, 12 the indirect block itself, 13+j its j-th entry. */
  function Ptr(blocks: seq<Block>, ip: Inode, k: nat): nat
    requires k < NSLOTS
  {
    if k <= NDIRECT then ip.addrs[k]
    else if 0 < ip.addrs[NDIRECT] < |blocks| then Word(blocks[ip.addrs[NDIRECT]], k - NDIRECT - 1)
    else 0
  }

  function SlotOf(bn: nat): nat {
    if bn < NDIRECT then bn else bn + 1
  }

  datatype Owner = Owner(ino: nat, slot: nat)

  predicate Shape(g: Geometry, blocks: seq<Block>, inodes: seq<Inode>) {
    |blocks| == g.size && GeometryOk(g, |inodes|)
  }

  /** Every pointer in use is the one its block is registered under. */
  ghost predicate Linked(blocks: seq<Block>, inodes: seq<Inode>, owner: map<nat, Owner>) {
    forall i, k :: 0 <= i < |inodes| && 0 <= k < NSLOTS && Ptr(blocks, inodes[i], k) != 0 ==>
                     Ptr(blocks, inodes[i], k) in owner && owner[Ptr(blocks, inodes[i], k)] == Owner(i, k)
  }

  predicate OwnedOk(g: Geometry, blocks: seq<Block>, inodes: seq<Inode>, b: nat, o: Owner) {
    && g.datastart <= b < g.size
    && o.ino < |inodes| && o.slot < NSLOTS
    && Ptr(blocks, inodes[o.ino], o.slot) == b
  }

  ghost predicate Owned(g: Geometry, blocks: seq<Block>, inodes: seq<Inode>, owner: map<nat, Owner>) {
    forall b :: b in owner ==> OwnedOk(g, blocks, inodes, b, owner[b])
  }

  predicate Used(g: Geometry, blocks: seq<Block>, b: nat) {
    BitmapBlock(g, b) < |blocks| && BlockBit(blocks[BitmapBlock(g, b)], b % BPB)
  }

  ghost predicate Mapped(g: Geometry, blocks: seq<Block>, owner: map<nat, Owner>, pending: set<nat>) {
    forall b :: 0 <= b < g.size ==> (Used(g, blocks, b) <==> b < g.datastart || b in owner || b in pending)
  }

  predicate HoleFree(blocks: seq<Block>, ip: Inode) {
    && ip.size <= MAXFILE * BSIZE
    && forall bn :: 0 <= bn < MAXFILE && bn * BSIZE < ip.size ==> Ptr(blocks, ip, SlotOf(bn)) != 0
  }

  ghost predicate Good(g: Geometry, blocks: seq<Block>, inodes: seq<Inode>, owner: map<nat, Owner>, pending: set<nat>) {
    && Shape(g, blocks, inodes)
    && Linked(blocks, inodes, owner)
    && Owned(g, blocks, inodes, owner)
    && Mapped(g, blocks, owner, pending)
    && forall i :: 0 <= i < |inodes| ==> HoleFree(blocks, inodes[i])
  }

  function ByteAt(blocks: seq<Block>, ip: Inode, x: nat): byte
    requires x < MAXFILE * BSIZE
  {
    var p := Ptr(blocks, ip, SlotOf(x / BSIZE));
    if p < |blocks| then blocks[p][x % BSIZE] else 0
  }

  /** The bytes of a file. */
  function Content(blocks: seq<Block>, ip: Inode): (c: seq<byte>)
    requires ip.size <= MAXFILE * BSIZE
    ensures |c| == ip.size
  { seq(ip.size, x requires 0 <= x < ip.size => ByteAt(blocks, ip, x)) }

  /** c with bytes laid over it from off on. */
  function Splice(c: seq<byte>, off: nat, bytes: seq<byte>): (r: seq<byte>)
    requires off <= |c|
    ensures |r| == if |c| <= off + |bytes| then off + |bytes| else |c|
  { c[..off] + bytes + (if off + |bytes| < |c| then c[off + |bytes|..] else []) }

  // ---------- what the bitmap writes keep ----------

  function PutUsed(g: Geometry, blocks: seq<Block>, b: nat, v: bool): seq<Block>
    requires BitmapBlock(g, b) < |blocks|
  { blocks[BitmapBlock(g, b) := PutBlockBit(blocks[BitmapBlock(g, b)], b % BPB, v)] }

  lemma UsedPut(g: Geometry, blocks: seq<Block>, b: nat, v: bool, x: nat)
    requires BitmapBlock(g, b) < |blocks| && BitmapBlock(g, x) < |blocks|
    ensures Used(g, PutUsed(g, blocks, b, v), x) == if x == b then v else Used(g, blocks, x)
  {
    BlockBitPut(blocks[BitmapBlock(g, b)], b % BPB, v, x % BPB);
  }

  lemma BitmapInside(g: Geometry, ninodes: nat, b: nat)
    requires GeometryOk(g, ninodes) && b < g.size
    ensures g.bmapstart <= BitmapBlock(g, b) < g.datastart
  {
  }

  /** Later state keeps what an inode pointed to: pointers in use stay, and so do their data blocks. */
  ghost predicate Extends(blocks: seq<Block>, ip: Inode, blocks': seq<Block>, ip': Inode) {
    && ip'.size == ip.size
    && |blocks'| == |blocks|
    && forall k :: 0 <= k < NSLOTS && Ptr(blocks, ip, k) != 0 ==>
                     && Ptr(blocks', ip', k) == Ptr(blocks, ip, k)
                     && (k != NDIRECT && Ptr(blocks, ip, k) < |blocks| ==>
                           blocks'[Ptr(blocks, ip, k)] == blocks[Ptr(blocks, ip, k)])
  }

  ghost predicate AllExtend(blocks: seq<Block>, inodes: seq<Inode>, blocks': seq<Block>, inodes': seq<Inode>) {
    && |inodes'| == |inodes|
    && forall i :: 0 <= i < |inodes| ==> Extends(blocks, inodes[i], blocks', inodes'[i])
  }

  lemma ExtendsContent(blocks: seq<Block>, ip: Inode, blocks': seq<Block>, ip': Inode)
    requires Extends(blocks, ip, blocks', ip') && HoleFree(blocks, ip)
    ensures HoleFree(blocks', ip')
    ensures Content(blocks', ip') == Content(blocks, ip)
  {
    forall bn | 0 <= bn < MAXFILE && bn * BSIZE < ip.size
      ensures Ptr(blocks', ip', SlotOf(bn)) != 0
    {
      assert Ptr(blocks, ip, SlotOf(bn)) != 0;
    }
    forall x | 0 <= x < ip.size
      ensures ByteAt(blocks', ip', x) == ByteAt(blocks, ip, x)
    {
      var bn := x / BSIZE;
      assert bn * BSIZE < ip.size;
      assert Ptr(blocks, ip, SlotOf(bn)) != 0;
    }
  }

  lemma ExtendsTrans(b0: seq<Block>, i0: seq<Inode>, b1: seq<Block>, i1: seq<Inode>, b2: seq<Block>, i2: seq<Inode>)
    requires AllExtend(b0, i0, b1, i1) && AllExtend(b1, i1, b2, i2)
    ensures AllExtend(b0, i0, b2, i2)
  {
    forall i | 0 <= i < |i0|
      ensures Extends(b0, i0[i], b2, i2[i])
    {
      assert Extends(b0, i0[i], b1, i1[i]);
      assert Extends(b1, i1[i], b2, i2[i]);
    }
  }

  /** Blocks changed only where nothing points: every pointer is unchanged and every file keeps its bytes. */
  lemma UnownedWrite(g: Geometry, blocks: seq<Block>, inodes: seq<Inode>, owner: map<nat, Owner>, blocks': seq<Block>)
    requires Shape(g, blocks, inodes) && Linked(blocks, inodes, owner) && Owned(g, blocks, inodes, owner)
    requires |blocks'| == |blocks|
    requires forall b :: b in owner ==> b < |blocks| && blocks'[b] == blocks[b]
    ensures forall i, k :: 0 <= i < |inodes| && 0 <= k < NSLOTS ==>
              Ptr(blocks', inodes[i], k) == Ptr(blocks, inodes[i], k)
    ensures Linked(blocks', inodes, owner) && Owned(g, blocks', inodes, owner)
    ensures AllExtend(blocks, inodes, blocks', inodes)
  {
    forall i, k | 0 <= i < |inodes| && 0 <= k < NSLOTS
      ensures Ptr(blocks', inodes[i], k) == Ptr(blocks, inodes[i], k)
    {
      assert Ptr(blocks, inodes[i], NDIRECT) == inodes[i].addrs[NDIRECT];
    }
    forall b | b in owner
      ensures OwnedOk(g, blocks', inodes, b, owner[b])
    {
      assert OwnedOk(g, blocks, inodes, b, owner[b]);
    }
  }

  /** balloc: a free block, marked and zeroed, is in nobody's way. */
  lemma BallocKeeps(g: Geometry, blocks: seq<Block>, inodes: seq<Inode>, owner: map<nat, Owner>, b: nat)
    requires Good(g, blocks, inodes, owner, {}) && b < g.size && !Used(g, blocks, b)
    ensures g.datastart <= b && b !in owner
    ensures BitmapBlock(g, b) < |blocks|
    ensures var blocks' := PutUsed(g, blocks, b, true)[b := ZERO];
            && Good(g, blocks', inodes, owner, {b})
            && AllExtend(blocks, inodes, blocks', inodes)
  {
    BitmapInside(g, |inodes|, b);
    var blocks' := PutUsed(g, blocks, b, true)[b := ZERO];
    assert forall x :: x in owner ==> OwnedOk(g, blocks, inodes, x, owner[x]);
    UnownedWrite(g, blocks, inodes, owner, blocks');
    forall x | 0 <= x < g.size
      ensures Used(g, blocks', x) <==> x < g.datastart || x in owner || x in {b}
    {
      BitmapInside(g, |inodes|, x);
      UsedPut(g, blocks, b, true, x);
    }
    forall i | 0 <= i < |inodes|
      ensures HoleFree(blocks', inodes[i])
    {
      ExtendsContent(blocks, inodes[i], blocks', inodes[i]);
    }
  }

  lemma ZeroWord(j: nat)
    requires j < NINDIRECT
    ensures Word(ZERO, j) == 0
  {
  }

  /** bmap storing a fresh zeroed block in slot k of the inode itself. */
  lemma LinkSlot(g: Geometry, blocks: seq<Block>, inodes: seq<Inode>, owner: map<nat, Owner>, i: nat, k: nat, b: nat)
    requires Good(g, blocks, inodes, owner, {b}) && g.datastart <= b < g.size && b !in owner
    requires i < |inodes| && k <= NDIRECT && inodes[i].addrs[k] == 0 && blocks[b] == ZERO
    ensures var inodes' := inodes[i := inodes[i].(addrs := inodes[i].addrs[k := b])];
            && Good(g, blocks, inodes', owner[b := Owner(i, k)], {})
            && AllExtend(blocks, inodes, blocks, inodes')
  {
    var ip := inodes[i];
    var ip' := ip.(addrs := ip.addrs[k := b]);
    var inodes' := inodes[i := ip'];
    var owner' := owner[b := Owner(i, k)];
    forall q | 0 <= q < NSLOTS
      ensures Ptr(blocks, ip', q) == if q == k then b else Ptr(blocks, ip, q)
    {
      if q > NDIRECT {
        ZeroWord(q - NDIRECT - 1);
      }
    }
    forall j, q | 0 <= j < |inodes'| && 0 <= q < NSLOTS && Ptr(blocks, inodes'[j], q) != 0
      ensures Ptr(blocks, inodes'[j], q) in owner' && owner'[Ptr(blocks, inodes'[j], q)] == Owner(j, q)
    {
      if j != i || q != k {
        assert Ptr(blocks, inodes'[j], q) == Ptr(blocks, inodes[j], q);
      }
    }
    forall x | x in owner'
      ensures OwnedOk(g, blocks, inodes', x, owner'[x])
    {
      if x != b {
        assert OwnedOk(g, blocks, inodes, x, owner[x]);
        assert Ptr(blocks, ip, k) == 0;
      }
    }
    assert Mapped(g, blocks, owner', {});
    forall j | 0 <= j < |inodes|
      ensures Extends(blocks, inodes[j], blocks, inodes'[j]) && HoleFree(blocks, inodes'[j])
    {
      assert Extends(blocks, inodes[j], blocks, inodes'[j]);
      ExtendsContent(blocks, inodes[j], blocks, inodes'[j]);
    }
  }

  /** bmap storing a fresh block as entry j of the inode's indirect block. */
  lemma LinkEntry(g: Geometry, blocks: seq<Block>, inodes: seq<Inode>, owner: map<nat, Owner>, i: nat, j: nat, b: nat)
    requires Good(g, blocks, inodes, owner, {b}) && g.datastart <= b < g.size && b !in owner
    requires i < |inodes| && j < NINDIRECT && inodes[i].addrs[NDIRECT] != 0
    requires Ptr(blocks, inodes[i], NDIRECT + 1 + j) == 0
    ensures inodes[i].addrs[NDIRECT] < |blocks|
    ensures var p := inodes[i].addrs[NDIRECT];
            var blocks' := blocks[p := SetWord(blocks[p], j, b)];
            && Good(g, blocks', inodes, owner[b := Owner(i, NDIRECT + 1 + j)], {})
            && AllExtend(blocks, inodes, blocks', inodes)
  {
    var p := inodes[i].addrs[NDIRECT];
    assert Ptr(blocks, inodes[i], NDIRECT) == p;
    assert OwnedOk(g, blocks, inodes, p, owner[p]);
    EntrySet(g, blocks, inodes, owner, i, j, b);
    var blocks' := blocks[p := SetWord(blocks[p], j, b)];
    var k := NDIRECT + 1 + j;
    var owner' := owner[b := Owner(i, k)];
    forall x | x in owner'
      ensures OwnedOk(g, blocks', inodes, x, owner'[x])
    {
      if x != b {
        assert OwnedOk(g, blocks, inodes, x, owner[x]);
      }
    }
    forall x | 0 <= x < g.size
      ensures Used(g, blocks', x) <==> x < g.datastart || x in owner'
    {
      BitmapInside(g, |inodes|, x);
      assert Used(g, blocks', x) == Used(g, blocks, x);
    }
    forall q | 0 <= q < |inodes|
      ensures Extends(blocks, inodes[q], blocks', inodes[q]) && HoleFree(blocks', inodes[q])
    {
      EntryExtends(g, blocks, inodes, owner, i, j, b, q);
      ExtendsContent(blocks, inodes[q], blocks', inodes[q]);
    }
  }

  lemma EntrySet(g: Geometry, blocks: seq<Block>, inodes: seq<Inode>, owner: map<nat, Owner>, i: nat, j: nat, b: nat)
    requires Shape(g, blocks, inodes) && Linked(blocks, inodes, owner) && Owned(g, blocks, inodes, owner)
    requires i < |inodes| && j < NINDIRECT && b < g.size
    requires 0 < inodes[i].addrs[NDIRECT] < |blocks|
    ensures var p := inodes[i].addrs[NDIRECT];
            var blocks' := blocks[p := SetWord(blocks[p], j, b)];
            forall n, q :: 0 <= n < |inodes| && 0 <= q < NSLOTS ==>
                             Ptr(blocks', inodes[n], q) == if n == i && q == NDIRECT + 1 + j then b
                               else Ptr(blocks, inodes[n], q)
  {
    var p := inodes[i].addrs[NDIRECT];
    var blocks' := blocks[p := SetWord(blocks[p], j, b)];
    forall n, q | 0 <= n < |inodes| && 0 <= q < NSLOTS
      ensures Ptr(blocks', inodes[n], q) == if n == i && q == NDIRECT + 1 + j then b else Ptr(blocks, inodes[n], q)
    {
      assert Ptr(blocks, inodes[i], NDIRECT) == p;
      assert Ptr(blocks, inodes[n], NDIRECT) == inodes[n].addrs[NDIRECT];
      if q > NDIRECT && n == i {
        WordSet(blocks[p], j, b, q - NDIRECT - 1);
      }
    }
  }

  lemma EntryExtends(g: Geometry, blocks: seq<Block>, inodes: seq<Inode>, owner: map<nat, Owner>, i: nat, j: nat,
                     b: nat, n: nat)
    requires Shape(g, blocks, inodes) && Linked(blocks, inodes, owner) && Owned(g, blocks, inodes, owner)
    requires i < |inodes| && j < NINDIRECT && b < g.size && n < |inodes|
    requires 0 < inodes[i].addrs[NDIRECT] < |blocks|
    requires Ptr(blocks, inodes[i], NDIRECT + 1 + j) == 0
    ensures var p := inodes[i].addrs[NDIRECT];
            Extends(blocks, inodes[n], blocks[p := SetWord(blocks[p], j, b)], inodes[n])
  {
    var p := inodes[i].addrs[NDIRECT];
    var blocks' := blocks[p := SetWord(blocks[p], j, b)];
    EntrySet(g, blocks, inodes, owner, i, j, b);
    assert Ptr(blocks, inodes[i], NDIRECT) == p;
    assert owner[p] == Owner(i, NDIRECT);
    forall k | 0 <= k < NSLOTS && Ptr(blocks, inodes[n], k) != 0
      ensures Ptr(blocks', inodes[n], k) == Ptr(blocks, inodes[n], k)
      ensures k != NDIRECT && Ptr(blocks, inodes[n], k) < |blocks| ==>
                blocks'[Ptr(blocks, inodes[n], k)] == blocks[Ptr(blocks, inodes[n], k)]
    {
    }
  }
}

/** The routines of kernel/log.c with their loops, run by one thread, over the disk image and the
    modified buffers that log_write has pinned. Every block write is recorded, so each routine says
    what recovery would make of the disk at each of its intermediate points. */
module LogCode {
  import opened LogMachine
  import opened LogRefinement

  /** Recovery from any of the images from position `from` on yields one of two contents. */
  ghost predicate RecoverTo(images: seq<seq<Block>>, from: nat, start: nat, size: nat, before: map<int, Block>,
                            after: map<int, Block>)
    requires start + LOGBLOCKS < size
  {
    forall i :: from <= i < |images| ==>
      |images[i]| == size && (Committed(images[i], start) == before || Committed(images[i], start) == after)
  }

  /** Two images that differ only in log blocks, with an empty header. */
  lemma LogRegionOnly(disk: seq<Block>, disk': seq<Block>, start: nat)
    requires start + LOGBLOCKS < |disk| == |disk'|
    requires HeaderOf(disk[start]) == [] && disk'[start] == disk[start]
    requires forall b :: Home(start, |disk|, b) ==> disk'[b] == disk[b]
    ensures Committed(disk', start) == Committed(disk, start)
  {
    CommittedSame(disk, disk', start);
  }

  class Log {
    const start: nat
    const block: array<int>
    var disk: seq<Block>
    var pinned: map<int, Block>     // contents of the buffers pinned by log_write
    var n: nat
    var outstanding: int
    var committing: bool
    var ncommit: nat
    ghost var images: seq<seq<Block>>

    ghost predicate Valid()
      reads this, block
    {
      && start + LOGBLOCKS < |disk|
      && block.Length == LOGBLOCKS && n <= LOGBLOCKS
      && HeaderFits(block[..n], start, |disk|)
      && forall k :: 0 <= k < n ==> block[k] in pinned
    }

    /** bwrite */
    method Bwrite(b: int, d: Block)
      requires 0 <= b < |disk|
      modifies this`disk, this`images
      ensures disk == old(disk)[b := d] && images == old(images) + [disk]
    {
      disk := disk[b := d];
      images := images + [disk];
    }

    /** One round of begin_op's loop: false means the caller sleeps and tries again. */
    method BeginOp() returns (admitted: bool)
      modifies this`outstanding
      ensures admitted == (!committing && n + (old(outstanding) + 1) * MAXOPBLOCKS <= LOGBLOCKS)
      ensures outstanding == old(outstanding) + if admitted then 1 else 0
    {
      if committing {
        admitted := false;
      } else if n + (outstanding + 1) * MAXOPBLOCKS > LOGBLOCKS {
        admitted := false;
      } else {
        outstanding := outstanding + 1;
        admitted := true;
      }
    }

    /** log_write of block `b`, whose buffer now holds `d`. Absorption keeps the header entries
        distinct; the panics come first, also for a block that would be absorbed. */
    method LogWrite(b: int, d: Block) returns (panics: bool)
      requires Valid() && Home(start, |disk|, b)
      modifies this`n, this`pinned, block
      ensures panics == (old(n) >= LOGBLOCKS || outstanding < 1)
      ensures panics ==> n == old(n) && block[..n] == old(block[..n]) && pinned == old(pinned)
      ensures !panics ==> Valid() && pinned == old(pinned)[b := d]
      ensures !panics ==> block[..n] == if b in old(block[..n]) then old(block[..n]) else old(block[..n]) + [b]
    {
      if n >= LOGBLOCKS {
        return true;
      }
      if outstanding < 1 {
        return true;
      }
      var i := 0;
      while i < n
        invariant 0 <= i <= n && forall k :: 0 <= k < i ==> block[k] != b
      {
        if block[i] == b {
          break;
        }
        i := i + 1;
      }
      ghost var before := block[..n];
      assert i < n ==> before[i] == b;
      block[i] := b;
      assert block[..n] == before;
      pinned := pinned[b := d];
      if i == n {
        n := n + 1;
        assert block[..n] == before + [b];
      }
      panics := false;
    }

    /** write_log: log block k becomes the pinned contents of the k-th logged block. */
    method WriteLog()
      requires Valid() && HeaderOf(disk[start]) == []
      modifies this`disk, this`images
      ensures Valid() && |disk| == |old(disk)| && disk[start] == old(disk)[start]
      ensures forall b :: Home(start, |disk|, b) ==> disk[b] == old(disk)[b]
      ensures forall k :: 0 <= k < n ==> disk[LogBlock(start, k)] == pinned[block[k]]
      ensures |images| >= |old(images)| && images[..|old(images)|] == old(images)
      ensures RecoverTo(images, |old(images)|, start, |disk|, Committed(old(disk), start), Committed(old(disk), start))
    {
      var tail := 0;
      while tail < n
        invariant 0 <= tail <= n && |disk| == |old(disk)| && disk[start] == old(disk)[start]
        invariant forall b :: Home(start, |disk|, b) ==> disk[b] == old(disk)[b]
        invariant forall k :: 0 <= k < tail ==> disk[LogBlock(start, k)] == pinned[block[k]]
        invariant |images| == |old(images)| + tail && images[..|old(images)|] == old(images)
        invariant RecoverTo(images, |old(images)|, start, |disk|, Committed(old(disk), start),
                  Committed(old(disk), start))
      {
        Bwrite(start + tail + 1, pinned[block[tail]]);
        LogRegionOnly(old(disk), disk, start);
        tail := tail + 1;
      }
    }

    /** write_head: the in-memory header replaces the one on disk in a single block write. */
    method WriteHead()
      requires start < |disk| && block.Length == LOGBLOCKS && n <= LOGBLOCKS
      modifies this`disk, this`images
      ensures disk == old(disk)[start := WithHeader(old(disk)[start], block[..n])]
      ensures images == old(images) + [disk]
    {
      var hb: Block := disk[start];
      hb := hb[0 := n];
      var i := 0;
      while i < n
        invariant 0 <= i <= n && |hb| == WORDS
        invariant hb == [n] + block[..i] + disk[start][1 + i..]
      {
        hb := hb[1 + i := block[i]];
        i := i + 1;
      }
      Bwrite(start, hb);
    }

    /** read_head */
    method ReadHead()
      requires start < |disk| && block.Length == LOGBLOCKS && 0 <= disk[start][0] <= LOGBLOCKS
      modifies this`n, block
      ensures n <= LOGBLOCKS && block[..n] == HeaderOf(disk[start])
    {
      n := disk[start][0];
      var i := 0;
      while i < n
        invariant n == disk[start][0] && 0 <= i <= n
        invariant forall k :: 0 <= k < i ==> block[k] == disk[start][1 + k]
      {
        block[i] := disk[start][1 + i];
        i := i + 1;
      }
    }

    /** install_trans: every logged block goes home, and at each point recovery still yields the
        same contents. Unless recovering, the home buffers are unpinned. */
    method InstallTrans(recovering: bool)
      requires start + LOGBLOCKS < |disk| && block.Length == LOGBLOCKS && n <= LOGBLOCKS
      requires HeaderFits(block[..n], start, |disk|) && HeaderOf(disk[start]) == block[..n]
      modifies this`disk, this`images, this`pinned
      ensures |disk| == |old(disk)| && disk[start] == old(disk)[start]
      ensures InstalledTo(block[..n], start, disk, n)
      ensures Committed(disk, start) == Committed(old(disk), start)
      ensures |images| >= |old(images)| && images[..|old(images)|] == old(images)
      ensures RecoverTo(images, |old(images)|, start, |disk|, Committed(old(disk), start), Committed(old(disk), start))
      ensures pinned == if recovering then old(pinned) else old(pinned) - Numbers(block[..n])
    {
      ghost var h := block[..n];
      var tail := 0;
      assert old(pinned) - Numbers(h[..0]) == old(pinned);
      while tail < n
        invariant 0 <= tail <= n && |disk| == |old(disk)| && disk[start] == old(disk)[start]
        invariant InstalledTo(h, start, disk, tail)
        invariant Committed(disk, start) == Committed(old(disk), start)
        invariant |images| == |old(images)| + tail && images[..|old(images)|] == old(images)
        invariant RecoverTo(images, |old(images)|, start, |disk|, Committed(old(disk), start),
                  Committed(old(disk), start))
        invariant pinned == if recovering then old(pinned) else old(pinned) - Numbers(h[..tail])
      {
        InstallRecovered(disk, h, start, tail);
        InstallsNext(h, start, disk, tail);
        var d := disk[start + tail + 1];
        Bwrite(block[tail], d);
        if !recovering {
          assert h[..tail + 1] == h[..tail] + [h[tail]];
          pinned := pinned - {block[tail]};
        }
        tail := tail + 1;
      }
      assert h[..n] == h;
    }

    /** write_log and write_head: the second half of these writes, the header, is the commit point. */
    method WriteTransaction()
      requires Valid() && HeaderOf(disk[start]) == []
      modifies this`disk, this`images
      ensures |disk| == |old(disk)| && HeaderOf(disk[start]) == block[..n]
      ensures Committed(disk, start) == Overlay(old(disk), start, block[..n], pinned)
      ensures |images| >= |old(images)| && images[..|old(images)|] == old(images)
      ensures RecoverTo(images, |old(images)|, start, |disk|,
                        Committed(old(disk), start), Overlay(old(disk), start, block[..n], pinned))
    {
      WriteLog();
      ghost var logged := disk;
      WriteHead();
      CommitPoint(old(disk), logged, disk, start, block[..n], pinned);
    }

    /** install_trans, then the header is cleared. */
    method InstallAndClear(recovering: bool)
      requires start + LOGBLOCKS < |disk| && block.Length == LOGBLOCKS && n <= LOGBLOCKS
      requires HeaderFits(block[..n], start, |disk|) && HeaderOf(disk[start]) == block[..n]
      modifies this`disk, this`images, this`pinned, this`n
      ensures |disk| == |old(disk)| && HeaderOf(disk[start]) == [] && n == 0
      ensures HomeBlocks(disk, start) == Committed(old(disk), start)
      ensures |images| >= |old(images)| && images[..|old(images)|] == old(images)
      ensures RecoverTo(images, |old(images)|, start, |disk|, Committed(old(disk), start), Committed(old(disk), start))
      ensures pinned == if recovering then old(pinned) else old(pinned) - Numbers(old(block[..n]))
    {
      ghost var h := block[..n];
      InstallTrans(recovering);
      n := 0;
      ghost var installed := disk;
      WriteHead();
      ClearedSame(installed, disk, h, start);
      EmptyHeader(disk, start);
    }

    /** commit: all the logged contents become durable together. Wherever a crash stops it, recovery
        yields either the contents before the commit or those after it. */
    method Commit()
      requires Valid() && HeaderOf(disk[start]) == []
      modifies this`disk, this`images, this`pinned, this`n
      ensures |disk| == |old(disk)| && HeaderOf(disk[start]) == [] && n == 0
      ensures HomeBlocks(disk, start) == Overlay(old(disk), start, old(block[..n]), old(pinned))
      ensures pinned == old(pinned) - Numbers(old(block[..n]))
      ensures |images| >= |old(images)| && images[..|old(images)|] == old(images)
      ensures RecoverTo(images, |old(images)|, start, |disk|,
                        HomeBlocks(old(disk), start), Overlay(old(disk), start, old(block[..n]), old(pinned)))
    {
      EmptyHeader(disk, start);
      if n > 0 {
        WriteTransaction();
        ghost var written := images;
        InstallAndClear(false);
        Joined(written, images, |old(images)|, start, |disk|, HomeBlocks(old(disk), start),
               Overlay(old(disk), start, old(block[..n]), old(pinned)));
      } else {
        assert block[..n] == [];
        NothingLoggedOverlay(disk, start, pinned);
      }
    }

    /** recover_from_log: the home blocks become the committed contents, the log is emptied, and a
        crash at any point inside loses nothing. */
    method RecoverFromLog()
      requires start + LOGBLOCKS < |disk| && block.Length == LOGBLOCKS
      requires 0 <= disk[start][0] <= LOGBLOCKS && HeaderFits(HeaderOf(disk[start]), start, |disk|)
      modifies this`disk, this`images, this`pinned, this`n, block
      ensures |disk| == |old(disk)| && HeaderOf(disk[start]) == [] && n == 0
      ensures HomeBlocks(disk, start) == Committed(old(disk), start)
      ensures |images| >= |old(images)| && images[..|old(images)|] == old(images)
      ensures RecoverTo(images, |old(images)|, start, |disk|, Committed(old(disk), start), Committed(old(disk), start))
    {
      ReadHead();
      InstallAndClear(true);
    }

    /** end_op: true when the caller was the last one out, and the commit has run. */
    method EndOp() returns (committed: bool)
      requires Valid() && HeaderOf(disk[start]) == [] && outstanding > 0 && !committing
      modifies this`outstanding, this`committing, this`ncommit, this`disk, this`images, this`pinned, this`n
      ensures outstanding == old(outstanding) - 1 && !committing && committed == (outstanding == 0)
      ensures ncommit == old(ncommit) + if committed then 1 else 0
      ensures |disk| == |old(disk)| && HeaderOf(disk[start]) == []
      ensures HomeBlocks(disk, start) ==
        if committed then Overlay(old(disk), start, old(block[..n]), old(pinned)) else HomeBlocks(old(disk), start)
      ensures !committed ==> n == old(n) && pinned == old(pinned)
    {
      committed := false;
      outstanding := outstanding - 1;
      if outstanding == 0 {
        committed := true;
        committing := true;
      }
      if committed {
        Commit();
        committing := false;
        ncommit := ncommit + 1;
      }
    }
  }

  /** Images written after the commit point recover to the new contents only. */
  lemma Joined(a: seq<seq<Block>>, b: seq<seq<Block>>, from: nat, start: nat, size: nat, before: map<int, Block>,
               after: map<int, Block>)
    requires start + LOGBLOCKS < size && from <= |a| <= |b| && b[..|a|] == a
    requires RecoverTo(a, from, start, size, before, after) && RecoverTo(b, |a|, start, size, after, after)
    ensures RecoverTo(b, from, start, size, before, after)
    ensures forall p: nat :: p <= |a| ==> b[..p] == a[..p]
  {
    forall i | from <= i < |b|
      ensures |b[i]| == size && (Committed(b[i], start) == before || Committed(b[i], start) == after)
    {
      assert i < |a| ==> b[i] == a[i];
    }
    forall p: nat | p <= |a|
      ensures b[..p] == a[..p]
    {
      assert b[..p] == b[..|a|][..p];
    }
  }

  lemma NothingLoggedOverlay(disk: seq<Block>, start: nat, pinned: map<int, Block>)
    ensures Overlay(disk, start, [], pinned) == HomeBlocks(disk, start)
    ensures pinned - Numbers([]) == pinned
  {
  }

  function Numbers(h: seq<int>): set<int> { set b | b in h }

  /** The home blocks with the pinned contents of the logged ones. */
  function Overlay(disk: seq<Block>, start: nat, h: seq<int>, pinned: map<int, Block>): map<int, Block>
    requires forall k :: 0 <= k < |h| ==> h[k] in pinned
  {
    map b: int | 0 <= b < |disk| && Home(start, |disk|, b) :: if b in h then pinned[b] else disk[b]
  }

  lemma EmptyHeader(disk: seq<Block>, start: nat)
    requires start + LOGBLOCKS < |disk| && HeaderOf(disk[start]) == []
    ensures Committed(disk, start) == HomeBlocks(disk, start)
  {
  }

  lemma InstallsNext(h: seq<int>, start: nat, disk: seq<Block>, k: nat)
    requires start + LOGBLOCKS < |disk| && HeaderFits(h, start, |disk|) && k < |h| && InstalledTo(h, start, disk, k)
    ensures InstalledTo(h, start, disk[h[k] := disk[LogBlock(start, k)]], k + 1)
  {
  }

  /** Writing the header over copied log blocks commits exactly the logged contents. */
  lemma CommitPoint(disk: seq<Block>, logged: seq<Block>, head: seq<Block>, start: nat, h: seq<int>,
                    pinned: map<int, Block>)
    requires start + LOGBLOCKS < |disk| == |logged| == |head| && HeaderFits(h, start, |disk|)
    requires forall k :: 0 <= k < |h| ==> h[k] in pinned && logged[LogBlock(start, k)] == pinned[h[k]]
    requires forall b :: Home(start, |disk|, b) ==> logged[b] == disk[b]
    requires head == logged[start := head[start]] && HeaderOf(head[start]) == h
    ensures Committed(head, start) == Overlay(disk, start, h, pinned)
  {
    forall b | Home(start, |disk|, b)
      ensures RecoveredAt(head, start, b) == if b in h then pinned[b] else disk[b]
    {
      if b in h {
        assert h[IndexOf(h, b)] == b;
      }
    }
  }
}

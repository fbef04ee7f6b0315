/** The pipe of kernel/pipe.c: a 512-byte ring with 32-bit counters that wrap around, shared by any
    number of readers and writers that sleep and are woken. */
module Pipe {
  import opened Util

  const PIPESIZE := 512
  const WRAP := 0x1_0000_0000

  // ---------- the ring ----------

  /** The ring after `written` bytes have been put in and the first `taken` of them taken out. */
  predicate Ring(data: seq<byte>, nread: int, nwrite: int, written: seq<byte>, taken: nat) {
    && |data| == PIPESIZE
    && taken <= |written| <= taken + PIPESIZE
    && nread == taken % WRAP && nwrite == |written| % WRAP
    && forall k :: taken <= k < |written| ==> data[k % PIPESIZE] == written[k]
  }

  /** The counters alone tell an empty pipe from a full one, whatever has wrapped. */
  lemma EmptyAndFull(data: seq<byte>, nread: int, nwrite: int, written: seq<byte>, taken: nat)
    requires Ring(data, nread, nwrite, written, taken)
    ensures nread == nwrite <==> taken == |written|
    ensures nwrite == (nread + PIPESIZE) % WRAP <==> |written| == taken + PIPESIZE
  {
    Apart(taken, |written|);
    Apart(|written|, taken + PIPESIZE);
  }

  lemma Apart(a: nat, b: nat)
    requires a <= b <= a + PIPESIZE
    ensures a % WRAP == b % WRAP <==> a == b
  {
    if a % WRAP == b % WRAP {
      assert b - a == WRAP * (b / WRAP - a / WRAP);
      assert b / WRAP - a / WRAP >= 1 ==> b - a >= WRAP;
    }
  }

  /** PIPESIZE divides 2^32, so indexing by the wrapped counter is indexing by the true one. */
  lemma SameSlot(k: nat)
    ensures (k % WRAP) % PIPESIZE == k % PIPESIZE
  {
    var q := k / WRAP;
    assert k == q * WRAP + k % WRAP;
    assert WRAP == 8388608 * PIPESIZE;
    assert k == (q * 8388608) * PIPESIZE + k % WRAP;
    ModShift(k % WRAP, q * 8388608);
  }

  lemma {:induction false} ModShift(x: nat, m: nat)
    ensures (m * PIPESIZE + x) % PIPESIZE == x % PIPESIZE
    decreases m
  {
    if m > 0 {
      ModShift(x, m - 1);
      assert m * PIPESIZE + x == ((m - 1) * PIPESIZE + x) + PIPESIZE;
    }
  }

  lemma OtherSlot(k: nat, m: nat)
    requires k < m < k + PIPESIZE
    ensures k % PIPESIZE != m % PIPESIZE
  {
  }

  lemma PutByte(data: seq<byte>, nread: int, nwrite: int, written: seq<byte>, taken: nat, ch: byte)
    requires Ring(data, nread, nwrite, written, taken) && |written| < taken + PIPESIZE
    ensures Ring(data[nwrite % PIPESIZE := ch], nread, (nwrite + 1) % WRAP, written + [ch], taken)
  {
    var slot := nwrite % PIPESIZE;
    SameSlot(|written|);
    assert slot == |written| % PIPESIZE;
    var data' := data[slot := ch];
    var written' := written + [ch];
    forall k | taken <= k < |written'|
      ensures data'[k % PIPESIZE] == written'[k]
    {
      if k < |written| {
        OtherSlot(k, |written|);
      }
    }
    NextCount(|written|);
  }

  lemma NextCount(k: nat)
    ensures (k % WRAP + 1) % WRAP == (k + 1) % WRAP
  {
  }

  lemma TakeByte(data: seq<byte>, nread: int, nwrite: int, written: seq<byte>, taken: nat)
    requires Ring(data, nread, nwrite, written, taken) && taken < |written|
    ensures data[nread % PIPESIZE] == written[taken]
    ensures Ring(data, (nread + 1) % WRAP, nwrite, written, taken + 1)
  {
    SameSlot(taken);
    NextCount(taken);
  }

  // ---------- the code between acquiring the lock and giving it up ----------

  /** Faults: copyout failed on the first byte, so -1 is returned although the pipe was not empty. */
  datatype Outcome = Finished | Sleeps | Fails | Faults

  class PipeBuffer {
    const data: array<byte>
    var nread: int
    var nwrite: int
    var readopen: bool
    var writeopen: bool
    ghost var written: seq<byte>
    ghost var taken: nat

    ghost predicate Valid()
      reads this, data
    { Ring(data[..], nread, nwrite, written, taken) }

    /** pipealloc */
    constructor ()
      ensures Valid() && written == [] && taken == 0 && readopen && writeopen && fresh(data)
    {
      data := new byte[PIPESIZE](_ => 0);
      nread, nwrite, readopen, writeopen := 0, 0, true, true;
      written, taken := [], 0;
    }

    /** pipewrite from index `i0` of `src` until it returns or sleeps. `killed` is the caller's flag,
        `readable` the length of the part of `src` that copyin can read. */
    method Write(src: seq<byte>, i0: nat, killed: bool, readable: nat) returns (i: nat, outcome: Outcome)
      requires Valid() && i0 <= |src|
      modifies this`nwrite, this`written, data
      ensures Valid() && i0 <= i <= |src| && written == old(written) + src[i0..i]
      ensures outcome == Fails <==> i0 < |src| && (!readopen || killed)
      ensures outcome == Sleeps ==> |written| == taken + PIPESIZE && readopen && !killed && i < |src|
      ensures outcome == Finished ==> i == |src| || i >= readable
      ensures outcome == Fails ==> i == i0
      ensures outcome != Faults
    {
      i := i0;
      while i < |src|
        invariant Valid() && i0 <= i <= |src| && written == old(written) + src[i0..i]
        invariant i > i0 ==> readopen && !killed
      {
        if !readopen || killed {
          return i, Fails;
        }
        EmptyAndFull(data[..], nread, nwrite, written, taken);
        if nwrite == (nread + PIPESIZE) % WRAP {
          return i, Sleeps;
        } else {
          if i >= readable {
            break;
          }
          var ch := src[i];
          PutByte(data[..], nread, nwrite, written, taken, ch);
          ghost var next := data[..][nwrite % PIPESIZE := ch];
          data[nwrite % PIPESIZE] := ch;
          assert data[..] == next;
          nwrite := (nwrite + 1) % WRAP;
          written := written + [ch];
          i := i + 1;
        }
      }
      outcome := Finished;
    }

    /** piperead once the lock is held: sleeps or fails on an empty open pipe, and otherwise takes up
        to `n` bytes in order, stopping early when the pipe is empty or copyout fails. */
    method Read(n: nat, killed: bool, writable: nat) returns (got: seq<byte>, outcome: Outcome)
      requires Valid()
      modifies this`nread, this`taken
      ensures Valid() && old(taken) + |got| == taken && got == written[old(taken)..taken]
      ensures outcome == Sleeps <==> old(taken) == |written| && writeopen && !killed
      ensures outcome == Fails <==> old(taken) == |written| && writeopen && killed
      ensures outcome == Finished ==> |got| == n || taken == |written| || |got| >= writable > 0
      ensures outcome == Faults <==> old(taken) < |written| && n > 0 && writable == 0
      ensures |got| <= n && (outcome != Finished ==> got == [])
    {
      got := [];
      EmptyAndFull(data[..], nread, nwrite, written, taken);
      if nread == nwrite && writeopen {
        if killed {
          return got, Fails;
        }
        return got, Sleeps;
      }
      var i := 0;
      while i < n
        invariant Valid() && 0 <= i <= n && i == |got| && old(taken) + |got| == taken
        invariant got == written[old(taken)..taken] && i <= writable
      {
        EmptyAndFull(data[..], nread, nwrite, written, taken);
        if nread == nwrite {
          break;
        }
        TakeByte(data[..], nread, nwrite, written, taken);
        var ch := data[nread % PIPESIZE];
        if i >= writable {
          if i == 0 {
            return got, Faults;
          }
          break;
        }
        nread := (nread + 1) % WRAP;
        got := got + [ch];
        taken := taken + 1;
        i := i + 1;
      }
      outcome := Finished;
    }
  }
}

/** The table scans of kernel/proc.c behind exit and wait, as code on the process table: wakeup, reparent,
    kexit under wait_lock, one scan of kwait, and kkill. What interleaving does to them is in ExitWait. */
module WaitCode {
  import opened ExitWait
  import opened Util

  /** The effect of wakeup(chan), called by `me`, on the process in slot j. */
  function Roused(x: Proc, j: nat, me: nat, chan: Option<nat>): Proc {
    if j != me && x.state == Sleeping && chan.Some? && x.chan == chan then x.(state := Runnable) else x
  }

  ghost predicate HasChild(procs: seq<Proc>, p: nat, n: nat)
    requires n <= |procs|
  { exists c :: 0 <= c < n && procs[c].parent == Some(p) }

  /** Slot j after reparent has passed the first n slots. */
  ghost function Adopted(procs: seq<Proc>, j: nat, p: nat, init: nat, n: nat): Proc
    requires j < |procs| && n <= |procs|
  {
    var x := if j < n && procs[j].parent == Some(p) then procs[j].(parent := Some(init)) else procs[j];
    if HasChild(procs, p, n) then Roused(x, j, p, Some(init)) else x
  }

  /** The code's wakeup of a slot is the step ExitWait takes. */
  lemma WakeStepAgrees(s: State, p: nat, j: nat, chan: Option<nat>)
    requires j < |s.procs|
    ensures WakeSlot(s, p, j, chan).procs == s.procs[j := Roused(s.procs[j], j, p, chan)]
  {
    assert s.procs == s.procs[j := s.procs[j]];
  }

  datatype WaitResult = Reaped(pid: nat, status: int) | CopyFailed | GivesUp | MustSleep

  predicate ZombieOf(x: Proc, p: nat) { x.parent == Some(p) && x.state == Zombie }

  class Table {
    const procs: array<Proc>
    const init: nat

    constructor (n: nat, init: nat)
      requires init < n
      ensures fresh(procs) && procs.Length == n && this.init == init
      ensures forall j :: 0 <= j < n ==> procs[j] == FREE
    {
      procs := new Proc[n](_ => FREE);
      this.init := init;
    }

    method Wakeup(me: nat, chan: Option<nat>)
      modifies procs
      ensures forall j :: 0 <= j < procs.Length ==> procs[j] == Roused(old(procs[j]), j, me, chan)
    {
      var j := 0;
      while j < procs.Length
        invariant 0 <= j <= procs.Length
        invariant forall k :: 0 <= k < j ==> procs[k] == Roused(old(procs[k]), k, me, chan)
        invariant forall k :: j <= k < procs.Length ==> procs[k] == old(procs[k])
      {
        if j != me && procs[j].state == Sleeping && chan.Some? && procs[j].chan == chan {
          procs[j] := procs[j].(state := Runnable);
        }
        j := j + 1;
      }
    }

    /** Hands the children of p to init, and wakes init if there were any. */
    method Reparent(p: nat)
      requires p < procs.Length && p != init
      modifies procs
      ensures forall j :: 0 <= j < procs.Length ==> procs[j] == Adopted(old(procs[..]), j, p, init, procs.Length)
      ensures forall j :: 0 <= j < procs.Length ==> procs[j].parent != Some(p)
    {
      ghost var was := procs[..];
      var i := 0;
      while i < procs.Length
        invariant 0 <= i <= procs.Length && |was| == procs.Length
        invariant forall j :: 0 <= j < procs.Length ==> procs[j] == Adopted(was, j, p, init, i)
      {
        assert HasChild(was, p, i + 1) <==> HasChild(was, p, i) || was[i].parent == Some(p);
        if procs[i].parent == Some(p) {
          procs[i] := procs[i].(parent := Some(init));
          Wakeup(p, Some(init));
        }
        i := i + 1;
      }
    }

    /** kexit from reparent to the state change, all under wait_lock. Afterwards p is a zombie with its status,
        nobody is its child, and its parent is not asleep on its own channel. */
    method Kexit(p: nat, status: int)
      requires p < procs.Length && p != init && procs[p].state == Running
      requires procs[p].parent.Some? && procs[p].parent.value < procs.Length && procs[p].parent.value != p
      modifies procs
      ensures procs[p] == old(procs[p]).(state := Zombie, xstate := status)
      ensures forall j :: 0 <= j < procs.Length && j != p ==>
                            procs[j] == Roused(Adopted(old(procs[..]), j, p, init, procs.Length), j, p,
                              old(procs[p]).parent)
      ensures forall j :: 0 <= j < procs.Length ==> procs[j].parent != Some(p)
      ensures var q := old(procs[p]).parent; !(procs[q.value].state == Sleeping && procs[q.value].chan == q)
    {
      Reparent(p);
      Wakeup(p, procs[p].parent);
      procs[p] := procs[p].(xstate := status, state := Zombie);
    }

    /** One round of kwait by p: frees the first zombie child and gives its pid and status; without one, gives
        up if there is no child at all or p was killed, and otherwise must sleep. copied tells whether the
        status could be copied out. */
    method KwaitScan(p: nat, copied: bool) returns (r: WaitResult)
      requires p < procs.Length
      modifies procs
      ensures r.GivesUp? || r.MustSleep? <==> forall c :: 0 <= c < procs.Length ==> !ZombieOf(old(procs[c]), p)
      ensures r.GivesUp? || r.MustSleep? ==>
                (r.GivesUp? <==>
                  old(procs[p]).killed || forall c :: 0 <= c < procs.Length ==> old(procs[c]).parent != Some(p))
      ensures r.Reaped? || r.CopyFailed? ==>
                exists c :: 0 <= c < procs.Length && ZombieOf(old(procs[c]), p)
                            && (forall k :: 0 <= k < c ==> !ZombieOf(old(procs[k]), p))
                            && (copied ==> r == Reaped(old(procs[c]).pid, old(procs[c]).xstate))
                            && (copied ==> procs[..] == old(procs[..])[c := FREE])
                            && (!copied ==> r == CopyFailed)
      ensures !r.Reaped? ==> procs[..] == old(procs[..])
    {
      var havekids := false;
      var c := 0;
      while c < procs.Length
        invariant 0 <= c <= procs.Length && procs[..] == old(procs[..])
        invariant havekids <==> HasChild(procs[..], p, c)
        invariant forall k :: 0 <= k < c ==> !ZombieOf(procs[k], p)
      {
        assert HasChild(procs[..], p, c + 1) <==> HasChild(procs[..], p, c) || procs[c].parent == Some(p);
        if procs[c].parent == Some(p) {
          havekids := true;
          if procs[c].state == Zombie {
            if !copied {
              return CopyFailed;
            }
            r := Reaped(procs[c].pid, procs[c].xstate);
            procs[c] := FREE;
            return;
          }
        }
        c := c + 1;
      }
      assert havekids <==> exists k :: 0 <= k < procs.Length && procs[..][k].parent == Some(p);
      r := if !havekids || procs[p].killed then GivesUp else MustSleep;
    }

    /** Marks the first process with this pid killed and wakes it if it sleeps; false when there is none. */
    method Kkill(pid: nat) returns (found: bool)
      modifies procs
      ensures found <==> exists j :: 0 <= j < procs.Length && old(procs[j]).pid == pid
      ensures !found ==> procs[..] == old(procs[..])
      ensures found ==>
                exists j :: 0 <= j < procs.Length && old(procs[j]).pid == pid
                            && (forall k :: 0 <= k < j ==> old(procs[k]).pid != pid)
                            && procs[..] == old(procs[..])[j := ExitWait.Woken(old(procs[j]).(killed := true))]
    {
      var j := 0;
      while j < procs.Length
        invariant 0 <= j <= procs.Length && procs[..] == old(procs[..])
        invariant forall k :: 0 <= k < j ==> procs[k].pid != pid
      {
        if procs[j].pid == pid {
          procs[j] := procs[j].(killed := true);
          if procs[j].state == Sleeping {
            procs[j] := procs[j].(state := Runnable);
          }
          return true;
        }
        j := j + 1;
      }
      found := false;
    }
  }
}

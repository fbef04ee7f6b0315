/** Sleep locks (kernel/sleeplock.c) under any interleaving: each section under the inner spinlock is one step,
    and going to sleep releases that spinlock in the same step. */
module SleepLock {

  /** What a process is doing with the lock. Asleep means waiting on the lock's channel. */
  datatype Phase = Idle | Wanting | Asleep | Holding

  /** The lock's fields and the processes; process i has pid i + 1. */
  datatype State = State(locked: bool, pid: nat, procs: seq<Phase>)

  datatype Step = Call(i: nat)      // enters acquiresleep
                | Try(i: nat)       // one pass of its loop: take the lock or go to sleep
                | Rouse(i: nat)     // woken for another reason, such as kill
                | Release(i: nat)   // releasesleep by the holder

  predicate Enabled(s: State, step: Step) {
    step.i < |s.procs|
    && match step
       case Call(i) => s.procs[i].Idle?
       case Try(i) => s.procs[i].Wanting?
       case Rouse(i) => s.procs[i].Asleep?
       case Release(i) => s.procs[i].Holding?
  }

  /** wakeup on the lock's channel. */
  function Woken(procs: seq<Phase>): (r: seq<Phase>)
    ensures |r| == |procs| && forall k :: 0 <= k < |r| ==> r[k] == if procs[k].Asleep? then Wanting else procs[k]
  { seq(|procs|, k requires 0 <= k < |procs| => if procs[k].Asleep? then Wanting else procs[k]) }

  function Next(s: State, step: Step): State
    requires Enabled(s, step)
  {
    match step
    case Call(i) => s.(procs := s.procs[i := Wanting])
    case Try(i) => if s.locked then s.(procs := s.procs[i := Asleep]) else State(true, i + 1, s.procs[i := Holding])
    case Rouse(i) => s.(procs := s.procs[i := Wanting])
    case Release(i) => State(false, 0, Woken(s.procs[i := Idle]))
  }

  /** holdingsleep. */
  predicate HoldingSleep(s: State, i: nat) { s.locked && s.pid == i + 1 }

  ghost predicate Inv(s: State) {
    && (forall i :: 0 <= i < |s.procs| ==> (s.procs[i].Holding? <==> HoldingSleep(s, i)))
    && (forall i :: 0 <= i < |s.procs| && s.procs[i].Asleep? ==> s.locked)
    && (s.locked ==> 0 < s.pid <= |s.procs|)
  }

  lemma StepKeeps(s: State, step: Step)
    requires Inv(s) && Enabled(s, step)
    ensures Inv(Next(s, step))
  {
  }

  predicate Runs(s: State, steps: seq<Step>)
    decreases steps
  {
    steps == [] || (Enabled(s, steps[0]) && Runs(Next(s, steps[0]), steps[1..]))
  }

  function After(s: State, steps: seq<Step>): State
    requires Runs(s, steps)
    decreases steps
  { if steps == [] then s else After(Next(s, steps[0]), steps[1..]) }

  function Start(n: nat): State { State(false, 0, seq(n, _ => Idle)) }

  lemma {:induction false} RunKeeps(s: State, steps: seq<Step>)
    requires Inv(s) && Runs(s, steps)
    ensures Inv(After(s, steps))
    decreases steps
  {
    if steps != [] {
      StepKeeps(s, steps[0]);
      RunKeeps(Next(s, steps[0]), steps[1..]);
    }
  }

  /** At every point of every run: at most one holder, and holdingsleep is true of the holder alone. */
  lemma MutualExclusion(n: nat, steps: seq<Step>, i: nat, j: nat)
    requires Runs(Start(n), steps) && i < |After(Start(n), steps).procs| && j < |After(Start(n), steps).procs|
    ensures var s := After(Start(n), steps);
            && (s.procs[i].Holding? && s.procs[j].Holding? ==> i == j)
            && (HoldingSleep(s, i) <==> s.procs[i].Holding?)
  {
    RunKeeps(Start(n), steps);
  }

  /** No lost wakeup: while someone sleeps there is a holder, and its release wakes every sleeper. */
  lemma SleepersHaveHolder(n: nat, steps: seq<Step>, i: nat)
    requires Runs(Start(n), steps) && i < |After(Start(n), steps).procs| && After(Start(n), steps).procs[i].Asleep?
    ensures var s := After(Start(n), steps);
            && 0 < s.pid <= |s.procs| && Enabled(s, Release(s.pid - 1))
            && Next(s, Release(s.pid - 1)).procs[i].Wanting?
  {
    RunKeeps(Start(n), steps);
    var s := After(Start(n), steps);
    assert s.procs[s.pid - 1].Holding?;
  }

  /** The lock can be had: from every reachable state, once its holder releases it, any process that wants it has it
      after one more try. */
  lemma LockObtained(n: nat, before: seq<Step>, i: nat) returns (run: seq<Step>)
    requires Runs(Start(n), before) && i < |After(Start(n), before).procs|
    ensures var s := After(Start(n), before);
            && Runs(s, run) && |run| <= 3
            && var end := After(s, run); |end.procs| == |s.procs| && end.procs[i].Holding? && HoldingSleep(end, i)
  {
    RunKeeps(Start(n), before);
    var s := After(Start(n), before);
    run := [];
    if s.procs[i].Holding? {
      return;
    }
    var u := s;
    if s.locked {
      run, u := [Release(s.pid - 1)], Next(s, Release(s.pid - 1));
      assert run[1..] == [];
    }
    StillInv(s, run, u);
    if u.procs[i].Idle? {
      Extend(s, run, u, Call(i));
      run, u := run + [Call(i)], Next(u, Call(i));
    }
    Extend(s, run, u, Try(i));
    run := run + [Try(i)];
  }

  lemma StillInv(s: State, steps: seq<Step>, u: State)
    requires Inv(s) && Runs(s, steps) && After(s, steps) == u
    ensures Inv(u)
  {
    RunKeeps(s, steps);
  }

  lemma {:induction false} Extend(s: State, steps: seq<Step>, u: State, step: Step)
    requires Runs(s, steps) && After(s, steps) == u && Enabled(u, step)
    ensures Runs(s, steps + [step]) && After(s, steps + [step]) == Next(u, step)
    decreases |steps|
  {
    if steps == [] {
      assert steps + [step] == [step] && [step][1..] == [];
    } else {
      Extend(Next(s, steps[0]), steps[1..], u, step);
      assert (steps + [step])[1..] == steps[1..] + [step];
    }
  }
}

/** The adaptive scheduler as a step machine: any number of CPUs and table slots, one step per
    lock-protected section (kernel/proc.c, kernel/trap.c). */
module SchedulerMachine {
  import opened Process
  import opened Util

  /** A CPU is in scheduler()'s table scan, or running a process. After a timer interrupt that
      ends the slice, `mustYield` is the handler's should_yield. */
  datatype Cpu =
    | Scanning(next: nat, best: Option<nat>, bestPrio: int)
    | Busy(slot: nat, mustYield: bool)

  datatype Sys = Sys(procs: seq<Proc>, cpus: seq<Cpu>, ticks: nat)

  datatype Step =
    | Alloc(i: nat)      // allocproc
    | Admit(i: nat)      // userinit, kfork: the new process becomes RUNNABLE
    | Free(i: nat)       // freeproc of a failed allocation or of a reaped zombie
    | Scan(c: nat)       // pass 1 on one slot
    | Dispatch(c: nat)   // pass 2, candidate still RUNNABLE
    | Rescan(c: nat)     // pass 2, no candidate or candidate taken
    | Timer(c: nat)      // timer interrupt charged to the running process
    | Yield(c: nat)
    | Sleep(c: nat)
    | Exit(c: nat)
    | Wake(i: nat)       // wakeup or kkill
    | Clock              // clockintr: ticks++
    | Account(i: nat)    // clock_tick_accounting on one slot

  const START := Scanning(0, None, -1)

  predicate Interruptible(s: Sys, c: nat) {
    c < |s.cpus| && s.cpus[c].Busy? && !s.cpus[c].mustYield && s.cpus[c].slot < |s.procs|
  }

  predicate CandidateReady(s: Sys, c: nat) {
    && c < |s.cpus| && s.cpus[c].Scanning? && s.cpus[c].next == |s.procs|
    && s.cpus[c].best.Some? && s.cpus[c].best.value < |s.procs|
    && s.procs[s.cpus[c].best.value].state == Runnable
  }

  predicate Enabled(s: Sys, step: Step) {
    match step
    case Alloc(i) => i < |s.procs| && s.procs[i].state == Unused
    case Admit(i) => i < |s.procs| && s.procs[i].state == Used
    case Free(i) => i < |s.procs| && (s.procs[i].state == Used || s.procs[i].state == Zombie)
    case Scan(c) => c < |s.cpus| && s.cpus[c].Scanning? && s.cpus[c].next < |s.procs|
    case Dispatch(c) => CandidateReady(s, c)
    case Rescan(c) => c < |s.cpus| && s.cpus[c].Scanning? && s.cpus[c].next == |s.procs| && !CandidateReady(s, c)
    case Timer(c) => Interruptible(s, c)
    case Yield(c) => c < |s.cpus| && s.cpus[c].Busy? && s.cpus[c].mustYield && s.cpus[c].slot < |s.procs|
    case Sleep(c) => Interruptible(s, c)
    case Exit(c) => Interruptible(s, c)
    case Wake(i) => i < |s.procs| && s.procs[i].state == Sleeping
    case Clock => true
    case Account(i) => i < |s.procs|
  }

  function Put(s: Sys, i: nat, p: Proc): Sys
    requires i < |s.procs|
  { s.(procs := s.procs[i := p]) }

  function SetCpu(s: Sys, c: nat, cpu: Cpu): Sys
    requires c < |s.cpus|
  { s.(cpus := s.cpus[c := cpu]) }

  function ScanOne(cpu: Cpu, p: Proc): Cpu
    requires cpu.Scanning?
  {
    if p.state == Runnable && Prio(p) > cpu.bestPrio
    then Scanning(cpu.next + 1, Some(cpu.next), Prio(p))
    else cpu.(next := cpu.next + 1)
  }

  /** The process leaves CPU `c` in state `state`; the CPU starts a new scan. */
  function Leave(s: Sys, c: nat, state: State): Sys
    requires c < |s.cpus| && s.cpus[c].Busy? && s.cpus[c].slot < |s.procs|
  {
    var i := s.cpus[c].slot;
    SetCpu(Put(s, i, Switched(s.procs[i].(state := state), s.ticks)), c, START)
  }

  function Next(s: Sys, step: Step): Sys
    requires Enabled(s, step)
  {
    match step
    case Alloc(i) => Put(s, i, Allocated(s.ticks))
    case Admit(i) => Put(s, i, s.procs[i].(state := Runnable))
    case Free(i) => Put(s, i, Freed())
    case Scan(c) =>
      var i := s.cpus[c].next;
      SetCpu(Put(s, i, Rated(s.procs[i])), c, ScanOne(s.cpus[c], s.procs[i]))
    case Dispatch(c) =>
      var i := s.cpus[c].best.value;
      SetCpu(Put(s, i, Dispatched(s.procs[i], s.ticks)), c, Busy(i, false))
    case Rescan(c) => SetCpu(s, c, START)
    case Timer(c) =>
      var i := s.cpus[c].slot;
      SetCpu(Put(s, i, Ticked(s.procs[i])), c, Busy(i, SliceExpired(Charged(s.procs[i]))))
    case Yield(c) => Leave(s, c, Runnable)
    case Sleep(c) => Leave(s, c, Sleeping)
    case Exit(c) => Leave(s, c, Zombie)
    case Wake(i) => Put(s, i, s.procs[i].(state := Runnable))
    case Clock => s.(ticks := s.ticks + 1)
    case Account(i) => Put(s, i, Accounted(s.procs[i], s.ticks))
  }

  // ---------- runs ----------

  predicate Runs(s: Sys, steps: seq<Step>)
    decreases |steps|
  {
    steps == [] || (Enabled(s, steps[0]) && Runs(Next(s, steps[0]), steps[1..]))
  }

  function After(s: Sys, steps: seq<Step>): Sys
    requires Runs(s, steps)
    decreases |steps|
  {
    if steps == [] then s else After(Next(s, steps[0]), steps[1..])
  }

  /** Every slot as freeproc leaves it, and every CPU about to start its first scan. Slots that were never used hold
      zeros in the kernel, also as priority and time slice; allocproc sets both before anything reads them. */
  predicate Init(s: Sys) {
    && (forall i :: 0 <= i < |s.procs| ==> s.procs[i] == Freed())
    && (forall c :: 0 <= c < |s.cpus| ==> s.cpus[c] == START)
  }

  // ---------- the invariant ----------

  predicate ProcsSound(s: Sys) {
    forall i :: 0 <= i < |s.procs| ==> Sound(s.procs[i])
  }

  /** A RUNNING process is on a CPU, and no two CPUs run the same process. */
  ghost predicate CpusSound(s: Sys) {
    && (forall c :: 0 <= c < |s.cpus| && s.cpus[c].Busy? ==>
          s.cpus[c].slot < |s.procs| && s.procs[s.cpus[c].slot].state == Running)
    && (forall c, d :: 0 <= c < d < |s.cpus| && s.cpus[c].Busy? && s.cpus[d].Busy? ==>
          s.cpus[c].slot != s.cpus[d].slot)
    && (forall i :: 0 <= i < |s.procs| && s.procs[i].state == Running ==> OnCpu(s, i))
    && (forall c :: 0 <= c < |s.cpus| && s.cpus[c].Scanning? && s.cpus[c].best.Some? ==>
          s.cpus[c].best.value < |s.procs|)
  }

  ghost predicate OnCpu(s: Sys, i: nat) {
    exists c :: 0 <= c < |s.cpus| && s.cpus[c].Busy? && s.cpus[c].slot == i
  }

  ghost predicate SysInv(s: Sys) { ProcsSound(s) && CpusSound(s) }

  // ---------- per-process preservation ----------

  lemma PreemptedSound(p: Proc, ticks: nat)
    requires Sound(p) && p.state == Running
    ensures Switched(p.(state := Runnable), ticks) == p.(state := Runnable, switches := p.switches + 1)
    ensures Sound(Switched(p.(state := Runnable), ticks))
  {
  }

  /** The estimate after an ended burst, (actual + old) / 2, is at least the burst itself. */
  lemma BurstEndedSound(p: Proc, state: State)
    requires Sound(p) && p.state == Running
    ensures var q := BurstEnded(p.(state := state, switches := p.switches + 1));
      && q.lastBurst <= q.estBurst && q.currentBurst <= q.estBurst && q.burstTrend <= 0
      && q.procType == Classify(q.estBurst) && q.waitticks == 0 && q.switches == q.schedCount
      && 1 <= q.timeSlice <= 4 && MIN_PRIORITY <= q.priority <= MAX_PRIORITY && q.state == state
  {
  }

  lemma GaveUpSound(r: Proc)
    requires BurstSound(r) && HealthSound(r) && r.state in {Sleeping, Zombie}
    requires r.waitticks == 0 && r.switches == r.schedCount
    requires 1 <= r.timeSlice <= 4 && MIN_PRIORITY <= r.priority <= MAX_PRIORITY
    ensures Sound(r.(currentBurst := 0))
  {
  }

  lemma SwitchedSound(p: Proc, state: State, ticks: nat)
    requires Sound(p) && p.state == Running && state in {Runnable, Sleeping, Zombie}
    ensures Sound(Switched(p.(state := state), ticks))
    ensures Switched(p.(state := state), ticks).state == state
    ensures Switched(p.(state := state), ticks).flags.starvation ==> p.flags.starvation
  {
    hide Updated, BurstEnded;
    if state == Runnable {
      PreemptedSound(p, ticks);
    } else {
      var q := BurstEnded(p.(state := state, switches := p.switches + 1));
      BurstEndedSound(p, state);
      UpdatedSound(q, ticks);
      GaveUpSound(Updated(q, ticks));
    }
  }

  lemma AccountedSound(p: Proc, ticks: nat)
    requires Sound(p)
    ensures Sound(Accounted(p, ticks)) && Accounted(p, ticks).state == p.state
  {
    var q := p.(waitticks := p.waitticks + 1);
    if p.state == Runnable && q.waitticks >= STARVATION_THRESH_TICKS && !q.flags.starvation {
      HealedSound(Starved(q), ticks);
    }
  }

  lemma TickedSound(p: Proc)
    requires Sound(p) && p.state == Running
    ensures Sound(Ticked(p)) && Ticked(p).state == Running
  {
  }

  // ---------- system preservation ----------

  lemma PutKeeps(s: Sys, i: nat, p: Proc)
    requires SysInv(s) && i < |s.procs| && Sound(p)
    requires (p.state == Running) == (s.procs[i].state == Running)
    ensures SysInv(Put(s, i, p))
  {
    var t := Put(s, i, p);
    forall j | 0 <= j < |t.procs| && t.procs[j].state == Running
      ensures OnCpu(t, j)
    {
      assert s.procs[j].state == Running;
      assert OnCpu(s, j);
      var c :| 0 <= c < |s.cpus| && s.cpus[c].Busy? && s.cpus[c].slot == j;
      assert t.cpus[c].Busy? && t.cpus[c].slot == j;
    }
  }

  lemma ScanningKeeps(s: Sys, c: nat, cpu: Cpu)
    requires SysInv(s) && c < |s.cpus| && s.cpus[c].Scanning?
    requires cpu.Scanning? && (cpu.best.Some? ==> cpu.best.value < |s.procs|)
    ensures SysInv(SetCpu(s, c, cpu))
  {
    var t := SetCpu(s, c, cpu);
    forall j | 0 <= j < |t.procs| && t.procs[j].state == Running
      ensures OnCpu(t, j)
    {
      assert OnCpu(s, j);
      var d :| 0 <= d < |s.cpus| && s.cpus[d].Busy? && s.cpus[d].slot == j;
      assert t.cpus[d].Busy? && t.cpus[d].slot == j;
    }
  }

  lemma LeaveKeeps(s: Sys, c: nat, state: State)
    requires SysInv(s) && c < |s.cpus| && s.cpus[c].Busy? && state in {Runnable, Sleeping, Zombie}
    ensures SysInv(Leave(s, c, state))
  {
    var i := s.cpus[c].slot;
    SwitchedSound(s.procs[i], state, s.ticks);
    var t := Leave(s, c, state);
    forall j | 0 <= j < |t.procs| && t.procs[j].state == Running
      ensures OnCpu(t, j)
    {
      assert j != i && s.procs[j].state == Running;
      assert OnCpu(s, j);
      var d :| 0 <= d < |s.cpus| && s.cpus[d].Busy? && s.cpus[d].slot == j;
      assert t.cpus[d].Busy? && t.cpus[d].slot == j;
    }
  }

  lemma DispatchKeeps(s: Sys, c: nat)
    requires SysInv(s) && Enabled(s, Dispatch(c))
    ensures SysInv(Next(s, Dispatch(c)))
  {
    var i := s.cpus[c].best.value;
    var t := Next(s, Dispatch(c));
    assert t.procs[i] == Dispatched(s.procs[i], s.ticks);
    assert Sound(t.procs[i]);
    forall j | 0 <= j < |t.procs| && t.procs[j].state == Running
      ensures OnCpu(t, j)
    {
      if j == i {
        assert t.cpus[c].Busy? && t.cpus[c].slot == i;
      } else {
        assert OnCpu(s, j);
        var d :| 0 <= d < |s.cpus| && s.cpus[d].Busy? && s.cpus[d].slot == j;
        assert t.cpus[d].Busy? && t.cpus[d].slot == j;
      }
    }
  }

  lemma TimerKeeps(s: Sys, c: nat)
    requires SysInv(s) && Enabled(s, Timer(c))
    ensures SysInv(Next(s, Timer(c)))
  {
    var i := s.cpus[c].slot;
    TickedSound(s.procs[i]);
    PutKeeps(s, i, Ticked(s.procs[i]));
    var u := Put(s, i, Ticked(s.procs[i]));
    var t := Next(s, Timer(c));
    forall j | 0 <= j < |t.procs| && t.procs[j].state == Running
      ensures OnCpu(t, j)
    {
      assert OnCpu(u, j);
      var d :| 0 <= d < |u.cpus| && u.cpus[d].Busy? && u.cpus[d].slot == j;
      assert t.cpus[d].Busy? && t.cpus[d].slot == j;
    }
  }

  lemma StepKeeps(s: Sys, step: Step)
    requires SysInv(s) && Enabled(s, step)
    ensures SysInv(Next(s, step))
  {
    match step
    case Alloc(i) => PutKeeps(s, i, Allocated(s.ticks));
    case Admit(i) => PutKeeps(s, i, s.procs[i].(state := Runnable));
    case Free(i) => PutKeeps(s, i, Freed());
    case Scan(c) =>
      var i := s.cpus[c].next;
      PutKeeps(s, i, Rated(s.procs[i]));
      ScanningKeeps(Put(s, i, Rated(s.procs[i])), c, ScanOne(s.cpus[c], s.procs[i]));
    case Dispatch(c) => DispatchKeeps(s, c);
    case Rescan(c) => ScanningKeeps(s, c, START);
    case Timer(c) => TimerKeeps(s, c);
    case Yield(c) => LeaveKeeps(s, c, Runnable);
    case Sleep(c) => LeaveKeeps(s, c, Sleeping);
    case Exit(c) => LeaveKeeps(s, c, Zombie);
    case Wake(i) => PutKeeps(s, i, s.procs[i].(state := Runnable));
    case Clock =>
      var t := Next(s, Clock);
      forall j | 0 <= j < |t.procs| && t.procs[j].state == Running
        ensures OnCpu(t, j)
      {
        assert OnCpu(s, j);
      }
    case Account(i) =>
      AccountedSound(s.procs[i], s.ticks);
      PutKeeps(s, i, Accounted(s.procs[i], s.ticks));
  }

  // ---------- whole runs ----------

  lemma {:induction false} RunKeeps(s: Sys, steps: seq<Step>)
    requires SysInv(s) && Runs(s, steps)
    ensures SysInv(After(s, steps))
    decreases |steps|
  {
    if steps != [] {
      StepKeeps(s, steps[0]);
      RunKeeps(Next(s, steps[0]), steps[1..]);
    }
  }

  /** Every state of every run, for every number of CPUs and every interleaving: burst
      estimates, counters and health are sound and each RUNNING process has exactly one CPU. */
  lemma ReachableSound(s0: Sys, steps: seq<Step>)
    requires Init(s0) && Runs(s0, steps)
    ensures SysInv(After(s0, steps))
  {
    RunKeeps(s0, steps);
  }

  /** The branch of sched() that raises the estimate of a preempted process is dead: in every
      reachable state a yield changes nothing but the state and the switch counter. */
  lemma PreemptionBranchDead(s0: Sys, steps: seq<Step>, c: nat)
    requires Init(s0) && Runs(s0, steps) && Enabled(After(s0, steps), Yield(c))
    ensures var s := After(s0, steps); var i := s.cpus[c].slot;
      Next(s, Yield(c)).procs == s.procs[i := s.procs[i].(state := Runnable, switches := s.procs[i].switches + 1)]
  {
    ReachableSound(s0, steps);
    var s := After(s0, steps);
    PreemptedSound(s.procs[s.cpus[c].slot], s.ticks);
  }

  /** STARVATION is raised by clock accounting alone, after at least 20 waiting ticks. */
  lemma StarvationOnlyFromClock(s0: Sys, steps: seq<Step>, step: Step, i: nat)
    requires Init(s0) && Runs(s0, steps) && Enabled(After(s0, steps), step)
    requires i < |After(s0, steps).procs|
    requires !After(s0, steps).procs[i].flags.starvation
    requires i < |Next(After(s0, steps), step).procs| && Next(After(s0, steps), step).procs[i].flags.starvation
    ensures step == Account(i)
    ensures After(s0, steps).procs[i].state == Runnable
            && After(s0, steps).procs[i].waitticks + 1 >= STARVATION_THRESH_TICKS
  {
    ReachableSound(s0, steps);
    var s := After(s0, steps);
    match step
    case Yield(c) => SwitchedSound(s.procs[s.cpus[c].slot], Runnable, s.ticks);
    case Sleep(c) => SwitchedSound(s.procs[s.cpus[c].slot], Sleeping, s.ticks);
    case Exit(c) => SwitchedSound(s.procs[s.cpus[c].slot], Zombie, s.ticks);
    case _ =>
  }

  // ---------- an undisturbed scan selects the best candidate ----------

  /** `b` is the lowest-numbered RUNNABLE slot of maximal dynamic priority. */
  predicate IsBest(procs: seq<Proc>, b: nat) {
    && b < |procs| && procs[b].state == Runnable
    && (forall j :: 0 <= j < |procs| && procs[j].state == Runnable ==> Prio(procs[j]) <= Prio(procs[b]))
    && (forall j :: 0 <= j < b && procs[j].state == Runnable ==> Prio(procs[j]) < Prio(procs[b]))
  }

  /** What pass 1 knows after the first `k` slots. */
  predicate ScanState(procs: seq<Proc>, k: nat, best: Option<nat>, bestPrio: int)
    requires k <= |procs|
  {
    match best
    case None => bestPrio == -1 && forall j :: 0 <= j < k ==> procs[j].state != Runnable
    case Some(b) =>
      && b < k && procs[b].state == Runnable && bestPrio == Prio(procs[b])
      && (forall j :: 0 <= j < k && procs[j].state == Runnable ==> Prio(procs[j]) <= Prio(procs[b]))
      && (forall j :: 0 <= j < b && procs[j].state == Runnable ==> Prio(procs[j]) < Prio(procs[b]))
  }

  function Rating(procs: seq<Proc>, k: nat): seq<Proc>
    requires k <= |procs|
  {
    seq(|procs|, i requires 0 <= i < |procs| => if i < k then Rated(procs[i]) else procs[i])
  }

  lemma ScanOneKeeps(procs: seq<Proc>, cpu: Cpu)
    requires cpu.Scanning? && cpu.next < |procs| && ScanState(procs, cpu.next, cpu.best, cpu.bestPrio)
    ensures var next := ScanOne(cpu, procs[cpu.next]);
      ScanState(procs, cpu.next + 1, next.best, next.bestPrio)
  {
  }

  /** From the start of a scan, `n` consecutive steps of one CPU over an `n`-slot table end with
      the best candidate, or with none exactly when nothing is RUNNABLE. */
  lemma {:induction false} UndisturbedScan(s: Sys, c: nat, k: nat)
    requires c < |s.cpus| && s.cpus[c] == START && k <= |s.procs|
    ensures Runs(s, seq(k, _ => Scan(c)))
    ensures var t := After(s, seq(k, _ => Scan(c)));
      && t.procs == Rating(s.procs, k) && t.ticks == s.ticks
      && |t.cpus| == |s.cpus| && t.cpus[c].Scanning? && t.cpus[c].next == k
      && ScanState(s.procs, k, t.cpus[c].best, t.cpus[c].bestPrio)
      && (k == |s.procs| && t.cpus[c].best.Some? ==> IsBest(s.procs, t.cpus[c].best.value))
      && t.cpus == s.cpus[c := t.cpus[c]]
  {
    var steps := seq(k, _ => Scan(c));
    if k == 0 {
      assert Rating(s.procs, 0) == s.procs;
      assert s.cpus == s.cpus[c := s.cpus[c]];
    } else {
      UndisturbedScan(s, c, k - 1);
      var shorter := seq(k - 1, _ => Scan(c));
      var t := After(s, shorter);
      assert steps == shorter + [Scan(c)];
      RunsAppend(s, shorter, Scan(c));
      ScanOneKeeps(s.procs, t.cpus[c]);
      ScanStep(s, t, c, k - 1);
    }
  }

  lemma ScanStep(s: Sys, t: Sys, c: nat, k: nat)
    requires c < |s.cpus| == |t.cpus| && k < |s.procs| && t.procs == Rating(s.procs, k)
    requires t.cpus[c].Scanning? && t.cpus[c].next == k && t.cpus == s.cpus[c := t.cpus[c]]
    ensures var u := Next(t, Scan(c));
      && u.procs == Rating(s.procs, k + 1) && u.cpus == s.cpus[c := u.cpus[c]]
      && u.cpus[c] == ScanOne(t.cpus[c], s.procs[k]) && u.ticks == t.ticks
  {
    assert t.procs[k] == s.procs[k];
    var u := Next(t, Scan(c));
    assert |u.procs| == |s.procs|;
    forall i | 0 <= i < |s.procs|
      ensures u.procs[i] == Rating(s.procs, k + 1)[i]
    {
    }
  }

  lemma {:induction false} RunsAppend(s: Sys, steps: seq<Step>, step: Step)
    requires Runs(s, steps) && Enabled(After(s, steps), step)
    ensures Runs(s, steps + [step]) && After(s, steps + [step]) == Next(After(s, steps), step)
    decreases |steps|
  {
    if steps == [] {
      assert (steps + [step])[1..] == [];
    } else {
      RunsAppend(Next(s, steps[0]), steps[1..], step);
      assert (steps + [step])[1..] == steps[1..] + [step];
    }
  }
}

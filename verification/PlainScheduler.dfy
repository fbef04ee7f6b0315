/** The Phase 2 scheduler on its own: dynamic priority, aging and time slices, with no
    prediction, anomaly detection or self-healing, and the proof that Phase 3 adds nothing
    that a dispatch or a preemption can see. */
module PlainScheduler {
  import opened Process
  import opened SchedulerMachine
  import opened Util

  /** A process without the Phase 3 fields. The stored priority is absent because every scan
      recomputes it; the slice is kept only while it can be read, that is while RUNNING. */
  datatype Plain = Plain(
    state: State,
    cputicks: nat,
    waitticks: nat,
    schedCount: nat,
    switches: nat,
    creationTick: nat,
    lastSchedTick: nat,
    currentBurst: nat,
    lastBurst: nat,
    estBurst: nat,
    procType: ProcType,
    slice: nat,
    ticksInSlice: nat)

  datatype PlainSys = PlainSys(procs: seq<Plain>, cpus: seq<Cpu>, ticks: nat)

  function PlainPrio(p: Plain): int { DynamicPriority(p.procType, p.waitticks, p.estBurst) }

  function PlainFresh(state: State, creation: nat): Plain {
    Plain(state, 0, 0, 0, 0, creation, 0, 0, 0, 0, Interactive, 0, 0)
  }

  function PlainSwitched(p: Plain, state: State): Plain {
    var q := p.(state := state, switches := p.switches + 1, slice := 0);
    if state == Sleeping || state == Zombie then
      var est := if q.estBurst == 0 then q.currentBurst else (q.currentBurst + q.estBurst) / 2;
      q.(lastBurst := q.currentBurst, estBurst := est, procType := Classify(est), currentBurst := 0)
    else if q.currentBurst > q.estBurst then
      q.(lastBurst := q.currentBurst, estBurst := q.currentBurst, procType := Classify(q.currentBurst))
    else q
  }

  function PlainCharged(p: Plain): Plain {
    var q := p.(cputicks := p.cputicks + 1, currentBurst := p.currentBurst + 1, ticksInSlice := p.ticksInSlice + 1);
    if q.currentBurst > q.estBurst
    then q.(estBurst := q.currentBurst, procType := Classify(q.currentBurst))
    else q
  }

  predicate PlainExpired(p: Plain) { p.ticksInSlice >= p.slice }

  predicate PlainReady(s: PlainSys, c: nat) {
    && c < |s.cpus| && s.cpus[c].Scanning? && s.cpus[c].next == |s.procs|
    && s.cpus[c].best.Some? && s.cpus[c].best.value < |s.procs|
    && s.procs[s.cpus[c].best.value].state == Runnable
  }

  /** CPU `c` runs a process and its handler's should_yield is `must`. */
  predicate PlainBusy(s: PlainSys, c: nat, must: bool) {
    && c < |s.cpus| && s.cpus[c].Busy? && s.cpus[c].mustYield == must && s.cpus[c].slot < |s.procs|
    && s.procs[s.cpus[c].slot].state == Running
  }

  predicate PlainEnabled(s: PlainSys, step: Step) {
    match step
    case Alloc(i) => i < |s.procs| && s.procs[i].state == Unused
    case Admit(i) => i < |s.procs| && s.procs[i].state == Used
    case Free(i) => i < |s.procs| && (s.procs[i].state == Used || s.procs[i].state == Zombie)
    case Scan(c) => c < |s.cpus| && s.cpus[c].Scanning? && s.cpus[c].next < |s.procs|
    case Dispatch(c) => PlainReady(s, c)
    case Rescan(c) => c < |s.cpus| && s.cpus[c].Scanning? && s.cpus[c].next == |s.procs| && !PlainReady(s, c)
    case Timer(c) => PlainBusy(s, c, false)
    case Yield(c) => PlainBusy(s, c, true)
    case Sleep(c) => PlainBusy(s, c, false)
    case Exit(c) => PlainBusy(s, c, false)
    case Wake(i) => i < |s.procs| && s.procs[i].state == Sleeping
    case Clock => true
    case Account(i) => i < |s.procs|
  }

  function PlainScanOne(cpu: Cpu, p: Plain): Cpu
    requires cpu.Scanning?
  {
    if p.state == Runnable && PlainPrio(p) > cpu.bestPrio
    then Scanning(cpu.next + 1, Some(cpu.next), PlainPrio(p))
    else cpu.(next := cpu.next + 1)
  }

  function PlainLeave(s: PlainSys, c: nat, state: State): PlainSys
    requires c < |s.cpus| && s.cpus[c].Busy? && s.cpus[c].slot < |s.procs|
  {
    var i := s.cpus[c].slot;
    s.(procs := s.procs[i := PlainSwitched(s.procs[i], state)], cpus := s.cpus[c := START])
  }

  function PlainNext(s: PlainSys, step: Step): PlainSys
    requires PlainEnabled(s, step)
  {
    match step
    case Alloc(i) => s.(procs := s.procs[i := PlainFresh(Used, s.ticks)])
    case Admit(i) => s.(procs := s.procs[i := s.procs[i].(state := Runnable)])
    case Free(i) => s.(procs := s.procs[i := PlainFresh(Unused, 0)])
    case Scan(c) => s.(cpus := s.cpus[c := PlainScanOne(s.cpus[c], s.procs[s.cpus[c].next])])
    case Dispatch(c) =>
      var i := s.cpus[c].best.value;
      var p := s.procs[i];
      s.(procs := s.procs[i := p.(state := Running, schedCount := p.schedCount + 1, lastSchedTick := s.ticks,
                                  slice := TimeSlice(p.procType), ticksInSlice := 0, waitticks := 0)],
         cpus := s.cpus[c := Busy(i, false)])
    case Rescan(c) => s.(cpus := s.cpus[c := START])
    case Timer(c) =>
      var i := s.cpus[c].slot;
      var q := PlainCharged(s.procs[i]);
      s.(procs := s.procs[i := if PlainExpired(q) then q.(ticksInSlice := 0) else q],
         cpus := s.cpus[c := Busy(i, PlainExpired(q))])
    case Yield(c) => PlainLeave(s, c, Runnable)
    case Sleep(c) => PlainLeave(s, c, Sleeping)
    case Exit(c) => PlainLeave(s, c, Zombie)
    case Wake(i) => s.(procs := s.procs[i := s.procs[i].(state := Runnable)])
    case Clock => s.(ticks := s.ticks + 1)
    case Account(i) =>
      var p := s.procs[i];
      s.(procs := s.procs[i := if p.state == Runnable then p.(waitticks := p.waitticks + 1) else p])
  }

  predicate PlainRuns(s: PlainSys, steps: seq<Step>)
    decreases |steps|
  {
    steps == [] || (PlainEnabled(s, steps[0]) && PlainRuns(PlainNext(s, steps[0]), steps[1..]))
  }

  function PlainAfter(s: PlainSys, steps: seq<Step>): PlainSys
    requires PlainRuns(s, steps)
    decreases |steps|
  {
    if steps == [] then s else PlainAfter(PlainNext(s, steps[0]), steps[1..])
  }

  // ---------- erasure ----------

  function Erase(p: Proc): Plain {
    Plain(p.state, p.cputicks, p.waitticks, p.schedCount, p.switches, p.creationTick, p.lastSchedTick,
          p.currentBurst, p.lastBurst, p.estBurst, p.procType,
          if p.state == Running then p.timeSlice else 0, p.ticksInSlice)
  }

  function EraseAll(procs: seq<Proc>): (plain: seq<Plain>)
    ensures |plain| == |procs|
  {
    seq(|procs|, i requires 0 <= i < |procs| => Erase(procs[i]))
  }

  function EraseSys(s: Sys): PlainSys { PlainSys(EraseAll(s.procs), s.cpus, s.ticks) }

  /** Healing is invisible to the plain scheduler: it never writes state, waiting time, burst
      estimate or type, and no RUNNING process is ever healed. */
  lemma HealedInvisible(p: Proc, ticks: nat)
    requires p.state != Running
    ensures Erase(Healed(p, ticks)) == Erase(p)
  {
  }

  lemma UpdatedInvisible(p: Proc, ticks: nat)
    requires p.state != Running
    ensures Erase(Updated(p, ticks)) == Erase(p)
  {
    var q := Scored(Predicted(p));
    HealedInvisible(q, ticks);
  }

  lemma SwitchedErased(p: Proc, state: State, ticks: nat)
    requires p.state == Running && state in {Runnable, Sleeping, Zombie}
    ensures Erase(Switched(p.(state := state), ticks)) == PlainSwitched(Erase(p), state)
  {
    var q := p.(state := state, switches := p.switches + 1);
    if state == Runnable {
      UpdatedInvisible(BurstGrown(q), ticks);
    } else {
      UpdatedInvisible(BurstEnded(q), ticks);
      var r := Updated(BurstEnded(q), ticks);
      assert Erase(r.(currentBurst := 0)) == Erase(r).(currentBurst := 0);
    }
  }

  lemma AccountedErased(p: Proc, ticks: nat)
    ensures Erase(Accounted(p, ticks)) ==
      (if p.state == Runnable then Erase(p).(waitticks := p.waitticks + 1) else Erase(p))
  {
    if p.state == Runnable {
      HealedInvisible(Starved(p.(waitticks := p.waitticks + 1)), ticks);
    }
  }

  lemma PutErased(s: Sys, i: nat, p: Proc)
    requires i < |s.procs|
    ensures EraseSys(Put(s, i, p)) == EraseSys(s).(procs := EraseSys(s).procs[i := Erase(p)])
  {
    assert EraseAll(Put(s, i, p).procs) == EraseAll(s.procs)[i := Erase(p)];
  }

  lemma EnabledErased(s: Sys, step: Step)
    requires CpusSound(s)
    ensures Enabled(s, step) <==> PlainEnabled(EraseSys(s), step)
  {
  }

  lemma LeaveErased(s: Sys, c: nat, state: State)
    requires CpusSound(s) && c < |s.cpus| && s.cpus[c].Busy? && state in {Runnable, Sleeping, Zombie}
    ensures EraseSys(Leave(s, c, state)) == PlainLeave(EraseSys(s), c, state)
  {
    var i := s.cpus[c].slot;
    SwitchedErased(s.procs[i], state, s.ticks);
    PutErased(s, i, Switched(s.procs[i].(state := state), s.ticks));
  }

  /** One step: enabled in one machine exactly when in the other, with erased results equal. */
  lemma StepErased(s: Sys, step: Step)
    requires CpusSound(s) && Enabled(s, step)
    ensures PlainEnabled(EraseSys(s), step)
    ensures EraseSys(Next(s, step)) == PlainNext(EraseSys(s), step)
  {
    hide Healed, Updated;
    EnabledErased(s, step);
    match step
    case Alloc(i) => PutErased(s, i, Allocated(s.ticks));
    case Admit(i) => PutErased(s, i, s.procs[i].(state := Runnable));
    case Free(i) => PutErased(s, i, Freed());
    case Scan(c) =>
      var i := s.cpus[c].next;
      PutErased(s, i, Rated(s.procs[i]));
      assert EraseAll(s.procs)[i := Erase(s.procs[i])] == EraseAll(s.procs);
    case Dispatch(c) =>
      var i := s.cpus[c].best.value;
      PutErased(s, i, Dispatched(s.procs[i], s.ticks));
    case Rescan(c) =>
    case Timer(c) =>
      var i := s.cpus[c].slot;
      PutErased(s, i, Ticked(s.procs[i]));
    case Yield(c) => LeaveErased(s, c, Runnable);
    case Sleep(c) => LeaveErased(s, c, Sleeping);
    case Exit(c) => LeaveErased(s, c, Zombie);
    case Wake(i) => PutErased(s, i, s.procs[i].(state := Runnable));
    case Clock =>
    case Account(i) =>
      AccountedErased(s.procs[i], s.ticks);
      PutErased(s, i, Accounted(s.procs[i], s.ticks));
  }

  /** Phase 3 refines Phase 2, and Phase 2 refines Phase 3: a step sequence is a run of the full
      scheduler exactly when it is a run of the plain one, and the two end in states that agree
      on every CPU, every candidate and every process once the Phase 3 fields are erased. */
  lemma {:induction false} HealingInvisible(s: Sys, steps: seq<Step>)
    requires SysInv(s)
    ensures Runs(s, steps) <==> PlainRuns(EraseSys(s), steps)
    ensures Runs(s, steps) ==> EraseSys(After(s, steps)) == PlainAfter(EraseSys(s), steps)
    decreases |steps|
  {
    if steps != [] {
      EnabledErased(s, steps[0]);
      if Enabled(s, steps[0]) {
        StepErased(s, steps[0]);
        StepKeeps(s, steps[0]);
        HealingInvisible(Next(s, steps[0]), steps[1..]);
      }
    }
  }
}

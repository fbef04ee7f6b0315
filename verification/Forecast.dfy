/** Prediction, anomaly detection and healing of kernel/proc.c as facts about the record before and after, and what
    they come to in every run: the trend stays small, a burst surge is never found, and a process is healed exactly
    when its burst missed the forecast by six ticks or more. */
module Forecast {
  import opened Process
  import opened SchedulerMachine
  import opened Overtaking
  import opened OneCpu
  import Starvation
  import opened Util

  /** By how much a burst missed the forecast it was made under; a forecast of 0 is no forecast. */
  function Miss(burst: nat, forecast: nat): nat {
    if forecast == 0 then 0 else if burst >= forecast then burst - forecast else forecast - burst
  }

  /** Half of where the burst lies from the estimate and of the trend so far, toward zero. */
  function NextTrend(burst: nat, est: nat, trend: int): int {
    var x := burst - est + trend;
    if x >= 0 then x / 2 else -((-x) / 2)
  }

  /** The forecast made from a burst, the estimate it led to and the trend before it. */
  function NextForecast(burst: nat, est: nat, trend: int): int {
    Max(1, est + NextTrend(burst, est, trend))
  }

  predicate Surges(p: Proc) {
    Miss(p.lastBurst, p.predictedBurst) >= 4 && p.lastBurst > 2 * NextForecast(p.lastBurst, p.estBurst, p.burstTrend)
  }

  /** The error is measured against the forecast the process came with, and each flag has its own cause. */
  lemma FlagsExactly(p: Proc, ticks: nat)
    ensures var q := Updated(p, ticks); var miss := Miss(p.lastBurst, p.predictedBurst);
            && q.predictionError == miss
            && (q.flags.instability <==> miss >= 6)
            && (q.flags.burstSurge <==> Surges(p))
            && (q.flags.starvation <==> p.waitticks >= 20)
            && (q.flags.thrashing <==> p.switches > 2 * p.schedCount && p.schedCount > 5)
  {
  }

  predicate Calm(p: Proc) { p.waitticks < 20 && p.switches <= 2 * p.schedCount }

  /** A process that neither waited nor thrashed is healed exactly on a surge or a miss of six, and its score is then
      relieved by 15. */
  lemma ScoreExactly(p: Proc, ticks: nat)
    requires Calm(p)
    ensures var q := Updated(p, ticks); var miss := Miss(p.lastBurst, p.predictedBurst);
            && (!Surges(p) && miss < 6 ==> q.anomalyScore == 3 * miss && q.healingActions == p.healingActions)
            && (Surges(p) && miss < 6 ==> q.anomalyScore == 20 + 3 * miss)
            && (!Surges(p) && miss >= 6 ==> q.anomalyScore == Min(85, 10 + 3 * miss))
            && (Surges(p) && miss >= 6 ==> q.anomalyScore == Min(85, 45 + 3 * miss))
            && (Surges(p) || miss >= 6 ==> q.healingActions == p.healingActions + 1 && q.lastHealTick == ticks)
            && q.health == (if q.anomalyScore >= 70 then Critical else if q.anomalyScore >= 30 then Warning else Normal)
  {
  }

  /** The new forecast continues half the trend, and starts over from the estimate after healing. */
  lemma ForecastExactly(p: Proc, ticks: nat)
    requires Calm(p)
    ensures var q := Updated(p, ticks);
            if Surges(p) || Miss(p.lastBurst, p.predictedBurst) >= 6
            then q.predictedBurst == p.estBurst && q.burstTrend == 0 && q.timeSlice == TimeSlice(p.procType)
            else && q.burstTrend == NextTrend(p.lastBurst, p.estBurst, p.burstTrend)
                 && q.predictedBurst == NextForecast(p.lastBurst, p.estBurst, p.burstTrend)
                 && q.timeSlice == p.timeSlice
  {
  }

  /** Clock accounting raises STARVATION once, at the twentieth waiting tick or later: 40 points, of which 15 are
      relieved, 25 more priority, and a slice of two unless a surge or instability set another. */
  lemma StarvedExactly(p: Proc, ticks: nat)
    requires Sound(p) && p.state == Runnable
    ensures var q := Accounted(p, ticks); var raised := p.waitticks >= 19 && !p.flags.starvation;
            && q.waitticks == p.waitticks + 1
            && (!raised ==> q == p.(waitticks := p.waitticks + 1))
            && (raised ==>
                  && q.flags == p.flags.(starvation := true)
                  && q.healingActions == p.healingActions + 1 && q.lastHealTick == ticks
                  && q.anomalyScore == Min(100, p.anomalyScore + 40) - 15
                  && q.priority == Min(100, p.priority + 25)
                  && (!p.flags.burstSurge && !p.flags.instability ==>
                        q.timeSlice == 2 && q.predictedBurst == p.predictedBurst && q.burstTrend == p.burstTrend))
  {
  }

  /** What each remedy of apply_self_healing sets, the later ones winning. */
  lemma RemediesExactly(p: Proc, ticks: nat)
    ensures var q := Healed(p, ticks); var unsteady := p.flags.burstSurge || p.flags.instability;
            && q.priority == (if p.flags.starvation then Min(100, p.priority + 25) else p.priority)
            && q.predictedBurst == (if unsteady then p.estBurst else p.predictedBurst)
            && q.burstTrend == (if unsteady then 0 else p.burstTrend)
            && q.timeSlice == (if p.flags.thrashing then 2 else if unsteady then TimeSlice(p.procType)
                               else if p.flags.starvation then 2 else p.timeSlice)
            && (p.flags == NO_FLAGS ==> q == p)
            && (p.flags != NO_FLAGS ==>
                  && q.healingActions == p.healingActions + 1 && q.lastHealTick == ticks
                  && q.anomalyScore == (if p.anomalyScore > 20 then p.anomalyScore - 15 else p.anomalyScore))
  {
  }

  // ---------- the counters over a run ----------

  predicate Charges(s: Sys, step: Step, i: nat) {
    step.Timer? && step.c < |s.cpus| && s.cpus[step.c].Busy? && s.cpus[step.c].slot == i
  }

  predicate Dispatches(s: Sys, step: Step, i: nat) {
    step.Dispatch? && step.c < |s.cpus| && s.cpus[step.c].Scanning? && s.cpus[step.c].best == Some(i)
  }

  /** How many timer interrupts of the run are charged to slot i, and how often it is dispatched. */
  function ChargeCount(s: Sys, steps: seq<Step>, i: nat): nat
    requires Runs(s, steps)
    decreases |steps|
  {
    if steps == [] then 0
    else (if Charges(s, steps[0], i) then 1 else 0) + ChargeCount(Next(s, steps[0]), steps[1..], i)
  }

  function DispatchCount(s: Sys, steps: seq<Step>, i: nat): nat
    requires Runs(s, steps)
    decreases |steps|
  {
    if steps == [] then 0
    else (if Dispatches(s, steps[0], i) then 1 else 0) + DispatchCount(Next(s, steps[0]), steps[1..], i)
  }

  lemma SwitchedCounts(p: Proc, ticks: nat)
    ensures Switched(p, ticks).cputicks == p.cputicks && Switched(p, ticks).schedCount == p.schedCount
  {
  }

  lemma AccountedCounts(p: Proc, ticks: nat)
    ensures Accounted(p, ticks).cputicks == p.cputicks && Accounted(p, ticks).schedCount == p.schedCount
  {
  }

  lemma StepCounts(s: Sys, step: Step, i: nat)
    requires Enabled(s, step) && i < |s.procs| && step != Alloc(i) && step != Free(i)
    ensures var t := Next(s, step);
            && |t.procs| == |s.procs|
            && t.procs[i].cputicks == s.procs[i].cputicks + (if Charges(s, step, i) then 1 else 0)
            && t.procs[i].schedCount == s.procs[i].schedCount + (if Dispatches(s, step, i) then 1 else 0)
  {
    hide Switched, Accounted;
    match step
    case Yield(c) => SwitchedCounts(s.procs[s.cpus[c].slot].(state := Runnable), s.ticks);
    case Sleep(c) => SwitchedCounts(s.procs[s.cpus[c].slot].(state := Sleeping), s.ticks);
    case Exit(c) => SwitchedCounts(s.procs[s.cpus[c].slot].(state := Zombie), s.ticks);
    case Account(j) => AccountedCounts(s.procs[j], s.ticks);
    case _ =>
  }

  /** The counters tell the truth: over any run in which slot i is not handed out or freed, cputicks grows by the timer
      interrupts charged to it and sched_count by its dispatches. */
  lemma {:induction false} CountersExact(s: Sys, steps: seq<Step>, i: nat)
    requires Runs(s, steps) && i < |s.procs|
    requires forall k :: 0 <= k < |steps| ==> steps[k] != Alloc(i) && steps[k] != Free(i)
    ensures var t := After(s, steps);
            && |t.procs| == |s.procs|
            && t.procs[i].cputicks == s.procs[i].cputicks + ChargeCount(s, steps, i)
            && t.procs[i].schedCount == s.procs[i].schedCount + DispatchCount(s, steps, i)
    decreases |steps|
  {
    hide Charges, Dispatches, Enabled, Next;
    if steps != [] {
      StepCounts(s, steps[0], i);
      CountersExact(Next(s, steps[0]), steps[1..], i);
    }
  }

  // ---------- every run ----------

  /** The trend stays within two ticks of zero. Unless the running burst has outgrown the estimate, the forecast is no
      lower than the estimate with the trend. */
  predicate Tame(p: Proc) {
    && -2 <= p.burstTrend <= 0
    && (p.currentBurst == p.estBurst || p.estBurst + p.burstTrend <= p.predictedBurst)
    && !p.flags.burstSurge
    && (p.state != Unused ==> p.predictedBurst >= 1)
    && (p.flags.instability ==> p.estBurst >= 1)
  }

  /** The record on which update_prediction_and_health runs when a process gives up the CPU. */
  function AtEnd(p: Proc, state: State): Proc { BurstEnded(p.(state := state, switches := p.switches + 1)) }

  /** The new estimate is the mean of burst and old estimate, or the burst if there was none. */
  lemma EndedExactly(p: Proc, state: State)
    requires Sound(p) && p.state == Running && Tame(p)
    ensures var q := AtEnd(p, state);
            && q.lastBurst == p.currentBurst && q.procType == Classify(q.estBurst)
            && q.estBurst == (p.currentBurst + p.estBurst) / 2 && q.lastBurst <= q.estBurst
            && q.predictedBurst == p.predictedBurst >= 1 && q.burstTrend == p.burstTrend && Calm(q)
            && q.healingActions == p.healingActions && q.waitticks == 0 && q.schedCount == q.switches
  {
  }

  /** The forecast a burst is compared with for a surge is the new one, which already follows the burst. */
  lemma NoSurge(p: Proc, state: State)
    requires Sound(p) && p.state == Running && Tame(p)
    ensures !Surges(AtEnd(p, state))
  {
    EndedExactly(p, state);
  }

  /** With a miss of less than six the trend cannot leave its range. */
  lemma TrendTame(p: Proc, state: State, ticks: nat)
    requires Sound(p) && p.state == Running && Tame(p)
    ensures var q := Updated(AtEnd(p, state), ticks);
            && -2 <= q.burstTrend <= 0 && q.estBurst + q.burstTrend <= q.predictedBurst && q.predictedBurst >= 1
  {
    EndedExactly(p, state);
    NoSurge(p, state);
    ForecastExactly(AtEnd(p, state), ticks);
    FlagsExactly(AtEnd(p, state), ticks);
  }

  /** What giving up the CPU makes of a process p: the burst is averaged into the estimate and compared with the
      forecast, and a miss of six or more is instability, which is healed. */
  predicate GaveUp(p: Proc, q: Proc) {
    var miss := Miss(p.currentBurst, p.predictedBurst);
    && q.currentBurst == 0 && q.lastBurst == p.currentBurst
    && q.estBurst == (p.currentBurst + p.estBurst) / 2
    && q.predictionError == miss
    && q.flags == Flags(false, false, false, miss >= 6)
    && q.healingActions == p.healingActions + (if miss >= 6 then 1 else 0)
    && q.anomalyScore == (if miss >= 6 then Min(85, 10 + 3 * miss) else 3 * miss)
    && q.health == (if q.anomalyScore >= 70 then Critical else if q.anomalyScore >= 30 then Warning else Normal)
    && q.burstTrend == (if miss >= 6 then 0 else NextTrend(q.lastBurst, q.estBurst, p.burstTrend))
    && q.predictedBurst == Max(1, q.estBurst + q.burstTrend) <= Max(1, q.estBurst)
  }

  lemma GaveUpExactly(p: Proc, state: State, ticks: nat)
    requires Sound(p) && p.state == Running && Tame(p) && (state == Sleeping || state == Zombie)
    ensures var q := Switched(p.(state := state), ticks); Tame(q) && GaveUp(p, q)
  {
    hide Updated, Switched, AtEnd, Surges, Miss, NextTrend, Sound, Calm;
    var e := AtEnd(p, state);
    SwitchedIs(p, state, ticks);
    EndedExactly(p, state);
    NoSurge(p, state);
    TrendTame(p, state, ticks);
    FlagsExactly(e, ticks);
    ScoreExactly(e, ticks);
    ForecastExactly(e, ticks);
    EndKept(p, state, ticks);
  }

  lemma SwitchedIs(p: Proc, state: State, ticks: nat)
    requires state == Sleeping || state == Zombie
    ensures Switched(p.(state := state), ticks) == Updated(AtEnd(p, state), ticks).(currentBurst := 0)
  {
    hide Updated;
  }

  /** The fields that prediction and healing leave alone. */
  lemma EndKept(p: Proc, state: State, ticks: nat)
    requires Sound(p) && p.state == Running && Tame(p)
    ensures var e := AtEnd(p, state); var q := Updated(e, ticks);
            q.lastBurst == e.lastBurst && q.estBurst == e.estBurst && !q.flags.starvation && !q.flags.thrashing
            && (Miss(e.lastBurst, e.predictedBurst) >= 6 ==> e.estBurst >= 1)
  {
    hide Updated;
    EndedExactly(p, state);
    UpdatedSound(AtEnd(p, state), ticks);
  }

  lemma TickTame(p: Proc)
    requires Sound(p) && Tame(p)
    ensures Tame(Ticked(p))
  {
  }

  lemma AccountTame(p: Proc, ticks: nat)
    requires Sound(p) && Tame(p)
    ensures Tame(Accounted(p, ticks))
  {
  }

  ghost predicate AllTame(s: Sys) { forall i :: 0 <= i < |s.procs| ==> Tame(s.procs[i]) }

  lemma LeaveTame(s: Sys, c: nat, state: State)
    requires SysInv(s) && AllTame(s) && c < |s.cpus| && s.cpus[c].Busy? && state in {Runnable, Sleeping, Zombie}
    ensures AllTame(Leave(s, c, state))
  {
    hide Switched, Sound;
    var p := s.procs[s.cpus[c].slot];
    assert Tame(p) && Sound(p);
    if state == Runnable {
      PreemptedSound(p, s.ticks);
    } else {
      GaveUpExactly(p, state, s.ticks);
    }
  }

  lemma StepTame(s: Sys, step: Step)
    requires SysInv(s) && AllTame(s) && Enabled(s, step)
    ensures AllTame(Next(s, step))
  {
    hide Switched, Accounted, Ticked, Charged;
    match step
    case Timer(c) =>
      assert Sound(s.procs[s.cpus[c].slot]) && Tame(s.procs[s.cpus[c].slot]);
      TickTame(s.procs[s.cpus[c].slot]);
    case Yield(c) => LeaveTame(s, c, Runnable);
    case Sleep(c) => LeaveTame(s, c, Sleeping);
    case Exit(c) => LeaveTame(s, c, Zombie);
    case Account(i) =>
      assert Sound(s.procs[i]) && Tame(s.procs[i]);
      AccountTame(s.procs[i], s.ticks);
    case _ =>
  }

  lemma {:induction false} RunTame(s: Sys, steps: seq<Step>)
    requires SysInv(s) && AllTame(s) && Runs(s, steps)
    ensures SysInv(After(s, steps)) && AllTame(After(s, steps))
    decreases |steps|
  {
    hide SysInv, AllTame, Next, Enabled;
    if steps != [] {
      StepKeeps(s, steps[0]);
      StepTame(s, steps[0]);
      RunTame(Next(s, steps[0]), steps[1..]);
    }
  }

  /** In every run no process is ever found to surge, and the trend of every process is 0, -1 or -2. */
  lemma SurgeNeverFound(s0: Sys, steps: seq<Step>, i: nat)
    requires Init(s0) && Runs(s0, steps) && i < |After(s0, steps).procs|
    ensures var p := After(s0, steps).procs[i]; !p.flags.burstSurge && -2 <= p.burstTrend <= 0
  {
    RunTame(s0, steps);
    assert Tame(After(s0, steps).procs[i]);
  }

  /** In every reachable state a process that sleeps or exits is found unstable, and is healed, exactly when its burst
      missed the forecast by six ticks or more. */
  lemma HealedExactlyAtSix(s0: Sys, steps: seq<Step>, c: nat, dies: bool)
    requires Init(s0) && Runs(s0, steps)
    requires Enabled(After(s0, steps), if dies then Exit(c) else Sleep(c))
    ensures var s := After(s0, steps);
            GaveUp(s.procs[s.cpus[c].slot], Next(s, if dies then Exit(c) else Sleep(c)).procs[s.cpus[c].slot])
  {
    hide Switched, GaveUp;
    RunTame(s0, steps);
    var s := After(s0, steps);
    var p := s.procs[s.cpus[c].slot];
    assert Tame(p) && Sound(p);
    GaveUpExactly(p, if dies then Zombie else Sleeping, s.ticks);
  }

  // ---------- the first burst of a process ----------

  /** The only process of the table is n ticks into its first burst. */
  ghost predicate Young(u: Uni, n: nat) {
    && UniInv(u) && |u.procs| == 1
    && var p := u.procs[0];
       && (p.state == Running || p.state == Runnable) && p.currentBurst == p.estBurst == n
       && p.predictedBurst == 1 && p.burstTrend == 0 && p.healingActions == 0 && p.waitticks == 0
       && p.flags == NO_FLAGS
  }

  ghost predicate UniLeads(s: Uni, steps: seq<UniStep>, u: Uni) { UniRuns(s, steps) && UniAfter(s, steps) == u }

  lemma {:induction false} UniAppend(s: Uni, steps: seq<UniStep>, u: Uni, step: UniStep)
    requires UniLeads(s, steps, u) && UniEnabled(u, step)
    ensures UniLeads(s, steps + [step], UniNext(u, step))
    decreases |steps|
  {
    hide UniEnabled, UniNext;
    if steps == [] {
      assert steps + [step] == [step] && [step][1..] == [];
      assert UniRuns(UniNext(s, step), []) && UniAfter(UniNext(s, step), []) == UniNext(s, step);
    } else {
      UniAppend(UniNext(s, steps[0]), steps[1..], u, step);
      assert (steps + [step])[1..] == steps[1..] + [step];
    }
  }

  /** The only process is, or can be, dispatched. */
  lemma YoungRuns(e: Uni, before: seq<UniStep>, v: Uni, n: nat) returns (steps: seq<UniStep>, u: Uni)
    requires Young(v, n) && UniLeads(e, before, v)
    ensures Young(u, n) && UniLeads(e, steps, u) && u.running == Some(0)
  {
    steps, u := before, v;
    if v.procs[0].state == Runnable {
      assert IsBest(v.procs, 0);
      BestIsUnique(v.procs, Best(v.procs), 0);
      PickingShape(v);
      UniAppend(e, before, v, Pick);
      steps, u := before + [Pick], UniNext(v, Pick);
    }
  }

  lemma YoungTicks(u: Uni, n: nat)
    requires Young(u, n) && u.running == Some(0)
    ensures Young(Ticking(u), n + 1)
  {
    TickingShape(u);
    TickingIs(u);
    assert Ticking(u).procs[0] == RanOneTick(u.procs[0], u.ticks + 1);
    RanOneTickShape(u.procs[0], u.ticks + 1);
    TickedSound(u.procs[0]);
    PreemptedSound(Ticked(u.procs[0]), u.ticks + 1);
  }

  lemma {:induction false} FirstTicks(n: nat) returns (steps: seq<UniStep>, u: Uni)
    ensures UniLeads(Starvation.EmptyTable(1), steps, u) && Young(u, n)
    decreases n
  {
    var e := Starvation.EmptyTable(1);
    if n == 0 {
      UniAppend(e, [], e, Create(0));
      var v := UniNext(e, Create(0));
      UniAppend(e, [] + [Create(0)], v, Start(0));
      steps, u := [] + [Create(0)] + [Start(0)], UniNext(v, Start(0));
    } else {
      var before, v := FirstTicks(n - 1);
      before, v := YoungRuns(e, before, v, n - 1);
      YoungTicks(v, n - 1);
      UniAppend(e, before, v, Tick);
      steps, u := before + [Tick], UniNext(v, Tick);
    }
  }

  /** What sleeping makes of it. */
  predicate FirstSlept(q: Proc, n: nat) {
    && q.state == Sleeping && q.lastBurst == q.estBurst == n
    && q.predictionError == (if n == 0 then 1 else n - 1)
    && q.flags == Flags(false, false, false, n >= 7)
    && q.healingActions == (if n >= 7 then 1 else 0)
    && q.anomalyScore == (if n >= 7 then Min(85, 7 + 3 * n) else if n == 0 then 3 else 3 * (n - 1))
    && q.health == (if n >= 21 then Critical else if n >= 8 then Warning else Normal)
    && q.predictedBurst == Max(1, n)
  }

  lemma YoungSleeps(u: Uni, n: nat)
    requires Young(u, n) && u.running == Some(0)
    ensures |Release(u, Sleeping).procs| == 1 && FirstSlept(Release(u, Sleeping).procs[0], n)
  {
    hide Switched;
    var p := u.procs[0];
    assert Sound(p) && Tame(p);
    GaveUpExactly(p, Sleeping, u.ticks);
    ReleaseShape(u, Sleeping);
  }

  /** For every n there is a run of the scheduler machine that allocates a process, admits it, lets it run n ticks and
      puts it to sleep. It is then found unstable, and has been healed, exactly if n is 7 or more. */
  lemma FirstBurst(n: nat) returns (s0: Sys, run: seq<Step>)
    ensures Init(s0) && |s0.procs| == |s0.cpus| == 1 && Runs(s0, run)
    ensures |After(s0, run).procs| == 1 && FirstSlept(After(s0, run).procs[0], n)
  {
    hide Release, FirstSlept, Runs, After, Young, UniRuns, UniAfter;
    var e := Starvation.EmptyTable(1);
    var before, v := FirstTicks(n);
    before, v := YoungRuns(e, before, v, n);
    YoungSleeps(v, n);
    assert UniEnabled(v, Block) by {
      YoungSize(v, n);
    }
    UniAppend(e, before, v, Block);
    s0 := Embedded(e);
    run := RunIsRun(e, before + [Block]);
  }

  lemma YoungSize(u: Uni, n: nat)
    requires Young(u, n)
    ensures |u.procs| == 1
  {
  }
}

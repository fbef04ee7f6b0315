/** The one-CPU machine of Overtaking is the scheduler machine with a single CPU: each of its steps is a run of
    lock-protected sections (kernel/proc.c, kernel/trap.c). */
module OneCpu {
  import opened Process
  import opened SchedulerMachine
  import opened Overtaking
  import Starvation

  /** Between steps the CPU is about to scan, or runs a process whose slice is not over. */
  function Embedded(s: Uni): Sys {
    Sys(s.procs, [if s.running.Some? then Busy(s.running.value, false) else START], s.ticks)
  }

  /** steps lead from one state of the scheduler machine to another. */
  predicate Reaches(s: Sys, steps: seq<Step>, t: Sys) { Runs(s, steps) && After(s, steps) == t }

  /** Clock interrupts of a run, and those charged to a running process. */
  function Clocks(steps: seq<Step>): nat {
    if steps == [] then 0 else (if steps[0].Clock? then 1 else 0) + Clocks(steps[1..])
  }

  function Timers(steps: seq<Step>): nat {
    if steps == [] then 0 else (if steps[0].Timer? then 1 else 0) + Timers(steps[1..])
  }

  lemma {:induction false} ReachesOn(s: Sys, a: seq<Step>, t: Sys, b: seq<Step>, u: Sys)
    requires Reaches(s, a, t) && Reaches(t, b, u)
    ensures Reaches(s, a + b, u)
    ensures Clocks(a + b) == Clocks(a) + Clocks(b) && Timers(a + b) == Timers(a) + Timers(b)
    decreases |a|
  {
    hide Enabled, Next;
    if a == [] {
      assert a + b == b;
    } else {
      ReachesOn(Next(s, a[0]), a[1..], t, b, u);
      assert (a + b)[1..] == a[1..] + b;
    }
  }

  lemma ReachesOne(s: Sys, step: Step)
    requires Enabled(s, step)
    ensures Reaches(s, [step], Next(s, step))
    ensures Clocks([step]) == (if step.Clock? then 1 else 0) && Timers([step]) == (if step.Timer? then 1 else 0)
  {
    assert [step][1..] == [];
  }

  lemma BestIsUnique(procs: seq<Proc>, a: nat, b: nat)
    requires IsBest(procs, a) && IsBest(procs, b)
    ensures a == b
  {
  }

  lemma {:induction false} ScansUncounted(n: nat)
    ensures Clocks(seq(n, _ => Scan(0))) == 0 && Timers(seq(n, _ => Scan(0))) == 0
  {
    if n > 0 {
      ScansUncounted(n - 1);
      assert seq(n, _ => Scan(0))[1..] == seq(n - 1, _ => Scan(0));
    }
  }

  lemma PickIsRun(s: Uni) returns (steps: seq<Step>)
    requires UniInv(s) && UniEnabled(s, Pick)
    ensures Reaches(Embedded(s), steps, Embedded(Picking(s))) && Clocks(steps) == Timers(steps) == 0
  {
    var m, n := Embedded(s), |s.procs|;
    var scans := seq(n, _ => Scan(0));
    UndisturbedScan(m, 0, n);
    ScansUncounted(n);
    var t := After(m, scans);
    var b := Best(s.procs);
    assert t.cpus[0].best.Some?;
    BestIsUnique(s.procs, t.cpus[0].best.value, b);
    assert t.procs[b] == Rated(s.procs[b]);
    ReachesOne(t, Dispatch(0));
    ReachesOn(m, scans, t, [Dispatch(0)], Next(t, Dispatch(0)));
    assert Next(t, Dispatch(0)).cpus == [Busy(b, false)];
    steps := scans + [Dispatch(0)];
  }

  /** A scan that finds nothing: nothing is rated, and the CPU starts over. */
  lemma WaitIsRun(s: Uni) returns (steps: seq<Step>)
    requires UniEnabled(s, Wait)
    ensures Reaches(Embedded(s), steps, Embedded(s)) && Clocks(steps) == Timers(steps) == 0
  {
    var m, n := Embedded(s), |s.procs|;
    var scans := seq(n, _ => Scan(0));
    UndisturbedScan(m, 0, n);
    ScansUncounted(n);
    var t := After(m, scans);
    assert t.procs == s.procs;
    ReachesOne(t, Rescan(0));
    ReachesOn(m, scans, t, [Rescan(0)], Next(t, Rescan(0)));
    assert Next(t, Rescan(0)).cpus == [START];
    steps := scans + [Rescan(0)];
  }

  /** clock_tick_accounting over the first k slots. */
  function AccountedTo(procs: seq<Proc>, ticks: nat, k: nat): seq<Proc>
    requires k <= |procs|
  { AccountAll(procs[..k], ticks) + procs[k..] }

  lemma {:induction false} AccountingIsRun(m: Sys, k: nat) returns (steps: seq<Step>)
    requires k <= |m.procs|
    ensures Reaches(m, steps, m.(procs := AccountedTo(m.procs, m.ticks, k))) && Clocks(steps) == Timers(steps) == 0
    decreases k
  {
    hide Accounted;
    steps := [];
    if k == 0 {
      assert AccountedTo(m.procs, m.ticks, 0) == m.procs;
    } else {
      var front := AccountingIsRun(m, k - 1);
      var t := m.(procs := AccountedTo(m.procs, m.ticks, k - 1));
      assert t.procs[k - 1] == m.procs[k - 1];
      assert t.procs[k - 1 := Accounted(m.procs[k - 1], m.ticks)] == AccountedTo(m.procs, m.ticks, k);
      ReachesOne(t, Account(k - 1));
      ReachesOn(m, front, t, [Account(k - 1)], Next(t, Account(k - 1)));
      steps := front + [Account(k - 1)];
    }
  }

  /** clockintr: the tick and the accounting of every slot. */
  lemma ClockIsRun(m: Sys) returns (steps: seq<Step>)
    ensures Reaches(m, steps, Sys(AccountAll(m.procs, m.ticks + 1), m.cpus, m.ticks + 1))
    ensures Clocks(steps) == 1 && Timers(steps) == 0
  {
    hide Accounted;
    ReachesOne(m, Clock);
    var t := Next(m, Clock);
    var rest := AccountingIsRun(t, |t.procs|);
    assert AccountedTo(t.procs, t.ticks, |t.procs|) == AccountAll(m.procs, m.ticks + 1) by {
      assert t.procs[..|t.procs|] == m.procs;
    }
    steps := [Clock] + rest;
    ReachesOn(m, [Clock], t, rest, Sys(AccountAll(m.procs, m.ticks + 1), m.cpus, m.ticks + 1));
  }

  lemma TickIsRun(s: Uni) returns (steps: seq<Step>)
    requires UniInv(s) && s.running.Some?
    ensures Reaches(Embedded(s), steps, Embedded(Ticking(s))) && Clocks(steps) == Timers(steps) == 1
  {
    hide Accounted, Switched, Ticked, SliceExpired, Charged, Sound;
    var m, r := Embedded(s), s.running.value;
    var clock := ClockIsRun(m);
    var t := Sys(AccountAll(m.procs, m.ticks + 1), m.cpus, m.ticks + 1);
    ReachesOne(t, Timer(0));
    var u := Next(t, Timer(0));
    ReachesOn(m, clock, t, [Timer(0)], u);
    steps := clock + [Timer(0)];
    if u.cpus[0].mustYield {
      ReachesOne(u, Yield(0));
      ReachesOn(m, steps, u, [Yield(0)], Next(u, Yield(0)));
      steps := steps + [Yield(0)];
    }
  }

  /** Every step of the one-CPU machine is a run of the scheduler machine with one CPU, of as many clock
      interrupts and as many charged ones. */
  lemma StepIsRun(s: Uni, step: UniStep) returns (steps: seq<Step>)
    requires UniInv(s) && UniEnabled(s, step)
    ensures Reaches(Embedded(s), steps, Embedded(UniNext(s, step)))
    ensures Clocks(steps) == TickCount([step]) && Clocks(steps) - Timers(steps) == IdleCount([step])
  {
    hide Rated, Dispatched, Ticked, Charged;
    hide Switched, Sound, Accounted;
    assert [step][1..] == [];
    match step
    case Pick => steps := PickIsRun(s);
    case Tick => steps := TickIsRun(s);
    case Idle => steps := ClockIsRun(Embedded(s));
    case Wait => steps := WaitIsRun(s);
    case Block => steps := [Sleep(0)]; ReachesOne(Embedded(s), Sleep(0));
    case Quit => steps := [Exit(0)]; ReachesOne(Embedded(s), Exit(0));
    case Rouse(i) => steps := [Wake(i)]; ReachesOne(Embedded(s), Wake(i));
    case Create(i) => steps := [Alloc(i)]; ReachesOne(Embedded(s), Alloc(i));
    case Start(i) => steps := [Admit(i)]; ReachesOne(Embedded(s), Admit(i));
    case Reap(i) => steps := [Free(i)]; ReachesOne(Embedded(s), Free(i));
  }

  lemma {:induction false} RunIsRun(s: Uni, steps: seq<UniStep>) returns (run: seq<Step>)
    requires UniInv(s) && UniRuns(s, steps)
    ensures Reaches(Embedded(s), run, Embedded(UniAfter(s, steps)))
    ensures Clocks(run) == TickCount(steps) && Clocks(run) - Timers(run) == IdleCount(steps)
    decreases |steps|
  {
    hide UniEnabled, UniNext, Enabled, Next, UniInv;
    run := [];
    if steps != [] {
      var u := UniNext(s, steps[0]);
      UniKeeps(s, steps[0]);
      var first := StepIsRun(s, steps[0]);
      assert [steps[0]][1..] == [];
      var rest := RunIsRun(u, steps[1..]);
      ReachesOn(Embedded(s), first, Embedded(u), rest, Embedded(UniAfter(u, steps[1..])));
      run := first + rest;
    }
  }

  lemma {:induction false} WaiterAges(s: Uni, steps: seq<UniStep>, t: nat)
    requires UniInv(s) && UniRuns(s, steps) && t < |s.procs| && s.procs[t].state == Runnable && NeverPicked(s, steps, t)
    ensures var u := UniAfter(s, steps);
            t < |u.procs| && u.procs[t].waitticks == s.procs[t].waitticks + TickCount(steps)
    decreases |steps|
  {
    if steps != [] {
      UniKeeps(s, steps[0]);
      WaiterKeeps(s, steps[0], t);
      WaiterAges(UniNext(s, steps[0]), steps[1..], t);
    }
  }

  lemma {:induction false} SoundAfter(s: Uni, steps: seq<UniStep>)
    requires UniInv(s) && UniRuns(s, steps)
    ensures UniInv(UniAfter(s, steps))
    decreases |steps|
  {
    hide UniEnabled, UniNext, UniInv;
    if steps != [] {
      UniKeeps(s, steps[0]);
      SoundAfter(UniNext(s, steps[0]), steps[1..]);
    }
  }

  /** Starvation in the scheduler machine: from procinit's table, one CPU and at least 39 slots, there is for every k
      a run that ends in k or more clock interrupts, each charged to a running process, in which a RUNNABLE process
      waits them all out. */
  lemma StarvationReachable(n: nat, k: nat) returns (s0: Sys, setup: seq<Step>, run: seq<Step>)
    requires n > Starvation.VICTIM
    ensures Init(s0) && |s0.procs| == n && |s0.cpus| == 1
    ensures Runs(s0, setup) && Runs(After(s0, setup), run) && Clocks(run) == Timers(run) >= k
    ensures var t := After(After(s0, setup), run);
            |t.procs| == n && t.procs[Starvation.VICTIM].state == Runnable
              && t.procs[Starvation.VICTIM].waitticks == Clocks(run)
  {
    hide UniEnabled, UniNext, Enabled, Next, NeverPicked;
    var e := Starvation.EmptyTable(n);
    var first, steps := Starvation.StarvationPossible(n, k);
    var s := UniAfter(e, first);
    SoundAfter(e, first);
    WaiterAges(s, steps, Starvation.VICTIM);
    s0 := Embedded(e);
    setup := RunIsRun(e, first);
    run := RunIsRun(s, steps);
  }
}

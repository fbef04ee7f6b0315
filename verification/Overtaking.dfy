/** Bounded overtaking and bounded waiting on one CPU, where a table scan is not interrupted
    (kernel/proc.c scheduler, clock_tick_accounting; kernel/trap.c). */
module Overtaking {
  import opened Process
  import opened SchedulerMachine
  import opened Util

  /** scheduler() lets interrupts in for a moment before each scan. The timer is armed far ahead, so that at most one
      clock interrupt falls in that moment; `open` says that none has. */
  datatype Uni = Uni(procs: seq<Proc>, running: Option<nat>, ticks: nat, open: bool)

  datatype UniStep =
    | Pick             // an undisturbed scan and the dispatch of its candidate
    | Tick             // one clock interrupt, charged to the running process
    | Idle             // one clock interrupt taken in scheduler(), charged to nobody
    | Wait             // a scan that finds nothing, and wfi
    | Block            // the running process sleeps
    | Quit             // the running process exits
    | Rouse(i: nat)    // wakeup or kkill
    | Create(i: nat)
    | Start(i: nat)
    | Reap(i: nat)

  /** The candidate of an undisturbed scan, given that one exists. */
  ghost function Best(procs: seq<Proc>): (b: nat)
    requires exists b: nat :: IsBest(procs, b)
    ensures IsBest(procs, b)
  {
    var b: nat :| IsBest(procs, b); b
  }

  ghost predicate UniEnabled(s: Uni, step: UniStep) {
    match step
    case Pick => s.running.None? && exists b: nat :: IsBest(s.procs, b)
    case Tick => s.running.Some? && s.running.value < |s.procs|
    case Idle => s.running.None? && s.open
    case Wait => s.running.None? && forall i :: 0 <= i < |s.procs| ==> s.procs[i].state != Runnable
    case Block => s.running.Some? && s.running.value < |s.procs|
    case Quit => s.running.Some? && s.running.value < |s.procs|
    case Rouse(i) => i < |s.procs| && s.procs[i].state == Sleeping
    case Create(i) => i < |s.procs| && s.procs[i].state == Unused
    case Start(i) => i < |s.procs| && s.procs[i].state == Used
    case Reap(i) => i < |s.procs| && (s.procs[i].state == Used || s.procs[i].state == Zombie)
  }

  function AccountAll(procs: seq<Proc>, ticks: nat): (r: seq<Proc>)
    ensures |r| == |procs|
  {
    seq(|procs|, i requires 0 <= i < |procs| => Accounted(procs[i], ticks))
  }

  function Release(s: Uni, state: State): Uni
    requires s.running.Some? && s.running.value < |s.procs|
  {
    var r := s.running.value;
    s.(procs := s.procs[r := Switched(s.procs[r].(state := state), s.ticks)], running := None, open := true)
  }

  /** clockintr, then the timer handler, then yield if the slice is over. */
  function Ticking(s: Uni): Uni
    requires s.running.Some? && s.running.value < |s.procs|
  {
    var r := s.running.value;
    var procs := AccountAll(s.procs, s.ticks + 1);
    var t := s.(procs := procs[r := Ticked(procs[r])], ticks := s.ticks + 1);
    if SliceExpired(Charged(procs[r])) then Release(t, Runnable) else t
  }

  function Idling(s: Uni): Uni {
    Uni(AccountAll(s.procs, s.ticks + 1), s.running, s.ticks + 1, false)
  }

  ghost function Picking(s: Uni): Uni
    requires UniEnabled(s, Pick)
  {
    var b := Best(s.procs);
    var procs := Rating(s.procs, |s.procs|);
    s.(procs := procs[b := Dispatched(procs[b], s.ticks)], running := Some(b), open := false)
  }

  ghost function UniNext(s: Uni, step: UniStep): Uni
    requires UniEnabled(s, step)
  {
    match step
    case Pick => Picking(s)
    case Tick => Ticking(s)
    case Idle => Idling(s)
    case Wait => s.(open := true)
    case Block => Release(s, Sleeping)
    case Quit => Release(s, Zombie)
    case Rouse(i) => s.(procs := s.procs[i := s.procs[i].(state := Runnable)])
    case Create(i) => s.(procs := s.procs[i := Allocated(s.ticks)])
    case Start(i) => s.(procs := s.procs[i := s.procs[i].(state := Runnable)])
    case Reap(i) => s.(procs := s.procs[i := Freed()])
  }

  ghost predicate UniRuns(s: Uni, steps: seq<UniStep>)
    decreases |steps|
  {
    steps == [] || (UniEnabled(s, steps[0]) && UniRuns(UniNext(s, steps[0]), steps[1..]))
  }

  ghost function UniAfter(s: Uni, steps: seq<UniStep>): Uni
    requires UniRuns(s, steps)
    decreases |steps|
  {
    if steps == [] then s else UniAfter(UniNext(s, steps[0]), steps[1..])
  }

  /** Clock ticks, charged or not. */
  function TickCount(steps: seq<UniStep>): nat {
    if steps == [] then 0 else (if steps[0].Tick? || steps[0].Idle? then 1 else 0) + TickCount(steps[1..])
  }

  /** Clock ticks charged to nobody. */
  function IdleCount(steps: seq<UniStep>): nat {
    if steps == [] then 0 else (if steps[0].Idle? then 1 else 0) + IdleCount(steps[1..])
  }

  ghost predicate UniInv(s: Uni) {
    && (forall i :: 0 <= i < |s.procs| ==> Sound(s.procs[i]))
    && (forall i :: 0 <= i < |s.procs| ==> (s.procs[i].state == Running <==> s.running == Some(i)))
    && (s.running.Some? ==> s.running.value < |s.procs|)
  }

  // ---------- one step ----------

  lemma AccountAllSound(procs: seq<Proc>, ticks: nat)
    requires forall i :: 0 <= i < |procs| ==> Sound(procs[i])
    ensures forall i :: 0 <= i < |procs| ==>
      && Sound(AccountAll(procs, ticks)[i]) && AccountAll(procs, ticks)[i].state == procs[i].state
      && AccountAll(procs, ticks)[i] == Accounted(procs[i], ticks)
  {
    forall i | 0 <= i < |procs|
      ensures Sound(Accounted(procs[i], ticks)) && Accounted(procs[i], ticks).state == procs[i].state
    {
      AccountedSound(procs[i], ticks);
    }
  }

  /** What a clock tick makes of the running process. */
  function RanOneTick(p: Proc, ticks: nat): Proc {
    if SliceExpired(Charged(p)) then Switched(Ticked(p).(state := Runnable), ticks) else Ticked(p)
  }

  lemma RanOneTickShape(p: Proc, ticks: nat)
    requires Sound(p) && p.state == Running
    ensures var q := RanOneTick(p, ticks);
      && Sound(q) && q.waitticks == 0
      && (SliceExpired(Charged(p)) ==> q.state == Runnable)
      && (!SliceExpired(Charged(p)) ==>
            q.state == Running && q.ticksInSlice == p.ticksInSlice + 1 && q.timeSlice == p.timeSlice)
  {
    TickedSound(p);
    PreemptedSound(Ticked(p), ticks);
  }

  lemma TickingIs(s: Uni)
    requires s.running.Some? && s.running.value < |s.procs| && s.procs[s.running.value].state == Running
    ensures var r := s.running.value;
      && Ticking(s).procs == AccountAll(s.procs, s.ticks + 1)[r := RanOneTick(s.procs[r], s.ticks + 1)]
      && Ticking(s).running == (if SliceExpired(Charged(s.procs[r])) then None else s.running)
  {
  }

  lemma TickingShape(s: Uni)
    requires UniInv(s) && s.running.Some?
    ensures var r := s.running.value; var t := Ticking(s);
      && UniInv(t) && |t.procs| == |s.procs|
      && (forall i :: 0 <= i < |s.procs| && i != r ==> t.procs[i] == Accounted(s.procs[i], s.ticks + 1))
      && (t.running == Some(r) ==>
           t.procs[r].ticksInSlice == s.procs[r].ticksInSlice + 1 && t.procs[r].timeSlice == s.procs[r].timeSlice)
      && (t.running == Some(r) || (t.running == None && t.procs[r].state == Runnable))
      && t.procs[r].waitticks == 0
  {
    TickingIs(s);
    AccountAllSound(s.procs, s.ticks + 1);
    RanOneTickShape(s.procs[s.running.value], s.ticks + 1);
  }

  lemma IdlingShape(s: Uni)
    requires UniInv(s) && s.running.None?
    ensures var t := Idling(s);
      && UniInv(t) && |t.procs| == |s.procs| && t.running == None && !t.open
      && (forall i :: 0 <= i < |s.procs| ==> t.procs[i] == Accounted(s.procs[i], s.ticks + 1))
  {
    hide Sound, Accounted;
    AccountAllSound(s.procs, s.ticks + 1);
  }

  lemma ReleaseShape(s: Uni, state: State)
    requires UniInv(s) && s.running.Some? && state in {Sleeping, Zombie}
    ensures UniInv(Release(s, state))
    ensures Release(s, state).procs[s.running.value].waitticks == 0
    ensures Release(s, state).procs[s.running.value].state == state
  {
    SwitchedSound(s.procs[s.running.value], state, s.ticks);
  }

  lemma RatedSound(p: Proc)
    requires Sound(p)
    ensures Sound(Rated(p)) && Rated(p).state == p.state
  {
  }

  lemma ChosenSound(p: Proc, ticks: nat)
    requires Sound(p) && p.state == Runnable
    ensures Sound(Dispatched(Rated(p), ticks)) && Dispatched(Rated(p), ticks).state == Running
  {
  }

  lemma PickingShape(s: Uni)
    requires UniInv(s) && UniEnabled(s, Pick)
    ensures var b := Best(s.procs); var t := Picking(s);
      && UniInv(t) && |t.procs| == |s.procs| && t.running == Some(b)
      && t.procs[b] == Dispatched(Rated(s.procs[b]), s.ticks)
      && (forall i :: 0 <= i < |s.procs| && i != b ==> t.procs[i] == Rated(s.procs[i]))
  {
    hide Sound, Rated, Dispatched, Prio;
    var b := Best(s.procs);
    ChosenSound(s.procs[b], s.ticks);
    forall i | 0 <= i < |s.procs|
      ensures Rating(s.procs, |s.procs|)[i] == Rated(s.procs[i])
      ensures Sound(Rated(s.procs[i])) && Rated(s.procs[i]).state == s.procs[i].state
    {
      RatedSound(s.procs[i]);
    }
  }

  lemma UniKeeps(s: Uni, step: UniStep)
    requires UniInv(s) && UniEnabled(s, step)
    ensures UniInv(UniNext(s, step)) && |UniNext(s, step).procs| == |s.procs|
  {
    hide Ticking, Picking, Idling;
    match step
    case Pick => PickingShape(s);
    case Tick => TickingShape(s);
    case Idle => IdlingShape(s);
    case Block => ReleaseShape(s, Sleeping);
    case Quit => ReleaseShape(s, Zombie);
    case _ =>
  }

  /** Waiting time grows by at most one per clock tick, whatever else happens to the slot. */
  lemma WaitGrowsWithTicks(s: Uni, step: UniStep, q: nat)
    requires UniInv(s) && UniEnabled(s, step) && q < |s.procs|
    ensures UniNext(s, step).procs[q].waitticks <= s.procs[q].waitticks + (if step.Tick? || step.Idle? then 1 else 0)
  {
    match step
    case Pick => PickingShape(s);
    case Tick => TickingShape(s);
    case Idle => IdlingShape(s);
    case Block => ReleaseShape(s, Sleeping);
    case Quit => ReleaseShape(s, Zombie);
    case _ =>
  }

  lemma {:induction false} WaitBoundedByTicks(s: Uni, steps: seq<UniStep>, q: nat)
    requires UniInv(s) && UniRuns(s, steps) && q < |s.procs|
    ensures var u := UniAfter(s, steps); UniInv(u) && |u.procs| == |s.procs|
    ensures UniAfter(s, steps).procs[q].waitticks <= s.procs[q].waitticks + TickCount(steps)
    decreases |steps|
  {
    if steps != [] {
      UniKeeps(s, steps[0]);
      WaitGrowsWithTicks(s, steps[0], q);
      WaitBoundedByTicks(UniNext(s, steps[0]), steps[1..], q);
    }
  }

  // ---------- bounded overtaking ----------

  ghost predicate Picks(s: Uni, q: nat) { UniEnabled(s, Pick) && Best(s.procs) == q }

  predicate AtMax(s: Uni, t: nat) {
    t < |s.procs| && s.procs[t].state == Runnable && Prio(s.procs[t]) == MAX_PRIORITY
  }

  /** While process `t` waits at MAX_PRIORITY, a slot `q` that has been dispatched is dispatched
      again only after 25 further clock ticks. */
  lemma OvertakenOncePer25Ticks(s: Uni, t: nat, q: nat, mid: seq<UniStep>)
    requires UniInv(s) && Picks(s, q) && UniRuns(Picking(s), mid)
    requires Picks(UniAfter(Picking(s), mid), q)
    requires AtMax(UniAfter(Picking(s), mid), t)
    ensures TickCount(mid) >= 25
  {
    PickingShape(s);
    WaitBoundedByTicks(Picking(s), mid, q);
    BestUnderMax(UniAfter(Picking(s), mid), t);
  }

  /** Whoever is chosen past a process at MAX_PRIORITY has itself waited 25 ticks. */
  lemma BestUnderMax(s: Uni, t: nat)
    requires UniEnabled(s, Pick) && AtMax(s, t)
    ensures s.procs[Best(s.procs)].waitticks >= 25
  {
  }

  // ---------- bounded waiting ----------

  function Sum(a: seq<nat>): nat {
    if a == [] then 0 else a[0] + Sum(a[1..])
  }

  lemma {:induction false} SumUpdate(a: seq<nat>, i: nat, v: nat)
    requires i < |a|
    ensures Sum(a[i := v]) == Sum(a) - a[i] + v
  {
    if i == 0 {
      assert a[0 := v][1..] == a[1..];
    } else {
      SumUpdate(a[1..], i - 1, v);
      assert a[i := v][1..] == a[1..][i - 1 := v];
    }
  }

  /** Along the run, no slot ever holds a slice longer than its entry in `cap` less `spare`. */
  ghost predicate SlicesWithin(s: Uni, steps: seq<UniStep>, cap: seq<nat>, spare: nat)
    requires UniRuns(s, steps)
    decreases |steps|
  {
    && |cap| == |s.procs|
    && (s.running.Some? ==>
          s.running.value < |cap| && s.procs[s.running.value].timeSlice + spare <= cap[s.running.value])
    && (steps != [] ==> SlicesWithin(UniNext(s, steps[0]), steps[1..], cap, spare))
  }

  /** Process `t` is not chosen by any scan of the run. */
  ghost predicate NeverPicked(s: Uni, steps: seq<UniStep>, t: nat)
    requires UniRuns(s, steps)
    decreases |steps|
  {
    steps != [] ==> !(steps[0].Pick? && Picks(s, t)) && NeverPicked(UniNext(s, steps[0]), steps[1..], t)
  }

  /** The window that opens when `t` reaches MAX_PRIORITY. `budget` is what each slot may still
      consume, `spent` the slots that have held the CPU in the window, `e` its age in ticks. A running slot keeps
      `spare` ticks of its budget beyond its slice. */
  ghost predicate Window(s: Uni, t: nat, cap: seq<nat>, budget: seq<nat>, spent: set<nat>, e: nat, spare: nat) {
    && AtMax(s, t)
    && |cap| == |budget| == |s.procs|
    && e + Sum(budget) < 25
    && (s.running.Some? ==> s.running.value in spent)
    && (forall q :: 0 <= q < |s.procs| && q !in spent ==> budget[q] == cap[q])
    && (forall q :: 0 <= q < |s.procs| && q in spent ==> s.procs[q].waitticks <= e)
    && (s.running.Some? && s.running.value < |s.procs| ==>
          s.procs[s.running.value].timeSlice + spare
          <= s.procs[s.running.value].ticksInSlice + budget[s.running.value])
  }

  /** What may be drawn for uncharged ticks: enough for all of them if nobody leaves a spare tick, and otherwise for
      the one that may be taken before the next scan. */
  predicate PotOk(s: Uni, steps: seq<UniStep>, pot: nat, spare: nat) {
    if spare == 0 then IdleCount(steps) <= pot else s.running.None? && s.open ==> pot >= 1
  }

  /** A waiting process keeps its estimate and type and never loses waiting time. */
  lemma WaiterKeeps(s: Uni, step: UniStep, t: nat)
    requires UniInv(s) && UniEnabled(s, step) && t < |s.procs| && s.procs[t].state == Runnable
    requires !(step.Pick? && Picks(s, t))
    ensures var p := UniNext(s, step).procs[t];
      && p.state == Runnable && p.estBurst == s.procs[t].estBurst && p.procType == s.procs[t].procType
      && p.waitticks == s.procs[t].waitticks + (if step.Tick? || step.Idle? then 1 else 0)
  {
    match step
    case Pick => PickingShape(s);
    case Tick => TickingShape(s);
    case Idle => IdlingShape(s);
    case Block => ReleaseShape(s, Sleeping);
    case Quit => ReleaseShape(s, Zombie);
    case _ =>
  }

  lemma MaxStays(p: Proc, q: Proc)
    requires Prio(p) == MAX_PRIORITY && q.estBurst == p.estBurst && q.procType == p.procType
             && q.waitticks >= p.waitticks
    ensures Prio(q) == MAX_PRIORITY
  {
  }

  lemma WindowTick(s: Uni, t: nat, cap: seq<nat>, budget: seq<nat>, spent: set<nat>, e: nat, spare: nat)
    returns (rest: seq<nat>)
    requires UniInv(s) && s.running.Some? && Window(s, t, cap, budget, spent, e, spare)
    ensures Window(Ticking(s), t, cap, rest, spent, e + 1, spare) && Sum(rest) == Sum(budget) - 1
    ensures s.running.value < |rest| && rest[s.running.value] >= spare
  {
    hide Accounted;
    var r := s.running.value;
    assert Sound(s.procs[r]);
    rest := budget[r := budget[r] - 1];
    SumUpdate(budget, r, budget[r] - 1);
    WaiterKeeps(s, Tick, t);
    MaxStays(s.procs[t], UniNext(s, Tick).procs[t]);
    forall q | 0 <= q < |s.procs|
      ensures Ticking(s).procs[q].waitticks <= s.procs[q].waitticks + 1
    {
      WaitGrowsWithTicks(s, Tick, q);
    }
    TickingShape(s);
    WindowAged(s, Ticking(s), t, cap, budget, rest, spent, e, spare);
  }

  lemma WindowAged(s: Uni, u: Uni, t: nat, cap: seq<nat>, budget: seq<nat>, rest: seq<nat>, spent: set<nat>, e: nat,
                   spare: nat)
    requires s.running.Some? && s.running.value < |s.procs| && Window(s, t, cap, budget, spent, e, spare)
    requires AtMax(u, t) && |u.procs| == |s.procs| && budget[s.running.value] >= 1
    requires rest == budget[s.running.value := budget[s.running.value] - 1] && Sum(rest) == Sum(budget) - 1
    requires forall q :: 0 <= q < |s.procs| ==> u.procs[q].waitticks <= s.procs[q].waitticks + 1
    requires u.running == s.running || u.running == None
    requires u.running == s.running ==>
      && u.procs[s.running.value].ticksInSlice == s.procs[s.running.value].ticksInSlice + 1
      && u.procs[s.running.value].timeSlice == s.procs[s.running.value].timeSlice
    ensures Window(u, t, cap, rest, spent, e + 1, spare)
  {
  }

  lemma WindowPick(s: Uni, t: nat, cap: seq<nat>, budget: seq<nat>, spent: set<nat>, e: nat, spare: nat)
    requires UniInv(s) && UniEnabled(s, Pick) && !Picks(s, t) && Window(s, t, cap, budget, spent, e, spare)
    requires Picking(s).procs[Best(s.procs)].timeSlice + spare <= cap[Best(s.procs)]
    ensures Window(Picking(s), t, cap, budget, spent + {Best(s.procs)}, e, spare)
  {
    PickingShape(s);
    BestUnderMax(s, t);
    WaiterKeeps(s, Pick, t);
    MaxStays(s.procs[t], Picking(s).procs[t]);
  }

  lemma WindowIdle(s: Uni, t: nat, cap: seq<nat>, budget: seq<nat>, spent: set<nat>, e: nat, spare: nat)
    requires UniInv(s) && UniEnabled(s, Idle) && Window(s, t, cap, budget, spent, e, spare)
    requires e + 1 + Sum(budget) < 25
    ensures Window(Idling(s), t, cap, budget, spent, e + 1, spare)
  {
    IdlingShape(s);
    WaiterKeeps(s, Idle, t);
    MaxStays(s.procs[t], Idling(s).procs[t]);
    forall q | 0 <= q < |s.procs|
      ensures Idling(s).procs[q].waitticks <= s.procs[q].waitticks + 1
    {
      WaitGrowsWithTicks(s, Idle, q);
    }
  }

  lemma WindowOther(s: Uni, step: UniStep, t: nat, cap: seq<nat>, budget: seq<nat>, spent: set<nat>, e: nat, spare: nat)
    requires UniInv(s) && UniEnabled(s, step) && !step.Tick? && !step.Idle? && !step.Pick?
             && Window(s, t, cap, budget, spent, e, spare)
    ensures Window(UniNext(s, step), t, cap, budget, spent, e, spare) && !step.Wait?
  {
    UniKeeps(s, step);
    WaiterKeeps(s, step, t);
    MaxStays(s.procs[t], UniNext(s, step).procs[t]);
    forall q | 0 <= q < |s.procs| && q in spent
      ensures UniNext(s, step).procs[q].waitticks <= e
    {
      WaitGrowsWithTicks(s, step, q);
    }
  }

  /** A slot that has left the CPU hands over its spare tick. */
  lemma WindowFreed(u: Uni, t: nat, cap: seq<nat>, budget: seq<nat>, spent: set<nat>, e: nat, spare: nat, r: nat)
    returns (rest: seq<nat>)
    requires Window(u, t, cap, budget, spent, e, spare) && u.running.None? && r in spent
    requires r < |budget| && spare <= budget[r]
    ensures Window(u, t, cap, rest, spent, e, spare) && Sum(rest) == Sum(budget) - spare
  {
    rest := budget[r := budget[r] - spare];
    SumUpdate(budget, r, budget[r] - spare);
  }

  /** Inside the window every charged tick is paid from the budget and every other one from the pot, which each slot
      that leaves the CPU fills with its spare tick. */
  lemma {:induction false} WindowBound(s: Uni, steps: seq<UniStep>, t: nat, cap: seq<nat>, budget: seq<nat>,
                                       spent: set<nat>, e: nat, spare: nat, pot: nat)
    requires UniInv(s) && UniRuns(s, steps) && NeverPicked(s, steps, t) && SlicesWithin(s, steps, cap, spare)
    requires Window(s, t, cap, budget, spent, e, spare) && e + Sum(budget) + pot < 25 && PotOk(s, steps, pot, spare)
    ensures TickCount(steps) <= Sum(budget) + pot
    decreases |steps|
  {
    hide Window, UniInv, Picks, AtMax;
    if steps != [] {
      UniKeeps(s, steps[0]);
      var u := UniNext(s, steps[0]);
      if steps[0].Tick? {
        WindowCharged(s, steps, t, cap, budget, spent, e, spare, pot);
      } else if steps[0].Idle? {
        WindowIdle(s, t, cap, budget, spent, e, spare);
        WindowBound(u, steps[1..], t, cap, budget, spent, e + 1, spare, pot - 1);
      } else if steps[0].Pick? {
        PickingShape(s);
        WindowPick(s, t, cap, budget, spent, e, spare);
        WindowBound(u, steps[1..], t, cap, budget, spent + {Best(s.procs)}, e, spare, pot);
      } else if steps[0].Block? || steps[0].Quit? {
        WindowSpare(s, t, cap, budget, spent, e, spare);
        WindowOther(s, steps[0], t, cap, budget, spent, e, spare);
        var rest := WindowFreed(u, t, cap, budget, spent, e, spare, s.running.value);
        WindowBound(u, steps[1..], t, cap, rest, spent, e, spare, pot + spare);
      } else {
        WindowOther(s, steps[0], t, cap, budget, spent, e, spare);
        WindowBound(u, steps[1..], t, cap, budget, spent, e, spare, pot);
      }
    }
  }

  lemma WindowCharged(s: Uni, steps: seq<UniStep>, t: nat, cap: seq<nat>, budget: seq<nat>, spent: set<nat>, e: nat,
                      spare: nat, pot: nat)
    requires UniInv(s) && UniRuns(s, steps) && NeverPicked(s, steps, t) && SlicesWithin(s, steps, cap, spare)
    requires Window(s, t, cap, budget, spent, e, spare) && e + Sum(budget) + pot < 25 && PotOk(s, steps, pot, spare)
    requires steps != [] && steps[0].Tick?
    ensures TickCount(steps) <= Sum(budget) + pot
    decreases |steps|, 0
  {
    hide Window, UniInv, Picks, AtMax;
    UniKeeps(s, Tick);
    TickingShape(s);
    WindowSpare(s, t, cap, budget, spent, e, spare);
    var u := UniNext(s, Tick);
    var rest := WindowTick(s, t, cap, budget, spent, e, spare);
    if u.running.Some? {
      WindowBound(u, steps[1..], t, cap, rest, spent, e + 1, spare, pot);
    } else {
      var less := WindowFreed(u, t, cap, rest, spent, e + 1, spare, s.running.value);
      WindowBound(u, steps[1..], t, cap, less, spent, e + 1, spare, pot + spare);
    }
  }

  /** The running slot is accounted for, and its spare tick is there. */
  lemma WindowSpare(s: Uni, t: nat, cap: seq<nat>, budget: seq<nat>, spent: set<nat>, e: nat, spare: nat)
    requires UniInv(s) && s.running.Some? && Window(s, t, cap, budget, spent, e, spare)
    ensures s.running.value in spent && s.running.value < |budget| && spare < budget[s.running.value]
  {
    assert Sound(s.procs[s.running.value]);
  }

  /** Ticks of waiting after which aging alone brings a process to MAX_PRIORITY. */
  function AgingTicks(p: Proc): nat {
    (MAX_PRIORITY - BasePriority(p.procType) + p.estBurst + 1) / 2
  }

  lemma {:induction false} WaitingBound(s: Uni, steps: seq<UniStep>, t: nat, cap: seq<nat>, spare: nat, pot: nat)
    requires UniInv(s) && UniRuns(s, steps) && t < |s.procs| && s.procs[t].state == Runnable
    requires NeverPicked(s, steps, t) && SlicesWithin(s, steps, cap, spare) && Sum(cap) + pot < 25
    requires if spare == 0 then IdleCount(steps) <= pot else pot >= 1
    ensures s.procs[t].waitticks < AgingTicks(s.procs[t]) ==>
      s.procs[t].waitticks + TickCount(steps) <= AgingTicks(s.procs[t]) + Sum(cap) + pot
    ensures s.procs[t].waitticks >= AgingTicks(s.procs[t]) ==> TickCount(steps) <= Sum(cap) + pot
    decreases |steps|
  {
    if AtMax(s, t) {
      var spent := if s.running.Some? then {s.running.value} else {};
      WindowBound(s, steps, t, cap, cap, spent, 0, spare, pot);
    } else if steps != [] {
      UniKeeps(s, steps[0]);
      WaiterKeeps(s, steps[0], t);
      WaitingBound(UniNext(s, steps[0]), steps[1..], t, cap, spare, pot);
    }
  }

  /** Bounded waiting: if one slice from each slot, with one tick more for the pass of scheduler() that follows it,
      sums to under 24, then a RUNNABLE process that is passed over throughout a run has waited at most its aging time
      plus that sum and one tick. */
  lemma BoundedWaiting(s: Uni, steps: seq<UniStep>, t: nat, cap: seq<nat>)
    requires UniInv(s) && UniRuns(s, steps) && t < |s.procs| && s.procs[t].state == Runnable
    requires NeverPicked(s, steps, t) && SlicesWithin(s, steps, cap, 1) && Sum(cap) < 24
    ensures s.procs[t].waitticks < AgingTicks(s.procs[t]) ==>
      s.procs[t].waitticks + TickCount(steps) <= AgingTicks(s.procs[t]) + Sum(cap) + 1
    ensures s.procs[t].waitticks >= AgingTicks(s.procs[t]) ==> TickCount(steps) <= Sum(cap) + 1
  {
    WaitingBound(s, steps, t, cap, 1, 1);
  }

  /** The same where the run's uncharged ticks are known: the slices alone and those ticks sum to under 25. */
  lemma BoundedWaitingFewIdle(s: Uni, steps: seq<UniStep>, t: nat, cap: seq<nat>)
    requires UniInv(s) && UniRuns(s, steps) && t < |s.procs| && s.procs[t].state == Runnable
    requires NeverPicked(s, steps, t) && SlicesWithin(s, steps, cap, 0) && Sum(cap) + IdleCount(steps) < 25
    ensures s.procs[t].waitticks < AgingTicks(s.procs[t]) ==>
      s.procs[t].waitticks + TickCount(steps) <= AgingTicks(s.procs[t]) + Sum(cap) + IdleCount(steps)
    ensures s.procs[t].waitticks >= AgingTicks(s.procs[t]) ==> TickCount(steps) <= Sum(cap) + IdleCount(steps)
  {
    WaitingBound(s, steps, t, cap, 0, IdleCount(steps));
  }

  /** A process that becomes RUNNABLE is dispatched within (90 + est_burst) / 2 ticks, rounded up,
      plus one slice and one tick for every other slot, and one tick. */
  lemma DispatchedInTime(s: Uni, steps: seq<UniStep>, t: nat, cap: seq<nat>)
    requires UniInv(s) && UniRuns(s, steps) && t < |s.procs| && s.procs[t].state == Runnable
             && s.procs[t].waitticks == 0
    requires SlicesWithin(s, steps, cap, 1) && Sum(cap) < 24
    requires TickCount(steps) > (90 + s.procs[t].estBurst + 1) / 2 + Sum(cap) + 1
    ensures !NeverPicked(s, steps, t)
  {
    if NeverPicked(s, steps, t) {
      BoundedWaiting(s, steps, t, cap);
    }
  }
}

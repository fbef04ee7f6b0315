/** The starvation freedom that PHASE2_DESIGN.md claims without conditions fails: 38 well-timed processes keep
    a 39th from ever running, on one CPU, for as long as one likes, starting from an empty process table.

    The 38 never let their estimate settle above or below 3 ticks: each alternates between using up a slice of
    two ticks and blocking after one. Every dispatch costs a tick, so their waiting times are always distinct,
    one of them is at least 37, and that process has maximal priority and a lower index than the victim. */
module Starvation {
  import opened Util
  import opened Process
  import opened SchedulerMachine
  import opened Overtaking

  const COGS: nat := 38
  const VICTIM: nat := 38

  // ---------- what matters of a process ----------

  datatype Face = Face(state: State, wait: nat, cur: nat, est: nat, kind: ProcType)

  function Look(p: Proc): Face { Face(p.state, p.waitticks, p.currentBurst, p.estBurst, p.procType) }

  function Aged(f: Face, d: nat): Face { if f.state == Runnable then f.(wait := f.wait + d) else f }

  lemma HealedLook(p: Proc, ticks: nat)
    ensures Look(Healed(p, ticks)) == Look(p)
  {
  }

  lemma UpdatedLook(p: Proc, ticks: nat)
    ensures Look(Updated(p, ticks)) == Look(p)
  {
    HealedLook(Scored(Predicted(p)), ticks);
  }

  lemma AccountedLook(p: Proc, ticks: nat)
    ensures Look(Accounted(p, ticks)) == Aged(Look(p), 1)
  {
    HealedLook(Starved(p.(waitticks := p.waitticks + 1)), ticks);
  }

  /** A tick of a running process: one more tick of burst, and a preemption when the slice is used up. */
  function TickLook(f: Face, expired: bool): Face {
    var cur := f.cur + 1;
    var kind := if cur > f.est then Classify(cur) else f.kind;
    Face(if expired then Runnable else Running, f.wait, cur, Max(f.est, cur), kind)
  }

  lemma RanLook(p: Proc, ticks: nat)
    requires p.state == Running
    ensures var q := RanOneTick(p, ticks); var expired := p.ticksInSlice + 1 >= p.timeSlice;
            && Look(q) == TickLook(Look(p), expired)
            && (!expired ==> q.timeSlice == p.timeSlice && q.ticksInSlice == p.ticksInSlice + 1)
  {
  }

  /** The end of a burst of cur ticks. */
  function BlockLook(f: Face): Face {
    var est := if f.est == 0 then f.cur else (f.cur + f.est) / 2;
    Face(Sleeping, f.wait, 0, est, Classify(est))
  }

  lemma BlockedLook(p: Proc, ticks: nat)
    ensures Look(Switched(p.(state := Sleeping), ticks)) == BlockLook(Look(p))
  {
    hide Updated;
    UpdatedLook(BurstEnded(p.(state := Sleeping, switches := p.switches + 1)), ticks);
  }

  // ---------- what the steps do to the faces ----------

  predicate Others(s: Uni, u: Uni, b: nat, d: nat) {
    && |u.procs| == |s.procs|
    && forall i :: 0 <= i < |s.procs| && i != b ==> Look(u.procs[i]) == Aged(Look(s.procs[i]), d)
  }

  lemma PickFaces(s: Uni)
    requires UniEnabled(s, Pick)
    ensures var b := Best(s.procs); var u := UniNext(s, Pick);
            && u.running == Some(b) && Others(s, u, b, 0) && b < |u.procs|
            && Look(u.procs[b]) == Look(s.procs[b]).(state := Running, wait := 0)
            && u.procs[b].timeSlice == TimeSlice(s.procs[b].procType) && u.procs[b].ticksInSlice == 0
  {
    var b := Best(s.procs);
    assert Rating(s.procs, |s.procs|)[b] == Rated(s.procs[b]);
  }

  lemma TickFaces(s: Uni)
    requires s.running.Some? && s.running.value < |s.procs| && s.procs[s.running.value].state == Running
    ensures var b := s.running.value; var u := UniNext(s, Tick);
            var expired := s.procs[b].ticksInSlice + 1 >= s.procs[b].timeSlice;
            && Others(s, u, b, 1) && Look(u.procs[b]) == TickLook(Look(s.procs[b]), expired)
            && u.running == (if expired then None else Some(b))
            && (!expired ==> u.procs[b].timeSlice == s.procs[b].timeSlice)
            && (!expired ==> u.procs[b].ticksInSlice == s.procs[b].ticksInSlice + 1)
  {
    var b := s.running.value;
    TickingIs(s);
    RanLook(s.procs[b], s.ticks + 1);
    forall i | 0 <= i < |s.procs| && i != b
      ensures Look(UniNext(s, Tick).procs[i]) == Aged(Look(s.procs[i]), 1)
    {
      AccountedLook(s.procs[i], s.ticks + 1);
    }
  }

  lemma BlockFaces(s: Uni)
    requires s.running.Some? && s.running.value < |s.procs|
    ensures var b := s.running.value; var u := UniNext(s, Block);
            && Others(s, u, b, 0) && u.running == None && Look(u.procs[b]) == BlockLook(Look(s.procs[b]))
  {
    BlockedLook(s.procs[s.running.value], s.ticks);
  }

  // ---------- runs built at the end ----------

  /** steps lead from s to u without a scan choosing t, and every tick is charged to somebody. */
  ghost predicate Leads(s: Uni, steps: seq<UniStep>, u: Uni, t: nat) {
    UniRuns(s, steps) && UniAfter(s, steps) == u && NeverPicked(s, steps, t) && IdleCount(steps) == 0
  }

  lemma {:induction false} Join(s: Uni, a: seq<UniStep>, u: Uni, b: seq<UniStep>, v: Uni, t: nat)
    requires Leads(s, a, u, t) && Leads(u, b, v, t)
    ensures Leads(s, a + b, v, t) && TickCount(a + b) == TickCount(a) + TickCount(b)
    decreases |a|
  {
    hide UniNext, UniEnabled, Picks;
    if a == [] {
      assert a + b == b;
    } else {
      Join(UniNext(s, a[0]), a[1..], u, b, v, t);
      assert (a + b)[1..] == a[1..] + b;
    }
  }

  lemma Single(s: Uni, step: UniStep, t: nat)
    requires UniEnabled(s, step) && !(step.Pick? && Picks(s, t)) && !step.Idle?
    ensures Leads(s, [step], UniNext(s, step), t) && TickCount([step]) == if step.Tick? then 1 else 0
  {
    assert [step][1..] == [];
  }

  lemma Append(s: Uni, a: seq<UniStep>, u: Uni, step: UniStep, t: nat)
    requires Leads(s, a, u, t) && UniEnabled(u, step) && !(step.Pick? && Picks(u, t)) && !step.Idle?
    ensures Leads(s, a + [step], UniNext(u, step), t)
    ensures TickCount(a + [step]) == TickCount(a) + if step.Tick? then 1 else 0
  {
    Single(u, step, t);
    Join(s, a, u, [step], UniNext(u, step), t);
  }

  lemma Nothing(s: Uni, t: nat)
    ensures Leads(s, [], s, t) && TickCount([]) == 0
  {
    hide UniNext, UniEnabled, Picks;
  }

  lemma {:induction false} SomeBest(procs: seq<Proc>, k: nat) returns (b: nat)
    requires k <= |procs| && exists i :: 0 <= i < k && procs[i].state == Runnable
    ensures b < k && procs[b].state == Runnable
    ensures forall j :: 0 <= j < k && procs[j].state == Runnable ==> Prio(procs[j]) <= Prio(procs[b])
    ensures forall j :: 0 <= j < b && procs[j].state == Runnable ==> Prio(procs[j]) < Prio(procs[b])
  {
    if exists i :: 0 <= i < k - 1 && procs[i].state == Runnable {
      b := SomeBest(procs, k - 1);
      if procs[k - 1].state == Runnable && Prio(procs[b]) < Prio(procs[k - 1]) {
        b := k - 1;
      }
    } else {
      b := k - 1;
    }
  }

  lemma CanPick(s: Uni, i: nat)
    requires s.running.None? && i < |s.procs| && s.procs[i].state == Runnable
    ensures UniEnabled(s, Pick) && IsBest(s.procs, Best(s.procs))
  {
    var b := SomeBest(s.procs, |s.procs|);
    assert IsBest(s.procs, b);
  }

  // ---------- one turn of a cog ----------

  predicate IsCog(f: Face) { f.est == 3 && f.kind == Mixed && (f.cur == 0 || f.cur == 2) }

  /** A cog that has used up its last burst takes a whole slice; meanwhile a sleeping process may be woken. */
  lemma FullTurn(s: Uni, t: nat, rouse: bool, q: nat) returns (steps: seq<UniStep>, u: Uni)
    requires UniEnabled(s, Pick) && !Picks(s, t)
             && Look(s.procs[Best(s.procs)]) == Face(Runnable, Look(s.procs[Best(s.procs)]).wait, 0, 3, Mixed)
    requires rouse ==> q < |s.procs| && s.procs[q].state == Sleeping
    ensures var b := Best(s.procs);
            && Leads(s, steps, u, t) && TickCount(steps) == 2 && u.running.None?
            && |u.procs| == |s.procs| && Look(u.procs[b]) == Face(Runnable, 0, 2, 3, Mixed)
            && (forall i :: 0 <= i < |s.procs| && i != b && !(rouse && i == q) ==>
                 Look(u.procs[i]) == Aged(Look(s.procs[i]), 2))
            && (rouse ==> Look(u.procs[q]) == Look(s.procs[q]).(state := Runnable, wait := s.procs[q].waitticks + 1))
  {
    hide Leads, TickCount, Picking, Ticking, Release;
    var b := Best(s.procs);
    PickFaces(s);
    var s1 := UniNext(s, Pick);
    Single(s, Pick, t);
    TickFaces(s1);
    var s2 := UniNext(s1, Tick);
    Append(s, [Pick], s1, Tick, t);
    steps := [Pick] + [Tick];
    var s3 := s2;
    if rouse {
      assert Look(s1.procs[q]) == Aged(Look(s.procs[q]), 0) && Look(s2.procs[q]) == Aged(Look(s1.procs[q]), 1);
      Append(s, steps, s2, Rouse(q), t);
      steps := steps + [Rouse(q)];
      s3 := UniNext(s2, Rouse(q));
    }
    TickFaces(s3);
    u := UniNext(s3, Tick);
    Append(s, steps, s3, Tick, t);
    steps := steps + [Tick];
  }

  /** A cog in the middle of a burst runs one tick, blocks, and is woken at once. */
  lemma ShortTurn(s: Uni, t: nat) returns (steps: seq<UniStep>, u: Uni)
    requires UniEnabled(s, Pick) && !Picks(s, t)
             && Look(s.procs[Best(s.procs)]) == Face(Runnable, Look(s.procs[Best(s.procs)]).wait, 2, 3, Mixed)
    ensures var b := Best(s.procs);
            && Leads(s, steps, u, t) && TickCount(steps) == 1 && u.running.None?
            && Others(s, u, b, 1) && Look(u.procs[b]) == Face(Runnable, 0, 0, 3, Mixed)
  {
    hide Leads, TickCount, Picking, Ticking, Release;
    var b := Best(s.procs);
    PickFaces(s);
    var s1 := UniNext(s, Pick);
    Single(s, Pick, t);
    TickFaces(s1);
    var s2 := UniNext(s1, Tick);
    Append(s, [Pick], s1, Tick, t);
    BlockFaces(s2);
    var s3 := UniNext(s2, Block);
    Append(s, [Pick] + [Tick], s2, Block, t);
    u := UniNext(s3, Rouse(b));
    Append(s, [Pick] + [Tick] + [Block], s3, Rouse(b), t);
    steps := [Pick] + [Tick] + [Block] + [Rouse(b)];
  }

  // ---------- the wheel ----------

  /** The first r processes are runnable cogs with distinct waiting times. */
  ghost predicate Wheel(s: Uni, r: nat) {
    && s.running.None? && r <= |s.procs|
    && (forall i :: 0 <= i < r ==> s.procs[i].state == Runnable && IsCog(Look(s.procs[i])))
    && (forall i, j :: 0 <= i < j < r ==> s.procs[i].waitticks != s.procs[j].waitticks)
  }

  function CurSum(procs: seq<Proc>, r: nat): nat
    requires r <= |procs|
  { if r == 0 then 0 else CurSum(procs, r - 1) + procs[r - 1].currentBurst }

  lemma {:induction false} CurSumDrops(p: seq<Proc>, q: seq<Proc>, r: nat, b: nat)
    requires b < r <= |p| == |q| && q[b].currentBurst < p[b].currentBurst
    requires forall i :: 0 <= i < r && i != b ==> q[i].currentBurst == p[i].currentBurst
    ensures CurSum(q, r) < CurSum(p, r)
  {
    if b < r - 1 {
      CurSumDrops(p, q, r - 1, b);
    } else {
      CurSumSame(p, q, r - 1);
    }
  }

  lemma {:induction false} CurSumSame(p: seq<Proc>, q: seq<Proc>, r: nat)
    requires r <= |p| == |q| && forall i :: 0 <= i < r ==> q[i].currentBurst == p[i].currentBurst
    ensures CurSum(q, r) == CurSum(p, r)
  {
    if r > 0 {
      CurSumSame(p, q, r - 1);
    }
  }

  /** m distinct waiting times reach m - 1. */
  lemma LongestWait(procs: seq<Proc>, m: nat) returns (i: nat)
    requires 0 < m <= |procs|
    requires forall i, j :: 0 <= i < j < m ==> procs[i].waitticks != procs[j].waitticks
    ensures i < m && procs[i].waitticks >= m - 1
  {
    if forall i :: 0 <= i < m ==> procs[i].waitticks < m - 1 {
      WaitsCount(procs, m);
      SubsetSize(Waits(procs, m), Range(0, m - 1));
      assert false;
    }
    i :| 0 <= i < m && procs[i].waitticks >= m - 1;
  }

  ghost function Waits(procs: seq<Proc>, m: nat): (w: set<nat>)
    requires m <= |procs|
    ensures forall x :: x in w <==> exists i :: 0 <= i < m && procs[i].waitticks == x
  { if m == 0 then {} else Waits(procs, m - 1) + {procs[m - 1].waitticks} }

  lemma {:induction false} WaitsCount(procs: seq<Proc>, m: nat)
    requires m <= |procs| && forall i, j :: 0 <= i < j < m ==> procs[i].waitticks != procs[j].waitticks
    ensures |Waits(procs, m)| == m
  {
    if m > 0 {
      WaitsCount(procs, m - 1);
      var w, rest := procs[m - 1].waitticks, Waits(procs, m - 1);
      assert w !in rest;
      assert Waits(procs, m) == rest + {w};
    }
  }

  /** On a full wheel the scan never reaches past the cogs. */
  lemma CogWins(s: Uni)
    requires Wheel(s, COGS)
    ensures UniEnabled(s, Pick) && Best(s.procs) < COGS
  {
    var i := LongestWait(s.procs, COGS);
    assert IsCog(Look(s.procs[i])) && Prio(s.procs[i]) == MAX_PRIORITY;
    CanPick(s, i);
  }

  /** A turn of whichever cog is chosen keeps the wheel turning. */
  lemma Turn(s: Uni, r: nat, t: nat) returns (steps: seq<UniStep>, u: Uni)
    requires Wheel(s, r) && UniEnabled(s, Pick) && Best(s.procs) < r && r <= t < |s.procs|
    ensures Leads(s, steps, u, t) && TickCount(steps) >= 1 && Wheel(u, r) && |u.procs| == |s.procs|
    ensures forall i :: r <= i < |s.procs| ==> u.procs[i].state == s.procs[i].state
    ensures Look(s.procs[Best(s.procs)]).cur == 2 ==> CurSum(u.procs, r) < CurSum(s.procs, r)
  {
    hide Leads, TickCount;
    var b := Best(s.procs);
    var d;
    if s.procs[b].currentBurst == 0 {
      steps, u := FullTurn(s, t, false, 0);
      d := 2;
    } else {
      steps, u := ShortTurn(s, t);
      d := 1;
    }
    assert Others(s, u, b, d);
    Turned(s, u, r, b, d);
  }

  lemma Turned(s: Uni, u: Uni, r: nat, b: nat, d: nat)
    requires Wheel(s, r) && b < r && Others(s, u, b, d) && d > 0 && u.running.None?
    requires IsCog(Look(u.procs[b])) && u.procs[b].state == Runnable && u.procs[b].waitticks == 0
    ensures Wheel(u, r)
    ensures forall i :: r <= i < |s.procs| ==> u.procs[i].state == s.procs[i].state
    ensures u.procs[b].currentBurst < s.procs[b].currentBurst ==> CurSum(u.procs, r) < CurSum(s.procs, r)
  {
    forall i | 0 <= i < |s.procs| && i != b
      ensures Look(u.procs[i]) == Aged(Look(s.procs[i]), d)
    {
    }
    if u.procs[b].currentBurst < s.procs[b].currentBurst {
      CurSumDrops(s.procs, u.procs, r, b);
    }
  }

  // ---------- the victim waits ----------

  lemma {:induction false} Spin(s: Uni, k: nat) returns (steps: seq<UniStep>, u: Uni)
    requires Wheel(s, COGS) && VICTIM < |s.procs| && s.procs[VICTIM].state == Runnable
    ensures Leads(s, steps, u, VICTIM) && TickCount(steps) >= k
    ensures Wheel(u, COGS) && |u.procs| == |s.procs| && u.procs[VICTIM].state == Runnable
    decreases k
  {
    hide Leads, TickCount;
    if k == 0 {
      Nothing(s, VICTIM);
      return [], s;
    }
    CogWins(s);
    var first, v := Turn(s, COGS, VICTIM);
    var rest;
    rest, u := Spin(v, k - 1);
    Join(s, first, v, rest, u, VICTIM);
    steps := first + rest;
  }

  // ---------- from an empty table to a full wheel ----------

  const DOZING := Face(Sleeping, 0, 0, 3, Mixed)

  function EmptyTable(n: nat): Uni { Uni(seq(n, _ => Freed()), None, 0, true) }

  /** Process i is the only one that may run, and looks like f. */
  ghost predicate Solo(s: Uni, i: nat, f: Face) {
    && s.running.None? && i < |s.procs| && Look(s.procs[i]) == f && f.state == Runnable
    && forall j :: 0 <= j < |s.procs| && j != i ==> s.procs[j].state != Runnable
  }

  /** Everybody else is as before. */
  predicate Still(s: Uni, u: Uni, i: nat) {
    |u.procs| == |s.procs| && forall j :: 0 <= j < |s.procs| && j != i ==> Look(u.procs[j]) == Look(s.procs[j])
  }

  /** An interactive process alone on the machine runs for one tick. */
  lemma SoloTick(s: Uni, i: nat, f: Face, t: nat) returns (steps: seq<UniStep>, u: Uni)
    requires Solo(s, i, f) && f.kind == Interactive && i != t
    ensures Leads(s, steps, u, t) && Still(s, u, i)
    ensures Solo(u, i, TickLook(f.(wait := 0), true))
  {
    hide Leads, TickCount, Picking, Ticking, Release;
    CanPick(s, i);
    PickFaces(s);
    var s1 := UniNext(s, Pick);
    Single(s, Pick, t);
    TickFaces(s1);
    u := UniNext(s1, Tick);
    Append(s, [Pick], s1, Tick, t);
    steps := [Pick] + [Tick];
    assert forall j :: 0 <= j < |s.procs| && j != i ==> Look(s1.procs[j]) == Aged(Look(s.procs[j]), 0);
    assert forall j :: 0 <= j < |s.procs| && j != i ==> Look(u.procs[j]) == Aged(Look(s1.procs[j]), 1);
  }

  /** And then blocks. */
  lemma SoloBlock(s: Uni, i: nat, f: Face, t: nat) returns (steps: seq<UniStep>, u: Uni)
    requires Solo(s, i, f) && i != t
    ensures Leads(s, steps, u, t) && Still(s, u, i) && u.running.None? && Look(u.procs[i]) == BlockLook(f.(wait := 0))
  {
    hide Leads, TickCount, Picking, Ticking, Release;
    CanPick(s, i);
    PickFaces(s);
    var s1 := UniNext(s, Pick);
    Single(s, Pick, t);
    BlockFaces(s1);
    u := UniNext(s1, Block);
    Append(s, [Pick], s1, Block, t);
    steps := [Pick] + [Block];
    assert forall j :: 0 <= j < |s.procs| && j != i ==> Look(s1.procs[j]) == Aged(Look(s.procs[j]), 0);
    assert forall j :: 0 <= j < |s.procs| && j != i ==> Look(u.procs[j]) == Aged(Look(s1.procs[j]), 0);
  }

  /** The first i slots hold sleeping cogs, the others are free. */
  ghost predicate Prepared(s: Uni, i: nat) {
    && s.running.None? && i <= COGS < |s.procs|
    && (forall j :: 0 <= j < i ==> Look(s.procs[j]) == DOZING)
    && (forall j :: i <= j < |s.procs| ==> s.procs[j].state == Unused)
  }

  /** A new process that runs for three ticks and blocks is a cog. */
  lemma PrepareOne(s: Uni, i: nat) returns (steps: seq<UniStep>, u: Uni)
    requires Prepared(s, i) && i < COGS
    ensures Leads(s, steps, u, VICTIM) && Prepared(u, i + 1) && |u.procs| == |s.procs|
  {
    hide Leads, TickCount, Picking, Ticking, Release;
    Single(s, Create(i), VICTIM);
    var s1 := UniNext(s, Create(i));
    Append(s, [Create(i)], s1, Start(i), VICTIM);
    var s2 := UniNext(s1, Start(i));
    var begin := [Create(i)] + [Start(i)];
    assert Solo(s2, i, Face(Runnable, 0, 0, 0, Interactive)) && Still(s, s2, i);
    var a, s3 := SoloTick(s2, i, Face(Runnable, 0, 0, 0, Interactive), VICTIM);
    Join(s, begin, s2, a, s3, VICTIM);
    var b, s4 := SoloTick(s3, i, Face(Runnable, 0, 1, 1, Interactive), VICTIM);
    Join(s, begin + a, s3, b, s4, VICTIM);
    var c, s5 := SoloTick(s4, i, Face(Runnable, 0, 2, 2, Interactive), VICTIM);
    Join(s, begin + a + b, s4, c, s5, VICTIM);
    var d;
    d, u := SoloBlock(s5, i, Face(Runnable, 0, 3, 3, Mixed), VICTIM);
    Join(s, begin + a + b + c, s5, d, u, VICTIM);
    steps := begin + a + b + c + d;
    assert forall j :: 0 <= j < |s.procs| && j != i ==> Look(u.procs[j]) == Look(s5.procs[j]) == Look(s4.procs[j]);
    assert forall j :: 0 <= j < |s.procs| && j != i ==>
             Look(s4.procs[j]) == Look(s3.procs[j]) == Look(s2.procs[j]) == Look(s.procs[j]);
  }

  lemma EmptyPrepared(n: nat)
    requires COGS < n
    ensures Prepared(EmptyTable(n), 0) && |EmptyTable(n).procs| == n
  {
  }

  lemma {:induction false} PrepareAll(n: nat, i: nat) returns (steps: seq<UniStep>, u: Uni)
    requires i <= COGS < n
    ensures Leads(EmptyTable(n), steps, u, VICTIM) && Prepared(u, i) && |u.procs| == n
  {
    hide Leads, Prepared, EmptyTable;
    if i == 0 {
      Nothing(EmptyTable(n), VICTIM);
      EmptyPrepared(n);
      return [], EmptyTable(n);
    }
    var front, v := PrepareAll(n, i - 1);
    var last;
    last, u := PrepareOne(v, i - 1);
    Join(EmptyTable(n), front, v, last, u, VICTIM);
    steps := front + last;
  }

  /** The first r cogs turn, the others sleep, and there is nobody else. */
  ghost predicate Rolling(s: Uni, r: nat) {
    && Wheel(s, r) && r <= COGS < |s.procs|
    && (forall j :: r <= j < COGS ==> Look(s.procs[j]) == DOZING)
    && (forall j :: COGS <= j < |s.procs| ==> s.procs[j].state == Unused)
  }

  /** One more cog is woken in the middle of a full slice, so that its waiting time differs from all others. */
  lemma {:induction false} AddOne(s: Uni, r: nat) returns (steps: seq<UniStep>, u: Uni)
    requires Rolling(s, r) && r < COGS
    ensures Leads(s, steps, u, VICTIM) && Rolling(u, r + 1) && |u.procs| == |s.procs|
    decreases CurSum(s.procs, r)
  {
    hide Leads, TickCount;
    if r == 0 {
      Single(s, Rouse(0), VICTIM);
      return [Rouse(0)], UniNext(s, Rouse(0));
    }
    CanPick(s, 0);
    var b := Best(s.procs);
    assert b < r && IsCog(Look(s.procs[b]));
    if s.procs[b].currentBurst == 0 {
      steps, u := FullTurn(s, VICTIM, true, r);
      Added(s, u, r, b);
    } else {
      var first, v := ShortTurn(s, VICTIM);
      Turned(s, v, r, b, 1);
      StillRolling(s, v, r, b);
      var rest;
      rest, u := AddOne(v, r);
      Join(s, first, v, rest, u, VICTIM);
      steps := first + rest;
    }
  }

  lemma StillRolling(s: Uni, v: Uni, r: nat, b: nat)
    requires Rolling(s, r) && b < r && Others(s, v, b, 1) && Wheel(v, r)
    ensures Rolling(v, r)
  {
    assert forall i :: r <= i < |s.procs| ==> Look(v.procs[i]) == Aged(Look(s.procs[i]), 1);
  }

  lemma Added(s: Uni, u: Uni, r: nat, b: nat)
    requires Rolling(s, r) && b < r < COGS && u.running.None? && |u.procs| == |s.procs|
    requires Look(u.procs[b]) == Face(Runnable, 0, 2, 3, Mixed)
    requires forall i :: 0 <= i < |s.procs| && i != b && i != r ==> Look(u.procs[i]) == Aged(Look(s.procs[i]), 2)
    requires Look(u.procs[r]) == Look(s.procs[r]).(state := Runnable, wait := s.procs[r].waitticks + 1)
    ensures Rolling(u, r + 1)
  {
    assert Look(s.procs[r]) == DOZING;
    forall i, j | 0 <= i < j < r + 1
      ensures u.procs[i].waitticks != u.procs[j].waitticks
    {
      assert i != b ==> Look(u.procs[i]) == Aged(Look(s.procs[i]), 2);
      assert j != b && j != r ==> Look(u.procs[j]) == Aged(Look(s.procs[j]), 2);
    }
    forall i | 0 <= i < r + 1
      ensures u.procs[i].state == Runnable && IsCog(Look(u.procs[i]))
    {
      assert i != b && i != r ==> Look(u.procs[i]) == Aged(Look(s.procs[i]), 2);
    }
    assert forall j :: r < j < |s.procs| ==> Look(u.procs[j]) == Aged(Look(s.procs[j]), 2);
  }

  lemma {:induction false} AddAll(s: Uni, r: nat) returns (steps: seq<UniStep>, u: Uni)
    requires Prepared(s, COGS) && r <= COGS
    ensures Leads(s, steps, u, VICTIM) && Rolling(u, r) && |u.procs| == |s.procs|
  {
    hide Leads;
    if r == 0 {
      Nothing(s, VICTIM);
      return [], s;
    }
    var front, v := AddAll(s, r - 1);
    var last;
    last, u := AddOne(v, r - 1);
    Join(s, front, v, last, u, VICTIM);
    steps := front + last;
  }

  /** Starvation: in any table of at least 39 slots there is, for every k, a run from the empty table in which a
      process becomes RUNNABLE and is then passed over by every scan for at least k clock ticks, each charged to a
      running process. */
  lemma StarvationPossible(n: nat, k: nat) returns (setup: seq<UniStep>, steps: seq<UniStep>)
    requires n > VICTIM
    ensures UniRuns(EmptyTable(n), setup)
    ensures var s := UniAfter(EmptyTable(n), setup);
            && |s.procs| == n && s.procs[VICTIM].state == Runnable && s.procs[VICTIM].waitticks == 0
            && UniRuns(s, steps) && NeverPicked(s, steps, VICTIM) && TickCount(steps) >= k && IdleCount(steps) == 0
            && |UniAfter(s, steps).procs| == n && UniAfter(s, steps).procs[VICTIM].state == Runnable
  {
    var e := EmptyTable(n);
    var a, s1 := PrepareAll(n, COGS);
    var b, s2 := AddAll(s1, COGS);
    Join(e, a, s1, b, s2, VICTIM);
    Append(e, a + b, s2, Create(VICTIM), VICTIM);
    var s3 := UniNext(s2, Create(VICTIM));
    Append(e, a + b + [Create(VICTIM)], s3, Start(VICTIM), VICTIM);
    var s4 := UniNext(s3, Start(VICTIM));
    setup := a + b + [Create(VICTIM)] + [Start(VICTIM)];
    var u;
    steps, u := Spin(s4, k);
  }
}

/** What the dynamic priority of kernel/proc.c promises between processes, in terms of estimates and waits alone. */
module Ranking {
  import opened Process
  import opened SchedulerMachine
  import opened Util

  /** The priority of a process whose type follows from its estimate. */
  function Rank(est: nat, wait: nat): int { DynamicPriority(Classify(est), wait, est) }

  /** The exact value: 50, 30 or 10 by the class of the estimate, two more per tick of waiting, one less per tick of
      estimate, held between 1 and 100. */
  lemma RankValue(est: nat, wait: nat)
    ensures est <= 2 ==> Rank(est, wait) == Min(100, 50 + 2 * wait - est)
    ensures 3 <= est <= 7 ==> Rank(est, wait) == Min(100, 30 + 2 * wait - est)
    ensures est >= 8 ==> Rank(est, wait) == Min(100, Max(1, 10 + 2 * wait - est))
  {
  }

  /** A process of a shorter class that has waited at least as long ranks strictly higher, unless both are at the
      maximum. */
  lemma ShorterFirst(e1: nat, w1: nat, e2: nat, w2: nat)
    requires w1 >= w2 && (e1 <= 2 < e2 || e1 <= 7 < e2)
    ensures Rank(e1, w1) > Rank(e2, w2) || Rank(e1, w1) == Rank(e2, w2) == 100
  {
    RankValue(e1, w1);
    RankValue(e2, w2);
  }

  /** Waiting never lowers the priority, and adds two per tick below the maximum. */
  lemma AgingRaises(est: nat, w1: nat, w2: nat)
    requires w1 <= w2
    ensures Rank(est, w1) <= Rank(est, w2)
    ensures Rank(est, w1) > 1 && Rank(est, w2) < 100 ==> Rank(est, w2) == Rank(est, w1) + 2 * (w2 - w1)
  {
    RankValue(est, w1);
    RankValue(est, w2);
  }

  /** A longer estimate never raises the priority, and takes off one per unit between the bounds, apart from the 20
      for each class it passes. */
  lemma EstimateLowers(e1: nat, e2: nat, wait: nat)
    requires e1 <= e2
    ensures Rank(e1, wait) >= Rank(e2, wait)
    ensures Classify(e1) == Classify(e2) && Rank(e1, wait) < 100 && Rank(e2, wait) > 1 ==>
              Rank(e2, wait) == Rank(e1, wait) - (e2 - e1)
  {
    RankValue(e1, wait);
    RankValue(e2, wait);
  }

  /** Longer classes get longer slices: one, two or four ticks. */
  lemma SliceValue(est: nat)
    ensures TimeSlice(Classify(est)) == if est <= 2 then 1 else if est <= 7 then 2 else 4
  {
  }

  predicate Typed(p: Proc) { p.procType == Classify(p.estBurst) }

  /** a is RUNNABLE, of a shorter class than b, and has waited at least as long. */
  predicate Favoured(a: Proc, b: Proc) {
    && a.state == Runnable && Typed(a) && Typed(b) && a.waitticks >= b.waitticks
    && (a.estBurst <= 2 < b.estBurst || a.estBurst <= 7 < b.estBurst)
  }

  /** Whoever a scan chooses past a favoured process ranks at the maximum, and so does that process. */
  lemma FavouredPassedAtMaximum(procs: seq<Proc>, b: nat, i: nat)
    requires IsBest(procs, b) && i < |procs| && Favoured(procs[i], procs[b])
    ensures Prio(procs[i]) == Prio(procs[b]) == 100
  {
    ShorterFirst(procs[i].estBurst, procs[i].waitticks, procs[b].estBurst, procs[b].waitticks);
  }

  /** In every reachable state, the candidate of an undisturbed scan is not passed over a favoured process unless both
      rank at the maximum, which takes at least 25 ticks of waiting for each. */
  lemma ScanFavours(s0: Sys, steps: seq<Step>, c: nat, i: nat)
    requires Init(s0) && Runs(s0, steps)
    requires var s := After(s0, steps); c < |s.cpus| && s.cpus[c] == START && i < |s.procs|
    ensures var s := After(s0, steps); var scan := seq(|s.procs|, _ => Scan(c));
            && Runs(s, scan)
            && var t := After(s, scan);
               c < |t.cpus| && t.cpus[c].Scanning? && (t.cpus[c].best.Some? && t.cpus[c].best.value < |s.procs| ==>
                 var p, b := s.procs[i], s.procs[t.cpus[c].best.value];
                 p.state == Runnable && p.waitticks >= b.waitticks
                 && (p.estBurst <= 2 < b.estBurst || p.estBurst <= 7 < b.estBurst) ==>
                   p.waitticks >= 25 && b.waitticks >= 25)
  {
    var s := After(s0, steps);
    ReachableSound(s0, steps);
    UndisturbedScan(s, c, |s.procs|);
    var t := After(s, seq(|s.procs|, _ => Scan(c)));
    assert Sound(s.procs[i]);
    if t.cpus[c].best.Some? {
      var b := t.cpus[c].best.value;
      assert Sound(s.procs[b]);
      if Favoured(s.procs[i], s.procs[b]) {
        FavouredPassedAtMaximum(s.procs, b, i);
      }
    }
  }
}

/** The process table and the routines of kernel/proc.c and kernel/trap.c that update it in
    place, each proved against the functions of module Process. */
module ProcTable {
  import opened Process
  import opened SchedulerMachine
  import opened Forecast
  import opened Ranking
  import opened Util

  predicate FirstUnused(procs: seq<Proc>, i: nat) {
    i < |procs| && procs[i].state == Unused && forall j :: 0 <= j < i ==> procs[j].state != Unused
  }

  /** Free slots have process number 0, the others numbers of their own below the next one to be given out. */
  ghost predicate PidsOk(procs: seq<Proc>, pids: seq<nat>, nextpid: nat) {
    && |pids| == |procs| && 0 < nextpid
    && (forall i :: 0 <= i < |procs| ==> if procs[i].state == Unused then pids[i] == 0 else 0 < pids[i] < nextpid)
    && (forall i, j :: 0 <= i < j < |procs| && pids[i] != 0 ==> pids[i] != pids[j])
  }

  class Table {
    const proc: array<Proc>
    var ticks: nat
    var pids: seq<nat>
    var nextpid: nat

    /** procinit */
    constructor (nproc: nat)
      ensures proc.Length == nproc && ticks == 0 && fresh(proc) && nextpid == 1
      ensures forall i :: 0 <= i < nproc ==> proc[i] == Freed()
      ensures PidsOk(proc[..], pids, nextpid)
    {
      proc := new Proc[nproc](_ => Freed());
      ticks, pids, nextpid := 0, seq(nproc, _ => 0), 1;
    }

    method AllocPid() returns (pid: nat)
      modifies this`nextpid
      ensures pid == old(nextpid) && nextpid == pid + 1
    {
      pid := nextpid;
      nextpid := nextpid + 1;
    }

    /** allocproc: claims the first UNUSED slot; -1 when the table is full or there is no memory for the trap frame
        or the page table, and then the slot is freed again. Its process number is not given out a second time. */
    method AllocProc(memory: bool) returns (slot: int)
      requires |pids| == proc.Length
      modifies proc, this`pids, this`nextpid
      ensures -1 <= slot < proc.Length == |pids|
      ensures slot >= 0 ==> memory && FirstUnused(old(proc[..]), slot)
      ensures slot >= 0 ==> proc[..] == old(proc[..])[slot := Allocated(ticks)]
      ensures slot >= 0 ==> pids == old(pids)[slot := old(nextpid)]
      ensures slot == -1 ==>
                if forall i :: 0 <= i < proc.Length ==> old(proc[i]).state != Unused
                then proc[..] == old(proc[..]) && pids == old(pids) && nextpid == old(nextpid)
                else !memory
                     && exists i: nat :: FirstUnused(old(proc[..]), i)
                                         && proc[..] == old(proc[..])[i := Freed()] && pids == old(pids)[i := 0]
      ensures nextpid == old(nextpid) <==> forall i :: 0 <= i < proc.Length ==> old(proc[i]).state != Unused
      ensures old(nextpid) <= nextpid <= old(nextpid) + 1
      ensures PidsOk(old(proc[..]), old(pids), old(nextpid)) ==> PidsOk(proc[..], pids, nextpid)
    {
      var i := 0;
      while i < proc.Length
        invariant 0 <= i <= proc.Length && proc[..] == old(proc[..]) && pids == old(pids) && nextpid == old(nextpid)
        invariant forall j :: 0 <= j < i ==> proc[j].state != Unused
      {
        if proc[i].state == Unused {
          assert FirstUnused(old(proc[..]), i);
          var pid := AllocPid();
          if !memory {
            FreeProc(i);
            return -1;
          }
          pids := pids[i := pid];
          proc[i] := Allocated(ticks);
          return i;
        }
        i := i + 1;
      }
      return -1;
    }

    method FreeProc(i: nat)
      requires i < proc.Length == |pids|
      modifies proc, this`pids
      ensures proc[..] == old(proc[..])[i := Freed()] && pids == old(pids)[i := 0]
      ensures PidsOk(old(proc[..]), old(pids), nextpid) ==> PidsOk(proc[..], pids, nextpid)
    {
      proc[i] := Freed();
      pids := pids[i := 0];
    }

    /** The end of apply_self_healing: counts the action and relieves the score. */
    method RelieveScore(i: nat)
      requires i < proc.Length && proc[i].flags != NO_FLAGS
      modifies proc
      ensures proc[..] == old(proc[..])[i := Relief(old(proc[i]), ticks)]
    {
      proc[i] := proc[i].(healingActions := proc[i].healingActions + 1, lastHealTick := ticks);
      if proc[i].anomalyScore > 20 {
        proc[i] := proc[i].(anomalyScore := proc[i].anomalyScore - 15);
      }
      if proc[i].anomalyScore < 30 {
        proc[i] := proc[i].(health := Normal);
      } else if proc[i].anomalyScore < 70 {
        proc[i] := proc[i].(health := Warning);
      }
    }

    method ApplySelfHealing(i: nat)
      requires i < proc.Length
      modifies proc
      ensures proc[..] == old(proc[..])[i := Healed(old(proc[i]), ticks)]
    {
      var healed := false;
      if proc[i].flags.starvation {
        proc[i] := proc[i].(priority := proc[i].priority + 25);
        if proc[i].priority > MAX_PRIORITY {
          proc[i] := proc[i].(priority := MAX_PRIORITY);
        }
        proc[i] := proc[i].(timeSlice := 2);
        healed := true;
      }
      if proc[i].flags.burstSurge || proc[i].flags.instability {
        proc[i] := proc[i].(burstTrend := 0);
        proc[i] := proc[i].(predictedBurst := proc[i].estBurst);
        proc[i] := proc[i].(timeSlice := TimeSlice(proc[i].procType));
        healed := true;
      }
      if proc[i].flags.thrashing {
        proc[i] := proc[i].(timeSlice := 2);
        healed := true;
      }
      assert proc[i] == ThrashingRemedy(SurgeRemedy(StarvationRemedy(old(proc[i]))));
      assert healed == (proc[i].flags != NO_FLAGS);
      if healed {
        RelieveScore(i);
      }
    }

    /** The first half of update_prediction_and_health: error and forecast. */
    method UpdatePrediction(i: nat)
      requires i < proc.Length
      modifies proc
      ensures proc[..] == old(proc[..])[i := Predicted(old(proc[i]))]
    {
      var actual := proc[i].lastBurst;
      if proc[i].predictedBurst > 0 {
        if actual >= proc[i].predictedBurst {
          proc[i] := proc[i].(predictionError := actual - proc[i].predictedBurst);
        } else {
          proc[i] := proc[i].(predictionError := proc[i].predictedBurst - actual);
        }
      } else {
        proc[i] := proc[i].(predictionError := 0);
      }
      var currentDiff := actual - proc[i].estBurst;
      proc[i] := proc[i].(burstTrend := HalfTowardZero(currentDiff + proc[i].burstTrend));
      var nextPred := proc[i].estBurst + proc[i].burstTrend;
      if nextPred < 1 {
        nextPred := 1;
      }
      proc[i] := proc[i].(predictedBurst := nextPred);
    }

    method UpdatePredictionAndHealth(i: nat)
      requires i < proc.Length
      modifies proc
      ensures proc[..] == old(proc[..])[i := Updated(old(proc[i]), ticks)]
      ensures var miss := Miss(old(proc[i]).lastBurst, old(proc[i]).predictedBurst);
              && proc[i].predictionError == miss
              && (proc[i].flags.instability <==> miss >= 6) && (proc[i].flags.burstSurge <==> Surges(old(proc[i])))
    {
      FlagsExactly(proc[i], ticks);
      UpdatePrediction(i);
      var p := proc[i];
      var flags := NO_FLAGS;
      var score := 0;
      if p.predictionError >= BURST_SURGE_THRESH && p.lastBurst > p.predictedBurst * 2 {
        flags := flags.(burstSurge := true);
        score := score + 35;
      }
      if p.waitticks >= STARVATION_THRESH_TICKS {
        flags := flags.(starvation := true);
        score := score + 40;
      }
      if p.predictionError >= 6 {
        flags := flags.(instability := true);
        score := score + 25;
      }
      if p.switches > p.schedCount * 2 && p.schedCount > 5 {
        flags := flags.(thrashing := true);
        score := score + 20;
      }
      score := score + p.predictionError * 3;
      if score > MAX_ANOMALY_SCORE {
        score := MAX_ANOMALY_SCORE;
      }
      assert flags == Signals(p) && score == Score(flags, p.predictionError);
      proc[i] := proc[i].(flags := flags, anomalyScore := score);
      if proc[i].anomalyScore >= 70 {
        proc[i] := proc[i].(health := Critical);
      } else if proc[i].anomalyScore >= 30 {
        proc[i] := proc[i].(health := Warning);
      } else {
        proc[i] := proc[i].(health := Normal);
      }
      assert proc[i] == Scored(p);
      assert proc[..] == old(proc[..])[i := Scored(p)];
      if proc[i].health != Normal || flags.starvation {
        ApplySelfHealing(i);
      }
    }

    /** sched, up to the switch to the scheduler; the caller has changed the state. */
    method Sched(i: nat)
      requires i < proc.Length && proc[i].state != Running
      modifies proc
      ensures proc[..] == old(proc[..])[i := Switched(old(proc[i]), ticks)]
    {
      hide Updated;
      proc[i] := proc[i].(switches := proc[i].switches + 1);
      if proc[i].state == Sleeping || proc[i].state == Zombie {
        proc[i] := proc[i].(lastBurst := proc[i].currentBurst);
        if proc[i].estBurst == 0 {
          proc[i] := proc[i].(estBurst := proc[i].lastBurst);
        } else {
          proc[i] := proc[i].(estBurst := (proc[i].lastBurst + proc[i].estBurst) / 2);
        }
        if proc[i].estBurst <= INTERACTIVE_BURST_THRESH {
          proc[i] := proc[i].(procType := Interactive);
        } else if proc[i].estBurst >= CPU_BOUND_BURST_THRESH {
          proc[i] := proc[i].(procType := CpuBound);
        } else {
          proc[i] := proc[i].(procType := Mixed);
        }
        assert proc[i] == BurstEnded(old(proc[i]).(switches := old(proc[i]).switches + 1));
        UpdatePredictionAndHealth(i);
        proc[i] := proc[i].(currentBurst := 0);
      } else if proc[i].state == Runnable {
        if proc[i].currentBurst > proc[i].estBurst {
          proc[i] := proc[i].(estBurst := proc[i].currentBurst);
          proc[i] := proc[i].(procType := Classify(proc[i].estBurst));
          proc[i] := proc[i].(lastBurst := proc[i].currentBurst);
          UpdatePredictionAndHealth(i);
        }
      }
    }

    /** The timer section of usertrap and kerneltrap; true when the slice has expired. */
    method TimerInterrupt(i: nat) returns (shouldYield: bool)
      requires i < proc.Length
      modifies proc
      ensures proc[..] == old(proc[..])[i := Ticked(old(proc[i]))]
      ensures shouldYield == SliceExpired(Charged(old(proc[i])))
    {
      shouldYield := false;
      proc[i] := proc[i].(cputicks := proc[i].cputicks + 1, currentBurst := proc[i].currentBurst + 1,
                          ticksInSlice := proc[i].ticksInSlice + 1);
      if proc[i].currentBurst > proc[i].estBurst {
        proc[i] := proc[i].(estBurst := proc[i].currentBurst);
        if proc[i].estBurst >= CPU_BOUND_BURST_THRESH {
          proc[i] := proc[i].(procType := CpuBound);
        } else if proc[i].estBurst <= INTERACTIVE_BURST_THRESH {
          proc[i] := proc[i].(procType := Interactive);
        } else {
          proc[i] := proc[i].(procType := Mixed);
        }
      }
      if proc[i].ticksInSlice >= proc[i].timeSlice {
        proc[i] := proc[i].(ticksInSlice := 0);
        shouldYield := true;
      }
    }

    method AccountSlot(i: nat)
      requires i < proc.Length
      modifies proc
      ensures proc[..] == old(proc[..])[i := Accounted(old(proc[i]), ticks)]
    {
      if proc[i].state == Runnable {
        proc[i] := proc[i].(waitticks := proc[i].waitticks + 1);
        if proc[i].waitticks >= STARVATION_THRESH_TICKS && !proc[i].flags.starvation {
          proc[i] := proc[i].(flags := proc[i].flags.(starvation := true));
          proc[i] := proc[i].(anomalyScore := if proc[i].anomalyScore + 40 > MAX_ANOMALY_SCORE
                                              then MAX_ANOMALY_SCORE else proc[i].anomalyScore + 40);
          if proc[i].anomalyScore >= 70 {
            proc[i] := proc[i].(health := Critical);
          } else {
            proc[i] := proc[i].(health := Warning);
          }
          assert proc[i] == Starved(old(proc[i]).(waitticks := old(proc[i]).waitticks + 1));
          ApplySelfHealing(i);
        }
      }
    }

    /** clock_tick_accounting: every RUNNABLE slot is accounted exactly once. */
    method ClockTickAccounting()
      modifies proc
      ensures forall i :: 0 <= i < proc.Length ==> proc[i] == Accounted(old(proc[i]), ticks)
    {
      var i := 0;
      while i < proc.Length
        invariant 0 <= i <= proc.Length
        invariant forall j :: 0 <= j < i ==> proc[j] == Accounted(old(proc[j]), ticks)
        invariant forall j :: i <= j < proc.Length ==> proc[j] == old(proc[j])
      {
        label slot:
        AccountSlot(i);
        assert forall j :: 0 <= j < proc.Length ==> proc[..][j] == proc[j];
        assert forall j :: 0 <= j < proc.Length && j != i ==> proc[j] == old@slot(proc[..])[j];
        i := i + 1;
      }
    }

    /** Pass 1 of scheduler: rates every RUNNABLE slot and returns the best one, -1 if none. */
    method PickBest() returns (best: int)
      modifies proc
      ensures proc[..] == Rating(old(proc[..]), proc.Length)
      ensures -1 <= best < proc.Length
      ensures best >= 0 ==> IsBest(old(proc[..]), best)
      ensures best == -1 ==> forall i :: 0 <= i < proc.Length ==> old(proc[i]).state != Runnable
      ensures best >= 0 ==>
                forall i :: 0 <= i < proc.Length && Favoured(old(proc[i]), old(proc[best])) ==>
                  Prio(old(proc[i])) == Prio(old(proc[best])) == 100
    {
      best := -1;
      var bestPrio := -1;
      var i := 0;
      while i < proc.Length
        invariant 0 <= i <= proc.Length && -1 <= best < i
        invariant forall j :: 0 <= j < i ==> proc[j] == Rated(old(proc[j]))
        invariant forall j :: i <= j < proc.Length ==> proc[j] == old(proc[j])
        invariant ScanState(old(proc[..]), i, if best < 0 then None else Some(best), bestPrio)
      {
        if proc[i].state == Runnable {
          proc[i] := proc[i].(priority := Prio(proc[i]));
          if proc[i].priority > bestPrio {
            bestPrio := proc[i].priority;
            best := i;
          }
        }
        i := i + 1;
      }
      if best >= 0 {
        assert IsBest(old(proc[..]), best);
        forall j | 0 <= j < proc.Length && Favoured(old(proc[j]), old(proc[best]))
          ensures Prio(old(proc[j])) == Prio(old(proc[best])) == 100
        {
          FavouredPassedAtMaximum(old(proc[..]), best, j);
        }
      }
    }

    /** Pass 2 of scheduler: the candidate runs if it is still RUNNABLE. */
    method Dispatch(b: nat) returns (dispatched: bool)
      requires b < proc.Length
      modifies proc
      ensures dispatched == (old(proc[b]).state == Runnable)
      ensures proc[..] == if dispatched then old(proc[..])[b := Dispatched(old(proc[b]), ticks)] else old(proc[..])
    {
      dispatched := false;
      if proc[b].state == Runnable {
        proc[b] := proc[b].(state := Running);
        proc[b] := proc[b].(schedCount := proc[b].schedCount + 1, lastSchedTick := ticks);
        proc[b] := proc[b].(timeSlice := TimeSlice(proc[b].procType), ticksInSlice := 0);
        proc[b] := proc[b].(waitticks := 0);
        dispatched := true;
      }
    }
  }
}

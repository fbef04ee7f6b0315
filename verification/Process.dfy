/** The scheduling record of one process (kernel/proc.h, kernel/pstat.h) and the
    effect on it of every lock-protected section of kernel/proc.c and kernel/trap.c. */
module Process {
  import opened Util

  datatype State = Unused | Used | Sleeping | Runnable | Running | Zombie
  datatype ProcType = Interactive | CpuBound | Mixed
  datatype Health = Normal | Warning | Critical

  /** The four bits of the anomaly mask. */
  datatype Flags = Flags(burstSurge: bool, starvation: bool, thrashing: bool, instability: bool)

  const NO_FLAGS := Flags(false, false, false, false)

  const INTERACTIVE_BURST_THRESH := 2
  const CPU_BOUND_BURST_THRESH := 8
  const PRIO_BASE_INTERACTIVE := 50
  const PRIO_BASE_MIXED := 30
  const PRIO_BASE_CPU_BOUND := 10
  const AGING_WEIGHT := 2
  const BURST_PENALTY_WEIGHT := 1
  const MAX_PRIORITY := 100
  const MIN_PRIORITY := 1
  const STARVATION_THRESH_TICKS := 20
  const BURST_SURGE_THRESH := 4
  const MAX_ANOMALY_SCORE := 100

  datatype Proc = Proc(
    state: State,
    // Phase 1: monitoring
    cputicks: nat,
    waitticks: nat,
    schedCount: nat,
    switches: nat,
    creationTick: nat,
    lastSchedTick: nat,
    currentBurst: nat,
    lastBurst: nat,
    estBurst: nat,
    procType: ProcType,
    // Phase 2: priority and time slice
    priority: int,
    timeSlice: nat,
    ticksInSlice: nat,
    // Phase 3: prediction, anomaly detection, self-healing
    predictedBurst: nat,
    predictionError: nat,
    burstTrend: int,
    anomalyScore: int,
    flags: Flags,
    health: Health,
    healingActions: nat,
    lastHealTick: nat)

  function Classify(est: nat): ProcType {
    if est <= INTERACTIVE_BURST_THRESH then Interactive
    else if est >= CPU_BOUND_BURST_THRESH then CpuBound
    else Mixed
  }

  function BasePriority(t: ProcType): int {
    match t
    case Interactive => PRIO_BASE_INTERACTIVE
    case Mixed => PRIO_BASE_MIXED
    case CpuBound => PRIO_BASE_CPU_BOUND
  }

  function DynamicPriority(t: ProcType, waitticks: nat, est: nat): (prio: int)
    ensures MIN_PRIORITY <= prio <= MAX_PRIORITY
    ensures prio == MAX_PRIORITY ==> waitticks >= 25
    ensures AGING_WEIGHT * waitticks >= MAX_PRIORITY - BasePriority(t) + est ==> prio == MAX_PRIORITY
  {
    var prio := BasePriority(t) + waitticks * AGING_WEIGHT - est * BURST_PENALTY_WEIGHT;
    if prio < MIN_PRIORITY then MIN_PRIORITY
    else if prio > MAX_PRIORITY then MAX_PRIORITY
    else prio
  }

  function TimeSlice(t: ProcType): (slice: nat)
    ensures 1 <= slice <= 4
  {
    match t
    case Interactive => 1
    case Mixed => 2
    case CpuBound => 4
  }

  function HealthOf(score: int): Health {
    if score >= 70 then Critical else if score >= 30 then Warning else Normal
  }

  /** C integer division by two, which truncates toward zero. */
  function HalfTowardZero(x: int): (r: int)
    ensures x >= 0 ==> x - 1 <= 2 * r <= x
    ensures x <= 0 ==> x <= 2 * r <= x + 1
  {
    if x >= 0 then x / 2 else -((-x) / 2)
  }

  // ---------- apply_self_healing ----------

  function StarvationRemedy(p: Proc): Proc {
    if p.flags.starvation
    then p.(priority := Min(p.priority + 25, MAX_PRIORITY), timeSlice := 2)
    else p
  }

  function SurgeRemedy(p: Proc): Proc {
    if p.flags.burstSurge || p.flags.instability
    then p.(burstTrend := 0, predictedBurst := p.estBurst, timeSlice := TimeSlice(p.procType))
    else p
  }

  function ThrashingRemedy(p: Proc): Proc {
    if p.flags.thrashing then p.(timeSlice := 2) else p
  }

  function Relief(p: Proc, ticks: nat): Proc {
    if p.flags == NO_FLAGS then p
    else
      var score := if p.anomalyScore > 20 then p.anomalyScore - 15 else p.anomalyScore;
      var health := if score < 30 then Normal else if score < 70 then Warning else p.health;
      p.(healingActions := p.healingActions + 1, lastHealTick := ticks,
         anomalyScore := score, health := health)
  }

  function Healed(p: Proc, ticks: nat): Proc {
    Relief(ThrashingRemedy(SurgeRemedy(StarvationRemedy(p))), ticks)
  }

  // ---------- update_prediction_and_health ----------

  function Predicted(p: Proc): Proc {
    var err := if p.predictedBurst == 0 then 0
               else if p.lastBurst >= p.predictedBurst then p.lastBurst - p.predictedBurst
               else p.predictedBurst - p.lastBurst;
    var trend := HalfTowardZero(p.lastBurst - p.estBurst + p.burstTrend);
    p.(predictionError := err, burstTrend := trend, predictedBurst := Max(p.estBurst + trend, 1))
  }

  function Signals(p: Proc): Flags {
    Flags(p.predictionError >= BURST_SURGE_THRESH && p.lastBurst > p.predictedBurst * 2,
          p.waitticks >= STARVATION_THRESH_TICKS,
          p.switches > p.schedCount * 2 && p.schedCount > 5,
          p.predictionError >= 6)
  }

  function Score(f: Flags, err: nat): int {
    Min(MAX_ANOMALY_SCORE,
        (if f.burstSurge then 35 else 0) + (if f.starvation then 40 else 0) +
        (if f.instability then 25 else 0) + (if f.thrashing then 20 else 0) + err * 3)
  }

  function Scored(p: Proc): Proc {
    var f := Signals(p);
    var score := Score(f, p.predictionError);
    p.(flags := f, anomalyScore := score, health := HealthOf(score))
  }

  function Updated(p: Proc, ticks: nat): Proc {
    var q := Scored(Predicted(p));
    if q.health != Normal || q.flags.starvation then Healed(q, ticks) else q
  }

  // ---------- sched, after the caller has changed p->state ----------

  function BurstEnded(p: Proc): Proc {
    var est := if p.estBurst == 0 then p.currentBurst else (p.currentBurst + p.estBurst) / 2;
    p.(lastBurst := p.currentBurst, estBurst := est, procType := Classify(est))
  }

  function BurstGrown(p: Proc): Proc {
    p.(estBurst := p.currentBurst, procType := Classify(p.currentBurst), lastBurst := p.currentBurst)
  }

  function Switched(p: Proc, ticks: nat): Proc {
    var q := p.(switches := p.switches + 1);
    if q.state == Sleeping || q.state == Zombie then
      Updated(BurstEnded(q), ticks).(currentBurst := 0)
    else if q.state == Runnable && q.currentBurst > q.estBurst then
      Updated(BurstGrown(q), ticks)
    else q
  }

  // ---------- timer interrupt of a running process ----------

  function Charged(p: Proc): Proc {
    var burst := p.currentBurst + 1;
    var q := p.(cputicks := p.cputicks + 1, currentBurst := burst, ticksInSlice := p.ticksInSlice + 1);
    if burst > p.estBurst then q.(estBurst := burst, procType := Classify(burst)) else q
  }

  predicate SliceExpired(p: Proc) { p.ticksInSlice >= p.timeSlice }

  function Ticked(p: Proc): Proc {
    var q := Charged(p);
    if SliceExpired(q) then q.(ticksInSlice := 0) else q
  }

  // ---------- clock_tick_accounting, one table slot ----------

  function Starved(p: Proc): Proc {
    var score := Min(p.anomalyScore + 40, MAX_ANOMALY_SCORE);
    p.(flags := p.flags.(starvation := true), anomalyScore := score,
       health := if score >= 70 then Critical else Warning)
  }

  function Accounted(p: Proc, ticks: nat): Proc {
    if p.state != Runnable then p
    else
      var q := p.(waitticks := p.waitticks + 1);
      if q.waitticks >= STARVATION_THRESH_TICKS && !q.flags.starvation
      then Healed(Starved(q), ticks)
      else q
  }

  // ---------- scheduler ----------

  function Prio(p: Proc): (prio: int)
    ensures MIN_PRIORITY <= prio <= MAX_PRIORITY
  { DynamicPriority(p.procType, p.waitticks, p.estBurst) }

  /** Pass 1 on one slot: a RUNNABLE process has its priority recomputed. */
  function Rated(p: Proc): Proc {
    if p.state == Runnable then p.(priority := Prio(p)) else p
  }

  /** Pass 2: the chosen process gains the CPU. */
  function Dispatched(p: Proc, ticks: nat): Proc {
    p.(state := Running, schedCount := p.schedCount + 1, lastSchedTick := ticks,
       timeSlice := TimeSlice(p.procType), ticksInSlice := 0, waitticks := 0)
  }

  // ---------- allocproc, freeproc ----------

  function Fresh(state: State, creation: nat, predicted: nat): Proc {
    Proc(state, 0, 0, 0, 0, creation, 0, 0, 0, 0, Interactive,
         PRIO_BASE_INTERACTIVE, 1, 0, predicted, 0, 0, 0, NO_FLAGS, Normal, 0, 0)
  }

  function Allocated(ticks: nat): Proc { Fresh(Used, ticks, 1) }
  function Freed(): Proc { Fresh(Unused, 0, 0) }

  // ---------- what every section keeps ----------

  /** Holds of every process whenever its lock is free. */
  predicate Sound(p: Proc) {
    && BurstSound(p)
    && CountSound(p)
    && HealthSound(p)
  }

  predicate BurstSound(p: Proc) {
    && p.currentBurst <= p.estBurst
    && p.procType == Classify(p.estBurst)
    && p.burstTrend <= 0
    && p.predictedBurst <= Max(1, p.estBurst)
  }

  predicate CountSound(p: Proc) {
    && p.schedCount == p.switches + (if p.state == Running then 1 else 0)
    && (p.waitticks > 0 ==> p.state == Runnable)
    && MIN_PRIORITY <= p.priority <= MAX_PRIORITY
    && 1 <= p.timeSlice <= 4
    && (p.state == Running ==> p.ticksInSlice < p.timeSlice)
  }

  predicate HealthSound(p: Proc) {
    && !p.flags.thrashing
    && 0 <= p.anomalyScore <= 85
    && p.health == HealthOf(p.anomalyScore)
  }

  /** Healing from a score of at most 100 lands in the sound range, and touches only
      priority, slice and the Phase 3 fields. */
  lemma HealedSound(p: Proc, ticks: nat)
    requires BurstSound(p) && 1 <= p.timeSlice <= 4 && MIN_PRIORITY <= p.priority <= MAX_PRIORITY
    requires !p.flags.thrashing && p.flags != NO_FLAGS
    requires 0 <= p.anomalyScore <= 100 && p.health == HealthOf(p.anomalyScore)
    ensures var q := Healed(p, ticks);
      && HealthSound(q) && BurstSound(q) && 1 <= q.timeSlice <= 4
      && MIN_PRIORITY <= q.priority <= MAX_PRIORITY
      && q.healingActions == p.healingActions + 1
      && q == p.(priority := q.priority, timeSlice := q.timeSlice, burstTrend := q.burstTrend,
                 predictedBurst := q.predictedBurst, healingActions := q.healingActions,
                 lastHealTick := q.lastHealTick, anomalyScore := q.anomalyScore, health := q.health)
  {
  }

  /** After a burst ends the new estimate is at least the burst just seen, so the trend never
      turns positive and the forecast never exceeds the estimate. */
  lemma PredictedSound(p: Proc)
    requires p.lastBurst <= p.estBurst && p.burstTrend <= 0
    requires p.procType == Classify(p.estBurst) && p.currentBurst <= p.estBurst
    ensures BurstSound(Predicted(p))
  {
  }

  /** In update_prediction_and_health a raised score always comes with a flag, so healing
      always has something to relieve; THRASHING and STARVATION are never raised here. */
  lemma ScoredSound(p: Proc)
    requires p.waitticks == 0 && p.switches <= p.schedCount
    ensures var q := Scored(p);
      && !q.flags.thrashing && !q.flags.starvation
      && 0 <= q.anomalyScore <= 100 && q.health == HealthOf(q.anomalyScore)
      && (q.flags == NO_FLAGS ==> q.health == Normal)
  {
  }

  lemma UpdatedSound(p: Proc, ticks: nat)
    requires p.lastBurst <= p.estBurst && p.burstTrend <= 0
    requires p.procType == Classify(p.estBurst) && p.currentBurst <= p.estBurst
    requires p.waitticks == 0 && p.switches <= p.schedCount
    requires 1 <= p.timeSlice <= 4 && MIN_PRIORITY <= p.priority <= MAX_PRIORITY
    ensures var q := Updated(p, ticks);
      && BurstSound(q) && HealthSound(q) && !q.flags.starvation
      && 1 <= q.timeSlice <= 4 && MIN_PRIORITY <= q.priority <= MAX_PRIORITY
      && q.estBurst == p.estBurst && q.procType == p.procType && q.state == p.state
      && q.waitticks == p.waitticks && q.switches == p.switches && q.schedCount == p.schedCount
      && q.currentBurst == p.currentBurst && q.lastBurst == p.lastBurst
      && q.ticksInSlice == p.ticksInSlice && q.cputicks == p.cputicks
  {
    var a := Predicted(p);
    PredictedSound(p);
    ScoredSound(a);
    var b := Scored(a);
    if b.health != Normal {
      HealedSound(b, ticks);
    }
  }
}

/** Readers and writers of one pipe as interleaved steps: each step is one loop round of pipewrite or
    piperead under the pipe lock, a close, or a kill. */
module PipeMachine {
  import opened Pipe
  import opened Util

  datatype Role = Writer(src: seq<byte>, i: nat) | Reader(n: nat, got: nat)

  /** Holding the lock, a reader is `copying` once it has left its waiting loop. */
  datatype Phase = Ready | Holding(copying: bool) | Asleep

  datatype Thread = Thread(role: Role, phase: Phase, killed: bool)

  datatype State = State(
    data: seq<byte>, nread: int, nwrite: int, readopen: bool, writeopen: bool,
    lock: Option<nat>,
    threads: map<nat, Thread>,
    written: seq<byte>,      // all bytes ever put in
    received: seq<byte>,     // all bytes ever handed to readers, in order
    unannounced: bool,       // the pipe holds bytes, and one was put in since readers were last woken
    lost: bool)              // and its writer was then killed before it could wake them

  datatype Step =
    | Call(t: nat, role: Role)
    | Acquire(t: nat)
    | Put(t: nat)
    | Block(t: nat)      // full: wake readers, sleep
    | Abort(t: nat)      // no reader left, or killed: return -1
    | WriteDone(t: nat)  // all written, or copyin failed: wake readers, return
    | Await(t: nat)      // empty: sleep
    | GiveUp(t: nat)     // empty and killed: return -1
    | StartCopy(t: nat)
    | Get(t: nat)
    | ReadDone(t: nat)   // enough, empty, or copyout failed: wake writers, return
    | Close(writable: bool)
    | Kill(t: nat)

  predicate Holds(s: State, t: nat) { s.lock == Some(t) && t in s.threads }
  predicate HoldsW(s: State, t: nat) {
    Holds(s, t) && s.threads[t].role.Writer? && s.threads[t].role.i <= |s.threads[t].role.src|
  }
  predicate HoldsR(s: State, t: nat, copying: bool) {
    Holds(s, t) && s.threads[t].role.Reader? && s.threads[t].phase == Holding(copying)
  }

  predicate Empty(s: State) { s.nread == s.nwrite }
  predicate Full(s: State) { s.nwrite == (s.nread + PIPESIZE) % WRAP }

  predicate Enabled(s: State, step: Step) {
    && |s.data| == PIPESIZE
    && match step
    case Call(t, role) => t !in s.threads && (role.Writer? ==> role.i == 0) && (role.Reader? ==> role.got == 0)
    case Acquire(t) => s.lock.None? && t in s.threads && s.threads[t].phase.Ready?
    case Put(t) => HoldsW(s, t) && s.threads[t].role.i < |s.threads[t].role.src| && s.readopen && !Full(s)
    case Block(t) => HoldsW(s, t) && s.threads[t].role.i < |s.threads[t].role.src| && s.readopen && Full(s)
    case Abort(t) => HoldsW(s, t) && s.threads[t].role.i < |s.threads[t].role.src|
      && (!s.readopen || s.threads[t].killed)
    case WriteDone(t) => HoldsW(s, t) && (s.threads[t].role.i == |s.threads[t].role.src| || (s.readopen && !Full(s)))
    case Await(t) => HoldsR(s, t, false) && Empty(s) && s.writeopen
    case GiveUp(t) => HoldsR(s, t, false) && Empty(s) && s.writeopen && s.threads[t].killed
    case StartCopy(t) => HoldsR(s, t, false) && (!Empty(s) || !s.writeopen)
    case Get(t) => HoldsR(s, t, true) && s.threads[t].role.got < s.threads[t].role.n && !Empty(s)
    case ReadDone(t) => HoldsR(s, t, true)
    case Close(_) => s.lock.None?
    case Kill(t) => t in s.threads
  }

  function Woken(threads: map<nat, Thread>, writers: bool): map<nat, Thread> {
    map t | t in threads ::
      if threads[t].phase.Asleep? && threads[t].role.Writer? == writers
      then threads[t].(phase := Ready) else threads[t]
  }

  /** wakeup(&nread) */
  function WakeReaders(s: State): State {
    s.(threads := Woken(s.threads, false), unannounced := false, lost := false)
  }

  /** wakeup(&nwrite) */
  function WakeWriters(s: State): State { s.(threads := Woken(s.threads, true)) }

  function SetThread(s: State, t: nat, th: Thread): State { s.(threads := s.threads[t := th]) }

  function Return(s: State, t: nat): State { s.(threads := s.threads - {t}, lock := None) }

  function Next(s: State, step: Step): State
    requires Enabled(s, step)
  {
    match step
    case Call(t, role) => SetThread(s, t, Thread(role, Ready, false))
    case Acquire(t) => SetThread(s, t, s.threads[t].(phase := Holding(false))).(lock := Some(t))
    case Put(t) =>
      var th := s.threads[t];
      var ch := th.role.src[th.role.i];
      SetThread(s, t, th.(role := Writer(th.role.src, th.role.i + 1)))
        .(data := s.data[s.nwrite % PIPESIZE := ch], nwrite := (s.nwrite + 1) % WRAP,
          written := s.written + [ch], unannounced := true)
    case Block(t) =>
      var s' := WakeReaders(s);
      SetThread(s', t, s.threads[t].(phase := Asleep)).(lock := None)
    case Abort(t) => Return(s.(lost := s.lost || (s.unannounced && s.threads[t].killed)), t)
    case WriteDone(t) => Return(WakeReaders(s), t)
    case Await(t) => SetThread(s, t, s.threads[t].(phase := Asleep)).(lock := None)
    case GiveUp(t) => Return(s, t)
    case StartCopy(t) => SetThread(s, t, s.threads[t].(phase := Holding(true)))
    case Get(t) =>
      var th := s.threads[t];
      SetThread(s, t, th.(role := Reader(th.role.n, th.role.got + 1)))
        .(nread := (s.nread + 1) % WRAP, received := s.received + [s.data[s.nread % PIPESIZE]],
          unannounced := s.unannounced && (s.nread + 1) % WRAP != s.nwrite,
          lost := s.lost && (s.nread + 1) % WRAP != s.nwrite)
    case ReadDone(t) => Return(WakeWriters(s), t)
    case Close(writable) =>
      if writable then WakeReaders(s).(writeopen := false) else WakeWriters(s).(readopen := false)
    case Kill(t) =>
      var th := s.threads[t].(killed := true);
      SetThread(s, t, if th.phase.Asleep? then th.(phase := Ready) else th)
  }

  // ---------- the invariant ----------

  predicate RingOk(s: State) {
    && Ring(s.data, s.nread, s.nwrite, s.written, |s.received|)
    && s.received == s.written[..|s.received|]
  }

  predicate LockOk(s: State) {
    && (s.lock.Some? ==> s.lock.value in s.threads)
    && (forall t :: t in s.threads ==> (s.threads[t].phase.Holding? <==> s.lock == Some(t)))
  }

  /** A reader that has left its waiting loop holds the lock; it will wake the writers. */
  predicate ReaderCopies(s: State) {
    s.lock.Some? && s.lock.value in s.threads && s.threads[s.lock.value].role.Reader?
      && s.threads[s.lock.value].phase == Holding(true)
  }

  predicate SleepersOk(s: State) {
    && (forall t :: t in s.threads && s.threads[t].phase.Asleep? && s.threads[t].role.Writer? ==>
          (|s.written| == |s.received| + PIPESIZE && s.readopen) || ReaderCopies(s))
    && (forall t :: t in s.threads && s.threads[t].phase.Asleep? && s.threads[t].role.Reader? ==>
          s.writeopen && (|s.written| == |s.received| || s.unannounced))
  }

  /** Unannounced bytes belong to the writer that holds the lock, or their writer was killed. */
  predicate AnnouncedOk(s: State) {
    && (s.lost ==> s.unannounced)
    && (s.unannounced ==> |s.written| > |s.received|)
    && (s.unannounced && !s.lost ==>
          s.lock.Some? && s.lock.value in s.threads && s.threads[s.lock.value].role.Writer? && s.readopen)
  }

  predicate Inv(s: State) { RingOk(s) && LockOk(s) && SleepersOk(s) && AnnouncedOk(s) }

  /** pipealloc */
  predicate Init(s: State) {
    && |s.data| == PIPESIZE && s.nread == 0 && s.nwrite == 0 && s.readopen && s.writeopen && s.lock.None?
    && s.threads == map[] && s.written == [] && s.received == [] && !s.unannounced && !s.lost
  }

  lemma RingPut(s: State, t: nat)
    requires Inv(s) && Enabled(s, Put(t))
    ensures RingOk(Next(s, Put(t)))
  {
    EmptyAndFull(s.data, s.nread, s.nwrite, s.written, |s.received|);
    var th := s.threads[t];
    PutByte(s.data, s.nread, s.nwrite, s.written, |s.received|, th.role.src[th.role.i]);
  }

  lemma RingGet(s: State, t: nat)
    requires Inv(s) && Enabled(s, Get(t))
    ensures RingOk(Next(s, Get(t)))
  {
    EmptyAndFull(s.data, s.nread, s.nwrite, s.written, |s.received|);
    TakeByte(s.data, s.nread, s.nwrite, s.written, |s.received|);
  }

  lemma RingStep(s: State, step: Step)
    requires Inv(s) && Enabled(s, step)
    ensures RingOk(Next(s, step))
  {
    if step.Put? {
      RingPut(s, step.t);
    } else if step.Get? {
      RingGet(s, step.t);
    }
  }

  lemma LockStep(s: State, step: Step)
    requires LockOk(s) && Enabled(s, step)
    ensures LockOk(Next(s, step))
  {
    var s' := Next(s, step);
    forall t | t in s'.threads
      ensures s'.threads[t].phase.Holding? <==> s'.lock == Some(t)
    {
      assert t in s.threads ==> (s.threads[t].phase.Holding? <==> s.lock == Some(t));
    }
  }

  /** A sleeping writer's cause goes away only under a reader that is about to wake it. */
  lemma WriterStep(s: State, step: Step, t: nat)
    requires LockOk(s) && SleepersOk(s) && Enabled(s, step)
    requires Full(s) <==> |s.written| == |s.received| + PIPESIZE
    requires var s' := Next(s, step); t in s'.threads && s'.threads[t].phase.Asleep? && s'.threads[t].role.Writer?
    ensures var s' := Next(s, step);
      (|s'.written| == |s'.received| + PIPESIZE && s'.readopen) || ReaderCopies(s')
  {
    if step != Block(t) {
      assert t in s.threads && s.threads[t].phase.Asleep? && s.threads[t].role.Writer?;
    }
  }

  lemma WritersStep(s: State, step: Step)
    requires Inv(s) && Enabled(s, step)
    ensures var s' := Next(s, step);
      forall t :: t in s'.threads && s'.threads[t].phase.Asleep? && s'.threads[t].role.Writer? ==>
        (|s'.written| == |s'.received| + PIPESIZE && s'.readopen) || ReaderCopies(s')
  {
    EmptyAndFull(s.data, s.nread, s.nwrite, s.written, |s.received|);
    var s' := Next(s, step);
    forall t | t in s'.threads && s'.threads[t].phase.Asleep? && s'.threads[t].role.Writer?
      ensures (|s'.written| == |s'.received| + PIPESIZE && s'.readopen) || ReaderCopies(s')
    {
      WriterStep(s, step, t);
    }
  }

  lemma ReadersStep(s: State, step: Step)
    requires Inv(s) && Enabled(s, step)
    ensures var s' := Next(s, step);
      forall t :: t in s'.threads && s'.threads[t].phase.Asleep? && s'.threads[t].role.Reader? ==>
        s'.writeopen && (|s'.written| == |s'.received| || s'.unannounced)
  {
    RingStep(s, step);
    var s' := Next(s, step);
    EmptyAndFull(s.data, s.nread, s.nwrite, s.written, |s.received|);
    EmptyAndFull(s'.data, s'.nread, s'.nwrite, s'.written, |s'.received|);
  }

  lemma AnnouncedStep(s: State, step: Step)
    requires Inv(s) && Enabled(s, step) && RingOk(Next(s, step))
    ensures AnnouncedOk(Next(s, step))
  {
    var s' := Next(s, step);
    EmptyAndFull(s.data, s.nread, s.nwrite, s.written, |s.received|);
    EmptyAndFull(s'.data, s'.nread, s'.nwrite, s'.written, |s'.received|);
  }

  lemma StepKeeps(s: State, step: Step)
    requires Inv(s) && Enabled(s, step)
    ensures Inv(Next(s, step))
  {
    RingStep(s, step);
    LockStep(s, step);
    WritersStep(s, step);
    ReadersStep(s, step);
    AnnouncedStep(s, step);
  }

  // ---------- whole runs ----------

  predicate Runs(s: State, steps: seq<Step>)
    decreases |steps|
  {
    steps == [] || (Enabled(s, steps[0]) && Runs(Next(s, steps[0]), steps[1..]))
  }

  function After(s: State, steps: seq<Step>): State
    requires Runs(s, steps)
    decreases |steps|
  {
    if steps == [] then s else After(Next(s, steps[0]), steps[1..])
  }

  lemma {:induction false} RunKeeps(s: State, steps: seq<Step>)
    requires Inv(s) && Runs(s, steps)
    ensures Inv(After(s, steps))
    decreases |steps|
  {
    if steps != [] {
      StepKeeps(s, steps[0]);
      RunKeeps(Next(s, steps[0]), steps[1..]);
    }
  }

  /** FIFO: in every run, across any wraparound of the counters, the bytes handed to readers are a
      prefix of the bytes put in by writers, and at most 512 bytes are in between. */
  lemma PipeIsFifo(s0: State, steps: seq<Step>)
    requires Init(s0) && Runs(s0, steps)
    ensures var s := After(s0, steps);
      s.received <= s.written && |s.written| - |s.received| <= PIPESIZE
  {
    RunKeeps(s0, steps);
  }

  /** No lost wakeup: whenever the lock is free, a sleeping writer faces a full pipe with a reader. A sleeping
      reader always has a writer, and faces an empty pipe if and only if, since the pipe was last empty or readers
      were last woken, no writer was killed between putting a byte in and waking them. */
  lemma SleepersWaitForCause(s0: State, steps: seq<Step>, t: nat)
    requires Init(s0) && Runs(s0, steps) && After(s0, steps).lock.None?
    requires t in After(s0, steps).threads && After(s0, steps).threads[t].phase.Asleep?
    ensures var s := After(s0, steps);
      && (s.threads[t].role.Writer? ==> Full(s) && s.readopen)
      && (s.threads[t].role.Reader? ==> s.writeopen && (Empty(s) <==> !s.lost))
  {
    RunKeeps(s0, steps);
    var s := After(s0, steps);
    EmptyAndFull(s.data, s.nread, s.nwrite, s.written, |s.received|);
  }

  predicate SleepingReader(s: State, t: nat) {
    t in s.threads && s.threads[t].phase.Asleep? && s.threads[t].role.Reader?
  }

  /** Asleep although there is something to read, or nobody left to write. */
  predicate Stranded(s: State, t: nat) { SleepingReader(s, t) && !(Empty(s) && s.writeopen) }

  /** Exactly one branch strands a reader, that of pipewrite which returns -1 on a kill, and it strands every
      sleeping reader if and only if a byte has been put in and not announced. */
  lemma StrandedExactly(s0: State, steps: seq<Step>, step: Step, t: nat)
    requires Init(s0) && Runs(s0, steps) && !After(s0, steps).lost && Enabled(After(s0, steps), step)
    requires Next(After(s0, steps), step).lock.None?
    ensures var s := After(s0, steps);
      && (Stranded(Next(s, step), t) <==> step.Abort? && s.unannounced && SleepingReader(s, t))
      && (step.Abort? && s.unannounced ==> s.threads[step.t].killed)
  {
    RunKeeps(s0, steps);
    var s := After(s0, steps);
    StepKeeps(s, step);
    var s' := Next(s, step);
    EmptyAndFull(s.data, s.nread, s.nwrite, s.written, |s.received|);
    EmptyAndFull(s'.data, s'.nread, s'.nwrite, s'.written, |s'.received|);
  }

  lemma {:induction false} Extend(s: State, steps: seq<Step>, step: Step)
    requires Runs(s, steps) && Enabled(After(s, steps), step)
    ensures Runs(s, steps + [step]) && After(s, steps + [step]) == Next(After(s, steps), step)
    decreases |steps|
  {
    if steps == [] {
      assert (steps + [step])[1..] == [];
    } else {
      Extend(Next(s, steps[0]), steps[1..], step);
      assert (steps + [step])[1..] == steps[1..] + [step];
    }
  }

  const SLEEPER := Thread(Reader(1, 0), Asleep, false)
  const VICTIM := Thread(Writer([7, 7], 1), Holding(false), false)

  lemma ReaderSleeps(s0: State) returns (steps: seq<Step>)
    requires Init(s0)
    ensures Runs(s0, steps) && After(s0, steps) == s0.(threads := map[0 := SLEEPER])
  {
    steps := [];
    Extend(s0, steps, Call(0, Reader(1, 0)));
    steps := steps + [Call(0, Reader(1, 0))];
    Extend(s0, steps, Acquire(0));
    steps := steps + [Acquire(0)];
    Extend(s0, steps, Await(0));
    steps := steps + [Await(0)];
    assert After(s0, steps).threads == map[0 := SLEEPER];
  }

  lemma WriterPutsOne(s0: State) returns (steps: seq<Step>)
    requires Init(s0)
    ensures Runs(s0, steps)
    ensures After(s0, steps) == s0.(threads := map[0 := SLEEPER, 1 := VICTIM], lock := Some(1), data := s0.data[0 := 7],
                                    nwrite := 1, written := [7], unannounced := true)
  {
    steps := ReaderSleeps(s0);
    Extend(s0, steps, Call(1, Writer([7, 7], 0)));
    steps := steps + [Call(1, Writer([7, 7], 0))];
    Extend(s0, steps, Acquire(1));
    steps := steps + [Acquire(1)];
    Extend(s0, steps, Put(1));
    steps := steps + [Put(1)];
    assert After(s0, steps).threads == map[0 := SLEEPER, 1 := VICTIM];
  }

  /** The exception is real: after this run the pipe is open at both ends and holds a byte, yet its
      reader is asleep and no thread is left to wake it. */
  lemma KilledWriterStrandsReader(s0: State) returns (steps: seq<Step>)
    requires Init(s0)
    ensures Runs(s0, steps)
    ensures var s := After(s0, steps);
      && s.lock.None? && s.readopen && s.writeopen && Stranded(s, 0)
      && s.threads == map[0 := SLEEPER]
  {
    steps := WriterPutsOne(s0);
    Extend(s0, steps, Kill(1));
    steps := steps + [Kill(1)];
    Extend(s0, steps, Abort(1));
    steps := steps + [Abort(1)];
    assert After(s0, steps).threads == map[0 := SLEEPER];
  }

  // ---------- bytes get through ----------

  /** No thread is about, both ends are open and everything written has been received. */
  predicate AtRest(s: State) {
    Inv(s) && s.lock.None? && s.threads == map[] && s.readopen && s.writeopen && |s.written| == |s.received|
  }

  lemma AtRestEmpty(s: State)
    requires AtRest(s)
    ensures |s.data| == PIPESIZE && Empty(s) && !Full(s) && 0 <= s.nwrite < WRAP && !s.unannounced && !s.lost
  {
    EmptyAndFull(s.data, s.nread, s.nwrite, s.written, |s.received|);
  }

  /** One call of pipewrite puts a byte in. */
  lemma SendOne(s0: State, before: seq<Step>, s: State, b: byte) returns (steps: seq<Step>, u: State)
    requires Inv(s0) && Runs(s0, before) && After(s0, before) == s && AtRest(s)
    ensures Runs(s0, steps) && After(s0, steps) == u && Inv(u) && |u.data| == PIPESIZE
    ensures u == s.(data := s.data[s.nwrite % PIPESIZE := b], nwrite := (s.nwrite + 1) % WRAP,
            written := s.written + [b])
  {
    hide Inv, Runs, After;
    AtRestEmpty(s);
    steps, u := before, s;
    Extend(s0, steps, Call(0, Writer([b], 0)));
    steps, u := steps + [Call(0, Writer([b], 0))], Next(u, Call(0, Writer([b], 0)));
    Extend(s0, steps, Acquire(0));
    steps, u := steps + [Acquire(0)], Next(u, Acquire(0));
    Extend(s0, steps, Put(0));
    steps, u := steps + [Put(0)], Next(u, Put(0));
    Extend(s0, steps, WriteDone(0));
    steps, u := steps + [WriteDone(0)], Next(u, WriteDone(0));
    assert u.threads == map[];
    RunKeeps(s0, steps);
  }

  const TAKER := Thread(Reader(1, 0), Holding(true), false)

  /** piperead up to its copying loop. */
  lemma ReaderEnters(s0: State, before: seq<Step>, s: State) returns (steps: seq<Step>)
    requires Runs(s0, before) && After(s0, before) == s && s.lock.None? && s.threads == map[]
    requires |s.data| == PIPESIZE && !Empty(s)
    ensures Runs(s0, steps) && After(s0, steps) == s.(threads := map[0 := TAKER], lock := Some(0))
  {
    hide Runs, After;
    var u;
    steps, u := before, s;
    Extend(s0, steps, Call(0, Reader(1, 0)));
    steps, u := steps + [Call(0, Reader(1, 0))], Next(u, Call(0, Reader(1, 0)));
    Extend(s0, steps, Acquire(0));
    steps, u := steps + [Acquire(0)], Next(u, Acquire(0));
    Extend(s0, steps, StartCopy(0));
    steps, u := steps + [StartCopy(0)], Next(u, StartCopy(0));
    assert u.threads == map[0 := TAKER];
  }

  /** One call of piperead takes it out. */
  lemma ReceiveOne(s0: State, before: seq<Step>, s: State, b: byte) returns (steps: seq<Step>, u: State)
    requires Inv(s0) && Runs(s0, before) && After(s0, before) == s && s.lock.None? && s.threads == map[]
    requires Inv(s) && s.readopen && s.writeopen && |s.written| == |s.received| + 1 && s.written[|s.received|] == b
    ensures Runs(s0, steps) && After(s0, steps) == u && AtRest(u) && u.received == s.received + [b]
            && u.written == s.written
  {
    EmptyAndFull(s.data, s.nread, s.nwrite, s.written, |s.received|);
    TakeByte(s.data, s.nread, s.nwrite, s.written, |s.received|);
    assert |s.data| == PIPESIZE && !Empty(s) && s.data[s.nread % PIPESIZE] == b;
    hide Inv, Runs, After, RingOk, LockOk, SleepersOk, AnnouncedOk, Ring;
    steps := ReaderEnters(s0, before, s);
    u := s.(threads := map[0 := TAKER], lock := Some(0));
    Extend(s0, steps, Get(0));
    steps, u := steps + [Get(0)], Next(u, Get(0));
    Extend(s0, steps, ReadDone(0));
    steps, u := steps + [ReadDone(0)], Next(u, ReadDone(0));
    assert u.threads == map[];
    RunKeeps(s0, steps);
  }

  /** Any bytes get through: from a new pipe there is a run in which writers put in exactly src and readers get
      exactly src. */
  lemma {:induction false} Delivers(s0: State, src: seq<byte>) returns (steps: seq<Step>, u: State)
    requires Init(s0)
    ensures Runs(s0, steps) && After(s0, steps) == u && AtRest(u) && u.written == u.received == src
    decreases |src|
  {
    steps, u := [], s0;
    if src != [] {
      var n := |src| - 1;
      steps, u := Delivers(s0, src[..n]);
      var v;
      steps, v := SendOne(s0, steps, u, src[n]);
      steps, u := ReceiveOne(s0, steps, v, src[n]);
      assert src[..n] + [src[n]] == src;
    }
  }
}

/** The log and the cache together behave as a plain logical disk with atomic commits: crash
    atomicity, durability of sync, and the log-space reservation (kernel/log.c, kernel/bio.c). */
module LogRefinement {
  import opened LogMachine
  import opened Util

  // ---------- the logical disk ----------

  /** `cur` is what file system calls see, `committed` what survives a crash. */
  datatype Disk = Disk(cur: map<int, Block>, committed: map<int, Block>, active: set<nat>, ended: nat, durable: nat)

  datatype Event =
    | Begin(t: nat)
    | End(t: nat)
    | Write(t: nat, b: int, d: Block)
    | Observe(b: int, d: Block)
    | Commit
    | Fail
    | Internal

  predicate Allowed(a: Disk, e: Event) {
    match e
    case Begin(t) => t !in a.active
    case End(t) => t in a.active
    case Write(t, b, _) => t in a.active && b in a.cur
    case Observe(b, d) => b in a.cur && a.cur[b] == d
    case Commit => a.active == {}
    case Fail => true
    case Internal => true
  }

  function Do(a: Disk, e: Event): Disk {
    match e
    case Begin(t) => a.(active := a.active + {t})
    case End(t) => a.(active := a.active - {t}, ended := a.ended + 1)
    case Write(_, b, d) => a.(cur := a.cur[b := d])
    case Observe(_, _) => a
    case Commit => a.(committed := a.cur, durable := a.ended)
    case Fail => a.(cur := a.committed, active := {}, ended := a.durable)
    case Internal => a
  }

  predicate History(a: Disk, es: seq<Event>)
    decreases |es|
  {
    es == [] || (Allowed(a, es[0]) && History(Do(a, es[0]), es[1..]))
  }

  function DoAll(a: Disk, es: seq<Event>): Disk
    decreases |es|
  {
    if es == [] then a else DoAll(Do(a, es[0]), es[1..])
  }

  // ---------- what a state of the machine means ----------

  ghost predicate CachedValid(cache: seq<Slot>, b: int) {
    exists i :: 0 <= i < |cache| && Caches(cache[i], b) && cache[i].valid
  }

  /** The contents a thread finds when it reads block `b`. */
  ghost function View(cache: seq<Slot>, disk: seq<Block>, b: int): Block
    requires 0 <= b < |disk|
  {
    if CachedValid(cache, b) then
      var i :| 0 <= i < |cache| && Caches(cache[i], b) && cache[i].valid;
      cache[i].data
    else disk[b]
  }

  function IndexOf(h: seq<int>, b: int): (k: nat)
    requires b in h
    ensures k < |h| && h[k] == b
  {
    if h[0] == b then 0 else 1 + IndexOf(h[1..], b)
  }

  /** What a completed recovery from this disk image leaves in home block `b`. */
  function RecoveredAt(disk: seq<Block>, start: nat, b: int): Block
    requires start + LOGBLOCKS < |disk| && 0 <= b < |disk|
  {
    var h := HeaderOf(disk[start]);
    if b in h then disk[LogBlock(start, IndexOf(h, b))] else disk[b]
  }

  function Committed(disk: seq<Block>, start: nat): map<int, Block>
    requires start + LOGBLOCKS < |disk|
  {
    map b: int | 0 <= b < |disk| && Home(start, |disk|, b) :: RecoveredAt(disk, start, b)
  }

  ghost function Current(s: State): map<int, Block>
    requires ShapeOk(s)
  {
    if Recovering(s.pc) then Committed(s.disk, s.start)
    else map b: int | 0 <= b < |s.disk| && Home(s.start, |s.disk|, b) :: View(s.cache, s.disk, b)
  }

  ghost function Meaning(s: State): Disk
    requires ShapeOk(s)
  {
    Disk(Current(s), Committed(s.disk, s.start), s.ops.Keys, s.ended, s.durable)
  }

  function EventOf(s: State, step: Step): Event
    requires Enabled(s, step)
  {
    match step
    case BeginOp(t) => Begin(t)
    case EndOp(t) => End(t)
    case Modify(t, i, d) => Write(t, s.cache[i].blockno, d)
    case Read(t, i) => Observe(s.cache[i].blockno, s.cache[i].data)
    case WriteHead(_) => Commit
    case NothingLogged => Commit
    case Crash => Fail
    case _ => Internal
  }

  // ---------- views ----------

  lemma ViewHit(cache: seq<Slot>, disk: seq<Block>, i: nat)
    requires Unique(cache) && i < |cache| && cache[i].used && cache[i].valid && cache[i].blockno < |disk|
    ensures View(cache, disk, cache[i].blockno) == cache[i].data
  {
    assert Caches(cache[i], cache[i].blockno);
    assert CachedValid(cache, cache[i].blockno);
  }

  /** The view depends on the buffers that hold the block and, failing those, on the disk. */
  lemma ViewSame(cache: seq<Slot>, disk: seq<Block>, cache': seq<Slot>, disk': seq<Block>, b: int)
    requires Unique(cache) && Unique(cache') && |cache'| == |cache| && 0 <= b < |disk| == |disk'| && disk'[b] == disk[b]
    requires forall i :: 0 <= i < |cache| ==>
      (Caches(cache[i], b) && cache[i].valid <==> Caches(cache'[i], b) && cache'[i].valid)
    requires forall i :: 0 <= i < |cache| ==> Caches(cache[i], b) && cache[i].valid ==> cache'[i].data == cache[i].data
    ensures View(cache', disk', b) == View(cache, disk, b)
  {
    if CachedValid(cache, b) {
      var i :| 0 <= i < |cache| && Caches(cache[i], b) && cache[i].valid;
      ViewHit(cache, disk, i);
      ViewHit(cache', disk', i);
    } else {
      assert !CachedValid(cache', b);
    }
  }

  /** Outside the log and outside modified buffers the view is the disk. */
  lemma ViewClean(s: State, b: int)
    requires Inv(s) && Home(s.start, |s.disk|, b) && b !in Logged(s) && s.ops == map[]
    ensures View(s.cache, s.disk, b) == s.disk[b]
  {
    if CachedValid(s.cache, b) {
      var i :| 0 <= i < |s.cache| && Caches(s.cache[i], b) && s.cache[i].valid;
      ViewHit(s.cache, s.disk, i);
      assert SlotOk(s.cache[i], Logged(s), s.ops, s.start, |s.disk|);
      assert SlotCoherent(s.cache[i], Logged(s), s.disk);
    }
  }

  lemma ViewLogged(s: State, b: int) returns (i: nat)
    requires Inv(s) && b in Logged(s) && 0 <= b < |s.disk|
    ensures i < |s.cache| && Caches(s.cache[i], b) && View(s.cache, s.disk, b) == s.cache[i].data
  {
    assert Cached(s.cache, b);
    var k :| 0 <= k < |s.cache| && Caches(s.cache[k], b);
    assert SlotOk(s.cache[k], Logged(s), s.ops, s.start, |s.disk|);
    ViewHit(s.cache, s.disk, k);
    i := k;
  }

  // ---------- each step is an event of the logical disk ----------

  /** Two states outside recovery that agree on every view have the same current contents. */
  lemma CurrentSame(s: State, s': State)
    requires ShapeOk(s) && ShapeOk(s') && !Recovering(s.pc) && !Recovering(s'.pc)
    requires s'.start == s.start && |s'.disk| == |s.disk|
    requires forall b :: Home(s.start, |s.disk|, b) ==> View(s'.cache, s'.disk, b) == View(s.cache, s.disk, b)
    ensures Current(s') == Current(s)
  {
  }

  /** The committed contents ignore everything but the header, the live log blocks and the homes. */
  lemma CommittedSame(disk: seq<Block>, disk': seq<Block>, start: nat)
    requires start + LOGBLOCKS < |disk| == |disk'|
    requires forall b :: Home(start, |disk|, b) ==> RecoveredAt(disk', start, b) == RecoveredAt(disk, start, b)
    ensures Committed(disk', start) == Committed(disk, start)
  {
  }

  /** Steps that touch one buffer without changing what it shows. */
  lemma QuietPut(s: State, s': State, i: nat)
    requires Inv(s) && Inv(s') && i < |s.cache| == |s'.cache| && s'.cache == s.cache[i := s'.cache[i]]
    requires s'.disk == s.disk && s'.start == s.start && s'.pc == s.pc
    requires s'.cache[i].used == s.cache[i].used && s'.cache[i].blockno == s.cache[i].blockno
    requires s'.cache[i].valid == s.cache[i].valid && (s.cache[i].valid ==> s'.cache[i].data == s.cache[i].data)
    ensures Current(s') == Current(s)
  {
    if !Recovering(s.pc) {
      forall b | Home(s.start, |s.disk|, b)
        ensures View(s'.cache, s'.disk, b) == View(s.cache, s.disk, b)
      {
        ViewSame(s.cache, s.disk, s'.cache, s'.disk, b);
      }
      CurrentSame(s, s');
    }
  }

  /** bget's reuse of a buffer loses nothing: what it held is on the disk. */
  lemma RecycleQuiet(s: State, t: nat, i: nat, b: nat)
    requires Inv(s) && Enabled(s, Recycle(t, i, b))
    ensures ShapeOk(Next(s, Recycle(t, i, b))) && Current(Next(s, Recycle(t, i, b))) == Current(s)
  {
    StepKeeps(s, Recycle(t, i, b));
    var s' := Next(s, Recycle(t, i, b));
    if !Recovering(s.pc) {
      forall c | Home(s.start, |s.disk|, c)
        ensures View(s'.cache, s'.disk, c) == View(s.cache, s.disk, c)
      {
        RecycleView(s, t, i, b, c);
      }
      CurrentSame(s, s');
    }
  }

  lemma RecycleView(s: State, t: nat, i: nat, b: nat, c: int)
    requires Inv(s) && Enabled(s, Recycle(t, i, b)) && Inv(Next(s, Recycle(t, i, b))) && Home(s.start, |s.disk|, c)
    ensures View(Next(s, Recycle(t, i, b)).cache, s.disk, c) == View(s.cache, s.disk, c)
  {
    var cache' := Next(s, Recycle(t, i, b)).cache;
    assert SlotOk(s.cache[i], Logged(s), s.ops, s.start, |s.disk|) && SlotCoherent(s.cache[i], Logged(s), s.disk);
    if Caches(s.cache[i], c) && s.cache[i].valid {
      ViewHit(s.cache, s.disk, i);
      assert !CachedValid(cache', c);
    } else {
      ViewSame(s.cache, s.disk, cache', s.disk, c);
    }
  }

  /** A disk read into an invalid buffer shows what the disk showed. */
  lemma FillQuiet(s: State, t: nat, i: nat)
    requires Inv(s) && Enabled(s, Fill(t, i))
    ensures ShapeOk(Next(s, Fill(t, i))) && Current(Next(s, Fill(t, i))) == Current(s)
  {
    hide LogOk, SlotOk, SlotCoherent, AllCached;
    StepKeeps(s, Fill(t, i));
    var s' := Next(s, Fill(t, i));
    if !Recovering(s.pc) {
      forall c | Home(s.start, |s.disk|, c)
        ensures View(s'.cache, s'.disk, c) == View(s.cache, s.disk, c)
      {
        if s.cache[i].blockno == c {
          ViewHit(s'.cache, s'.disk, i);
          assert !CachedValid(s.cache, c);
        } else {
          ViewSame(s.cache, s.disk, s'.cache, s'.disk, c);
        }
      }
      CurrentSame(s, s');
    }
  }

  lemma ModifyWrites(s: State, t: nat, i: nat, d: Block)
    requires Inv(s) && Enabled(s, Modify(t, i, d))
    ensures var s' := Next(s, Modify(t, i, d)); var b := s.cache[i].blockno as int;
      ShapeOk(s') && b in Current(s) && Current(s') == Current(s)[b := d]
  {
    StepKeeps(s, Modify(t, i, d));
    var s' := Next(s, Modify(t, i, d));
    var b := s.cache[i].blockno as int;
    forall c | Home(s.start, |s.disk|, c)
      ensures View(s'.cache, s'.disk, c) == if c == b then d else View(s.cache, s.disk, c)
    {
      if c == b {
        ViewHit(s'.cache, s'.disk, i);
      } else {
        ViewSame(s.cache, s.disk, s'.cache, s'.disk, c);
      }
    }
  }

  lemma ReadObserves(s: State, t: nat, i: nat)
    requires Inv(s) && Enabled(s, Read(t, i))
    ensures s.cache[i].blockno as int in Current(s) && Current(s)[s.cache[i].blockno] == s.cache[i].data
  {
    ViewHit(s.cache, s.disk, i);
  }

  /** Writing a buffer of the log region leaves every view alone. */
  lemma LogRegionWrite(s: State, s': State, i: nat, d: Block)
    requires Inv(s) && Inv(s') && !Recovering(s.pc) && !Recovering(s'.pc) && s'.start == s.start
    requires i < |s.cache| && s.cache[i].used && s.cache[i].valid
             && s.start <= s.cache[i].blockno <= s.start + LOGBLOCKS
    requires s'.cache == s.cache[i := s.cache[i].(data := d)] && s'.disk == s.disk[s.cache[i].blockno := d]
    ensures Current(s') == Current(s)
  {
    hide LogOk, SlotOk, SlotCoherent, AllCached;
    forall c | Home(s.start, |s.disk|, c)
      ensures View(s'.cache, s'.disk, c) == View(s.cache, s.disk, c)
    {
      ViewSame(s.cache, s.disk, s'.cache, s'.disk, c);
    }
    CurrentSame(s, s');
  }

  lemma CopyQuiet(s: State, i: nat, j: nat)
    requires Inv(s) && Enabled(s, CopyBlock(i, j))
    ensures var s' := Next(s, CopyBlock(i, j));
      ShapeOk(s') && Current(s') == Current(s) && Committed(s'.disk, s'.start) == Committed(s.disk, s.start)
  {
    StepKeeps(s, CopyBlock(i, j));
    var s' := Next(s, CopyBlock(i, j));
    LogRegionWrite(s, s', i, s.cache[j].data);
    CommittedSame(s.disk, s'.disk, s.start);
  }

  /** Writing the header makes everything the operations did durable at once. */
  lemma WriteHeadCommits(s: State, i: nat)
    requires Inv(s) && Enabled(s, WriteHead(i))
    ensures var s' := Next(s, WriteHead(i));
      ShapeOk(s') && Current(s') == Current(s) && Committed(s'.disk, s'.start) == Current(s)
  {
    StepKeeps(s, WriteHead(i));
    var s' := Next(s, WriteHead(i));
    LogRegionWrite(s, s', i, WithHeader(s.cache[i].data, s.lh));
    HeaderCommits(s, s'.disk);
  }

  lemma HeaderCommits(s: State, disk': seq<Block>)
    requires Inv(s) && s.pc.Copying? && s.pc.k == |s.lh| && |disk'| == |s.disk|
    requires disk' == s.disk[s.start := disk'[s.start]] && HeaderOf(disk'[s.start]) == s.lh
    ensures Committed(disk', s.start) == Current(s)
  {
    forall c | Home(s.start, |s.disk|, c)
      ensures RecoveredAt(disk', s.start, c) == View(s.cache, s.disk, c)
    {
      CopiedIsView(s, c);
    }
  }

  /** After write_log, home block `c` will be recovered from its log copy or is already on disk. */
  lemma CopiedIsView(s: State, c: int)
    requires Inv(s) && s.pc.Copying? && s.pc.k == |s.lh| && Home(s.start, |s.disk|, c)
    ensures View(s.cache, s.disk, c) == if c in s.lh then s.disk[LogBlock(s.start, IndexOf(s.lh, c))] else s.disk[c]
  {
    if c in s.lh {
      var m := ViewLogged(s, c);
      assert CachedAs(s.cache, s.lh[IndexOf(s.lh, c)], s.disk[LogBlock(s.start, IndexOf(s.lh, c))]);
    } else {
      ViewClean(s, c);
    }
  }

  lemma InstallQuiet(s: State, i: nat, j: nat)
    requires Inv(s) && Enabled(s, InstallBlock(i, j))
    ensures var s' := Next(s, InstallBlock(i, j));
      ShapeOk(s') && Current(s') == Current(s) && Committed(s'.disk, s'.start) == Committed(s.disk, s.start)
  {
    StepKeeps(s, InstallBlock(i, j));
    var s' := Next(s, InstallBlock(i, j));
    InstallShape(s, i, j);
    forall c | Home(s.start, |s.disk|, c)
      ensures View(s'.cache, s'.disk, c) == View(s.cache, s.disk, c)
    {
      InstallView(s, s', j, c);
    }
    CurrentSame(s, s');
    InstallRecovered(s.disk, s.lh, s.start, s.pc.k);
  }

  lemma InstallView(s: State, s': State, j: nat, c: int)
    requires Unique(s.cache) && Unique(s'.cache) && j < |s.cache| && Home(s.start, |s.disk|, c)
    requires s.cache[j].used && s.cache[j].valid && s.cache[j].blockno < |s.disk|
    requires s.cache[j].refcnt > 0 && s'.cache == s.cache[j := s.cache[j].(refcnt := s.cache[j].refcnt - 1)]
    requires s'.disk == s.disk[s.cache[j].blockno := s.cache[j].data]
    ensures View(s'.cache, s'.disk, c) == View(s.cache, s.disk, c)
  {
    if c == s.cache[j].blockno {
      ViewHit(s.cache, s.disk, j);
      ViewHit(s'.cache, s'.disk, j);
    } else {
      ViewSame(s.cache, s.disk, s'.cache, s'.disk, c);
    }
  }

  /** Installing a block that the header still names is invisible to recovery. */
  lemma InstallRecovered(disk: seq<Block>, lh: seq<int>, start: nat, k: nat)
    requires start + LOGBLOCKS < |disk| && HeaderFits(lh, start, |disk|) && k < |lh| && HeaderOf(disk[start]) == lh
    ensures Committed(disk[lh[k] := disk[LogBlock(start, k)]], start) == Committed(disk, start)
  {
    var disk' := disk[lh[k] := disk[LogBlock(start, k)]];
    assert Home(start, |disk|, lh[k]);
    assert disk'[start] == disk[start];
    forall c | Home(start, |disk|, c)
      ensures RecoveredAt(disk', start, c) == RecoveredAt(disk, start, c)
    {
      assert c in lh ==> disk'[LogBlock(start, IndexOf(lh, c))] == disk[LogBlock(start, IndexOf(lh, c))];
    }
    CommittedSame(disk, disk', start);
  }

  /** Once every block is home, dropping the header changes nothing. */
  lemma ClearedSame(disk: seq<Block>, disk': seq<Block>, lh: seq<int>, start: nat)
    requires start + LOGBLOCKS < |disk| && HeaderFits(lh, start, |disk|) && HeaderOf(disk[start]) == lh
    requires InstalledTo(lh, start, disk, |lh|)
    requires |disk'| == |disk| && disk' == disk[start := disk'[start]] && HeaderOf(disk'[start]) == []
    ensures Committed(disk', start) == Committed(disk, start)
    ensures forall b :: Home(start, |disk|, b) ==> RecoveredAt(disk', start, b) == disk[b]
  {
    CommittedSame(disk, disk', start);
  }

  lemma ClearHeadQuiet(s: State, i: nat)
    requires Inv(s) && Enabled(s, ClearHead(i))
    ensures var s' := Next(s, ClearHead(i));
      ShapeOk(s') && Current(s') == Current(s) && Committed(s'.disk, s'.start) == Committed(s.disk, s.start)
  {
    StepKeeps(s, ClearHead(i));
    var s' := Next(s, ClearHead(i));
    ClearedSame(s.disk, s'.disk, s.lh, s.start);
    LogRegionWrite(s, s', i, WithHeader(s.cache[i].data, []));
  }

  /** With nothing logged and no operation running, the committed contents are current. */
  lemma QuiescentCommitted(s: State)
    requires Inv(s) && !Recovering(s.pc) && s.ops == map[] && Logged(s) == [] && HeaderOf(s.disk[s.start]) == []
    ensures Committed(s.disk, s.start) == Current(s)
  {
    forall c | Home(s.start, |s.disk|, c)
      ensures RecoveredAt(s.disk, s.start, c) == View(s.cache, s.disk, c)
    {
      ViewClean(s, c);
    }
  }

  lemma ReplayQuiet(s: State, i: nat, j: nat)
    requires Inv(s) && Enabled(s, ReplayBlock(i, j))
    ensures var s' := Next(s, ReplayBlock(i, j));
      Committed(s'.disk, s'.start) == Committed(s.disk, s.start)
  {
    ReplayBufferIsLog(s, i);
    var s' := Next(s, ReplayBlock(i, j));
    InstallRecovered(s.disk, s.lh, s.start, s.pc.k);
  }

  lemma ReplayClearQuiet(s: State, i: nat)
    requires Inv(s) && Enabled(s, ReplayClear(i))
    ensures var s' := Next(s, ReplayClear(i));
      ShapeOk(s') && Current(s') == Current(s) && Committed(s'.disk, s'.start) == Committed(s.disk, s.start)
  {
    StepKeeps(s, ReplayClear(i));
    var s' := Next(s, ReplayClear(i));
    ClearedSame(s.disk, s'.disk, s.lh, s.start);
    QuiescentCommitted(s');
  }

  /** Taking and dropping references and locks. */
  lemma HoldQuiet(s: State, step: Step)
    requires Inv(s) && Enabled(s, step) && (step.Ref? || step.Lock? || step.Unlock? || step.Unref?)
    ensures var s' := Next(s, step); ShapeOk(s') && Meaning(s') == Meaning(s)
  {
    StepKeeps(s, step);
    QuietPut(s, Next(s, step), step.i);
  }

  lemma LoadQuiet(s: State, step: Step)
    requires Inv(s) && Enabled(s, step) && (step.Recycle? || step.Fill?)
    ensures var s' := Next(s, step); ShapeOk(s') && Meaning(s') == Meaning(s)
  {
    if step.Recycle? {
      RecycleQuiet(s, step.t, step.i, step.b);
    } else {
      FillQuiet(s, step.t, step.i);
    }
  }

  lemma BufferStepRefines(s: State, step: Step)
    requires Inv(s) && Enabled(s, step) && BufferStep(step)
    ensures var s' := Next(s, step);
      ShapeOk(s') && Allowed(Meaning(s), EventOf(s, step)) && Meaning(s') == Do(Meaning(s), EventOf(s, step))
  {
    if step.Read? {
      ReadObserves(s, step.t, step.i);
    } else if step.Recycle? || step.Fill? {
      LoadQuiet(s, step);
    } else {
      HoldQuiet(s, step);
    }
  }

  lemma CommitStepRefines(s: State, step: Step)
    requires Inv(s) && Enabled(s, step) && CommitStep(step)
    ensures var s' := Next(s, step);
      ShapeOk(s') && Allowed(Meaning(s), EventOf(s, step)) && Meaning(s') == Do(Meaning(s), EventOf(s, step))
  {
    match step
    case CopyBlock(i, j) => CopyQuiet(s, i, j);
    case WriteHead(i) => WriteHeadCommits(s, i);
    case InstallBlock(i, j) => InstallQuiet(s, i, j);
    case ClearHead(i) => ClearHeadQuiet(s, i);
    case NothingLogged =>
      StepKeeps(s, step);
      QuiescentCommitted(s);
      assert Current(Next(s, step)) == Current(s);
    case CommitDone =>
      StepKeeps(s, step);
      assert Current(Next(s, step)) == Current(s);
  }

  lemma RecoveryStepRefines(s: State, step: Step)
    requires Inv(s) && Enabled(s, step) && RecoveryStep(step)
    ensures var s' := Next(s, step);
      ShapeOk(s') && Allowed(Meaning(s), EventOf(s, step)) && Meaning(s') == Do(Meaning(s), EventOf(s, step))
  {
    StepKeeps(s, step);
    match step
    case Crash =>
    case ReadHead(i) =>
    case ReplayBlock(i, j) => ReplayQuiet(s, i, j);
    case ReplayClear(i) => ReplayClearQuiet(s, i);
  }

  lemma LogWriteQuiet(s: State, t: nat, i: nat)
    requires Inv(s) && Enabled(s, LogWrite(t, i))
    ensures var s' := Next(s, LogWrite(t, i));
      ShapeOk(s') && Current(s') == Current(s) && s'.disk == s.disk && s'.ops.Keys == s.ops.Keys
  {
    StepKeeps(s, LogWrite(t, i));
    QuietPut(s, Next(s, LogWrite(t, i)), i);
  }

  /** Steps that change neither the cache nor the disk. */
  lemma SameContents(s: State, s': State)
    requires ShapeOk(s) && ShapeOk(s') && s'.cache == s.cache && s'.disk == s.disk && s'.start == s.start
    requires Recovering(s'.pc) == Recovering(s.pc)
    ensures Current(s') == Current(s) && Committed(s'.disk, s'.start) == Committed(s.disk, s.start)
  {
  }

  lemma EndOpRefines(s: State, t: nat)
    requires Inv(s) && Enabled(s, EndOp(t))
    ensures var s' := Next(s, EndOp(t));
      ShapeOk(s') && Allowed(Meaning(s), End(t)) && Meaning(s') == Do(Meaning(s), End(t))
  {
    StepKeeps(s, EndOp(t));
    SameContents(s, Next(s, EndOp(t)));
    assert Next(s, EndOp(t)).ops.Keys == s.ops.Keys - {t};
  }

  lemma BeginOpRefines(s: State, t: nat)
    requires Inv(s) && Enabled(s, BeginOp(t))
    ensures var s' := Next(s, BeginOp(t));
      ShapeOk(s') && Allowed(Meaning(s), Begin(t)) && Meaning(s') == Do(Meaning(s), Begin(t))
  {
    StepKeeps(s, BeginOp(t));
    SameContents(s, Next(s, BeginOp(t)));
    assert Next(s, BeginOp(t)).ops.Keys == s.ops.Keys + {t};
  }

  lemma SyncRefines(s: State, syncing: map<nat, Waiter>)
    requires Inv(s)
    ensures var s' := s.(syncing := syncing); ShapeOk(s') && Meaning(s') == Meaning(s)
  {
    SameContents(s, s.(syncing := syncing));
  }

  lemma OperationStepRefines(s: State, step: Step)
    requires Inv(s) && Enabled(s, step) && !BufferStep(step) && !CommitStep(step) && !RecoveryStep(step)
    ensures var s' := Next(s, step);
      ShapeOk(s') && Allowed(Meaning(s), EventOf(s, step)) && Meaning(s') == Do(Meaning(s), EventOf(s, step))
  {
    match step
    case Modify(t, i, d) => ModifyWrites(s, t, i, d);
    case LogWrite(t, i) => LogWriteQuiet(s, t, i);
    case BeginOp(t) => BeginOpRefines(s, t);
    case EndOp(t) => EndOpRefines(s, t);
    case SyncCall(t) => SyncRefines(s, Next(s, step).syncing);
    case SyncReturn(t) => SyncRefines(s, Next(s, step).syncing);
  }

  /** One step of the machine is one event of the logical disk. */
  lemma StepRefines(s: State, step: Step)
    requires Inv(s) && Enabled(s, step)
    ensures var s' := Next(s, step);
      ShapeOk(s') && Allowed(Meaning(s), EventOf(s, step)) && Meaning(s') == Do(Meaning(s), EventOf(s, step))
  {
    if BufferStep(step) {
      BufferStepRefines(s, step);
    } else if CommitStep(step) {
      CommitStepRefines(s, step);
    } else if RecoveryStep(step) {
      RecoveryStepRefines(s, step);
    } else {
      OperationStepRefines(s, step);
    }
  }

  // ---------- whole runs ----------

  predicate Runs(s: State, steps: seq<Step>)
    decreases |steps|
  {
    steps == [] || (Enabled(s, steps[0]) && Runs(Next(s, steps[0]), steps[1..]))
  }

  function After(s: State, steps: seq<Step>): State
    requires Runs(s, steps)
    decreases |steps|
  {
    if steps == [] then s else After(Next(s, steps[0]), steps[1..])
  }

  function Trace(s: State, steps: seq<Step>): (es: seq<Event>)
    requires Runs(s, steps)
    ensures |es| == |steps|
    decreases |steps|
  {
    if steps == [] then [] else [EventOf(s, steps[0])] + Trace(Next(s, steps[0]), steps[1..])
  }

  /** Power-on: empty memory, and a disk whose header is readable and lists distinct home blocks. */
  predicate PowerOn(s: State) {
    && s.pc.Booting? && s.lh == [] && s.ops == map[] && s.syncing == map[] && s.ended == s.durable
    && s.start + LOGBLOCKS < |s.disk|
    && Readable(s.disk[s.start]) && HeaderFits(HeaderOf(s.disk[s.start]), s.start, |s.disk|)
    && forall i :: 0 <= i < |s.cache| ==> s.cache[i] == EmptySlot(s.cache[i])
  }

  lemma PowerOnInv(s: State)
    requires PowerOn(s)
    ensures Inv(s) && Meaning(s).active == {} && Meaning(s).cur == Meaning(s).committed
            && Meaning(s).ended == Meaning(s).durable
  {
    forall i | 0 <= i < |s.cache|
      ensures SlotOk(s.cache[i], [], s.ops, s.start, |s.disk|) && SlotCoherent(s.cache[i], [], s.disk)
    {
      assert s.cache[i] == EmptySlot(s.cache[i]);
    }
  }

  /** Refinement: every run of the log and cache, with any interleaving and any crashes, is a
      history of the logical disk. */
  lemma {:induction false} RunRefines(s: State, steps: seq<Step>)
    requires Inv(s) && Runs(s, steps)
    ensures Inv(After(s, steps))
    ensures History(Meaning(s), Trace(s, steps))
    ensures Meaning(After(s, steps)) == DoAll(Meaning(s), Trace(s, steps))
    decreases |steps|
  {
    if steps != [] {
      StepKeeps(s, steps[0]);
      StepRefines(s, steps[0]);
      RunRefines(Next(s, steps[0]), steps[1..]);
      assert Trace(s, steps)[1..] == Trace(Next(s, steps[0]), steps[1..]);
    }
  }

  // ---------- on the logical disk, what is committed is a whole prefix ----------

  /** The first `k` events end with no operation active, leave contents `m`, and `n` operations
      have ended by then. */
  predicate WholePrefix(a: Disk, es: seq<Event>, k: nat, m: map<int, Block>, n: nat) {
    && k <= |es|
    && var p := DoAll(a, es[..k]); p.active == {} && p.cur == m && p.ended == n
  }

  lemma {:induction false} DoAllAppend(a: Disk, es: seq<Event>, e: Event)
    ensures DoAll(a, es + [e]) == Do(DoAll(a, es), e)
    ensures History(a, es + [e]) <==> History(a, es) && Allowed(DoAll(a, es), e)
    decreases |es|
  {
    if es == [] {
      assert (es + [e])[1..] == [];
    } else {
      DoAllAppend(Do(a, es[0]), es[1..], e);
      assert (es + [e])[1..] == es[1..] + [e];
    }
  }

  lemma {:induction false} CommittedIsPrefix(a: Disk, es: seq<Event>) returns (k: nat)
    requires a.active == {} && a.cur == a.committed && a.ended == a.durable && History(a, es)
    ensures WholePrefix(a, es, k, DoAll(a, es).committed, DoAll(a, es).durable)
    decreases |es|
  {
    if es == [] {
      k := 0;
    } else {
      var front := es[..|es| - 1];
      var e := es[|es| - 1];
      assert es == front + [e];
      DoAllAppend(a, front, e);
      if e.Commit? {
        k := |es| - 1;
      } else {
        k := CommittedIsPrefix(a, front);
        assert es[..k] == front[..k];
      }
    }
  }

  // ---------- crash atomicity ----------

  /** No operation starts: boot, recovery, further crashes, and reads after recovery. */
  predicate NoOps(steps: seq<Step>) { forall i :: 0 <= i < |steps| ==> !steps[i].BeginOp? }

  lemma StepKeepsCommitted(s: State, step: Step)
    requires Inv(s) && Enabled(s, step) && !step.BeginOp? && s.ops == map[] && !Committing(s.pc)
    ensures var s' := Next(s, step);
      && Inv(s') && s'.ops == map[] && !Committing(s'.pc) && s'.start == s.start && |s'.disk| == |s.disk|
      && Committed(s'.disk, s'.start) == Committed(s.disk, s.start)
  {
    StepKeeps(s, step);
    StepRefines(s, step);
    assert !EventOf(s, step).Commit?;
    assert Meaning(Next(s, step)).committed == Meaning(s).committed;
  }

  lemma {:induction false} RecoveryKeepsCommitted(s: State, steps: seq<Step>)
    requires Inv(s) && Runs(s, steps) && NoOps(steps) && s.ops == map[] && !Committing(s.pc)
    ensures var s' := After(s, steps);
      && Inv(s') && s'.ops == map[] && !Committing(s'.pc) && s'.start == s.start && |s'.disk| == |s.disk|
      && Committed(s'.disk, s'.start) == Committed(s.disk, s.start)
    decreases |steps|
  {
    if steps != [] {
      StepKeepsCommitted(s, steps[0]);
      RecoveryKeepsCommitted(Next(s, steps[0]), steps[1..]);
    }
  }

  /** The home blocks of a disk image. */
  function HomeBlocks(disk: seq<Block>, start: nat): map<int, Block> {
    map b: int | 0 <= b < |disk| && Home(start, |disk|, b) :: disk[b]
  }

  /** Crash atomicity. Take any run from power-on, crash at any point, and let recovery run to its
      end through any number of further crashes: the home blocks then hold exactly the contents
      that file system calls saw after some whole prefix of the run in which no operation was
      half done, and every operation covered by the last commit is in that prefix. */
  lemma CrashAtomicity(s0: State, steps: seq<Step>, recovery: seq<Step>) returns (k: nat)
    requires PowerOn(s0) && Runs(s0, steps)
    requires Runs(Next(After(s0, steps), Crash), recovery) && NoOps(recovery)
    requires After(Next(After(s0, steps), Crash), recovery).pc.Normal?
    ensures ShapeOk(s0)
    ensures var end := After(Next(After(s0, steps), Crash), recovery);
      WholePrefix(Meaning(s0), Trace(s0, steps), k, HomeBlocks(end.disk, end.start), After(s0, steps).durable)
  {
    PowerOnInv(s0);
    RunRefines(s0, steps);
    var s := After(s0, steps);
    StepKeeps(s, Crash);
    var c := Next(s, Crash);
    RecoveryKeepsCommitted(c, recovery);
    var end := After(c, recovery);
    NormalIsCommitted(end);
    k := CommittedIsPrefix(Meaning(s0), Trace(s0, steps));
  }

  lemma NormalIsCommitted(s: State)
    requires Inv(s) && s.pc.Normal?
    ensures Committed(s.disk, s.start) == HomeBlocks(s.disk, s.start)
  {
  }

  // ---------- the header stays readable ----------

  lemma ReadableStep(s: State, step: Step)
    requires Inv(s) && Readable(s.disk[s.start]) && Enabled(s, step)
    ensures var s' := Next(s, step); s'.start == s.start && |s'.disk| == |s.disk| && Readable(s'.disk[s.start])
  {
    hide CacheOk, LogOk, Logged;
  }

  lemma {:induction false} ReadableRun(s: State, steps: seq<Step>)
    requires Inv(s) && Readable(s.disk[s.start]) && Runs(s, steps)
    ensures var u := After(s, steps); Inv(u) && Readable(u.disk[u.start])
    decreases |steps|
  {
    if steps != [] {
      StepKeeps(s, steps[0]);
      ReadableStep(s, steps[0]);
      ReadableRun(Next(s, steps[0]), steps[1..]);
    }
  }

  /** Whatever crashes a run takes, the count that recovery reads fits the in-memory header. */
  lemma HeaderReadable(s0: State, steps: seq<Step>, i: nat)
    requires PowerOn(s0) && Runs(s0, steps) && Enabled(After(s0, steps), ReadHead(i))
    ensures var s := After(s0, steps);
            s.start < |s.disk| && Readable(s.cache[i].data) && s.cache[i].data == s.disk[s.start]
  {
    PowerOnInv(s0);
    ReadableRun(s0, steps);
    var s := After(s0, steps);
    assert SlotOk(s.cache[i], [], s.ops, s.start, |s.disk|) && SlotCoherent(s.cache[i], [], s.disk);
  }

  // ---------- sync ----------

  /** A waiter whose commit number has come finds its operations committed. */
  predicate SyncOk(s: State) {
    forall t :: t in s.syncing ==>
      && s.syncing[t].endedAtCall <= s.ended
      && (s.ncommit >= s.syncing[t].target ==> s.syncing[t].endedAtCall <= s.durable)
  }

  lemma SyncStep(s: State, step: Step)
    requires Inv(s) && SyncOk(s) && Enabled(s, step)
    ensures SyncOk(Next(s, step)) && Next(s, step).durable >= s.durable
  {
    hide CacheOk;
  }

  lemma {:induction false} SyncRun(s: State, steps: seq<Step>)
    requires Inv(s) && SyncOk(s) && Runs(s, steps)
    ensures Inv(After(s, steps)) && SyncOk(After(s, steps)) && After(s, steps).durable >= s.durable
    decreases |steps|
  {
    if steps != [] {
      StepKeeps(s, steps[0]);
      SyncStep(s, steps[0]);
      SyncRun(Next(s, steps[0]), steps[1..]);
    }
  }

  /** Sync durability. When sys_sync returns, whether at once or after waiting, every operation that
      had ended before the call is covered by a commit, and stays covered in every later state,
      crashes and recoveries included. */
  lemma SyncDurability(s0: State, steps: seq<Step>, t: nat, later: seq<Step>)
    requires PowerOn(s0) && Runs(s0, steps) && Runs(After(s0, steps), later)
    ensures var s := After(s0, steps);
      && (Enabled(s, SyncReturn(t)) ==> After(s, later).durable >= s.syncing[t].endedAtCall)
      && (s.pc.Normal? && s.ops == map[] ==> After(s, later).durable >= s.ended)
  {
    PowerOnInv(s0);
    SyncRun(s0, steps);
    SyncRun(After(s0, steps), later);
  }

  // ---------- log space ----------

  /** Log space reserved by outstanding operations and not used yet. */
  ghost function Unused(ops: map<nat, nat>): int {
    if ops == map[] then 0
    else var t :| t in ops; MAXOPBLOCKS - ops[t] + Unused(ops - {t})
  }

  lemma {:induction false} UnusedRemove(ops: map<nat, nat>, t: nat)
    requires t in ops
    ensures Unused(ops) == MAXOPBLOCKS - ops[t] + Unused(ops - {t})
    decreases ops
  {
    var u :| u in ops && Unused(ops) == MAXOPBLOCKS - ops[u] + Unused(ops - {u});
    if u != t {
      UnusedRemove(ops - {u}, t);
      UnusedRemove(ops - {t}, u);
      assert ops - {u} - {t} == ops - {t} - {u};
    }
  }

  ghost predicate Reserved(s: State) {
    && (forall t :: t in s.ops ==> s.ops[t] <= MAXOPBLOCKS)
    && |s.lh| + Unused(s.ops) <= LOGBLOCKS
  }

  lemma {:induction false} UnusedBounds(ops: map<nat, nat>)
    requires forall t :: t in ops ==> ops[t] <= MAXOPBLOCKS
    ensures 0 <= Unused(ops) <= |ops| * MAXOPBLOCKS
    decreases ops
  {
    if ops != map[] {
      var t :| t in ops;
      UnusedRemove(ops, t);
      UnusedBounds(ops - {t});
      assert ops.Keys == (ops - {t}).Keys + {t};
    }
  }

  lemma UnusedUpdate(ops: map<nat, nat>, t: nat, n: nat)
    ensures t in ops ==> Unused(ops[t := n]) == Unused(ops) + ops[t] - n
    ensures t !in ops ==> Unused(ops[t := n]) == Unused(ops) + MAXOPBLOCKS - n
  {
    UnusedRemove(ops[t := n], t);
    if t in ops {
      UnusedRemove(ops, t);
      assert ops[t := n] - {t} == ops - {t};
    } else {
      assert ops[t := n] - {t} == ops;
    }
  }

  predicate SpaceStep(step: Step) { step.BeginOp? || step.EndOp? || step.LogWrite? || step.ReadHead? }

  lemma SpaceUntouched(s: State, step: Step)
    requires Enabled(s, step) && !SpaceStep(step)
    ensures Next(s, step).ops == s.ops || Next(s, step).ops == map[]
    ensures Next(s, step).lh == s.lh || Next(s, step).lh == []
  {
    hide Has, Owns, MayUse, IsHome, Readable, HeaderOf, WithHeader;
  }

  lemma ReservedBegin(s: State, t: nat)
    requires Reserved(s) && Enabled(s, BeginOp(t))
    ensures Reserved(Next(s, BeginOp(t)))
  {
    UnusedBounds(s.ops);
    UnusedUpdate(s.ops, t, 0);
  }

  lemma ReservedEnd(s: State, t: nat)
    requires Reserved(s) && Enabled(s, EndOp(t))
    ensures Reserved(Next(s, EndOp(t)))
  {
    UnusedRemove(s.ops, t);
    assert Next(s, EndOp(t)).ops == s.ops - {t};
  }

  lemma ReservedLogWrite(s: State, t: nat, i: nat)
    requires Reserved(s) && Enabled(s, LogWrite(t, i))
    ensures Reserved(Next(s, LogWrite(t, i)))
  {
    UnusedUpdate(s.ops, t, s.ops[t] + 1);
  }

  lemma ReservedStep(s: State, step: Step)
    requires Inv(s) && Reserved(s) && Enabled(s, step)
    ensures Reserved(Next(s, step))
  {
    UnusedBounds(s.ops);
    if !SpaceStep(step) {
      SpaceUntouched(s, step);
    } else if step.BeginOp? {
      ReservedBegin(s, step.t);
    } else if step.EndOp? {
      ReservedEnd(s, step.t);
    } else if step.LogWrite? {
      ReservedLogWrite(s, step.t, step.i);
    }
  }

  lemma {:induction false} ReservedRun(s: State, steps: seq<Step>)
    requires Inv(s) && Reserved(s) && Runs(s, steps)
    ensures Inv(After(s, steps)) && Reserved(After(s, steps))
    decreases |steps|
  {
    if steps != [] {
      StepKeeps(s, steps[0]);
      ReservedStep(s, steps[0]);
      ReservedRun(Next(s, steps[0]), steps[1..]);
    }
  }

  /** Log reservation. In every reachable state the logged blocks and the unused reservations fit in
      the log, header entries are distinct, and a commit runs only with no operation outstanding.
      Hence an operation that has not used up its own reservation never meets the overflow panic
      of log_write, and when log_write would panic every outstanding operation has added its full
      MAXOPBLOCKS. */
  lemma ReservationHolds(s0: State, steps: seq<Step>, t: nat)
    requires PowerOn(s0) && Runs(s0, steps)
    ensures var s := After(s0, steps);
      && |s.lh| + Unused(s.ops) <= LOGBLOCKS
      && (!Recovering(s.pc) ==> Distinct(s.lh))
      && (Committing(s.pc) ==> s.ops == map[])
      && (t in s.ops && s.ops[t] < MAXOPBLOCKS ==> |s.lh| < LOGBLOCKS)
      && (t in s.ops && |s.lh| >= LOGBLOCKS ==> s.ops[t] == MAXOPBLOCKS)
  {
    PowerOnInv(s0);
    ReservedRun(s0, steps);
    var s := After(s0, steps);
    if t in s.ops {
      UnusedRemove(s.ops, t);
      UnusedBounds(s.ops - {t});
    }
  }

  /** In every reachable state a buffer's reference count is the number of threads holding it, plus one while
      its block is in the log header. */
  lemma RefcountExact(s0: State, steps: seq<Step>, i: nat)
    requires PowerOn(s0) && Runs(s0, steps) && i < |After(s0, steps).cache|
    ensures var s := After(s0, steps); var x := s.cache[i];
      x.refcnt == |x.holders| + (if x.used && x.blockno as int in Logged(s) then 1 else 0)
  {
    PowerOnInv(s0);
    RunRefines(s0, steps);
    var s := After(s0, steps);
    assert SlotOk(s.cache[i], Logged(s), s.ops, s.start, |s.disk|);
  }

  /** A logged block keeps its buffer: no bget may reuse it, from log_write until it is installed. */
  lemma LoggedNeverRecycled(s0: State, steps: seq<Step>, t: nat, i: nat, b: nat)
    requires PowerOn(s0) && Runs(s0, steps) && i < |After(s0, steps).cache|
    requires var s := After(s0, steps); s.cache[i].used && s.cache[i].blockno as int in Logged(s)
    ensures !Enabled(After(s0, steps), Recycle(t, i, b))
    ensures var s := After(s0, steps);
      s.cache[i].refcnt == |s.cache[i].holders| + 1 && s.cache[i].valid
  {
    PowerOnInv(s0);
    RunRefines(s0, steps);
    var s := After(s0, steps);
    assert SlotOk(s.cache[i], Logged(s), s.ops, s.start, |s.disk|);
  }

  /** No uncommitted contents reach a home block: whatever the next step is, a home block of the disk
      changes only to its committed contents. */
  lemma OnlyCommittedReachesHome(s0: State, steps: seq<Step>, step: Step, b: int)
    requires PowerOn(s0) && Runs(s0, steps) && Enabled(After(s0, steps), step)
    requires ShapeOk(After(s0, steps)) && Home(After(s0, steps).start, |After(s0, steps).disk|, b)
    ensures var s := After(s0, steps); var s' := Next(s, step);
      |s'.disk| == |s.disk| && (s'.disk[b] == s.disk[b] || s'.disk[b] == Committed(s.disk, s.start)[b])
  {
    hide CacheOk;
    PowerOnInv(s0);
    RunRefines(s0, steps);
    var s := After(s0, steps);
    if step.InstallBlock? {
      InstallShape(s, step.i, step.j);
      IndexOfAt(s.lh, s.pc.k);
    } else if step.ReplayBlock? {
      ReplayBufferIsLog(s, step.i);
      IndexOfAt(s.lh, s.pc.k);
    } else {
      OtherStepsKeepHome(s, step, b);
    }
  }

  lemma OtherStepsKeepHome(s: State, step: Step, b: int)
    requires ShapeOk(s) && Enabled(s, step) && !step.InstallBlock? && !step.ReplayBlock? && Home(s.start, |s.disk|, b)
    ensures |Next(s, step).disk| == |s.disk| && Next(s, step).disk[b] == s.disk[b]
  {
  }

  lemma IndexOfAt(h: seq<int>, k: nat)
    requires Distinct(h) && k < |h|
    ensures IndexOf(h, h[k]) == k
  {
  }
}

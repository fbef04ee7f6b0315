/** Recovery and commit come to their end: from every state of the log machine in which one of them is under way
    there is a run of buffer cache and log steps that completes it (kernel/log.c, kernel/bio.c). */
module LogProgress {
  import opened LogMachine
  import opened LogRefinement
  import opened Util

  /** Steps of the cache and of the log itself: no crash, and nothing of a file system operation. */
  predicate Upkeep(step: Step) {
    || step.Ref? || step.Recycle? || step.Lock? || step.Fill? || step.Unlock? || step.Unref?
    || step.CopyBlock? || step.WriteHead? || step.InstallBlock? || step.ClearHead? || step.NothingLogged?
    || step.CommitDone? || step.ReadHead? || step.ReplayBlock? || step.ReplayClear?
  }

  predicate AllUpkeep(steps: seq<Step>) { forall i :: 0 <= i < |steps| ==> Upkeep(steps[i]) }

  /** steps lead from s to t. */
  ghost predicate Leads(s: State, steps: seq<Step>, t: State) {
    Runs(s, steps) && After(s, steps) == t && AllUpkeep(steps) && Inv(t)
  }

  lemma Stay(s: State)
    requires Inv(s)
    ensures Leads(s, [], s)
  {
  }

  lemma One(s: State, step: Step)
    requires Inv(s) && Enabled(s, step) && Upkeep(step)
    ensures Leads(s, [step], Next(s, step))
  {
    hide Inv, Enabled, Next;
    StepKeeps(s, step);
    assert [step][1..] == [] && Runs(Next(s, step), []) && After(Next(s, step), []) == Next(s, step);
  }

  lemma {:induction false} Then(s: State, a: seq<Step>, t: State, b: seq<Step>, u: State)
    requires Leads(s, a, t) && Leads(t, b, u)
    ensures Leads(s, a + b, u)
    decreases |a|
  {
    hide Inv, Enabled, Next;
    if a == [] {
      assert a + b == b;
    } else {
      assert AllUpkeep(a[1..]);
      Then(Next(s, a[0]), a[1..], t, b, u);
      assert (a + b)[1..] == a[1..] + b;
    }
  }

  lemma Add(s: State, a: seq<Step>, t: State, step: Step)
    requires Leads(s, a, t) && Enabled(t, step) && Upkeep(step)
    ensures Leads(s, a + [step], Next(t, step))
  {
    hide Inv, Enabled, Next;
    One(t, step);
    Then(s, a, t, [step], Next(t, step));
  }

  // ---------- letting go of buffers ----------

  /** No thread uses the buffer. */
  predicate Idle(x: Slot) { x.holders == {} && x.owner.None? }

  predicate AllIdle(s: State) { forall i :: 0 <= i < |s.cache| ==> Idle(s.cache[i]) }

  /** What the invariant says of one buffer while no operation is open. */
  lemma SlotFacts(s: State, i: nat)
    requires Inv(s) && s.ops == map[] && i < |s.cache|
    ensures var x := s.cache[i];
            && !x.dirty && (x.owner.Some? ==> x.used && x.owner.value in x.holders) && (x.used ==> x.blockno < |s.disk|)
            && x.refcnt == |x.holders| + (if x.used && x.blockno as int in Logged(s) then 1 else 0)
            && (x.used && x.blockno as int in Logged(s) ==> x.valid)
  {
    assert SlotOk(s.cache[i], Logged(s), s.ops, s.start, |s.disk|);
  }

  function Released(x: Slot): Slot
    requires x.refcnt >= |x.holders|
  { x.(holders := {}, owner := None, refcnt := x.refcnt - |x.holders|) }

  /** One thread lets go of a buffer. */
  function LetGo(x: Slot, t: nat): Slot
    requires x.refcnt > 0
  { x.(holders := x.holders - {t}, owner := None, refcnt := x.refcnt - 1) }

  lemma ReleaseOne(s: State, i: nat, t: nat) returns (steps: seq<Step>)
    requires Inv(s) && i < |s.cache| && !s.cache[i].dirty && s.cache[i].refcnt > 0 && t in s.cache[i].holders
    requires s.cache[i].owner.Some? ==> s.cache[i].used && s.cache[i].owner == Some(t)
    ensures Leads(s, steps, Put(s, i, LetGo(s.cache[i], t)))
  {
    hide Inv, Leads;
    Stay(s);
    var s1 := s;
    steps := [];
    if s.cache[i].owner.Some? {
      Add(s, steps, s, Unlock(t, i));
      steps, s1 := steps + [Unlock(t, i)], Next(s, Unlock(t, i));
    }
    Add(s, steps, s1, Unref(t, i));
    steps := steps + [Unref(t, i)];
    assert Next(s1, Unref(t, i)) == Put(s, i, LetGo(s.cache[i], t));
  }

  lemma {:induction false} DrainSlot(s: State, i: nat) returns (steps: seq<Step>)
    requires Inv(s) && s.ops == map[] && i < |s.cache|
    ensures s.cache[i].refcnt >= |s.cache[i].holders|
    ensures Leads(s, steps, Put(s, i, Released(s.cache[i])))
    decreases |s.cache[i].holders|
  {
    hide Inv, Leads;
    SlotFacts(s, i);
    var x := s.cache[i];
    if x.holders == {} {
      Stay(s);
      assert s.cache[i := Released(x)] == s.cache;
      return [];
    }
    var t :| t in x.holders && (x.owner.Some? ==> t == x.owner.value);
    var first := ReleaseOne(s, i, t);
    var s1 := Put(s, i, LetGo(x, t));
    LeadsInv(s, first, s1);
    assert |x.holders - {t}| == |x.holders| - 1;
    var rest := DrainSlot(s1, i);
    Then(s, first, s1, rest, Put(s1, i, Released(s1.cache[i])));
    assert Put(s1, i, Released(s1.cache[i])) == Put(s, i, Released(x));
    steps := first + rest;
  }

  lemma LeadsInv(s: State, steps: seq<Step>, t: State)
    requires Leads(s, steps, t)
    ensures Inv(t)
  {
  }

  /** s' is s but for the buffers. */
  predicate OnlyCache(s: State, s': State) { s' == s.(cache := s'.cache) && |s'.cache| == |s.cache| }

  lemma {:induction false} DrainTo(s: State, n: nat) returns (steps: seq<Step>, s': State)
    requires Inv(s) && s.ops == map[] && n <= |s.cache|
    ensures Leads(s, steps, s') && OnlyCache(s, s') && forall i :: 0 <= i < n ==> Idle(s'.cache[i])
    decreases n
  {
    hide Inv, Leads;
    if n == 0 {
      Stay(s);
      return [], s;
    }
    var front, t := DrainTo(s, n - 1);
    LeadsInv(s, front, t);
    var last := DrainSlot(t, n - 1);
    s' := Put(t, n - 1, Released(t.cache[n - 1]));
    Then(s, front, t, last, s');
    steps := front + last;
  }

  /** Whatever has been done so far, everybody can let go of all buffers. */
  lemma Drain(s: State, a: seq<Step>, t: State) returns (steps: seq<Step>, s': State)
    requires Leads(s, a, t) && t.ops == map[]
    ensures Leads(s, steps, s') && OnlyCache(t, s') && AllIdle(s')
  {
    hide Inv, Leads;
    LeadsInv(s, a, t);
    var rest;
    rest, s' := DrainTo(t, |t.cache|);
    Then(s, a, t, rest, s');
    steps := a + rest;
  }

  // ---------- getting hold of a block ----------

  /** Thread t can have block b: it is cached in an idle buffer, or spare is an unreferenced one. */
  ghost predicate Within(s: State, t: nat, b: nat, spare: nat) {
    && MayUse(s, t, b)
    && (forall i :: 0 <= i < |s.cache| && Caches(s.cache[i], b) ==> Idle(s.cache[i]))
    && (Cached(s.cache, b) || (spare < |s.cache| && s.cache[spare].refcnt == 0))
  }

  /** Thread t owns a valid buffer of block b. */
  predicate Holds(s: State, t: nat, i: nat, b: int) {
    Owns(s, t, i) && s.cache[i].valid && s.cache[i].blockno == b
  }

  /** bget's first half: a reference. */
  lemma Grab(s: State, a: seq<Step>, u: State, t: nat, b: nat, spare: nat) returns (steps: seq<Step>, v: State, i: nat)
    requires Leads(s, a, u) && Within(u, t, b, spare)
    ensures Leads(s, steps, v) && i < |u.cache| == |v.cache| && v == Put(u, i, v.cache[i])
    ensures Caches(u.cache[i], b) || i == spare
    ensures Cached(u.cache, b) ==> Caches(u.cache[i], b)
    ensures var x := v.cache[i]; x.used && x.blockno == b && t in x.holders && x.owner.None? && x.refcnt > 0
  {
    hide Inv, Leads;
    if j :| 0 <= j < |u.cache| && Caches(u.cache[j], b) {
      i := j;
      Add(s, a, u, Ref(t, i));
      steps, v := a + [Ref(t, i)], Next(u, Ref(t, i));
    } else {
      i := spare;
      Add(s, a, u, Recycle(t, i, b));
      steps, v := a + [Recycle(t, i, b)], Next(u, Recycle(t, i, b));
    }
  }

  /** bread: the thread owns a valid buffer of block b. */
  lemma Fetch(s: State, a: seq<Step>, u: State, t: nat, b: nat, spare: nat) returns (steps: seq<Step>, v: State, i: nat)
    requires Leads(s, a, u) && Within(u, t, b, spare)
    ensures Leads(s, steps, v) && i < |u.cache| == |v.cache| && v == Put(u, i, v.cache[i])
    ensures Caches(u.cache[i], b) || i == spare
    ensures Cached(u.cache, b) ==> Caches(u.cache[i], b)
    ensures Holds(v, t, i, b) && v.cache[i].refcnt > 0
  {
    hide Inv, Leads;
    steps, v, i := Grab(s, a, u, t, b, spare);
    var g := v;
    Add(s, steps, g, Lock(t, i));
    steps, v := steps + [Lock(t, i)], Next(g, Lock(t, i));
    if !v.cache[i].valid {
      var l := v;
      Add(s, steps, l, Fill(t, i));
      steps, v := steps + [Fill(t, i)], Next(l, Fill(t, i));
    }
    assert v.cache == u.cache[i := v.cache[i]];
  }

  // ---------- recovery ----------

  /** While recovery runs nothing is pinned, so an idle buffer can be recycled. */
  lemma IdleIsFree(s: State, i: nat)
    requires Inv(s) && Recovering(s.pc) && i < |s.cache| && Idle(s.cache[i])
    ensures s.cache[i].refcnt == 0 && s.ops == map[]
  {
    SlotFacts(s, i);
  }

  /** What the invariant says about the log itself. */
  lemma LogFacts(s: State)
    requires Inv(s)
    ensures s.start + LOGBLOCKS < |s.disk| && |s.lh| <= LOGBLOCKS
    ensures Committing(s.pc) || Recovering(s.pc) ==> s.ops == map[]
    ensures s.pc.Replaying? ==> s.pc.k <= |s.lh| && forall k :: 0 <= k < |s.lh| ==> IsHome(s, s.lh[k])
    ensures Committing(s.pc) ==> forall k :: 0 <= k < |s.lh| ==> IsHome(s, s.lh[k])
    ensures s.pc.Copying? || s.pc.Installing? ==> s.pc.k <= |s.lh|
  {
  }

  /** The agent of a recovery with two idle buffers can have any block. */
  lemma RecoveryWithin(s: State, b: nat, spare: nat)
    requires Inv(s) && Recovering(s.pc) && b < |s.disk| && spare < |s.cache| && Idle(s.cache[spare])
    requires forall i :: 0 <= i < |s.cache| && Caches(s.cache[i], b) ==> Idle(s.cache[i])
    ensures Within(s, s.agent, b, spare)
  {
    IdleIsFree(s, spare);
  }

  lemma ReplayOne(s: State, a: seq<Step>, t: State) returns (steps: seq<Step>, t': State)
    requires Leads(s, a, t) && AllIdle(t) && |t.cache| >= 2 && t.pc.Replaying? && t.pc.k < |t.lh|
    ensures Leads(s, steps, t') && AllIdle(t') && |t'.cache| == |t.cache| && t'.lh == t.lh
            && t'.pc == Replaying(t.pc.k + 1)
  {
    hide Inv, Leads;
    LeadsInv(s, a, t);
    LogFacts(t);
    var from, to := LogBlock(t.start, t.pc.k), t.lh[t.pc.k];
    RecoveryWithin(t, from, 0);
    var u, i, j;
    steps, u, i := Fetch(s, a, t, t.agent, from, 0);
    LeadsInv(s, steps, u);
    var spare := if i == 0 then 1 else 0;
    RecoveryWithin(u, to, spare);
    var v;
    steps, v, j := Fetch(s, steps, u, u.agent, to, spare);
    assert i != j && v.cache[i] == u.cache[i];
    Add(s, steps, v, ReplayBlock(i, j));
    var w := Next(v, ReplayBlock(i, j));
    steps, t' := Drain(s, steps + [ReplayBlock(i, j)], w);
  }

  lemma {:induction false} ReplayAll(s: State, a: seq<Step>, t: State) returns (steps: seq<Step>, t': State)
    requires Leads(s, a, t) && AllIdle(t) && |t.cache| >= 2 && t.pc.Replaying? && t.pc.k <= |t.lh|
    ensures Leads(s, steps, t') && AllIdle(t') && |t'.cache| == |t.cache|
    ensures t'.lh == t.lh && t'.pc == Replaying(|t'.lh|)
    decreases |t.lh| - t.pc.k
  {
    hide Inv, Leads;
    steps, t' := a, t;
    if t.pc.k < |t.lh| {
      steps, t' := ReplayOne(s, a, t);
      steps, t' := ReplayAll(s, steps, t');
    }
  }

  /** read_head */
  lemma HeadRead(s: State, a: seq<Step>, t: State) returns (steps: seq<Step>, t': State)
    requires Leads(s, a, t) && AllIdle(t) && |t.cache| >= 2 && t.pc.Booting?
    ensures Leads(s, steps, t') && AllIdle(t') && |t'.cache| == |t.cache| && t'.pc == Replaying(0)
  {
    hide Inv, Leads;
    LeadsInv(s, a, t);
    LogFacts(t);
    RecoveryWithin(t, t.start, 0);
    var u, i;
    steps, u, i := Fetch(s, a, t, t.agent, t.start, 0);
    Add(s, steps, u, ReadHead(i));
    var w := Next(u, ReadHead(i));
    LeadsInv(s, steps + [ReadHead(i)], w);
    LogFacts(w);
    steps, t' := Drain(s, steps + [ReadHead(i)], w);
  }

  lemma HeadCleared(s: State, a: seq<Step>, t: State) returns (steps: seq<Step>, t': State)
    requires Leads(s, a, t) && AllIdle(t) && |t.cache| >= 2 && t.pc == Replaying(|t.lh|)
    ensures Leads(s, steps, t') && t'.pc.Normal? && t'.ops == map[] && t'.lh == []
  {
    hide Inv, Leads;
    LeadsInv(s, a, t);
    LogFacts(t);
    RecoveryWithin(t, t.start, 0);
    var u, i;
    steps, u, i := Fetch(s, a, t, t.agent, t.start, 0);
    Add(s, steps, u, ReplayClear(i));
    steps, t' := steps + [ReplayClear(i)], Next(u, ReplayClear(i));
  }

  /** Recovery completes: from every reachable state after a crash, or after power-on, with two buffers there is a run
      of cache and recovery steps to the end of recovery. Then the home blocks hold what was committed, and any thread
      can begin an operation. */
  lemma RecoveryCompletes(s0: State, before: seq<Step>, t: nat) returns (run: seq<Step>)
    requires PowerOn(s0) && Runs(s0, before) && Recovering(After(s0, before).pc) && |After(s0, before).cache| >= 2
    ensures var s := After(s0, before);
            && Runs(s, run) && AllUpkeep(run) && s.start + LOGBLOCKS < |s.disk|
            && var end := After(s, run);
               && end.pc.Normal? && HomeBlocks(end.disk, end.start) == Committed(s.disk, s.start)
               && Enabled(end, BeginOp(t))
  {
    hide Inv, AllIdle;
    PowerOnInv(s0);
    RunRefines(s0, before);
    var s := After(s0, before);
    LogFacts(s);
    Stay(s);
    var end;
    run, end := Drain(s, [], s);
    if end.pc.Booting? {
      run, end := HeadRead(s, run, end);
    }
    LeadsInv(s, run, end);
    LogFacts(end);
    run, end := ReplayAll(s, run, end);
    run, end := HeadCleared(s, run, end);
    RecoveryKeepsCommitted(s, run);
    NormalIsCommitted(end);
  }

  // ---------- commit ----------

  /** Buffers that all hold listed blocks are no more than the list is long. */
  lemma {:induction false} Pigeonhole(cache: seq<Slot>, h: seq<int>)
    requires Unique(cache) && forall i :: 0 <= i < |cache| ==> cache[i].used && cache[i].blockno as int in h
    ensures |cache| <= |h|
    decreases |cache|
  {
    if cache != [] {
      var n := |cache| - 1;
      var b := cache[n].blockno as int;
      var p :| 0 <= p < |h| && h[p] == b;
      var rest := h[..p] + h[p + 1..];
      forall i | 0 <= i < n
        ensures cache[i].blockno as int in rest
      {
        var q :| 0 <= q < |h| && h[q] == cache[i].blockno as int;
        assert q != p && (q < p ==> rest[q] == h[q]) && (q > p ==> rest[q - 1] == h[q]);
      }
      Pigeonhole(cache[..n], rest);
    }
  }

  /** With fewer logged blocks than buffers, an idle cache has a buffer to recycle. */
  lemma SpareBuffer(s: State) returns (spare: nat)
    requires Inv(s) && s.ops == map[] && AllIdle(s) && |Logged(s)| < |s.cache|
    ensures spare < |s.cache| && s.cache[spare].refcnt == 0
  {
    if forall i :: 0 <= i < |s.cache| ==> s.cache[i].used && s.cache[i].blockno as int in Logged(s) {
      Pigeonhole(s.cache, Logged(s));
      assert false;
    }
    spare :| 0 <= spare < |s.cache| && !(s.cache[spare].used && s.cache[spare].blockno as int in Logged(s));
    assert Idle(s.cache[spare]);
    SlotFacts(s, spare);
  }

  /** The committing thread can have a block of the log region, with all buffers idle. */
  lemma LogWithin(s: State, b: nat) returns (spare: nat)
    requires Inv(s) && Committing(s.pc) && AllIdle(s) && |Logged(s)| < |s.cache| && b < |s.disk|
    ensures Within(s, s.agent, b, spare)
  {
    LogFacts(s);
    spare := SpareBuffer(s);
  }

  /** And a logged one beside it, since that is cached. */
  lemma LoggedWithin(t: State, u: State, i: nat, from: nat, b: nat)
    requires Inv(u) && Committing(u.pc) && AllIdle(t) && i < |t.cache| == |u.cache| && u == Put(t, i, u.cache[i])
    requires u.cache[i].used && u.cache[i].blockno == from != b && b < |u.disk| && b as int in Logged(u)
    ensures Within(u, u.agent, b, 0) && Cached(u.cache, b)
  {
    LogFacts(u);
    assert AllCached(u.cache, Logged(u));
  }

  /** A log block and the logged block it stands for, both in the hands of the committing thread. */
  lemma FetchPair(s: State, a: seq<Step>, t: State, from: nat, to: nat)
    returns (steps: seq<Step>, v: State, i: nat, j: nat)
    requires Leads(s, a, t) && AllIdle(t) && Committing(t.pc) && |Logged(t)| < |t.cache|
    requires from < |t.disk| && to < |t.disk| && from != to && to as int in Logged(t)
    ensures Leads(s, steps, v) && OnlyCache(t, v) && Has(v, i, from) && Has(v, j, to) && v.cache[j].refcnt > 0
  {
    hide Inv, Leads, AllIdle;
    LeadsInv(s, a, t);
    var spare := LogWithin(t, from);
    var u;
    steps, u, i := Fetch(s, a, t, t.agent, from, spare);
    LeadsInv(s, steps, u);
    LoggedWithin(t, u, i, from, to);
    steps, v, j := Fetch(s, steps, u, u.agent, to, 0);
    CachedApart(u, v, i, j, from, to);
  }

  /** The buffer of the second block is not that of the first. */
  lemma CachedApart(u: State, v: State, i: nat, j: nat, from: nat, to: nat)
    requires Has(u, i, from) && j < |u.cache| == |v.cache| && v == Put(u, j, v.cache[j]) && Has(v, j, to) && from != to
    requires Caches(u.cache[j], to)
    ensures i != j && Has(v, i, from)
  {
  }

  lemma CopyOne(s: State, a: seq<Step>, t: State) returns (steps: seq<Step>, t': State)
    requires Leads(s, a, t) && AllIdle(t) && t.pc.Copying? && t.pc.k < |t.lh| < |t.cache|
    ensures Leads(s, steps, t') && AllIdle(t') && |t'.cache| == |t.cache| && t'.pc == Copying(t.pc.k + 1)
    ensures t'.lh == t.lh && t'.ncommit == t.ncommit
  {
    hide Inv, Leads, AllIdle;
    LeadsInv(s, a, t);
    LogFacts(t);
    var v, i, j;
    steps, v, i, j := FetchPair(s, a, t, LogBlock(t.start, t.pc.k), t.lh[t.pc.k]);
    Add(s, steps, v, CopyBlock(i, j));
    steps, t' := Drain(s, steps + [CopyBlock(i, j)], Next(v, CopyBlock(i, j)));
  }

  lemma InstallOne(s: State, a: seq<Step>, t: State) returns (steps: seq<Step>, t': State)
    requires Leads(s, a, t) && AllIdle(t) && t.pc.Installing? && t.pc.k < |t.lh| < |t.cache|
    ensures Leads(s, steps, t') && AllIdle(t') && |t'.cache| == |t.cache| && t'.pc == Installing(t.pc.k + 1)
    ensures t'.lh == t.lh && t'.ncommit == t.ncommit
  {
    hide Inv, Leads, AllIdle;
    LeadsInv(s, a, t);
    LogFacts(t);
    assert Logged(t)[0] == t.lh[t.pc.k];
    var v, i, j;
    steps, v, i, j := FetchPair(s, a, t, LogBlock(t.start, t.pc.k), t.lh[t.pc.k]);
    Add(s, steps, v, InstallBlock(i, j));
    steps, t' := Drain(s, steps + [InstallBlock(i, j)], Next(v, InstallBlock(i, j)));
  }

  lemma {:induction false} CopyAll(s: State, a: seq<Step>, t: State) returns (steps: seq<Step>, t': State)
    requires Leads(s, a, t) && AllIdle(t) && t.pc.Copying? && t.pc.k <= |t.lh| < |t.cache|
    ensures Leads(s, steps, t') && AllIdle(t') && |t'.cache| == |t.cache| && t'.pc == Copying(|t'.lh|)
    ensures t'.lh == t.lh && t'.ncommit == t.ncommit
    decreases |t.lh| - t.pc.k
  {
    hide Inv, Leads, AllIdle;
    steps, t' := a, t;
    if t.pc.k < |t.lh| {
      steps, t' := CopyOne(s, a, t);
      steps, t' := CopyAll(s, steps, t');
    }
  }

  lemma {:induction false} InstallAll(s: State, a: seq<Step>, t: State) returns (steps: seq<Step>, t': State)
    requires Leads(s, a, t) && AllIdle(t) && t.pc.Installing? && t.pc.k <= |t.lh| < |t.cache|
    ensures Leads(s, steps, t') && AllIdle(t') && |t'.cache| == |t.cache| && t'.pc == Installing(|t'.lh|)
    ensures t'.lh == t.lh && t'.ncommit == t.ncommit
    decreases |t.lh| - t.pc.k
  {
    hide Inv, Leads, AllIdle;
    steps, t' := a, t;
    if t.pc.k < |t.lh| {
      steps, t' := InstallOne(s, a, t);
      steps, t' := InstallAll(s, steps, t');
    }
  }

  /** write_head, or nothing to do for an empty log. */
  lemma HeadWritten(s: State, a: seq<Step>, t: State) returns (steps: seq<Step>, t': State)
    requires Leads(s, a, t) && AllIdle(t) && t.pc == Copying(|t.lh|) && |t.lh| < |t.cache|
    ensures Leads(s, steps, t') && t'.ncommit == t.ncommit
    ensures if t.lh == [] then t'.pc.Finished?
            else AllIdle(t') && |t'.cache| == |t.cache| && t'.pc == Installing(0) && t'.lh == t.lh
  {
    hide Inv, Leads, AllIdle;
    LeadsInv(s, a, t);
    LogFacts(t);
    if t.lh == [] {
      Add(s, a, t, NothingLogged);
      steps, t' := a + [NothingLogged], Next(t, NothingLogged);
    } else {
      var spare := LogWithin(t, t.start);
      var u, i;
      steps, u, i := Fetch(s, a, t, t.agent, t.start, spare);
      Add(s, steps, u, WriteHead(i));
      steps, t' := Drain(s, steps + [WriteHead(i)], Next(u, WriteHead(i)));
    }
  }

  lemma HeadErased(s: State, a: seq<Step>, t: State) returns (steps: seq<Step>, t': State)
    requires Leads(s, a, t) && AllIdle(t) && t.pc == Installing(|t.lh|) && 0 < |t.cache|
    ensures Leads(s, steps, t') && t'.pc.Finished? && t'.ncommit == t.ncommit
  {
    hide Inv, Leads, AllIdle;
    LeadsInv(s, a, t);
    LogFacts(t);
    var spare := LogWithin(t, t.start);
    var u, i;
    steps, u, i := Fetch(s, a, t, t.agent, t.start, spare);
    Add(s, steps, u, ClearHead(i));
    steps, t' := steps + [ClearHead(i)], Next(u, ClearHead(i));
  }

  /** Cache and log steps change neither what the file system has written, nor who waits, nor how many operations
      have ended, and no operation begins. */
  lemma UpkeepStep(s: State, step: Step)
    requires Inv(s) && Enabled(s, step) && Upkeep(step)
    ensures var s' := Next(s, step);
            && ShapeOk(s') && Meaning(s').cur == Meaning(s).cur && s'.ops == s.ops && s'.ended == s.ended
            && s'.syncing == s.syncing
  {
    hide Inv;
    InvShape(s);
    StepRefines(s, step);
  }

  lemma InvShape(s: State)
    requires Inv(s)
    ensures ShapeOk(s)
  {
  }

  lemma {:induction false} UpkeepRun(s: State, steps: seq<Step>)
    requires Inv(s) && Runs(s, steps) && AllUpkeep(steps)
    ensures var t := After(s, steps);
            && Inv(t) && ShapeOk(s) && ShapeOk(t) && Meaning(t).cur == Meaning(s).cur && t.ops == s.ops
            && t.ended == s.ended && t.syncing == s.syncing
    decreases |steps|
  {
    hide Inv, ShapeOk, Enabled, Next, Meaning;
    InvShape(s);
    if steps != [] {
      StepKeeps(s, steps[0]);
      UpkeepStep(s, steps[0]);
      UpkeepRun(Next(s, steps[0]), steps[1..]);
    }
  }

  /** sys_sync waits for the commit after the present one at the latest. */
  predicate TargetsNear(s: State) { forall t :: t in s.syncing ==> s.syncing[t].target <= s.ncommit + 1 }

  lemma {:induction false} TargetsRun(s: State, steps: seq<Step>)
    requires TargetsNear(s) && Runs(s, steps)
    ensures TargetsNear(After(s, steps))
    decreases |steps|
  {
    if steps != [] {
      TargetsStep(s, steps[0]);
      TargetsRun(Next(s, steps[0]), steps[1..]);
    }
  }

  lemma TargetsStep(s: State, step: Step)
    requires TargetsNear(s) && Enabled(s, step)
    ensures TargetsNear(Next(s, step))
  {
    hide Has, Owns, MayUse, IsHome, HeaderOf, WithHeader;
  }

  /** The phases of commit from wherever it stands. */
  lemma CommitRuns(s: State) returns (run: seq<Step>, end: State)
    requires Inv(s) && Committing(s.pc) && |s.lh| < |s.cache|
    ensures Leads(s, run, end) && end.pc.Normal? && end.ncommit == s.ncommit + 1
  {
    hide Inv, Leads, AllIdle;
    LogFacts(s);
    Stay(s);
    run, end := Drain(s, [], s);
    if end.pc.Copying? {
      run, end := CopyAll(s, run, end);
      run, end := HeadWritten(s, run, end);
    }
    if end.pc.Installing? {
      run, end := InstallAll(s, run, end);
      run, end := HeadErased(s, run, end);
    }
    Add(s, run, end, CommitDone);
    run, end := run + [CommitDone], Next(end, CommitDone);
  }

  lemma LeadsMeans(s: State, steps: seq<Step>, t: State)
    requires Leads(s, steps, t)
    ensures Runs(s, steps) && After(s, steps) == t && AllUpkeep(steps)
  {
  }

  /** All that the operations wrote is in the home blocks, every ended operation is durable, and every thread that
      waited in sys_sync can return. */
  ghost predicate Settled(s: State, end: State) {
    && ShapeOk(s) && end.pc.Normal? && end.ncommit == s.ncommit + 1 && end.durable == end.ended == s.ended
    && HomeBlocks(end.disk, end.start) == Current(s)
    && forall t :: t in s.syncing ==> Enabled(end, SyncReturn(t))
  }

  lemma CommitSettles(s: State) returns (run: seq<Step>)
    requires Inv(s) && TargetsNear(s) && Committing(s.pc) && |s.lh| < |s.cache|
    ensures Runs(s, run) && AllUpkeep(run) && Settled(s, After(s, run))
  {
    hide Inv, ShapeOk, Current, Committed, HomeBlocks, Leads, Runs, After, AllUpkeep;
    LogFacts(s);
    var end;
    run, end := CommitRuns(s);
    LeadsMeans(s, run, end);
    UpkeepRun(s, run);
    CommittedAtRest(end);
  }

  lemma CommittedAtRest(s: State)
    requires Inv(s) && s.pc.Normal? && s.ops == map[]
    ensures ShapeOk(s) && HomeBlocks(s.disk, s.start) == Current(s) && s.durable == s.ended
  {
    NormalIsCommitted(s);
    QuiescentCommitted(s);
  }

  /** Commit completes: from every reachable state between the last end_op and the end of its commit, with a buffer
      more than there are logged blocks, there is a run of cache and log steps that ends the commit and settles
      everything. */
  lemma CommitCompletes(s0: State, before: seq<Step>) returns (run: seq<Step>)
    requires PowerOn(s0) && Runs(s0, before) && Committing(After(s0, before).pc)
    requires |After(s0, before).lh| < |After(s0, before).cache|
    ensures var s := After(s0, before); Runs(s, run) && AllUpkeep(run) && Settled(s, After(s, run))
  {
    hide Inv, Settled;
    PowerOnInv(s0);
    RunRefines(s0, before);
    TargetsRun(s0, before);
    run := CommitSettles(After(s0, before));
  }

  // ---------- a whole operation ----------

  /** Steps of any kind lead from s to u. */
  ghost predicate Reaches(s: State, steps: seq<Step>, u: State) { Runs(s, steps) && After(s, steps) == u && Inv(u) }

  lemma {:induction false} ReachesOn(s: State, a: seq<Step>, u: State, b: seq<Step>, v: State)
    requires Reaches(s, a, u) && Runs(u, b) && After(u, b) == v && Inv(v)
    ensures Reaches(s, a + b, v)
    decreases |a|
  {
    hide Inv, Enabled, Next;
    if a == [] {
      assert a + b == b;
    } else {
      ReachesOn(Next(s, a[0]), a[1..], u, b, v);
      assert (a + b)[1..] == a[1..] + b;
    }
  }

  lemma ReachesOne(s: State, a: seq<Step>, u: State, step: Step)
    requires Reaches(s, a, u) && Enabled(u, step)
    ensures ShapeOk(u) && Reaches(s, a + [step], Next(u, step)) && ShapeOk(Next(u, step))
    ensures Meaning(Next(u, step)) == Do(Meaning(u), EventOf(u, step))
  {
    hide Inv, Enabled, Next, EventOf, Meaning, ShapeOk;
    InvShape(u);
    StepKeeps(u, step);
    StepRefines(u, step);
    assert [step][1..] == [] && Runs(Next(u, step), []) && After(Next(u, step), []) == Next(u, step);
    ReachesOn(s, a, u, [step], Next(u, step));
  }

  /** A quiet machine: no operation, no commit, nothing logged. */
  lemma QuietFacts(s: State, b: nat)
    requires Inv(s) && s.pc.Normal? && s.ops == map[] && AllIdle(s) && 0 < |s.cache| && IsHome(s, b)
    ensures s.lh == [] && s.cache[0].refcnt == 0 && Logged(s) == []
    ensures forall t: nat :: Within(s.(ops := map[t := 0]), t, b, 0)
  {
    assert Idle(s.cache[0]);
    SlotFacts(s, 0);
  }

  /** Thread t is alone in an operation and owns block b, and nothing else is going on. */
  predicate Opened(s: State, w: State, t: nat, i: nat, b: nat) {
    && w.pc.Normal? && w.ops == map[t := 0] && w.lh == [] && |w.cache| == |s.cache| && IsHome(w, b)
    && Holds(w, t, i, b) && (forall j :: 0 <= j < |w.cache| && j != i ==> Idle(w.cache[j]))
    && w.ended == s.ended && w.syncing == s.syncing && w.ncommit == s.ncommit
  }

  /** begin_op and bread. */
  lemma OpenBlock(s: State, t: nat, b: nat) returns (steps: seq<Step>, w: State, i: nat)
    requires Inv(s) && s.pc.Normal? && s.ops == map[] && AllIdle(s) && 0 < |s.cache| && IsHome(s, b)
    ensures Reaches(s, steps, w) && Opened(s, w, t, i, b)
    ensures ShapeOk(s) && ShapeOk(w) && Meaning(w).cur == Meaning(s).cur
  {
    hide Inv, Reaches, Leads, ShapeOk, Meaning;
    QuietFacts(s, b);
    StayPut(s);
    ReachesOne(s, [], s, BeginOp(t));
    var u := Next(s, BeginOp(t));
    ReachesInv(s, [] + [BeginOp(t)], u);
    Stay(u);
    var fetch;
    fetch, w, i := Fetch(u, [], u, t, b, 0);
    LeadsMeans(u, fetch, w);
    LeadsInv(u, fetch, w);
    UpkeepRun(u, fetch);
    ReachesOn(s, [] + [BeginOp(t)], u, fetch, w);
    steps := [] + [BeginOp(t)] + fetch;
  }

  /** The new content, log_write, brelse and end_op, which starts the commit. */
  lemma CloseBlock(s: State, a: seq<Step>, w: State, t: nat, i: nat, b: nat, d: Block)
    returns (steps: seq<Step>, v: State)
    requires Reaches(s, a, w) && Opened(s, w, t, i, b)
    ensures Reaches(s, steps, v) && v.pc == Copying(0) && |v.lh| == 1 && |v.cache| == |s.cache|
    ensures v.ended == s.ended + 1 && v.syncing == s.syncing && v.ncommit == s.ncommit
    ensures ShapeOk(w) && ShapeOk(v) && Meaning(v).cur == Meaning(w).cur[b := d]
  {
    hide Inv, Reaches, ShapeOk, Meaning;
    ReachesOne(s, a, w, Modify(t, i, d));
    var x := Next(w, Modify(t, i, d));
    steps := a + [Modify(t, i, d)];
    ReachesOne(s, steps, x, LogWrite(t, i));
    var y := Next(x, LogWrite(t, i));
    steps := steps + [LogWrite(t, i)];
    ReachesOne(s, steps, y, Unlock(t, i));
    var z := Next(y, Unlock(t, i));
    steps := steps + [Unlock(t, i)];
    ReachesOne(s, steps, z, EndOp(t));
    v := Next(z, EndOp(t));
    assert v.ops == map[] && v.pc == Copying(0);
    steps := steps + [EndOp(t)];
  }

  /** An operation can be carried through: from every reachable state in which nothing is going on, with two buffers,
      any thread can give any home block any content, and the run ends with that content, and no other change, in the
      home blocks. */
  lemma WriteReachesHome(s0: State, before: seq<Step>, t: nat, b: nat, d: Block) returns (run: seq<Step>)
    requires PowerOn(s0) && Runs(s0, before)
    requires var s := After(s0, before); s.pc.Normal? && s.ops == map[] && |s.cache| >= 2 && IsHome(s, b)
    ensures var s := After(s0, before);
            && Runs(s, run) && ShapeOk(s)
            && var end := After(s, run);
               && end.pc.Normal? && end.durable == end.ended == s.ended + 1
               && HomeBlocks(end.disk, end.start) == Current(s)[b := d]
  {
    hide Inv, ShapeOk, Leads, Reaches, Current, Committed, HomeBlocks, Runs, After, AllIdle, Opened, AllUpkeep;
    PowerOnInv(s0);
    RunRefines(s0, before);
    TargetsRun(s0, before);
    var s := After(s0, before);
    Stay(s);
    var drain, u := Drain(s, [], s);
    LeadsMeans(s, drain, u);
    LeadsInv(s, drain, u);
    UpkeepRun(s, drain);
    var a, w, i := OpenBlock(u, t, b);
    var ops, v := CloseBlock(u, a, w, t, i, b, d);
    ReachesInv(u, ops, v);
    TargetsRun(s, drain);
    TargetsRun(u, ops);
    var commit := CommitSettles(v);
    var end := After(v, commit);
    UpkeepRun(v, commit);
    ReachesOn(u, ops, v, commit, end);
    StayPut(s);
    DrainReaches(s, drain, u);
    ReachesInv(u, ops + commit, end);
    ReachesOn(s, drain, u, ops + commit, end);
    run := drain + (ops + commit);
    ReachesInv(s, run, end);
  }

  lemma DrainReaches(s: State, steps: seq<Step>, u: State)
    requires Leads(s, steps, u)
    ensures Reaches(s, steps, u)
  {
  }

  lemma StayPut(s: State)
    requires Inv(s)
    ensures Reaches(s, [], s)
  {
  }

  lemma ReachesInv(s: State, steps: seq<Step>, u: State)
    requires Reaches(s, steps, u)
    ensures Inv(u) && Runs(s, steps) && After(s, steps) == u
  {
  }
}

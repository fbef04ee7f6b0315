/** exit and wait come to their end: the runs by which a process that has entered kexit becomes a zombie, and one that
    has entered kwait reaps a zombie child (kernel/proc.c). */
module ExitProgress {
  import opened ExitWait
  import opened Util

  predicate Leads(s: State, steps: seq<Step>, t: State) { Runs(s, steps) && After(s, steps) == t }

  lemma {:induction false} Add(s: State, steps: seq<Step>, t: State, step: Step)
    requires Leads(s, steps, t) && Enabled(t, step)
    ensures Leads(s, steps + [step], Next(t, step))
    decreases |steps|
  {
    hide Enabled, Next;
    if steps == [] {
      assert steps + [step] == [step] && [step][1..] == [];
      assert Runs(Next(s, step), []) && After(Next(s, step), []) == Next(s, step);
    } else {
      Add(Next(s, steps[0]), steps[1..], t, step);
      assert (steps + [step])[1..] == steps[1..] + [step];
    }
  }

  // ---------- wait ----------

  predicate ZombieChild(s: State, p: nat, c: nat) {
    c < |s.procs| && s.procs[c].parent == Some(p) && s.procs[c].state == Zombie
  }

  /** Child z is freed and its status handed out; nothing else happens to anybody but p. */
  predicate Reaped(s: State, end: State, p: nat, z: nat) {
    && ZombieChild(s, p, z) && |end.procs| == |s.procs| && p < |s.procs|
    && end.procs[z] == FREE && end.reaped == s.reaped[s.procs[z].pid := s.procs[z].xstate] && end.lock.None?
    && end.procs[p] == s.procs[p].(pc := User)
    && forall q :: 0 <= q < |s.procs| && q != p && q != z ==> end.procs[q] == s.procs[q]
  }

  /** The scan of kwait up to the first zombie child. */
  lemma {:induction false} ScanReaps(s0: State, before: seq<Step>, s: State, p: nat, c: nat)
    returns (steps: seq<Step>, end: State, z: nat)
    requires Leads(s0, before, s) && Is(s, p) && s.procs[p].pc.WaitScan? && s.procs[p].pc.i <= c && ZombieChild(s, p, c)
    ensures Leads(s0, steps, end) && Reaped(s, end, p, z) && z <= c
    decreases c - s.procs[p].pc.i
  {
    hide Leads;
    var t := Next(s, ScanSlot(p));
    Add(s0, before, s, ScanSlot(p));
    if FoundZombie(s, p) {
      steps, end, z := before + [ScanSlot(p)], t, s.procs[p].pc.i;
    } else {
      steps, end, z := ScanReaps(s0, before + [ScanSlot(p)], t, p, c);
    }
  }

  /** Wait completes: a process in kwait with a zombie child, once wait_lock is free, reaps one. */
  lemma WaitCompletes(s: State, p: nat, c: nat) returns (steps: seq<Step>, end: State, z: nat)
    requires Is(s, p) && s.procs[p].pc.WaitWant? && s.lock.None? && ZombieChild(s, p, c)
    ensures Leads(s, steps, end) && Reaped(s, end, p, z) && z <= c
  {
    hide Leads;
    assert Leads(s, [], s) by {
      Nothing(s);
    }
    Add(s, [], s, WaitLock(p));
    steps, end, z := ScanReaps(s, [] + [WaitLock(p)], Next(s, WaitLock(p)), p, c);
  }

  lemma Nothing(s: State)
    ensures Leads(s, [], s)
  {
  }

  // ---------- exit ----------

  /** Apart from wakeups, u differs from s in p's place in kexit alone. */
  predicate OnlyWoken(s: State, u: State, p: nat, pc: Pc) {
    && u == s.(procs := u.procs) && |u.procs| == |s.procs| && p < |s.procs| && u.procs[p] == s.procs[p].(pc := pc)
    && forall q :: 0 <= q < |s.procs| && q != p ==> u.procs[q] == s.procs[q] || u.procs[q] == Woken(s.procs[q])
  }

  /** wakeup(initproc), slot by slot. */
  lemma {:induction false} InitWoken(s0: State, before: seq<Step>, s: State, p: nat)
    returns (steps: seq<Step>, u: State)
    requires Leads(s0, before, s) && Is(s, p) && s.procs[p].pc.ExitWakeInit?
    ensures Leads(s0, steps, u)
    ensures OnlyWoken(s, u, p, ExitReparent(s.procs[p].pc.status, s.procs[p].pc.i + 1))
    decreases Max(0, |s.procs| - s.procs[p].pc.j), if s.procs[p].pc.j >= |s.procs| then 0 else 1
  {
    hide Leads;
    var t := Next(s, WakeInit(p));
    Add(s0, before, s, WakeInit(p));
    if s.procs[p].pc.j >= |s.procs| {
      return before + [WakeInit(p)], t;
    }
    steps, u := InitWoken(s0, before + [WakeInit(p)], t, p);
  }

  /** The children from slot i on belong to init, the others are as before. */
  predicate Adopted(s: State, u: State, p: nat, i: nat, pc: Pc) {
    && u == s.(procs := u.procs) && |u.procs| == |s.procs| && p < |s.procs| && u.procs[p] == s.procs[p].(pc := pc)
    && forall q :: 0 <= q < |s.procs| && q != p ==>
         var x := if q >= i && s.procs[q].parent == Some(p) then s.procs[q].(parent := Some(s.init)) else s.procs[q];
         u.procs[q] == x || u.procs[q] == Woken(x)
  }

  lemma {:induction false} ChildrenAdopted(s0: State, before: seq<Step>, s: State, p: nat)
    returns (steps: seq<Step>, u: State)
    requires Leads(s0, before, s) && Is(s, p) && s.procs[p].pc.ExitReparent? && s.procs[p].parent != Some(p)
    ensures Leads(s0, steps, u)
    ensures Adopted(s, u, p, s.procs[p].pc.i, ExitWakeParent(s.procs[p].pc.status, 0))
    decreases Max(0, |s.procs| - s.procs[p].pc.i)
  {
    hide Leads;
    var t, i := Next(s, Reparent(p)), s.procs[p].pc.i;
    Add(s0, before, s, Reparent(p));
    if i >= |s.procs| {
      return before + [Reparent(p)], t;
    }
    var a, v := before + [Reparent(p)], t;
    if s.procs[i].parent == Some(p) {
      a, v := InitWoken(s0, a, t, p);
    }
    steps, u := ChildrenAdopted(s0, a, v, p);
    AdoptedMore(s, v, u, p, i);
  }

  lemma AdoptedMore(s: State, v: State, u: State, p: nat, i: nat)
    requires i < |s.procs| == |v.procs| && p < |s.procs| && v.procs[p].pc.ExitReparent?
    requires v == s.(procs := v.procs) && v.procs[p] == s.procs[p].(pc := v.procs[p].pc) && s.procs[p].parent != Some(p)
    requires v.procs[p].pc.i == i + 1
    requires forall q :: 0 <= q < |s.procs| && q != p ==>
               var x := if q == i && s.procs[q].parent == Some(p) then s.procs[q].(parent := Some(s.init))
                 else s.procs[q];
               v.procs[q] == x || v.procs[q] == Woken(x)
    requires u.procs != [] && Adopted(v, u, p, i + 1, u.procs[if p < |u.procs| then p else 0].pc)
    ensures p < |u.procs| && Adopted(s, u, p, i, u.procs[p].pc)
  {
  }

  /** wakeup(p->parent), slot by slot. */
  lemma {:induction false} ParentWoken(s0: State, before: seq<Step>, s: State, p: nat)
    returns (steps: seq<Step>, u: State, pc: Pc)
    requires Leads(s0, before, s) && Is(s, p) && s.procs[p].pc.ExitWakeParent?
    ensures Leads(s0, steps, u) && OnlyWoken(s, u, p, pc)
    ensures pc.ExitWakeParent? && pc.status == s.procs[p].pc.status && pc.j >= |s.procs|
    decreases Max(0, |s.procs| - s.procs[p].pc.j)
  {
    hide Leads;
    steps, u, pc := before, s, s.procs[p].pc;
    if pc.j < |s.procs| {
      Add(s0, before, s, WakeParent(p));
      steps, u, pc := ParentWoken(s0, before + [WakeParent(p)], Next(s, WakeParent(p)), p);
    }
  }

  /** p is a zombie with its status, and its children are init's. */
  predicate Died(s: State, end: State, p: nat) {
    && p < |s.procs| == |end.procs| && s.procs[p].pc.ExitWant? && end.lock.None?
    && end.procs[p] == s.procs[p].(state := Zombie, xstate := s.procs[p].pc.status, pc := ExitDead)
    && end.exited == s.exited[s.procs[p].pid := s.procs[p].pc.status]
    && forall q :: 0 <= q < |s.procs| && q != p ==>
         end.procs[q].parent == if s.procs[q].parent == Some(p) then Some(s.init) else s.procs[q].parent
  }

  lemma ExitRuns(s: State, p: nat) returns (steps: seq<Step>, end: State)
    requires Is(s, p) && s.procs[p].pc.ExitWant? && s.lock.None? && s.procs[p].parent != Some(p)
    ensures Leads(s, steps, end) && Died(s, end, p)
  {
    hide Leads;
    Nothing(s);
    Add(s, [], s, ExitLock(p));
    var t, u, v, pc := Next(s, ExitLock(p)), s, s, User;
    steps := [] + [ExitLock(p)];
    steps, u := ChildrenAdopted(s, steps, t, p);
    steps, v, pc := ParentWoken(s, steps, u, p);
    Add(s, steps, v, Die(p));
    steps, end := steps + [Die(p)], Next(v, Die(p));
  }

  /** Exit completes: in every reachable state in which wait_lock is free, a process that has entered kexit becomes a
      zombie with its status, and its children become init's. */
  lemma ExitCompletes(s0: State, before: seq<Step>, p: nat) returns (steps: seq<Step>, end: State)
    requires Boot(s0) && Runs(s0, before)
    requires var s := After(s0, before); Is(s, p) && s.procs[p].pc.ExitWant? && s.lock.None?
    ensures Leads(After(s0, before), steps, end) && Died(After(s0, before), end, p)
  {
    hide Leads, Died;
    RunKeeps(s0, before);
    NotOwnParent(After(s0, before), p);
    hide Inv;
    steps, end := ExitRuns(After(s0, before), p);
  }

  lemma NotOwnParent(s: State, p: nat)
    requires Inv(s) && p < |s.procs|
    ensures s.procs[p].parent != Some(p)
  {
    assert One(s.procs[p], p, ContextOf(s));
  }
}

/** fork, exit and wait of kernel/proc.c as interleaved steps: table scans advance one slot at a time,
    and other processes run in between whenever they do not need wait_lock. */
module ExitWait {
  import opened Util

  datatype RunState = Unused | Used | Sleeping | Runnable | Running | Zombie

  /** Where a process stands in kfork, kexit or kwait. */
  datatype Pc =
    | User
    | ForkHave(child: nat)            // allocproc done
    | ForkLinked(child: nat)          // np->parent set
    | ExitWant(status: int)           // about to acquire wait_lock
    | ExitReparent(status: int, i: nat)
    | ExitWakeInit(status: int, i: nat, j: nat)  // slot i was reparented; wakeup(initproc) is at slot j
    | ExitWakeParent(status: int, j: nat)        // wakeup(p->parent) is at slot j
    | ExitDead
    | WaitWant
    | WaitScan(i: nat, havekids: bool)
    | WaitAsleep

  datatype Proc = Proc(
    state: RunState, parent: Option<nat>, pid: nat, xstate: int, killed: bool, chan: Option<nat>, pc: Pc)

  datatype State = State(
    procs: seq<Proc>,
    init: nat,
    lock: Option<nat>,            // holder of wait_lock
    nextpid: nat,
    exited: map<nat, int>,        // status with which each pid exited
    reaped: map<nat, int>)        // status that kwait has returned for each pid

  datatype Step =
    | Fork(p: nat, q: nat)
    | ForkFail(p: nat)
    | ForkLink(p: nat)
    | ForkRun(p: nat)
    | ExitBegin(p: nat, status: int)
    | ExitLock(p: nat)
    | Reparent(p: nat)
    | WakeInit(p: nat)
    | WakeParent(p: nat)
    | Die(p: nat)
    | WaitBegin(p: nat)
    | WaitLock(p: nat)
    | ScanSlot(p: nat)
    | CopyoutFails(p: nat)
    | WaitReturn(p: nat)
    | WaitSleep(p: nat)
    | Resume(p: nat)
    | Kill(q: nat)           // kkill; pid 0 matches a free slot, and allocproc leaves the mark in place
    | Schedule(q: nat)
    | Preempt(p: nat)
    | Nap(p: nat)
    | Rouse(q: nat)

  predicate Is(s: State, p: nat) { p < |s.procs| && s.procs[p].state == Running }

  predicate HoldsLock(pc: Pc) { pc.ExitReparent? || pc.ExitWakeInit? || pc.ExitWakeParent? || pc.WaitScan? }

  /** The slot under the scan is a zombie child. */
  predicate FoundZombie(s: State, p: nat) {
    && Is(s, p) && s.procs[p].pc.WaitScan? && s.procs[p].pc.i < |s.procs|
    && s.procs[s.procs[p].pc.i].parent == Some(p) && s.procs[s.procs[p].pc.i].state == Zombie
  }

  predicate Enabled(s: State, step: Step) {
    match step
    case Fork(p, q) => Is(s, p) && s.procs[p].pc.User? && q < |s.procs| && s.procs[q].state == Unused
    case ForkFail(p) => Is(s, p) && s.procs[p].pc.ForkHave? && s.procs[p].pc.child < |s.procs|
    case ForkLink(p) => Is(s, p) && s.procs[p].pc.ForkHave? && s.lock.None? && s.procs[p].pc.child < |s.procs|
    case ForkRun(p) => Is(s, p) && s.procs[p].pc.ForkLinked? && s.procs[p].pc.child < |s.procs|
    case ExitBegin(p, _) => Is(s, p) && s.procs[p].pc.User? && p != s.init
    case ExitLock(p) => Is(s, p) && s.procs[p].pc.ExitWant? && s.lock.None?
    case Reparent(p) => Is(s, p) && s.procs[p].pc.ExitReparent?
    case WakeInit(p) => Is(s, p) && s.procs[p].pc.ExitWakeInit?
    case WakeParent(p) => Is(s, p) && s.procs[p].pc.ExitWakeParent? && s.procs[p].pc.j < |s.procs|
    case Die(p) => Is(s, p) && s.procs[p].pc.ExitWakeParent? && s.procs[p].pc.j >= |s.procs|
    case WaitBegin(p) => Is(s, p) && s.procs[p].pc.User?
    case WaitLock(p) => Is(s, p) && s.procs[p].pc.WaitWant? && s.lock.None?
    case ScanSlot(p) => Is(s, p) && s.procs[p].pc.WaitScan? && s.procs[p].pc.i < |s.procs|
    case CopyoutFails(p) => FoundZombie(s, p)
    case WaitReturn(p) =>
      && Is(s, p) && s.procs[p].pc.WaitScan? && s.procs[p].pc.i >= |s.procs|
      && (!s.procs[p].pc.havekids || s.procs[p].killed)
    case WaitSleep(p) => Is(s, p) && s.procs[p].pc.WaitScan? && s.procs[p].pc.i >= |s.procs| && s.procs[p].pc.havekids
    case Resume(p) => Is(s, p) && s.procs[p].pc.WaitAsleep?
    case Kill(q) => q < |s.procs|
    case Schedule(q) => q < |s.procs| && s.procs[q].state == Runnable
    case Preempt(p) => Is(s, p) && s.lock != Some(p)
    case Nap(p) => Is(s, p) && s.procs[p].pc.User?
    case Rouse(q) => q < |s.procs| && s.procs[q].state == Sleeping && s.procs[q].pc.User?
  }

  function Set(s: State, p: nat, x: Proc): State
    requires p < |s.procs|
  { s.(procs := s.procs[p := x]) }

  function SetPc(s: State, p: nat, pc: Pc): State
    requires p < |s.procs|
  { Set(s, p, s.procs[p].(pc := pc)) }

  /** The effect on slot `j` of wakeup(chan) run by process `p`. */
  function WakeSlot(s: State, p: nat, j: nat, chan: Option<nat>): State
    requires j < |s.procs|
  {
    if j != p && s.procs[j].state == Sleeping && chan.Some? && s.procs[j].chan == chan
    then Set(s, j, s.procs[j].(state := Runnable))
    else s
  }

  const FREE := Proc(Unused, None, 0, 0, false, None, User)

  function Woken(x: Proc): Proc { if x.state == Sleeping then x.(state := Runnable) else x }

  function Next(s: State, step: Step): State
    requires Enabled(s, step)
  {
    match step
    case Fork(p, q) =>
      var child := Proc(Used, None, s.nextpid, 0, s.procs[q].killed, None, User);
      SetPc(Set(s, q, child), p, ForkHave(q)).(nextpid := s.nextpid + 1)
    case ForkFail(p) => SetPc(Set(s, s.procs[p].pc.child, FREE), p, User)
    case ForkLink(p) =>
      var q := s.procs[p].pc.child;
      SetPc(Set(s, q, s.procs[q].(parent := Some(p))), p, ForkLinked(q))
    case ForkRun(p) =>
      var q := s.procs[p].pc.child;
      SetPc(Set(s, q, s.procs[q].(state := Runnable)), p, User)
    case ExitBegin(p, status) => SetPc(s, p, ExitWant(status))
    case ExitLock(p) => SetPc(s, p, ExitReparent(s.procs[p].pc.status, 0)).(lock := Some(p))
    case Reparent(p) =>
      var pc := s.procs[p].pc;
      if pc.i >= |s.procs| then SetPc(s, p, ExitWakeParent(pc.status, 0))
      else if s.procs[pc.i].parent == Some(p) then
        SetPc(Set(s, pc.i, s.procs[pc.i].(parent := Some(s.init))), p, ExitWakeInit(pc.status, pc.i, 0))
      else SetPc(s, p, ExitReparent(pc.status, pc.i + 1))
    case WakeInit(p) =>
      var pc := s.procs[p].pc;
      if pc.j >= |s.procs| then SetPc(s, p, ExitReparent(pc.status, pc.i + 1))
      else SetPc(WakeSlot(s, p, pc.j, Some(s.init)), p, ExitWakeInit(pc.status, pc.i, pc.j + 1))
    case WakeParent(p) =>
      var pc := s.procs[p].pc;
      SetPc(WakeSlot(s, p, pc.j, s.procs[p].parent), p, ExitWakeParent(pc.status, pc.j + 1))
    case Die(p) =>
      var x := s.procs[p];
      Set(s, p, x.(state := Zombie, xstate := x.pc.status, pc := ExitDead))
        .(lock := None, exited := s.exited[x.pid := x.pc.status])
    case WaitBegin(p) => SetPc(s, p, WaitWant)
    case WaitLock(p) => SetPc(s, p, WaitScan(0, false)).(lock := Some(p))
    case ScanSlot(p) =>
      var pc := s.procs[p].pc;
      var c := s.procs[pc.i];
      if c.parent != Some(p) then SetPc(s, p, WaitScan(pc.i + 1, pc.havekids))
      else if c.state == Zombie then
        SetPc(Set(s, pc.i, FREE), p, User).(lock := None, reaped := s.reaped[c.pid := c.xstate])
      else SetPc(s, p, WaitScan(pc.i + 1, true))
    case CopyoutFails(p) => SetPc(s, p, User).(lock := None)
    case WaitReturn(p) => SetPc(s, p, User).(lock := None)
    case WaitSleep(p) => Set(s, p, s.procs[p].(state := Sleeping, chan := Some(p), pc := WaitAsleep)).(lock := None)
    case Resume(p) => Set(s, p, s.procs[p].(chan := None, pc := WaitWant))
    case Kill(q) => Set(s, q, Woken(s.procs[q].(killed := true)))
    case Schedule(q) => Set(s, q, s.procs[q].(state := Running))
    case Preempt(p) => Set(s, p, s.procs[p].(state := Runnable))
    case Nap(p) => Set(s, p, s.procs[p].(state := Sleeping))
    case Rouse(q) => Set(s, q, s.procs[q].(state := Runnable))
  }

  // ---------- the invariant, one slot and one pair of slots at a time ----------

  predicate Live(x: Proc) { x.state == Sleeping || x.state == Runnable || x.state == Running }

  predicate AsleepInWait(x: Proc) { x.state == Sleeping && x.pc.WaitAsleep? }

  predicate Forking(pc: Pc) { pc.ForkHave? || pc.ForkLinked? }

  predicate Exiting(pc: Pc) {
    pc.ExitWant? || pc.ExitReparent? || pc.ExitWakeInit? || pc.ExitWakeParent? || pc.ExitDead?
  }

  /** What the slots need to know of the rest: who holds wait_lock and where it stands. */
  datatype Context = Context(lock: Option<nat>, holder: Pc, init: nat, n: nat)

  function ContextOf(s: State): Context {
    var holder := if s.lock.Some? && s.lock.value < |s.procs| then s.procs[s.lock.value].pc else User;
    Context(s.lock, holder, s.init, |s.procs|)
  }

  /** The slots below this one have no child of a process at `pc` any more. */
  function ReparentedTo(pc: Pc, n: nat): nat {
    match pc
    case ExitReparent(_, i) => i
    case ExitWakeInit(_, i, _) => i + 1
    case ExitWakeParent(_, _) => n
    case ExitDead => n
    case _ => 0
  }

  predicate One(x: Proc, p: nat, k: Context) {
    && (HoldsLock(x.pc) <==> k.lock == Some(p))
    && (k.lock == Some(p) ==> x.state == Running && k.holder == x.pc)
    && (x.pc.WaitAsleep? <==> x.chan.Some?) && (x.chan.Some? ==> x.chan.value == p)
    && (x.state == Zombie <==> x.pc.ExitDead?)
    && (x.state == Unused || x.state == Used ==> x.pc.User?)
    && (x.state == Sleeping ==> x.pc.User? || x.pc.WaitAsleep?)
    && (x.state == Unused ==> x.parent.None?)
    && (x.parent.Some? ==> x.parent.value < k.n && x.parent.value != p)
    && (p == k.init ==> Live(x) && x.parent.None? && !Exiting(x.pc))
    && (p != k.init && (Live(x) || x.state == Zombie) ==> x.parent.Some?)
    && (Forking(x.pc) ==> x.pc.child < k.n && x.pc.child != p)
  }

  /** wakeup(initproc) has not come to slot `q` yet. */
  predicate WakePending(q: nat, k: Context) {
    k.lock.Some? && k.holder.ExitWakeInit? && q == k.init && k.holder.j <= q
  }

  /** Slot `c` holding `x` beside slot `q` holding `y`. */
  predicate Two(x: Proc, c: nat, y: Proc, q: nat, k: Context) {
    // a parent is alive, and an exiting one has not come to this child yet
    && (x.parent == Some(q) ==> Live(y) && c >= ReparentedTo(y.pc, k.n))
    // nobody sleeps in kwait with a zombie child, unless the wakeup is on its way
    && (x.state == Zombie && x.parent == Some(q) && AsleepInWait(y) ==> WakePending(q, k))
    // an exiting child whose wakeup has passed its parent left it awake
    && (x.pc.ExitWakeParent? && x.parent == Some(q) && x.pc.j > q ==> !AsleepInWait(y))
    // kwait has seen no zombie among the slots it scanned
    && (y.pc.WaitScan? && c < y.pc.i && x.parent == Some(q) ==> x.state != Zombie && y.pc.havekids)
    // a child under construction belongs to one forking process
    && (x.pc == ForkHave(q) ==> y.state == Used && y.parent.None?)
    && (x.pc == ForkLinked(q) ==> y.state == Used && y.parent == Some(c))
    && (Forking(x.pc) && Forking(y.pc) ==> x.pc.child != y.pc.child)
    && (x.state != Unused && y.state != Unused ==> x.pid != y.pid)
  }

  ghost predicate All(procs: seq<Proc>, k: Context) {
    && k.n == |procs| && k.init < |procs| && (k.lock.Some? ==> k.lock.value < |procs|)
    && (forall p {:trigger procs[p]} :: 0 <= p < |procs| ==> One(procs[p], p, k))
    && (forall c, q {:trigger procs[c], procs[q]} :: 0 <= c < |procs| && 0 <= q < |procs| && c != q ==>
         Two(procs[c], c, procs[q], q, k))
  }

  /** pids that exited, and what kwait has handed out for them. */
  predicate Accounted(x: Proc, nextpid: nat, exited: map<nat, int>, reaped: map<nat, int>) {
    && (x.state != Unused ==> x.pid < nextpid && x.pid !in reaped)
    && (x.state != Unused && x.state != Zombie ==> x.pid !in exited)
    && (x.state == Zombie ==> x.pid in exited && exited[x.pid] == x.xstate)
  }

  ghost predicate ReapingOk(procs: seq<Proc>, nextpid: nat, exited: map<nat, int>, reaped: map<nat, int>) {
    && (forall p {:trigger procs[p]} :: 0 <= p < |procs| ==> Accounted(procs[p], nextpid, exited, reaped))
    && (forall pid :: pid in exited ==> pid < nextpid)
    && (forall pid :: pid in reaped ==> pid in exited && exited[pid] == reaped[pid])
  }

  ghost predicate Inv(s: State) {
    All(s.procs, ContextOf(s)) && ReapingOk(s.procs, s.nextpid, s.exited, s.reaped)
  }

  /** Replacing one slot. */
  lemma Replace(procs: seq<Proc>, k: Context, a: nat, x: Proc, k': Context)
    requires All(procs, k) && a < |procs| && k'.n == k.n && k'.init == k.init
             && (k'.lock.Some? ==> k'.lock.value < |procs|)
    requires One(x, a, k')
    requires forall p {:trigger procs[p]} :: 0 <= p < |procs| && p != a ==>
      One(procs[p], p, k') && Two(procs[p], p, x, a, k') && Two(x, a, procs[p], p, k')
    requires forall c, q {:trigger procs[c], procs[q]} ::
      0 <= c < |procs| && 0 <= q < |procs| && c != q && c != a && q != a ==> Two(procs[c], c, procs[q], q, k')
    ensures All(procs[a := x], k')
  {
  }

  /** Replacing two slots. */
  lemma ReplaceTwo(procs: seq<Proc>, k: Context, a: nat, x: Proc, b: nat, y: Proc, k': Context)
    requires All(procs, k) && a < |procs| && b < |procs| && a != b
    requires k'.n == k.n && k'.init == k.init && (k'.lock.Some? ==> k'.lock.value < |procs|)
    requires One(x, a, k') && One(y, b, k') && Two(x, a, y, b, k') && Two(y, b, x, a, k')
    requires forall p {:trigger procs[p]} :: 0 <= p < |procs| && p != a && p != b ==>
      && One(procs[p], p, k') && Two(procs[p], p, x, a, k') && Two(x, a, procs[p], p, k')
      && Two(procs[p], p, y, b, k') && Two(y, b, procs[p], p, k')
    requires forall c, q {:trigger procs[c], procs[q]} ::
      0 <= c < |procs| && 0 <= q < |procs| && c != q && c != a && q != a && c != b && q != b ==>
      Two(procs[c], c, procs[q], q, k')
    ensures All(procs[a := x][b := y], k')
  {
  }

  lemma KeepsExitBegin(s: State, p: nat, status: int)
    requires Inv(s) && Enabled(s, ExitBegin(p, status))
    ensures All(Next(s, ExitBegin(p, status)).procs, ContextOf(Next(s, ExitBegin(p, status))))
  {
    hide ReapingOk;
    var s' := Next(s, ExitBegin(p, status));
    Replace(s.procs, ContextOf(s), p, s'.procs[p], ContextOf(s'));
  }

  lemma KeepsExitLock(s: State, p: nat)
    requires Inv(s) && Enabled(s, ExitLock(p))
    ensures All(Next(s, ExitLock(p)).procs, ContextOf(Next(s, ExitLock(p))))
  {
    hide ReapingOk;
    var s' := Next(s, ExitLock(p));
    Replace(s.procs, ContextOf(s), p, s'.procs[p], ContextOf(s'));
  }

  lemma KeepsDie(s: State, p: nat)
    requires Inv(s) && Enabled(s, Die(p))
    ensures All(Next(s, Die(p)).procs, ContextOf(Next(s, Die(p))))
  {
    hide ReapingOk;
    var s' := Next(s, Die(p));
    Replace(s.procs, ContextOf(s), p, s'.procs[p], ContextOf(s'));
  }

  lemma KeepsWaitBegin(s: State, p: nat)
    requires Inv(s) && Enabled(s, WaitBegin(p))
    ensures All(Next(s, WaitBegin(p)).procs, ContextOf(Next(s, WaitBegin(p))))
  {
    hide ReapingOk;
    var s' := Next(s, WaitBegin(p));
    Replace(s.procs, ContextOf(s), p, s'.procs[p], ContextOf(s'));
  }

  lemma KeepsWaitLock(s: State, p: nat)
    requires Inv(s) && Enabled(s, WaitLock(p))
    ensures All(Next(s, WaitLock(p)).procs, ContextOf(Next(s, WaitLock(p))))
  {
    hide ReapingOk;
    var s' := Next(s, WaitLock(p));
    Replace(s.procs, ContextOf(s), p, s'.procs[p], ContextOf(s'));
  }

  lemma KeepsCopyoutFails(s: State, p: nat)
    requires Inv(s) && Enabled(s, CopyoutFails(p))
    ensures All(Next(s, CopyoutFails(p)).procs, ContextOf(Next(s, CopyoutFails(p))))
  {
    hide ReapingOk;
    var s' := Next(s, CopyoutFails(p));
    Replace(s.procs, ContextOf(s), p, s'.procs[p], ContextOf(s'));
  }

  lemma KeepsWaitReturn(s: State, p: nat)
    requires Inv(s) && Enabled(s, WaitReturn(p))
    ensures All(Next(s, WaitReturn(p)).procs, ContextOf(Next(s, WaitReturn(p))))
  {
    hide ReapingOk;
    var s' := Next(s, WaitReturn(p));
    Replace(s.procs, ContextOf(s), p, s'.procs[p], ContextOf(s'));
  }

  lemma KeepsWaitSleep(s: State, p: nat)
    requires Inv(s) && Enabled(s, WaitSleep(p))
    ensures All(Next(s, WaitSleep(p)).procs, ContextOf(Next(s, WaitSleep(p))))
  {
    hide ReapingOk;
    var s' := Next(s, WaitSleep(p));
    Replace(s.procs, ContextOf(s), p, s'.procs[p], ContextOf(s'));
  }

  lemma KeepsResume(s: State, p: nat)
    requires Inv(s) && Enabled(s, Resume(p))
    ensures All(Next(s, Resume(p)).procs, ContextOf(Next(s, Resume(p))))
  {
    hide ReapingOk;
    var s' := Next(s, Resume(p));
    Replace(s.procs, ContextOf(s), p, s'.procs[p], ContextOf(s'));
  }

  lemma KeepsKill(s: State, q: nat)
    requires Inv(s) && Enabled(s, Kill(q))
    ensures All(Next(s, Kill(q)).procs, ContextOf(Next(s, Kill(q))))
  {
    hide ReapingOk;
    var s' := Next(s, Kill(q));
    Replace(s.procs, ContextOf(s), q, s'.procs[q], ContextOf(s'));
  }

  lemma KeepsSchedule(s: State, q: nat)
    requires Inv(s) && Enabled(s, Schedule(q))
    ensures All(Next(s, Schedule(q)).procs, ContextOf(Next(s, Schedule(q))))
  {
    hide ReapingOk;
    var s' := Next(s, Schedule(q));
    Replace(s.procs, ContextOf(s), q, s'.procs[q], ContextOf(s'));
  }

  lemma KeepsPreempt(s: State, p: nat)
    requires Inv(s) && Enabled(s, Preempt(p))
    ensures All(Next(s, Preempt(p)).procs, ContextOf(Next(s, Preempt(p))))
  {
    hide ReapingOk;
    var s' := Next(s, Preempt(p));
    Replace(s.procs, ContextOf(s), p, s'.procs[p], ContextOf(s'));
  }

  lemma KeepsNap(s: State, p: nat)
    requires Inv(s) && Enabled(s, Nap(p))
    ensures All(Next(s, Nap(p)).procs, ContextOf(Next(s, Nap(p))))
  {
    hide ReapingOk;
    var s' := Next(s, Nap(p));
    Replace(s.procs, ContextOf(s), p, s'.procs[p], ContextOf(s'));
  }

  lemma KeepsRouse(s: State, q: nat)
    requires Inv(s) && Enabled(s, Rouse(q))
    ensures All(Next(s, Rouse(q)).procs, ContextOf(Next(s, Rouse(q))))
  {
    hide ReapingOk;
    var s' := Next(s, Rouse(q));
    Replace(s.procs, ContextOf(s), q, s'.procs[q], ContextOf(s'));
  }

  lemma KeepsForkFail(s: State, p: nat)
    requires Inv(s) && Enabled(s, ForkFail(p))
    ensures All(Next(s, ForkFail(p)).procs, ContextOf(Next(s, ForkFail(p))))
  {
    hide ReapingOk;
    var s' := Next(s, ForkFail(p));
    var q := s.procs[p].pc.child;
    assert One(s.procs[p], p, ContextOf(s)) && One(s.procs[q], q, ContextOf(s));
    assert Two(s.procs[p], p, s.procs[q], q, ContextOf(s)) && Two(s.procs[q], q, s.procs[p], p, ContextOf(s));
    ReplaceTwo(s.procs, ContextOf(s), q, s'.procs[q], p, s'.procs[p], ContextOf(s'));
  }

  lemma KeepsForkLink(s: State, p: nat)
    requires Inv(s) && Enabled(s, ForkLink(p))
    ensures All(Next(s, ForkLink(p)).procs, ContextOf(Next(s, ForkLink(p))))
  {
    hide ReapingOk;
    var s' := Next(s, ForkLink(p));
    var q := s.procs[p].pc.child;
    assert One(s.procs[p], p, ContextOf(s)) && One(s.procs[q], q, ContextOf(s));
    assert Two(s.procs[p], p, s.procs[q], q, ContextOf(s)) && Two(s.procs[q], q, s.procs[p], p, ContextOf(s));
    ReplaceTwo(s.procs, ContextOf(s), q, s'.procs[q], p, s'.procs[p], ContextOf(s'));
  }

  lemma KeepsForkRun(s: State, p: nat)
    requires Inv(s) && Enabled(s, ForkRun(p))
    ensures All(Next(s, ForkRun(p)).procs, ContextOf(Next(s, ForkRun(p))))
  {
    hide ReapingOk;
    var s' := Next(s, ForkRun(p));
    var q := s.procs[p].pc.child;
    assert One(s.procs[p], p, ContextOf(s)) && One(s.procs[q], q, ContextOf(s));
    assert Two(s.procs[p], p, s.procs[q], q, ContextOf(s)) && Two(s.procs[q], q, s.procs[p], p, ContextOf(s));
    ReplaceTwo(s.procs, ContextOf(s), q, s'.procs[q], p, s'.procs[p], ContextOf(s'));
  }

  lemma KeepsFork(s: State, p: nat, q: nat)
    requires Inv(s) && Enabled(s, Fork(p, q))
    ensures All(Next(s, Fork(p, q)).procs, ContextOf(Next(s, Fork(p, q))))
  {
    var s' := Next(s, Fork(p, q));
    ReplaceTwo(s.procs, ContextOf(s), q, s'.procs[q], p, s'.procs[p], ContextOf(s'));
  }

  lemma KeepsReparentChild(s: State, p: nat)
    requires Inv(s) && Enabled(s, Reparent(p))
    requires s.procs[p].pc.i < |s.procs| && s.procs[s.procs[p].pc.i].parent == Some(p)
    ensures All(Next(s, Reparent(p)).procs, ContextOf(Next(s, Reparent(p))))
  {
    hide ReapingOk;
    var s' := Next(s, Reparent(p));
    var i := s.procs[p].pc.i;
    var k, k', x, y := ContextOf(s), ContextOf(s'), s'.procs[i], s'.procs[p];
    forall c | 0 <= c < |s.procs| && c != i && c != p
      ensures One(s.procs[c], c, k') && Two(s.procs[c], c, x, i, k') && Two(x, i, s.procs[c], c, k')
      ensures Two(s.procs[c], c, y, p, k') && Two(y, p, s.procs[c], c, k')
    {
      assert One(s.procs[c], c, k) && Two(s.procs[c], c, s.procs[i], i, k) && Two(s.procs[i], i, s.procs[c], c, k);
      assert Two(s.procs[c], c, s.procs[p], p, k) && Two(s.procs[p], p, s.procs[c], c, k);
    }
    ReplaceTwo(s.procs, ContextOf(s), i, s'.procs[i], p, s'.procs[p], ContextOf(s'));
  }

  lemma KeepsReparentOther(s: State, p: nat)
    requires Inv(s) && Enabled(s, Reparent(p))
    requires !(s.procs[p].pc.i < |s.procs| && s.procs[s.procs[p].pc.i].parent == Some(p))
    ensures All(Next(s, Reparent(p)).procs, ContextOf(Next(s, Reparent(p))))
  {
    hide ReapingOk;
    var s' := Next(s, Reparent(p));
    Replace(s.procs, ContextOf(s), p, s'.procs[p], ContextOf(s'));
  }

  /** wakeup at slot `j` wakes a sleeper. */
  predicate Wakes(s: State, p: nat, j: nat, chan: Option<nat>) {
    j < |s.procs| && j != p && s.procs[j].state == Sleeping && chan.Some? && s.procs[j].chan == chan
  }

  lemma KeepsWakeInitHit(s: State, p: nat)
    requires Inv(s) && Enabled(s, WakeInit(p)) && Wakes(s, p, s.procs[p].pc.j, Some(s.init))
    ensures All(Next(s, WakeInit(p)).procs, ContextOf(Next(s, WakeInit(p))))
  {
    hide ReapingOk;
    var s' := Next(s, WakeInit(p));
    var j := s.procs[p].pc.j;
    ReplaceTwo(s.procs, ContextOf(s), j, s'.procs[j], p, s'.procs[p], ContextOf(s'));
  }

  lemma KeepsWakeInitMiss(s: State, p: nat)
    requires Inv(s) && Enabled(s, WakeInit(p)) && s.procs[p].pc.j < |s.procs|
             && !Wakes(s, p, s.procs[p].pc.j, Some(s.init))
    ensures All(Next(s, WakeInit(p)).procs, ContextOf(Next(s, WakeInit(p))))
  {
    hide ReapingOk;
    var s' := Next(s, WakeInit(p));
    assert One(s.procs[s.init], s.init, ContextOf(s));
    Replace(s.procs, ContextOf(s), p, s'.procs[p], ContextOf(s'));
  }

  lemma KeepsWakeInitEnd(s: State, p: nat)
    requires Inv(s) && Enabled(s, WakeInit(p)) && s.procs[p].pc.j >= |s.procs|
    ensures All(Next(s, WakeInit(p)).procs, ContextOf(Next(s, WakeInit(p))))
  {
    hide ReapingOk;
    var s' := Next(s, WakeInit(p));
    Replace(s.procs, ContextOf(s), p, s'.procs[p], ContextOf(s'));
  }

  lemma KeepsWakeParentHit(s: State, p: nat)
    requires Inv(s) && Enabled(s, WakeParent(p)) && Wakes(s, p, s.procs[p].pc.j, s.procs[p].parent)
    ensures All(Next(s, WakeParent(p)).procs, ContextOf(Next(s, WakeParent(p))))
  {
    hide ReapingOk;
    var s' := Next(s, WakeParent(p));
    var j := s.procs[p].pc.j;
    ReplaceTwo(s.procs, ContextOf(s), j, s'.procs[j], p, s'.procs[p], ContextOf(s'));
  }

  lemma KeepsWakeParentMiss(s: State, p: nat)
    requires Inv(s) && Enabled(s, WakeParent(p)) && !Wakes(s, p, s.procs[p].pc.j, s.procs[p].parent)
    ensures All(Next(s, WakeParent(p)).procs, ContextOf(Next(s, WakeParent(p))))
  {
    hide ReapingOk;
    var s' := Next(s, WakeParent(p));
    Replace(s.procs, ContextOf(s), p, s'.procs[p], ContextOf(s'));
  }

  lemma KeepsReap(s: State, p: nat)
    requires Inv(s) && Enabled(s, ScanSlot(p)) && FoundZombie(s, p)
    ensures All(Next(s, ScanSlot(p)).procs, ContextOf(Next(s, ScanSlot(p))))
  {
    hide ReapingOk;
    var s' := Next(s, ScanSlot(p));
    var i := s.procs[p].pc.i;
    assert One(s.procs[i], i, ContextOf(s));
    assert Two(s.procs[i], i, s.procs[p], p, ContextOf(s)) && Two(s.procs[p], p, s.procs[i], i, ContextOf(s));
    ReplaceTwo(s.procs, ContextOf(s), i, s'.procs[i], p, s'.procs[p], ContextOf(s'));
  }

  lemma KeepsScanOn(s: State, p: nat)
    requires Inv(s) && Enabled(s, ScanSlot(p)) && !FoundZombie(s, p)
    ensures All(Next(s, ScanSlot(p)).procs, ContextOf(Next(s, ScanSlot(p))))
  {
    hide ReapingOk;
    var s' := Next(s, ScanSlot(p));
    Replace(s.procs, ContextOf(s), p, s'.procs[p], ContextOf(s'));
  }

  // ---------- exit statuses ----------

  lemma AccountsFork(s: State, p: nat, q: nat)
    requires Inv(s) && Enabled(s, Fork(p, q))
    ensures var s' := Next(s, Fork(p, q)); ReapingOk(s'.procs, s'.nextpid, s'.exited, s'.reaped)
  {
    assert s.nextpid !in s.exited && s.nextpid !in s.reaped;
  }

  lemma AccountsDie(s: State, p: nat)
    requires Inv(s) && Enabled(s, Die(p))
    ensures var s' := Next(s, Die(p)); ReapingOk(s'.procs, s'.nextpid, s'.exited, s'.reaped)
  {
    forall c | 0 <= c < |s.procs| && c != p && s.procs[c].state != Unused
      ensures s.procs[c].pid != s.procs[p].pid
    {
      assert Two(s.procs[c], c, s.procs[p], p, ContextOf(s));
    }
  }

  /** kwait hands out a status never handed out before, and it is the one the child exited with. */
  lemma AccountsReap(s: State, p: nat)
    requires Inv(s) && Enabled(s, ScanSlot(p)) && FoundZombie(s, p)
    ensures var s' := Next(s, ScanSlot(p)); ReapingOk(s'.procs, s'.nextpid, s'.exited, s'.reaped)
    ensures var c := s.procs[s.procs[p].pc.i]; c.pid !in s.reaped && c.pid in s.exited && s.exited[c.pid] == c.xstate
  {
    var i := s.procs[p].pc.i;
    forall c | 0 <= c < |s.procs| && c != i && s.procs[c].state != Unused
      ensures s.procs[c].pid != s.procs[i].pid
    {
      assert Two(s.procs[c], c, s.procs[i], i, ContextOf(s));
    }
  }

  lemma AccountsForkRun(s: State, p: nat)
    requires Inv(s) && Enabled(s, ForkRun(p))
    ensures var s' := Next(s, ForkRun(p)); ReapingOk(s'.procs, s'.nextpid, s'.exited, s'.reaped)
  {
    var q := s.procs[p].pc.child;
    assert One(s.procs[p], p, ContextOf(s));
    assert Two(s.procs[p], p, s.procs[q], q, ContextOf(s));
  }

  lemma AccountsOther(s: State, step: Step)
    requires ReapingOk(s.procs, s.nextpid, s.exited, s.reaped) && Enabled(s, step)
    requires !step.Fork? && !step.Die? && !step.ForkRun? && !(step.ScanSlot? && FoundZombie(s, step.p))
    ensures var s' := Next(s, step); ReapingOk(s'.procs, s'.nextpid, s'.exited, s'.reaped)
  {
    var s' := Next(s, step);
    assert s'.nextpid == s.nextpid && s'.exited == s.exited && s'.reaped == s.reaped;
    forall c | 0 <= c < |s'.procs|
      ensures Accounted(s'.procs[c], s.nextpid, s.exited, s.reaped)
    {
      assert Accounted(s.procs[c], s.nextpid, s.exited, s.reaped);
    }
  }

  lemma AccountsStep(s: State, step: Step)
    requires Inv(s) && Enabled(s, step)
    ensures var s' := Next(s, step); ReapingOk(s'.procs, s'.nextpid, s'.exited, s'.reaped)
  {
    if step.Fork? {
      AccountsFork(s, step.p, step.q);
    } else if step.Die? {
      AccountsDie(s, step.p);
    } else if step.ForkRun? {
      AccountsForkRun(s, step.p);
    } else if step.ScanSlot? && FoundZombie(s, step.p) {
      AccountsReap(s, step.p);
    } else {
      AccountsOther(s, step);
    }
  }

  // ---------- every step, every run ----------

  lemma WakeStepKeeps(s: State, step: Step)
    requires Inv(s) && Enabled(s, step) && (step.Reparent? || step.WakeInit? || step.WakeParent? || step.ScanSlot?)
    ensures All(Next(s, step).procs, ContextOf(Next(s, step)))
  {
    var p := step.p;
    if step.Reparent? {
      if s.procs[p].pc.i < |s.procs| && s.procs[s.procs[p].pc.i].parent == Some(p) {
        KeepsReparentChild(s, p);
      } else {
        KeepsReparentOther(s, p);
      }
    } else if step.WakeInit? {
      if Wakes(s, p, s.procs[p].pc.j, Some(s.init)) {
        KeepsWakeInitHit(s, p);
      } else if s.procs[p].pc.j >= |s.procs| {
        KeepsWakeInitEnd(s, p);
      } else {
        KeepsWakeInitMiss(s, p);
      }
    } else if step.WakeParent? {
      if Wakes(s, p, s.procs[p].pc.j, s.procs[p].parent) {
        KeepsWakeParentHit(s, p);
      } else {
        KeepsWakeParentMiss(s, p);
      }
    } else if FoundZombie(s, p) {
      KeepsReap(s, p);
    } else {
      KeepsScanOn(s, p);
    }
  }

  lemma AllStep(s: State, step: Step)
    requires Inv(s) && Enabled(s, step)
    ensures All(Next(s, step).procs, ContextOf(Next(s, step)))
  {
    match step
    case Fork(p, q) => KeepsFork(s, p, q);
    case ForkFail(p) => KeepsForkFail(s, p);
    case ForkLink(p) => KeepsForkLink(s, p);
    case ForkRun(p) => KeepsForkRun(s, p);
    case ExitBegin(p, status) => KeepsExitBegin(s, p, status);
    case ExitLock(p) => KeepsExitLock(s, p);
    case Die(p) => KeepsDie(s, p);
    case WaitBegin(p) => KeepsWaitBegin(s, p);
    case WaitLock(p) => KeepsWaitLock(s, p);
    case CopyoutFails(p) => KeepsCopyoutFails(s, p);
    case WaitReturn(p) => KeepsWaitReturn(s, p);
    case WaitSleep(p) => KeepsWaitSleep(s, p);
    case Resume(p) => KeepsResume(s, p);
    case Kill(q) => KeepsKill(s, q);
    case Schedule(q) => KeepsSchedule(s, q);
    case Preempt(p) => KeepsPreempt(s, p);
    case Nap(p) => KeepsNap(s, p);
    case Rouse(q) => KeepsRouse(s, q);
    case _ => WakeStepKeeps(s, step);
  }

  predicate Runs(s: State, steps: seq<Step>)
    decreases |steps|
  {
    steps == [] || (Enabled(s, steps[0]) && Runs(Next(s, steps[0]), steps[1..]))
  }

  function After(s: State, steps: seq<Step>): State
    requires Runs(s, steps)
    decreases |steps|
  {
    if steps == [] then s else After(Next(s, steps[0]), steps[1..])
  }

  lemma {:induction false} RunKeeps(s: State, steps: seq<Step>)
    requires Inv(s) && Runs(s, steps)
    ensures Inv(After(s, steps))
    decreases |steps|
  {
    if steps != [] {
      AllStep(s, steps[0]);
      AccountsStep(s, steps[0]);
      RunKeeps(Next(s, steps[0]), steps[1..]);
    }
  }

  /** After userinit: only init exists, and it is RUNNABLE. */
  predicate Boot(s: State) {
    && s.init < |s.procs| && s.lock.None? && s.exited == map[] && s.reaped == map[]
    && s.procs[s.init] == Proc(Runnable, None, 1, 0, false, None, User) && s.nextpid == 2
    && (forall p :: 0 <= p < |s.procs| && p != s.init ==> s.procs[p] == FREE)
  }

  /** No lost wakeup in exit and wait. In every run, whenever wait_lock is free: a process asleep in
      kwait has no zombie child, and every zombie has a parent that is alive. */
  lemma NoLostWakeup(s0: State, steps: seq<Step>, c: nat)
    requires Boot(s0) && Runs(s0, steps) && After(s0, steps).lock.None? && c < |After(s0, steps).procs|
    ensures var s := After(s0, steps); var x := s.procs[c];
      && (x.state == Zombie ==> x.parent.Some?)
      && (x.parent.Some? ==> x.parent.value < |s.procs| && Live(s.procs[x.parent.value]))
      && (x.state == Zombie ==> !AsleepInWait(s.procs[x.parent.value]))
  {
    RunKeeps(s0, steps);
    var s := After(s0, steps);
    assert One(s.procs[c], c, ContextOf(s));
    if s.procs[c].parent.Some? {
      assert Two(s.procs[c], c, s.procs[s.procs[c].parent.value], s.procs[c].parent.value, ContextOf(s));
    }
  }

  /** Each exited pid is reaped at most once, with its own exit status: when kwait is about to free a
      zombie, that pid has not been handed out before and its status is the one passed to kexit. */
  lemma ReapedOnceWithStatus(s0: State, steps: seq<Step>, p: nat)
    requires Boot(s0) && Runs(s0, steps) && FoundZombie(After(s0, steps), p)
    ensures var s := After(s0, steps); var c := s.procs[s.procs[p].pc.i];
      && c.pid !in s.reaped && c.pid in s.exited && c.xstate == s.exited[c.pid]
      && Next(s, ScanSlot(p)).reaped == s.reaped[c.pid := s.exited[c.pid]]
  {
    RunKeeps(s0, steps);
    AccountsReap(After(s0, steps), p);
  }

  /** kwait gives up for want of children only when the process has none. */
  lemma NoChildrenMeansNone(s0: State, steps: seq<Step>, p: nat, c: nat)
    requires Boot(s0) && Runs(s0, steps) && Enabled(After(s0, steps), WaitReturn(p)) && c < |After(s0, steps).procs|
    ensures var s := After(s0, steps); !s.procs[p].pc.havekids ==> s.procs[c].parent != Some(p)
  {
    RunKeeps(s0, steps);
    var s := After(s0, steps);
    assert One(s.procs[p], p, ContextOf(s)) && One(s.procs[c], c, ContextOf(s));
    if c != p {
      assert Two(s.procs[c], c, s.procs[p], p, ContextOf(s));
    }
  }
}

/** The redo log over the buffer cache as a step machine (kernel/log.c, kernel/bio.c): any number
    of threads run operations and plain reads, the last operation out commits, and the machine may
    crash between any two block writes, also during recovery. A single block write is atomic. */
module LogMachine {
  import opened Util

  const MAXOPBLOCKS := 10
  const LOGBLOCKS := 30
  const WORDS := 256

  /** A disk block as 32-bit words. */
  type Block = b: seq<int> | |b| == WORDS witness seq(WORDS, _ => 0)

  // ---------- the on-disk header (struct logheader) ----------

  /** read_head copies as many entries as the count says, so the count must fit the array. */
  predicate Readable(b: Block) { 0 <= b[0] <= LOGBLOCKS }

  /** The block numbers recorded in a header block. */
  function HeaderOf(b: Block): (h: seq<int>)
    ensures |h| <= LOGBLOCKS
  {
    if Readable(b) then b[1..1 + b[0]] else []
  }

  /** write_head changes the count and that many entries, and leaves the rest of the block. */
  function WithHeader(b: Block, h: seq<int>): (r: Block)
    requires |h| <= LOGBLOCKS
    ensures Readable(r) && HeaderOf(r) == h
  {
    var r := [|h|] + h + b[1 + |h|..];
    assert r[1..1 + |h|] == h;
    r
  }

  // ---------- state ----------

  /** A buffer: bio.c's fields, the threads that hold a reference, the owner of its sleep lock,
      and whether the owner has changed the data without calling log_write yet. */
  datatype Slot = Slot(
    used: bool, blockno: nat, valid: bool, refcnt: nat, data: Block,
    holders: set<nat>, owner: Option<nat>, dirty: bool)

  datatype Pc =
    | Normal             // committing == 0
    | Copying(k: nat)    // write_log has written k log blocks
    | Installing(k: nat) // the header is on disk; install_trans has installed k blocks
    | Finished           // the header is cleared, committing not yet reset
    | Booting            // after a crash, before read_head
    | Replaying(k: nat)  // recovery has installed k blocks

  /** A thread waiting in sys_sync: the commit number it waits for, and how many operations had
      ended when it called. */
  datatype Waiter = Waiter(target: nat, endedAtCall: nat)

  datatype State = State(
    disk: seq<Block>,
    start: nat,              // log.start
    cache: seq<Slot>,
    lh: seq<int>,            // in-memory header
    ops: map<nat, nat>,      // outstanding operations, with the block numbers each has added
    pc: Pc,
    agent: nat,              // the thread that commits or recovers
    ncommit: nat,
    ended: nat,              // operations whose end_op has dropped `outstanding`
    durable: nat,            // how many of them are covered by the last commit
    syncing: map<nat, Waiter>)

  datatype Step =
    | BeginOp(t: nat)
    | EndOp(t: nat)
    | Ref(t: nat, i: nat)                 // bget, block cached
    | Recycle(t: nat, i: nat, b: nat)     // bget, not cached: reuse an unreferenced buffer
    | Lock(t: nat, i: nat)                // acquiresleep
    | Fill(t: nat, i: nat)                // bread's disk read
    | Read(t: nat, i: nat)                // the owner looks at the data
    | Modify(t: nat, i: nat, d: Block)
    | LogWrite(t: nat, i: nat)
    | Unlock(t: nat, i: nat)              // brelse: releasesleep
    | Unref(t: nat, i: nat)               // brelse: refcnt--
    | CopyBlock(i: nat, j: nat)           // one round of write_log
    | WriteHead(i: nat)                   // the commit point
    | InstallBlock(i: nat, j: nat)        // one round of install_trans, with bunpin
    | ClearHead(i: nat)
    | NothingLogged                       // commit with lh.n == 0
    | CommitDone
    | Crash
    | ReadHead(i: nat)
    | ReplayBlock(i: nat, j: nat)         // one round of install_trans while recovering
    | ReplayClear(i: nat)
    | SyncCall(t: nat)
    | SyncReturn(t: nat)

  // ---------- layout ----------

  /** Block `b` lies outside the log region of a disk of `size` blocks. */
  predicate Home(start: nat, size: nat, b: int) {
    0 <= b < size && !(start <= b <= start + LOGBLOCKS)
  }

  predicate IsHome(s: State, b: int) { Home(s.start, |s.disk|, b) }

  function LogBlock(start: nat, k: nat): nat { start + 1 + k }

  predicate Recovering(pc: Pc) { pc.Booting? || pc.Replaying? }
  predicate Committing(pc: Pc) { pc.Copying? || pc.Installing? || pc.Finished? }

  predicate Caches(x: Slot, b: int) { x.used && x.blockno == b }

  predicate Owns(s: State, t: nat, i: nat) {
    i < |s.cache| && s.cache[i].used && s.cache[i].owner == Some(t)
  }

  /** The agent owns a buffer holding block `b`. */
  predicate Has(s: State, i: nat, b: int) {
    Owns(s, s.agent, i) && s.cache[i].valid && s.cache[i].blockno == b
  }

  /** File system threads use home blocks and run only once recovery is over; the agent may also
      use the log region. */
  predicate MayUse(s: State, t: nat, b: nat) {
    && b < |s.disk|
    && ((IsHome(s, b) && !Recovering(s.pc)) ||
        (t == s.agent && (Committing(s.pc) || Recovering(s.pc))))
  }

  // ---------- steps ----------

  predicate Enabled(s: State, step: Step) {
    match step
    case BeginOp(t) =>
      s.pc.Normal? && t !in s.ops && |s.lh| + (|s.ops| + 1) * MAXOPBLOCKS <= LOGBLOCKS
    case EndOp(t) =>
      t in s.ops && forall i :: 0 <= i < |s.cache| && s.cache[i].dirty ==> s.cache[i].owner != Some(t)
    case Ref(t, i) =>
      i < |s.cache| && s.cache[i].used && t !in s.cache[i].holders && MayUse(s, t, s.cache[i].blockno)
    case Recycle(t, i, b) =>
      && i < |s.cache| && s.cache[i].refcnt == 0 && MayUse(s, t, b)
      && forall j :: 0 <= j < |s.cache| ==> !Caches(s.cache[j], b)
    case Lock(t, i) =>
      i < |s.cache| && s.cache[i].used && t in s.cache[i].holders && s.cache[i].owner.None?
    case Fill(t, i) => Owns(s, t, i) && !s.cache[i].valid && s.cache[i].blockno < |s.disk|
    case Read(t, i) => Owns(s, t, i) && s.cache[i].valid && IsHome(s, s.cache[i].blockno) && !Recovering(s.pc)
    case Modify(t, i, d) => Owns(s, t, i) && s.cache[i].valid && t in s.ops && IsHome(s, s.cache[i].blockno)
    case LogWrite(t, i) =>
      && Owns(s, t, i) && s.cache[i].valid && t in s.ops && IsHome(s, s.cache[i].blockno)
      && |s.lh| < LOGBLOCKS
      && (s.cache[i].blockno as int !in s.lh ==> s.ops[t] < MAXOPBLOCKS)
    case Unlock(t, i) => Owns(s, t, i) && !s.cache[i].dirty
    case Unref(t, i) => i < |s.cache| && t in s.cache[i].holders && s.cache[i].owner != Some(t) && s.cache[i].refcnt > 0
    case CopyBlock(i, j) =>
      s.pc.Copying? && s.pc.k < |s.lh| && Has(s, i, LogBlock(s.start, s.pc.k)) && Has(s, j, s.lh[s.pc.k])
        && LogBlock(s.start, s.pc.k) < |s.disk|
    case WriteHead(i) =>
      s.pc.Copying? && s.lh != [] && s.pc.k == |s.lh| <= LOGBLOCKS && Has(s, i, s.start) && s.start < |s.disk|
    case InstallBlock(i, j) =>
      && s.pc.Installing? && s.pc.k < |s.lh| && Has(s, i, LogBlock(s.start, s.pc.k)) && Has(s, j, s.lh[s.pc.k])
      && IsHome(s, s.lh[s.pc.k]) && s.cache[j].refcnt > 0
    case ClearHead(i) => s.pc.Installing? && s.pc.k == |s.lh| && Has(s, i, s.start) && s.start < |s.disk|
    case NothingLogged => s.pc.Copying? && s.lh == []
    case CommitDone => s.pc.Finished?
    case Crash => true
    case ReadHead(i) => s.pc.Booting? && Has(s, i, s.start)
    case ReplayBlock(i, j) =>
      && s.pc.Replaying? && s.pc.k < |s.lh| && Has(s, i, LogBlock(s.start, s.pc.k)) && Has(s, j, s.lh[s.pc.k])
      && IsHome(s, s.lh[s.pc.k])
    case ReplayClear(i) => s.pc.Replaying? && s.pc.k == |s.lh| && Has(s, i, s.start) && s.start < |s.disk|
    case SyncCall(t) => t !in s.syncing && !Recovering(s.pc) && (Committing(s.pc) || s.ops != map[])
    case SyncReturn(t) => t in s.syncing && s.ncommit >= s.syncing[t].target
  }

  function Put(s: State, i: nat, x: Slot): State
    requires i < |s.cache|
  { s.(cache := s.cache[i := x]) }

  /** bwrite of buffer `i` after its data became `d`. */
  function WriteThrough(s: State, i: nat, d: Block): State
    requires i < |s.cache| && s.cache[i].blockno < |s.disk|
  { s.(cache := s.cache[i := s.cache[i].(data := d)], disk := s.disk[s.cache[i].blockno := d]) }

  function EmptySlot(x: Slot): Slot {
    Slot(false, 0, false, 0, x.data, {}, None, false)
  }

  function Next(s: State, step: Step): State
    requires Enabled(s, step)
  {
    match step
    case BeginOp(t) => s.(ops := s.ops[t := 0])
    case EndOp(t) =>
      var ops := map u | u in s.ops && u != t :: s.ops[u];
      var s' := s.(ops := ops, ended := s.ended + 1);
      if ops == map[] then s'.(pc := Copying(0), agent := t) else s'
    case Ref(t, i) =>
      Put(s, i, s.cache[i].(refcnt := s.cache[i].refcnt + 1, holders := s.cache[i].holders + {t}))
    case Recycle(t, i, b) =>
      Put(s, i, Slot(true, b, false, 1, s.cache[i].data, {t}, None, false))
    case Lock(t, i) => Put(s, i, s.cache[i].(owner := Some(t)))
    case Fill(t, i) => Put(s, i, s.cache[i].(data := s.disk[s.cache[i].blockno], valid := true))
    case Read(t, i) => s
    case Modify(t, i, d) => Put(s, i, s.cache[i].(data := d, dirty := true))
    case LogWrite(t, i) =>
      var b := s.cache[i].blockno as int;
      if b in s.lh then Put(s, i, s.cache[i].(dirty := false))
      else Put(s, i, s.cache[i].(dirty := false, refcnt := s.cache[i].refcnt + 1))
           .(lh := s.lh + [b], ops := s.ops[t := s.ops[t] + 1])
    case Unlock(t, i) => Put(s, i, s.cache[i].(owner := None))
    case Unref(t, i) =>
      Put(s, i, s.cache[i].(refcnt := s.cache[i].refcnt - 1, holders := s.cache[i].holders - {t}))
    case CopyBlock(i, j) => WriteThrough(s, i, s.cache[j].data).(pc := Copying(s.pc.k + 1))
    case WriteHead(i) =>
      WriteThrough(s, i, WithHeader(s.cache[i].data, s.lh)).(pc := Installing(0), durable := s.ended)
    case InstallBlock(i, j) =>
      s.(cache := s.cache[j := s.cache[j].(data := s.cache[i].data, refcnt := s.cache[j].refcnt - 1)],
         disk := s.disk[s.lh[s.pc.k] := s.cache[i].data],
         pc := Installing(s.pc.k + 1))
    case ClearHead(i) => WriteThrough(s, i, WithHeader(s.cache[i].data, [])).(lh := [], pc := Finished)
    case NothingLogged => s.(pc := Finished, durable := s.ended)
    case CommitDone => s.(pc := Normal, ncommit := s.ncommit + 1)
    case Crash =>
      s.(cache := seq(|s.cache|, i requires 0 <= i < |s.cache| => EmptySlot(s.cache[i])),
         lh := [], ops := map[], pc := Booting, ended := s.durable, syncing := map[])
    case ReadHead(i) => s.(lh := HeaderOf(s.cache[i].data), pc := Replaying(0))
    case ReplayBlock(i, j) => WriteThrough(s, j, s.cache[i].data).(pc := Replaying(s.pc.k + 1))
    case ReplayClear(i) => WriteThrough(s, i, WithHeader(s.cache[i].data, [])).(lh := [], pc := Normal)
    case SyncCall(t) => s.(syncing := s.syncing[t := Waiter(s.ncommit + 1, s.ended)])
    case SyncReturn(t) => s.(syncing := map u | u in s.syncing && u != t :: s.syncing[u])
  }

  // ---------- invariant ----------

  /** The logged blocks that are not yet installed; their buffers are pinned. */
  function Logged(s: State): seq<int> {
    match s.pc
    case Normal => s.lh
    case Copying(_) => s.lh
    case Installing(k) => if k <= |s.lh| then s.lh[k..] else []
    case _ => []
  }

  predicate HeaderFits(h: seq<int>, start: nat, size: nat) {
    && |h| <= LOGBLOCKS && Distinct(h)
    && forall k :: 0 <= k < |h| ==> Home(start, size, h[k])
  }

  /** What depends on neither the cache nor the log contents. */
  ghost predicate ShapeOk(s: State) {
    && s.start + LOGBLOCKS < |s.disk|
    && (!Recovering(s.pc) ==> HeaderFits(s.lh, s.start, |s.disk|))
    && (Committing(s.pc) || Recovering(s.pc) ==> s.ops == map[])
    && (s.pc.Copying? || s.pc.Installing? ==> s.pc.k <= |s.lh|)
    && (s.pc.Finished? || s.pc.Booting? ==> s.lh == [])
    && (s.pc.Normal? && s.ops == map[] ==> s.lh == [] && s.durable == s.ended)
    && (s.pc.Installing? || s.pc.Finished? || Recovering(s.pc) ==> s.durable == s.ended)
    && s.durable <= s.ended
  }

  /** Reference counts, locks and pins: a count is the number of holders plus one while the block
      is logged and not installed. */
  predicate SlotOk(x: Slot, logged: seq<int>, ops: map<nat, nat>, start: nat, size: nat) {
    && x.refcnt == |x.holders| + (if x.used && x.blockno as int in logged then 1 else 0)
    && (x.owner.Some? ==> x.used && x.owner.value in x.holders)
    && (x.used ==> x.blockno < size)
    && (x.dirty ==> x.used && x.valid && !(start <= x.blockno <= start + LOGBLOCKS))
    && (x.dirty ==> x.owner.Some? && x.owner.value in ops)
    && (x.used && x.blockno as int in logged ==> x.valid)
  }

  /** No block is cached twice. */
  predicate Unique(cache: seq<Slot>) {
    forall i, j :: 0 <= i < j < |cache| && cache[i].used && cache[j].used ==> cache[i].blockno != cache[j].blockno
  }

  ghost predicate Cached(cache: seq<Slot>, b: int) {
    exists i :: 0 <= i < |cache| && Caches(cache[i], b)
  }

  ghost predicate AllCached(cache: seq<Slot>, logged: seq<int>) {
    forall b :: b in logged ==> Cached(cache, b)
  }

  /** A valid buffer that is neither logged nor being modified equals the disk. */
  predicate SlotCoherent(x: Slot, logged: seq<int>, disk: seq<Block>) {
    x.used && x.valid && !x.dirty && x.blockno as int !in logged && x.blockno < |disk| ==> x.data == disk[x.blockno]
  }

  ghost predicate CacheOk(cache: seq<Slot>, logged: seq<int>, ops: map<nat, nat>, start: nat, disk: seq<Block>) {
    && (forall i :: 0 <= i < |cache| ==> SlotOk(cache[i], logged, ops, start, |disk|))
    && (forall i :: 0 <= i < |cache| ==> SlotCoherent(cache[i], logged, disk))
    && Unique(cache)
    && AllCached(cache, logged)
  }

  /** Every buffer of block `b` holds `d`. */
  predicate CachedAs(cache: seq<Slot>, b: int, d: Block) {
    forall i :: 0 <= i < |cache| && Caches(cache[i], b) ==> cache[i].data == d
  }

  /** Log blocks `from..to` hold the cached contents of the blocks they stand for. */
  ghost predicate Copied(cache: seq<Slot>, lh: seq<int>, start: nat, disk: seq<Block>, from: nat, to: nat)
    requires start + LOGBLOCKS < |disk| && to <= |lh| <= LOGBLOCKS
  {
    forall k :: from <= k < to ==> CachedAs(cache, lh[k], disk[LogBlock(start, k)])
  }

  /** The first `to` log blocks have reached their homes. */
  ghost predicate InstalledTo(lh: seq<int>, start: nat, disk: seq<Block>, to: nat)
    requires start + LOGBLOCKS < |disk| && to <= |lh|
    requires HeaderFits(lh, start, |disk|)
  {
    forall k :: 0 <= k < to ==> disk[lh[k]] == disk[LogBlock(start, k)]
  }

  ghost predicate LogOk(s: State)
    requires ShapeOk(s)
  {
    match s.pc
    case Normal => HeaderOf(s.disk[s.start]) == []
    case Copying(k) => HeaderOf(s.disk[s.start]) == [] && Copied(s.cache, s.lh, s.start, s.disk, 0, k)
    case Installing(k) => HeaderOf(s.disk[s.start]) == s.lh && Copied(s.cache, s.lh, s.start, s.disk, k, |s.lh|)
      && InstalledTo(s.lh, s.start, s.disk, k)
    case Finished => HeaderOf(s.disk[s.start]) == []
    case Booting => HeaderFits(HeaderOf(s.disk[s.start]), s.start, |s.disk|)
    case Replaying(k) =>
      k <= |s.lh| && HeaderFits(s.lh, s.start, |s.disk|) && HeaderOf(s.disk[s.start]) == s.lh
        && InstalledTo(s.lh, s.start, s.disk, k)
  }

  ghost predicate Inv(s: State) {
    ShapeOk(s) && CacheOk(s.cache, Logged(s), s.ops, s.start, s.disk) && LogOk(s)
  }

  // ---------- preservation of the cache part ----------

  lemma CachedKept(cache: seq<Slot>, cache': seq<Slot>, logged: seq<int>)
    requires AllCached(cache, logged) && |cache'| == |cache|
    requires forall i :: 0 <= i < |cache| && cache[i].used && cache[i].blockno as int in logged ==>
      cache'[i].used && cache'[i].blockno == cache[i].blockno
    ensures AllCached(cache', logged)
  {
    forall b | b in logged
      ensures Cached(cache', b)
    {
      assert Cached(cache, b);
      var i :| 0 <= i < |cache| && Caches(cache[i], b);
      assert Caches(cache'[i], b);
    }
  }

  /** Replacing one buffer, with its block number unchanged. */
  lemma CachePut(cache: seq<Slot>, logged: seq<int>, ops: map<nat, nat>, start: nat, disk: seq<Block>, i: nat, x: Slot)
    requires CacheOk(cache, logged, ops, start, disk) && i < |cache|
    requires x.used == cache[i].used && x.blockno == cache[i].blockno
    requires SlotOk(x, logged, ops, start, |disk|) && SlotCoherent(x, logged, disk)
    ensures CacheOk(cache[i := x], logged, ops, start, disk)
  {
    CachedKept(cache, cache[i := x], logged);
  }

  /** bwrite of a clean buffer whose block is not logged. */
  lemma CacheWrite(cache: seq<Slot>, logged: seq<int>, ops: map<nat, nat>, start: nat, disk: seq<Block>, i: nat,
                   d: Block)
    requires CacheOk(cache, logged, ops, start, disk) && i < |cache|
    requires cache[i].used && cache[i].blockno < |disk| && cache[i].blockno as int !in logged
    ensures CacheOk(cache[i := cache[i].(data := d)], logged, ops, start, disk[cache[i].blockno := d])
  {
    var cache' := cache[i := cache[i].(data := d)];
    CachedKept(cache, cache', logged);
  }

  /** bget gives an unreferenced buffer, which is never a logged one, to a block not cached yet. */
  lemma CacheRecycle(cache: seq<Slot>, logged: seq<int>, ops: map<nat, nat>, start: nat, disk: seq<Block>, i: nat,
                     x: Slot)
    requires CacheOk(cache, logged, ops, start, disk) && i < |cache| && cache[i].refcnt == 0
    requires x.used && !x.valid && !x.dirty && x.owner.None? && x.refcnt == |x.holders| && x.blockno < |disk|
    requires forall j :: 0 <= j < |cache| ==> !Caches(cache[j], x.blockno)
    ensures CacheOk(cache[i := x], logged, ops, start, disk)
  {
    CachedKept(cache, cache[i := x], logged);
    assert x.blockno as int in logged ==> Cached(cache, x.blockno);
  }

  /** log_write of a block seen for the first time pins its buffer. */
  lemma CachePin(cache: seq<Slot>, logged: seq<int>, ops: map<nat, nat>, start: nat, disk: seq<Block>, i: nat, x: Slot)
    requires CacheOk(cache, logged, ops, start, disk) && i < |cache|
    requires cache[i].used && cache[i].valid && cache[i].blockno as int !in logged
    requires x == cache[i].(dirty := false, refcnt := cache[i].refcnt + 1)
    ensures CacheOk(cache[i := x], logged + [cache[i].blockno], ops, start, disk)
  {
    var b := cache[i].blockno as int;
    var cache' := cache[i := x];
    CachedKept(cache, cache', logged);
    assert Caches(cache'[i], b);
    forall j | 0 <= j < |cache|
      ensures SlotOk(cache'[j], logged + [b], ops, start, |disk|) && SlotCoherent(cache'[j], logged + [b], disk)
    {
      assert SlotOk(cache[j], logged, ops, start, |disk|) && SlotCoherent(cache[j], logged, disk);
      if j != i {
        assert cache[j].used ==> cache[j].blockno != b;
      }
    }
  }

  /** Writing a logged block home and unpinning its buffer. */
  lemma CacheInstall(cache: seq<Slot>, b: int, rest: seq<int>, ops: map<nat, nat>, start: nat, disk: seq<Block>, j: nat)
    requires CacheOk(cache, [b] + rest, ops, start, disk) && j < |cache| && b !in rest
    requires Caches(cache[j], b) && cache[j].refcnt > 0 && b < |disk|
    ensures CacheOk(cache[j := cache[j].(refcnt := cache[j].refcnt - 1)], rest, ops, start, disk[b := cache[j].data])
  {
    var x := cache[j].(refcnt := cache[j].refcnt - 1);
    var cache' := cache[j := x];
    var disk' := disk[b := x.data];
    assert forall c :: c in [b] + rest <==> c == b || c in rest;
    CachedKept(cache, cache', rest);
    forall i | 0 <= i < |cache|
      ensures SlotOk(cache'[i], rest, ops, start, |disk'|) && SlotCoherent(cache'[i], rest, disk')
    {
      assert SlotOk(cache[i], [b] + rest, ops, start, |disk|) && SlotCoherent(cache[i], [b] + rest, disk);
      if i != j {
        assert cache[i].used ==> cache[i].blockno != cache[j].blockno;
      }
    }
  }

  // ---------- preservation, one step at a time ----------

  /** Buffers of logged blocks keep their contents, so what write_log copied stays right. */
  lemma PutKeeps(s: State, i: nat, x: Slot)
    requires Inv(s) && i < |s.cache| && x.used == s.cache[i].used && x.blockno == s.cache[i].blockno
    requires SlotOk(x, Logged(s), s.ops, s.start, |s.disk|) && SlotCoherent(x, Logged(s), s.disk)
    requires s.pc.Copying? || s.pc.Installing? ==> x.blockno as int !in Logged(s) || x.data == s.cache[i].data
    ensures Inv(Put(s, i, x))
  {
    CachePut(s.cache, Logged(s), s.ops, s.start, s.disk, i, x);
    var s' := Put(s, i, x);
    if s.pc.Copying? {
      CopiedKept(s, s', 0, s.pc.k);
    } else if s.pc.Installing? {
      CopiedKept(s, s', s.pc.k, |s.lh|);
    }
  }

  /** Copied depends on the log blocks and on the contents of the buffers they came from. */
  lemma CopiedKept(s: State, s': State, from: nat, to: nat)
    requires s.start + LOGBLOCKS < |s.disk| && from <= to <= |s.lh| <= LOGBLOCKS
             && Copied(s.cache, s.lh, s.start, s.disk, from, to)
    requires s'.lh == s.lh && s'.start == s.start && |s'.disk| == |s.disk| && |s'.cache| == |s.cache|
    requires forall k :: from <= k < to ==> s'.disk[LogBlock(s.start, k)] == s.disk[LogBlock(s.start, k)]
    requires forall i :: 0 <= i < |s.cache| ==>
      s'.cache[i].used && s'.cache[i].blockno as int in s.lh[from..to] ==>
          s'.cache[i].data == s.cache[i].data && Caches(s.cache[i], s'.cache[i].blockno)
    ensures Copied(s'.cache, s'.lh, s'.start, s'.disk, from, to)
  {
    forall k | from <= k < to
      ensures CachedAs(s'.cache, s'.lh[k], s'.disk[LogBlock(s'.start, k)])
    {
      assert CachedAs(s.cache, s.lh[k], s.disk[LogBlock(s.start, k)]);
      assert s.lh[from..to][k - from] == s.lh[k];
    }
  }

  lemma KeepsBeginOp(s: State, t: nat)
    requires Inv(s) && Enabled(s, BeginOp(t))
    ensures Inv(Next(s, BeginOp(t)))
  {
  }

  lemma KeepsEndOp(s: State, t: nat)
    requires Inv(s) && Enabled(s, EndOp(t))
    ensures Inv(Next(s, EndOp(t)))
  {
  }

  lemma KeepsRef(s: State, t: nat, i: nat)
    requires Inv(s) && Enabled(s, Ref(t, i))
    ensures Inv(Next(s, Ref(t, i)))
  {
    PutKeeps(s, i, s.cache[i].(refcnt := s.cache[i].refcnt + 1, holders := s.cache[i].holders + {t}));
  }

  lemma KeepsRecycle(s: State, t: nat, i: nat, b: nat)
    requires Inv(s) && Enabled(s, Recycle(t, i, b))
    ensures Inv(Next(s, Recycle(t, i, b)))
  {
    var s' := Next(s, Recycle(t, i, b));
    CacheRecycle(s.cache, Logged(s), s.ops, s.start, s.disk, i, s'.cache[i]);
    assert b as int in Logged(s) ==> Cached(s.cache, b);
    if s.pc.Copying? {
      CopiedKept(s, s', 0, s.pc.k);
    } else if s.pc.Installing? {
      CopiedKept(s, s', s.pc.k, |s.lh|);
    }
  }

  lemma KeepsLock(s: State, t: nat, i: nat)
    requires Inv(s) && Enabled(s, Lock(t, i))
    ensures Inv(Next(s, Lock(t, i)))
  {
    PutKeeps(s, i, s.cache[i].(owner := Some(t)));
  }

  lemma KeepsFill(s: State, t: nat, i: nat)
    requires Inv(s) && Enabled(s, Fill(t, i))
    ensures Inv(Next(s, Fill(t, i)))
  {
    PutKeeps(s, i, s.cache[i].(data := s.disk[s.cache[i].blockno], valid := true));
  }

  lemma KeepsModify(s: State, t: nat, i: nat, d: Block)
    requires Inv(s) && Enabled(s, Modify(t, i, d))
    ensures Inv(Next(s, Modify(t, i, d)))
  {
    PutKeeps(s, i, s.cache[i].(data := d, dirty := true));
  }

  lemma KeepsLogWrite(s: State, t: nat, i: nat)
    requires Inv(s) && Enabled(s, LogWrite(t, i))
    ensures Inv(Next(s, LogWrite(t, i)))
  {
    var b := s.cache[i].blockno as int;
    if b in s.lh {
      PutKeeps(s, i, s.cache[i].(dirty := false));
    } else {
      var s' := Next(s, LogWrite(t, i));
      CachePin(s.cache, s.lh, s.ops, s.start, s.disk, i, s'.cache[i]);
    }
  }

  lemma KeepsUnlock(s: State, t: nat, i: nat)
    requires Inv(s) && Enabled(s, Unlock(t, i))
    ensures Inv(Next(s, Unlock(t, i)))
  {
    PutKeeps(s, i, s.cache[i].(owner := None));
  }

  lemma KeepsUnref(s: State, t: nat, i: nat)
    requires Inv(s) && Enabled(s, Unref(t, i))
    ensures Inv(Next(s, Unref(t, i)))
  {
    PutKeeps(s, i, s.cache[i].(refcnt := s.cache[i].refcnt - 1, holders := s.cache[i].holders - {t}));
  }

  /** One round of write_log. */
  lemma KeepsCopyBlock(s: State, i: nat, j: nat)
    requires Inv(s) && Enabled(s, CopyBlock(i, j))
    ensures Inv(Next(s, CopyBlock(i, j)))
  {
    var s' := Next(s, CopyBlock(i, j));
    CacheWrite(s.cache, s.lh, s.ops, s.start, s.disk, i, s.cache[j].data);
    CopyExtends(s, s', i, j);
    assert ShapeOk(s');
  }

  lemma CopyExtends(s: State, s': State, i: nat, j: nat)
    requires s.start + LOGBLOCKS < |s.disk| && HeaderFits(s.lh, s.start, |s.disk|) && Unique(s.cache)
    requires Enabled(s, CopyBlock(i, j)) && Copied(s.cache, s.lh, s.start, s.disk, 0, s.pc.k)
    requires s'.cache == s.cache[i := s.cache[i].(data := s.cache[j].data)]
    requires s'.disk == s.disk[LogBlock(s.start, s.pc.k) := s.cache[j].data] && s'.lh == s.lh && s'.start == s.start
    ensures Copied(s'.cache, s'.lh, s'.start, s'.disk, 0, s.pc.k + 1)
  {
    var k := s.pc.k;
    forall m | 0 <= m < |s.cache| && s'.cache[m].used && s'.cache[m].blockno as int in s.lh[0..k]
      ensures s'.cache[m] == s.cache[m]
    {
      assert Home(s.start, |s.disk|, s'.cache[m].blockno);
    }
    CopiedKept(s, s', 0, k);
    forall m | 0 <= m < |s'.cache| && Caches(s'.cache[m], s.lh[k])
      ensures s'.cache[m].data == s.cache[j].data
    {
      assert Caches(s.cache[m], s.lh[k]) && Caches(s.cache[j], s.lh[k]);
      assert m == j;
    }
  }

  lemma KeepsWriteHead(s: State, i: nat)
    requires Inv(s) && Enabled(s, WriteHead(i))
    ensures Inv(Next(s, WriteHead(i)))
  {
    var s' := Next(s, WriteHead(i));
    assert Logged(s') == s.lh;
    CacheWrite(s.cache, s.lh, s.ops, s.start, s.disk, i, WithHeader(s.cache[i].data, s.lh));
    CopiedKept(s, s', 0, |s.lh|);
  }

  lemma KeepsInstallBlock(s: State, i: nat, j: nat)
    requires Inv(s) && Enabled(s, InstallBlock(i, j))
    ensures Inv(Next(s, InstallBlock(i, j)))
  {
    var s' := Next(s, InstallBlock(i, j));
    var k := s.pc.k;
    var b := s.lh[k];
    InstallShape(s, i, j);
    CacheInstall(s.cache, b, Logged(s'), s.ops, s.start, s.disk, j);
    CopiedKept(s, s', k + 1, |s.lh|);
    InstalledMore(s, s');
  }

  /** The home buffer already holds the logged contents, so installing only unpins it. */
  lemma InstallShape(s: State, i: nat, j: nat)
    requires Inv(s) && Enabled(s, InstallBlock(i, j))
    ensures var s' := Next(s, InstallBlock(i, j)); var b := s.lh[s.pc.k];
      && Logged(s) == [b] + Logged(s') && b !in Logged(s')
      && s'.cache == s.cache[j := s.cache[j].(refcnt := s.cache[j].refcnt - 1)]
      && s'.disk == s.disk[b := s.cache[j].data]
      && s.cache[j].data == s.disk[LogBlock(s.start, s.pc.k)]
  {
    LogBufferIsLog(s, i, j);
    LoggedTail(s.lh, s.pc.k);
  }

  lemma LoggedTail(h: seq<int>, k: nat)
    requires Distinct(h) && k < |h|
    ensures h[k..] == [h[k]] + h[k + 1..] && h[k] !in h[k + 1..]
  {
  }

  lemma LogBufferIsLog(s: State, i: nat, j: nat)
    requires Inv(s) && Enabled(s, InstallBlock(i, j))
    ensures s.cache[i].data == s.cache[j].data == s.disk[LogBlock(s.start, s.pc.k)]
  {
    assert CachedAs(s.cache, s.lh[s.pc.k], s.disk[LogBlock(s.start, s.pc.k)]);
    assert SlotOk(s.cache[i], Logged(s), s.ops, s.start, |s.disk|);
    assert SlotCoherent(s.cache[i], Logged(s), s.disk);
  }

  lemma InstalledMore(s: State, s': State)
    requires ShapeOk(s) && s.pc.Installing? && s.pc.k < |s.lh| && InstalledTo(s.lh, s.start, s.disk, s.pc.k)
    requires s'.lh == s.lh && s'.start == s.start
             && s'.disk == s.disk[s.lh[s.pc.k] := s.disk[LogBlock(s.start, s.pc.k)]]
    ensures InstalledTo(s'.lh, s'.start, s'.disk, s.pc.k + 1)
  {
  }

  lemma KeepsClearHead(s: State, i: nat)
    requires Inv(s) && Enabled(s, ClearHead(i))
    ensures Inv(Next(s, ClearHead(i)))
  {
    assert Logged(s) == [];
    CacheWrite(s.cache, [], s.ops, s.start, s.disk, i, WithHeader(s.cache[i].data, []));
  }

  lemma KeepsCommitEnd(s: State)
    requires Inv(s)
    ensures Enabled(s, NothingLogged) ==> Inv(Next(s, NothingLogged))
    ensures Enabled(s, CommitDone) ==> Inv(Next(s, CommitDone))
  {
  }

  lemma KeepsCrash(s: State)
    requires Inv(s)
    ensures Inv(Next(s, Crash))
  {
  }

  lemma KeepsReadHead(s: State, i: nat)
    requires Inv(s) && Enabled(s, ReadHead(i))
    ensures Inv(Next(s, ReadHead(i)))
  {
  }

  lemma KeepsReplayBlock(s: State, i: nat, j: nat)
    requires Inv(s) && Enabled(s, ReplayBlock(i, j))
    ensures Inv(Next(s, ReplayBlock(i, j)))
  {
    var s' := Next(s, ReplayBlock(i, j));
    ReplayBufferIsLog(s, i);
    CacheWrite(s.cache, [], s.ops, s.start, s.disk, j, s.cache[i].data);
    ReplayedMore(s, s');
    assert HeaderFits(s'.lh, s'.start, |s'.disk|);
    assert ShapeOk(s');
  }

  lemma ReplayBufferIsLog(s: State, i: nat)
    requires Inv(s) && s.pc.Replaying? && s.pc.k < |s.lh| && Has(s, i, LogBlock(s.start, s.pc.k))
    ensures s.cache[i].data == s.disk[LogBlock(s.start, s.pc.k)]
  {
    assert SlotOk(s.cache[i], [], s.ops, s.start, |s.disk|);
    assert SlotCoherent(s.cache[i], [], s.disk);
  }

  lemma ReplayedMore(s: State, s': State)
    requires s.start + LOGBLOCKS < |s.disk| && s.pc.Replaying? && s.pc.k < |s.lh| && HeaderFits(s.lh, s.start, |s.disk|)
             && InstalledTo(s.lh, s.start, s.disk, s.pc.k)
    requires s'.lh == s.lh && s'.start == s.start
             && s'.disk == s.disk[s.lh[s.pc.k] := s.disk[LogBlock(s.start, s.pc.k)]]
    ensures InstalledTo(s'.lh, s'.start, s'.disk, s.pc.k + 1)
  {
  }

  lemma KeepsReplayClear(s: State, i: nat)
    requires Inv(s) && Enabled(s, ReplayClear(i))
    ensures Inv(Next(s, ReplayClear(i)))
  {
    CacheWrite(s.cache, [], s.ops, s.start, s.disk, i, WithHeader(s.cache[i].data, []));
  }

  lemma KeepsSyncing(s: State, syncing: map<nat, Waiter>)
    requires Inv(s)
    ensures Inv(s.(syncing := syncing))
  {
    var s' := s.(syncing := syncing);
    assert Logged(s') == Logged(s);
  }

  predicate CommitStep(step: Step) {
    step.CopyBlock? || step.WriteHead? || step.InstallBlock? || step.ClearHead? || step.NothingLogged?
      || step.CommitDone?
  }

  predicate RecoveryStep(step: Step) {
    step.Crash? || step.ReadHead? || step.ReplayBlock? || step.ReplayClear?
  }

  lemma CommitStepKeeps(s: State, step: Step)
    requires Inv(s) && Enabled(s, step) && CommitStep(step)
    ensures Inv(Next(s, step))
  {
    match step
    case CopyBlock(i, j) => KeepsCopyBlock(s, i, j);
    case WriteHead(i) => KeepsWriteHead(s, i);
    case InstallBlock(i, j) => KeepsInstallBlock(s, i, j);
    case ClearHead(i) => KeepsClearHead(s, i);
    case NothingLogged => KeepsCommitEnd(s);
    case CommitDone => KeepsCommitEnd(s);
  }

  lemma RecoveryStepKeeps(s: State, step: Step)
    requires Inv(s) && Enabled(s, step) && RecoveryStep(step)
    ensures Inv(Next(s, step))
  {
    match step
    case Crash => KeepsCrash(s);
    case ReadHead(i) => KeepsReadHead(s, i);
    case ReplayBlock(i, j) => KeepsReplayBlock(s, i, j);
    case ReplayClear(i) => KeepsReplayClear(s, i);
  }

  predicate BufferStep(step: Step) {
    step.Ref? || step.Recycle? || step.Lock? || step.Fill? || step.Read? || step.Unlock? || step.Unref?
  }

  lemma BufferStepKeeps(s: State, step: Step)
    requires Inv(s) && Enabled(s, step) && BufferStep(step)
    ensures Inv(Next(s, step))
  {
    match step
    case Ref(t, i) => KeepsRef(s, t, i);
    case Recycle(t, i, b) => KeepsRecycle(s, t, i, b);
    case Lock(t, i) => KeepsLock(s, t, i);
    case Fill(t, i) => KeepsFill(s, t, i);
    case Read(t, i) =>
    case Unlock(t, i) => KeepsUnlock(s, t, i);
    case Unref(t, i) => KeepsUnref(s, t, i);
  }

  lemma OperationStepKeeps(s: State, step: Step)
    requires Inv(s) && Enabled(s, step) && !BufferStep(step) && !CommitStep(step) && !RecoveryStep(step)
    ensures Inv(Next(s, step))
  {
    match step
    case BeginOp(t) => KeepsBeginOp(s, t);
    case EndOp(t) => KeepsEndOp(s, t);
    case Modify(t, i, d) => KeepsModify(s, t, i, d);
    case LogWrite(t, i) => KeepsLogWrite(s, t, i);
    case SyncCall(t) => KeepsSyncing(s, Next(s, step).syncing);
    case SyncReturn(t) => KeepsSyncing(s, Next(s, step).syncing);
  }

  lemma StepKeeps(s: State, step: Step)
    requires Inv(s) && Enabled(s, step)
    ensures Inv(Next(s, step))
  {
    if BufferStep(step) {
      BufferStepKeeps(s, step);
    } else if CommitStep(step) {
      CommitStepKeeps(s, step);
    } else if RecoveryStep(step) {
      RecoveryStepKeeps(s, step);
    } else {
      OperationStepKeeps(s, step);
    }
  }
}

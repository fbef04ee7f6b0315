# A Dafny model of the xv6-riscv kernel with an adaptive scheduler

The project models the parts of the kernel where its hardest promises live and proves them for every input,
every interleaving and every crash point:

* the write-ahead log and the buffer cache (`kernel/log.c`, `kernel/bio.c`), as one step machine with crashes
  that refines a simple logical disk, and as code;
* the adaptive scheduler (`kernel/proc.c`, `kernel/trap.c`): monitoring, dynamic priorities, prediction,
  anomaly scores and self-healing, on any number of CPUs with a scan that is not atomic;
* fork, exit and wait, sleep locks and pipes, with their sleeps and wakeups;
* block allocation and file contents (`kernel/fs.c`) and the chunked write of `kernel/file.c`;
* the page allocator, three-level page tables and user copies (`kernel/kalloc.c`, `kernel/vm.c`; section 4.4,
  Sv39, of the RISC-V Privileged Architecture, version 20211203), against a flat map with page ownership;
* the user-level allocator (`user/umalloc.c`; section 8.7 of The C Programming Language, second edition).

Code that updates tables, blocks and pages in place is a class whose methods keep the loops of the source and
are proved against functions of the old state. Protocols that depend on interleaving are step machines:
`Enabled` says when a step may happen, `Next` what it does, `Runs` and `After` extend that to whole runs, and
each theorem about runs rests on an invariant kept by every step. A section under a spinlock is one step. That a
machine also gets somewhere is shown by lemmas that give the run as an out-parameter.

| files | what they hold |
|---|---|
| `Process`, `SchedulerMachine`, `PlainScheduler`, `Overtaking`, `Starvation`, `OneCpu`, `Ranking`, `Forecast`, `ProcTable` | the scheduler: per-process functions, the multi-CPU machine, the machine without prediction and healing, one-CPU waiting bounds and their limits, how these carry over to the machine, how processes rank, what prediction and healing come to, the code |
| `LogMachine`, `LogRefinement`, `LogProgress`, `LogCode`, `BufferCache` | log and cache: machine and invariant, refinement and its consequences, the ends of recovery and commit, the code of the log, the LRU list |
| `Pipe`, `PipeMachine`, `ExitWait`, `ExitProgress`, `WaitCode`, `SleepLock` | the ring buffer, pipes under interleaving, fork/exit/wait as a machine, to its ends, and as code, sleep locks |
| `FsLayout`, `FsCode` | bits and words in blocks, ownership of blocks; the code |
| `PageTable`, `TableCount`, `Teardown`, `VmCode` | tables, ownership and the flat map; how many tables a range lacks; freeing a table tree; the code |
| `Umalloc` | the free list and its account; the code |
| `Util` | small helpers |

Panics are results (`panics`, `panicked`, `ok`) where callers can cause them, and are shown not to be reached
where the kernel relies on that; where the source makes absence of a panic its caller's duty (an unaligned
address, `walk` beyond MAXVA) it is a precondition. What comes from outside, such as user
memory that may be unmapped, the answer of `sbrk`, or the choice of the next step, is a parameter.

Where the documentation and the code differ, the code is followed. `PHASE3_DESIGN.md` has starvation healing
reset the wait counter and the thrashing test without the `sched_count > 5` guard; the code does neither. It also
has burst surges detected; the code compares the burst with the forecast made after it, and `Forecast.SurgeNeverFound`
shows that it finds none in any run.
`PHASE2_DESIGN.md` claims starvation freedom without conditions. With the priority clamp and the lowest index
winning ties that is false of the code: `Starvation.StarvationPossible` keeps a process waiting for as long as
one likes, and `Overtaking.BoundedWaiting` bounds waiting under a condition on the other processes' slices.

## Model

| member | source | states |
|---|---|---|
| `SchedulerMachine.ReachableSound` | kernel/proc.c:473-757 | In every state of every run, for any number of CPUs and any interleaving of scans, interrupts, sleeps and wakeups: current_burst <= est_burst, the process type classifies est_burst, burst_trend <= 0, the prediction is at most max(1, est_burst), sched_count = switches + (1 if running), waitticks > 0 only when runnable, 0 <= score <= 85 with health its 30/70 class, and each running process has exactly one CPU |
| `SchedulerMachine.StepKeeps` | kernel/proc.c:646-757 | Every scheduler step keeps that invariant |
| `SchedulerMachine.PreemptionBranchDead` | kernel/proc.c:741-757 | In every reachable state a preemption changes only the state and the switch counter: the branch that would raise the estimate is never taken |
| `SchedulerMachine.StarvationOnlyFromClock` | kernel/proc.c:968-989 | The starvation flag is raised only by clock accounting, on a runnable process that has waited at least 20 ticks |
| `SchedulerMachine.UndisturbedScan` | kernel/proc.c:640-660 | A scan of the table that nothing interrupts ends with the lowest-numbered runnable process of maximal dynamic priority, or with none exactly when nothing is runnable |
| `Process.DynamicPriority` | kernel/proc.c:473-490 | The dynamic priority stays within its bounds, reaches the maximum only after 25 ticks of waiting, and does reach it once aging outweighs the burst penalty |
| `Ranking.RankValue` | kernel/proc.c:473-490 | The priority as a function of estimate and wait alone: 50, 30 or 10 for estimates up to 2, up to 7 and above, plus 2 per waiting tick, minus the estimate, held between 1 and 100 |
| `Ranking.ShorterFirst` | kernel/proc.c:473-490 | A process of a shorter class that has waited at least as long ranks strictly higher, unless both are at the maximum |
| `Ranking.AgingRaises` | kernel/proc.c:473-490 | Waiting never lowers the priority and adds exactly two per tick between the bounds |
| `Ranking.EstimateLowers` | kernel/proc.c:473-490 | A longer estimate never raises the priority and takes off exactly one per unit within a class between the bounds |
| `Ranking.SliceValue` | kernel/proc.c:492-505 | Slices of one, two and four ticks for estimates up to 2, up to 7 and above |
| `Ranking.ScanFavours` | kernel/proc.c:646-660 | In every reachable state an undisturbed scan passes over a runnable process of a shorter class that has waited at least as long as its candidate only if both have waited 25 ticks |
| `Process.HealedSound` | kernel/proc.c:508-547 | Self-healing brings score and health class back into range, keeps slice, priority and forecast within bounds, and touches neither estimate, type, state nor any counter but its own |
| `Process.UpdatedSound` | kernel/proc.c:550-621 | Prediction, anomaly detection and healing together keep those bounds and every scheduling field; thrashing and starvation are never flagged here |
| `Forecast.FlagsExactly` | kernel/proc.c:550-600 | The prediction error is the distance of the burst from the forecast the process came with, 0 without one, and each anomaly flag has exactly its own cause |
| `Forecast.ScoreExactly` | kernel/proc.c:576-621 | The score with and without surge and instability, healing exactly in those cases and its relief by 15, and the health class |
| `Forecast.ForecastExactly` | kernel/proc.c:566-574 | The new forecast is the estimate with half the deviation and trend, at least 1, and starts over from the estimate after healing |
| `Forecast.RemediesExactly` | kernel/proc.c:508-547 | What each remedy sets, the later ones winning, and the relief of the score |
| `Forecast.StarvedExactly` | kernel/proc.c:968-989 | At the twentieth waiting tick STARVATION is raised once: 40 points less 15, 25 more priority, a slice of two |
| `Forecast.CountersExact` | kernel/proc.c:662-683 | Over any run cputicks grows by the timer interrupts charged to the process and sched_count by its dispatches |
| `Forecast.SurgeNeverFound` | kernel/proc.c:576-582 | In every run no process is ever found to surge, since the burst is compared with a forecast that already follows it, and every trend is 0, -1 or -2 |
| `Forecast.HealedExactlyAtSix` | kernel/proc.c:700-762 | In every reachable state a process that sleeps or exits is found unstable, and healed, exactly when its burst missed its forecast by six ticks or more; with its new estimate, error, score, health, trend and forecast |
| `Forecast.FirstBurst` | kernel/proc.c:109-762 | For every n there is a run that allocates and admits a process, lets it run n ticks and puts it to sleep, and the record that leaves: healed exactly for n of 7 and more |
| `PlainScheduler.HealingInvisible` | kernel/proc.c:508-547 | A step sequence is a run of the full scheduler exactly when it is a run of the scheduler without prediction, anomaly and healing state, with the same dispatches and preemptions, and the end states agree once that state is erased |
| `PlainScheduler.StepErased` | kernel/proc.c:646-762 | One step of the full scheduler is, after erasing, the same step of the plain one |
| `Overtaking.OvertakenOncePer25Ticks` | kernel/proc.c:473-505 | On one CPU, while a process waits at maximal priority, a slot that has been dispatched is dispatched again only after 25 further clock ticks, whether they are charged to a running process or taken in scheduler() with nobody running |
| `Overtaking.BoundedWaiting` | kernel/proc.c:646-673 | If one slice from each slot, with one tick more for the pass of scheduler() after it, sums to under 24, a process passed over throughout a run has waited at most its aging time plus that sum and one tick; nothing is assumed of the ticks taken while nobody runs |
| `Overtaking.BoundedWaitingFewIdle` | kernel/proc.c:637-673 | The same with the slices alone, where they and the ticks of the run charged to nobody sum to under 25 |
| `Overtaking.DispatchedInTime` | kernel/proc.c:968-989 | Under that condition a process that becomes runnable is dispatched within (90 + est_burst) / 2 ticks, rounded up, plus one slice and one tick for every slot and one tick |
| `Starvation.StarvationPossible` | kernel/proc.c:646-660 | For every k and every table of at least 39 slots there is a run from the empty table in which a process becomes runnable and every scan passes it over for at least k ticks, each charged to a running process |
| `Starvation.CogWins` | kernel/proc.c:473-490 | Among 38 processes of that pattern with distinct waiting times one has maximal priority, and by its lower index wins the scan |
| `OneCpu.StepIsRun` | kernel/proc.c:633-690 | Each step of the one-CPU machine of these bounds is a run of the scheduler machine with one CPU, section by section, with the same clock interrupts charged and uncharged |
| `OneCpu.RunIsRun` | kernel/proc.c:633-690 | So is each of its runs |
| `OneCpu.StarvationReachable` | kernel/proc.c:646-683 | For every k the scheduler machine itself reaches, from the initial table, a state in which a runnable process has waited k or more ticks, each charged to a running process |
| `ProcTable.Table.AllocProc` | kernel/proc.c:92-177 | Takes the first unused slot with all monitoring fields reset and a process number never given out before; without memory frees it again; fails exactly for want of a slot or of memory; numbers of slots in use stay distinct |
| `ProcTable.Table.FreeProc` | kernel/proc.c:182-226 | Resets the slot and its process number, and keeps the numbers of slots in use distinct |
| `ProcTable.Table.ApplySelfHealing` | kernel/proc.c:508-547 | The in-place code computes the healing function, on that slot only |
| `ProcTable.Table.UpdatePredictionAndHealth` | kernel/proc.c:550-621 | The in-place code computes prediction, score, health and healing, on that slot only; the error is the distance of the last burst from the forecast on entry, and instability is flagged exactly from 6 on |
| `ProcTable.Table.Sched` | kernel/proc.c:700-762 | The accounting of a context switch, for sleepers, zombies and preempted processes |
| `ProcTable.Table.TimerInterrupt` | kernel/trap.c:84-111 | Charges the tick, raises estimate and type with the burst, and yields exactly when the slice is used up |
| `ProcTable.Table.ClockTickAccounting` | kernel/proc.c:968-989 | Every runnable process waits one tick more, and starving ones are flagged and healed |
| `ProcTable.Table.PickBest` | kernel/proc.c:646-660 | The scan returns the lowest-numbered runnable process of maximal priority, or -1 exactly when none is runnable; it chooses nobody over a process of a shorter class that has waited at least as long unless both are at the maximum |
| `ProcTable.Table.Dispatch` | kernel/proc.c:662-683 | The chosen process runs with its counters and slice set, only if it is still runnable |
| `LogMachine.StepKeeps` | kernel/log.c:67-252 | Every step of operations, cache, commit, installation, crash and recovery keeps the invariant that ties cache, log and disk |
| `LogRefinement.StepRefines` | kernel/bio.c:57-152 | One step of log and cache is one event of a logical disk: a read returns the last write, a commit makes the current contents the durable ones, a crash falls back to them, everything else is invisible |
| `LogRefinement.RunRefines` | kernel/log.c:128-238 | Every run, with any interleaving and crashes, is a history of the logical disk |
| `LogRefinement.CommittedIsPrefix` | kernel/log.c:148-206 | What is durable is the state after a whole prefix of the history in which no operation was half done |
| `LogRefinement.CrashAtomicity` | kernel/log.c:67-206 | After a crash at any point and recovery through any number of further crashes, the home blocks hold exactly the contents seen after a whole prefix of operations that covers every committed one |
| `LogRefinement.RecoveryKeepsCommitted` | kernel/log.c:118-125 | Boot, recovery and further crashes never change what recovery will produce |
| `LogRefinement.SyncDurability` | kernel/log.c:240-252 | When sys_sync returns, every operation that had ended before the call is durable, in every later state, crashes included |
| `LogRefinement.ReservationHolds` | kernel/log.c:128-144 | Logged blocks plus unused reservations never exceed the log, header entries are distinct, commits run with no operation outstanding, and an operation within its reservation never meets the overflow panic |
| `LogRefinement.RefcountExact` | kernel/bio.c:57-152 | In every reachable state a buffer's reference count is the number of its holders plus one while its block is logged |
| `LogRefinement.LoggedNeverRecycled` | kernel/log.c:217-238 | A logged block keeps its buffer, pinned and valid, until it is installed |
| `LogRefinement.OnlyCommittedReachesHome` | kernel/log.c:181-206 | No step writes uncommitted contents to a home block |
| `LogRefinement.HeaderReadable` | kernel/log.c:88-100 | From a disk with a readable header, the count that recovery reads after any crash fits the in-memory header, and is the one on disk |
| `LogProgress.RecoveryCompletes` | kernel/log.c:118-144 | From every reachable state of recovery, with two buffers, there is a run of cache and recovery steps to its end; the home blocks then hold what was committed and any operation can begin |
| `LogProgress.CommitCompletes` | kernel/log.c:148-206 | From every reachable state of a commit, with a buffer more than logged blocks, there is a run of cache and log steps to its end; all that operations wrote is then in the home blocks, every ended operation is durable, and everyone waiting in sys_sync can return |
| `LogProgress.WriteReachesHome` | kernel/log.c:128-238 | From every reachable quiet state any thread can carry an operation through that gives any home block any content, and no other home block changes |
| `LogCode.Log.BeginOp` | kernel/log.c:128-144 | An operation is admitted exactly when no commit runs and its full reservation fits |
| `LogCode.Log.LogWrite` | kernel/log.c:217-238 | Records and pins the block once, absorbing repeats; panics exactly at a full log or outside a transaction, the full-log test coming before absorption |
| `LogCode.Log.WriteLog` | kernel/log.c:181-194 | Copies every pinned block to its log slot; recovery from any intermediate image is unchanged |
| `LogCode.Log.WriteTransaction` | kernel/log.c:181-206 | Writing log and header: recovery from every intermediate image gives the old or the new contents, and the new ones at the end |
| `LogCode.Log.InstallTrans` | kernel/log.c:67-85 | Brings every logged block home; recovery from any intermediate image is unchanged |
| `LogCode.Log.Commit` | kernel/log.c:196-206 | All logged contents become durable together: every intermediate image recovers to the contents before or after |
| `LogCode.Log.RecoverFromLog` | kernel/log.c:118-125 | Home blocks become the committed contents, the log is emptied, and every intermediate image recovers to the same contents |
| `LogCode.Log.EndOp` | kernel/log.c:148-178 | The last operation out commits everything logged; any other only leaves |
| `BufferCache.Cache.constructor` | kernel/bio.c:35-52 | The ring links all buffers, next and prev inverse to each other |
| `BufferCache.Cache.Bget` | kernel/bio.c:57-88 | Returns the buffer that holds the block, or recycles the unreferenced buffer released longest ago, and fails exactly when there is neither; at most one buffer per block throughout |
| `BufferCache.Cache.Victim` | kernel/bio.c:73-86 | Walking the ring backwards finds the unreferenced buffer with the oldest release |
| `BufferCache.Cache.Brelse` | kernel/bio.c:115-136 | The last release moves the buffer to the front; the ring stays a permutation of all buffers in release order |
| `BufferCache.UnlinkRing` | kernel/bio.c:124-127 | Detaching a node leaves a ring of the others with both directions inverse |
| `BufferCache.PushRing` | kernel/bio.c:128-131 | Inserting behind the head gives a ring with the node in front |
| `Pipe.PipeBuffer.Write` | kernel/pipe.c:76-103 | Appends exactly the bytes counted, sleeps only on a full pipe with a reader, fails exactly for a closed read end or a killed caller |
| `Pipe.PipeBuffer.Read` | kernel/pipe.c:105-134 | Takes exactly the next bytes in order, sleeps exactly on an empty pipe with a writer, and reports a failed copy of the first byte |
| `Pipe.PutByte` | kernel/pipe.c:91-97 | Storing a byte extends the unread run also when the 32-bit counter wraps |
| `PipeMachine.PipeIsFifo` | kernel/pipe.c:76-134 | In every run the bytes received are a prefix of the bytes written, at most 512 behind, across counter wraparound |
| `PipeMachine.SleepersWaitForCause` | kernel/pipe.c:58-134 | In every run, whenever the pipe lock is free, a sleeping writer faces a full pipe with a reader; a sleeping reader always has a writer, and it faces an empty pipe if and only if no writer was killed between storing bytes and waking readers since the pipe was last empty or readers were last woken |
| `PipeMachine.StrandedExactly` | kernel/pipe.c:84-89 | The step that strands a reader: after a run in which that has not happened, a step that leaves the lock free leaves a reader asleep before a non-empty or closed pipe if and only if a writer returns -1 with stored bytes it has not announced, in which case it was killed, and the reader was asleep |
| `PipeMachine.KilledWriterStrandsReader` | kernel/pipe.c:84-89 | That happens: a run that leaves a reader asleep before a non-empty open pipe with nobody left to wake it |
| `PipeMachine.Delivers` | kernel/pipe.c:76-134 | Any bytes get through a new pipe: there is a run in which exactly they are written and received |
| `ExitWait.NoLostWakeup` | kernel/proc.c:364-469 | In every run, whenever wait_lock is free, no process asleep in wait has a zombie child and every zombie has a living parent |
| `ExitWait.ReapedOnceWithStatus` | kernel/proc.c:424-469 | A zombie about to be reaped has not been reaped before, and its status is the one passed to exit |
| `ExitWait.NoChildrenMeansNone` | kernel/proc.c:458-463 | wait gives up for want of children only when there are none |
| `ExitWait.AllStep` | kernel/proc.c:313-469 | Every step of fork, exit, wait, kill and scheduling keeps the invariant on slots and pairs of slots; kill may mark a free slot, as kkill(0) does, and the next process there inherits the mark |
| `ExitProgress.ExitCompletes` | kernel/proc.c:377-415 | In every reachable state with wait_lock free, a process that has entered exit has a run to zombie with its status, its children then being init's |
| `ExitProgress.WaitCompletes` | kernel/proc.c:424-469 | With wait_lock free, a process in wait that has a zombie child has a run that frees one such child and hands out its status, and touches nobody else |
| `WaitCode.Table.Wakeup` | kernel/proc.c:845-859 | Exactly the sleepers on the channel, other than the caller, become runnable |
| `WaitCode.Table.Reparent` | kernel/proc.c:364-375 | All children pass to init, which is woken exactly if there were any |
| `WaitCode.Table.Kexit` | kernel/proc.c:400-415 | The process becomes a zombie with its status, nobody is its child, and its parent is not asleep on its own channel |
| `WaitCode.Table.KwaitScan` | kernel/proc.c:434-463 | Frees the first zombie child and gives its pid and status; without one, gives up exactly if there is no child or the caller was killed, and otherwise sleeps |
| `WaitCode.Table.Kkill` | kernel/proc.c:864-883 | Marks the first process with that pid and wakes it if it sleeps; false exactly when there is none |
| `WaitCode.WakeStepAgrees` | kernel/proc.c:845-859 | The code's wakeup of one slot is the step of the interleaved machine |
| `SleepLock.MutualExclusion` | kernel/sleeplock.c:21-52 | In every run at most one process holds the lock, and holdingsleep is true of the holder alone |
| `SleepLock.SleepersHaveHolder` | kernel/sleeplock.c:21-41 | While a process sleeps on the lock there is a holder, whose release wakes it |
| `SleepLock.LockObtained` | kernel/sleeplock.c:21-41 | From every reachable state any process has the lock after at most the release of its holder, a call and one try |
| `FsCode.FileSystem.Balloc` | kernel/fs.c:67-90 | Marks and zeroes the lowest free block, or returns 0 exactly when all are in use; both blocks it changes are logged |
| `FsCode.FileSystem.Bfree` | kernel/fs.c:93-107 | Clears the block's bit and no other; reports the panic exactly for a free block |
| `FsCode.FileSystem.Bmap` | kernel/fs.c:406-445 | Gives the block in that file position, allocating it and the indirect block if missing; keeps ownership exact and every file's bytes; fails only on a full disk; every block it changes is logged |
| `FsCode.FileSystem.Itrunc` | kernel/fs.c:449-477 | Frees exactly the inode's blocks, leaves every other file alone and never reaches the panic in bfree; the inode block and every block it changes are logged |
| `FsCode.FileSystem.Readi` | kernel/fs.c:495-520 | Returns exactly the bytes from off on, clipped to the size, across the direct/indirect boundary, and changes nothing |
| `FsCode.FileSystem.Writei` | kernel/fs.c:529-563 | Splices bytes in at off and leaves every other file alone; -1 exactly for refused arguments; short only on a full disk, past the old end of the file, or by a fault of user memory; the file shows exactly the reported bytes if and only if there was no fault or the bytes copied after the last whole block and before the fault equal the old contents of the file there, a condition on offset, source, readable length and old file alone; the inode block and every block that changes are logged, but for the one block in which a copy faults |
| `FsCode.FaultShows` | kernel/fs.c:546-549 | That condition can fail: over a file of the bytes 1, 2, 3 a write of two nines of which only the first is readable reports 0 bytes and leaves 9, 2, 3 |
| `FsCode.WriteThenRead` | kernel/fs.c:495-563 | Reading from where writei wrote as many bytes as it reported gives those bytes, for whole and for short writes |
| `FsCode.SplicedExact` | kernel/fs.c:540-562 | A file over which more bytes were laid than reported shows exactly the reported ones if and only if the others, as far as the old file reached, equal its old bytes |
| `FsCode.FileSystem.Filewrite` | kernel/file.c:149-173 | The chunks together are one splice; the file shows exactly the bytes the offset advances by if and only if there was no fault, or writei refuses the chunk with the fault, or the bytes copied in that chunk after its last whole block equal the old contents; -1 with good memory and legal arguments means a full disk; the write is a chain of transactions, each of which logs every block it changes and the inode block, except the block in which a copy faults and that only in the last, and logs at most 6 blocks beside the bitmap |
| `FsCode.Conservation` | kernel/fs.c:67-107 | Free, owned and metadata blocks add up to the disk |
| `FsCode.NoSharing` | kernel/fs.c:406-445 | No block is reachable from two inode slots |
| `FsLayout.LinkEntry` | kernel/fs.c:429-437 | Storing a fresh block in the indirect block keeps ownership exact and every file's bytes |
| `FsLayout.LinkSlot` | kernel/fs.c:412-428 | Storing a fresh block in the inode, also as indirect block, keeps ownership exact and every file's bytes |
| `FsLayout.BallocKeeps` | kernel/fs.c:73-84 | A block the bitmap calls free is reachable from nowhere, so marking and zeroing it disturbs no file |
| `PageTable.Path` | kernel/vm.c:98-116 | A walk meets exactly the tables registered for the prefixes of the address, and a user leaf names the page registered for it |
| `PageTable.NoAlias` | kernel/vm.c:146-175 | No physical page is mapped at two user addresses, in one address space or in two |
| `VmCode.OwnedOnce` | kernel/kalloc.c:46-82 | A mapped user page has one owner and is not on the free list, which holds exactly the free pages, each once |
| `VmCode.Memory.constructor` | kernel/kalloc.c:26-40 | All pages from the end of the kernel on are on the free list |
| `VmCode.Memory.Kalloc` | kernel/kalloc.c:68-82 | Pops one free page, or fails exactly when there is none; no translation changes |
| `VmCode.Memory.Kfree` | kernel/kalloc.c:46-63 | Pushes the page; reports the panic exactly for a page outside the managed range; everything stays consistent if and only if nothing refers to the page (it is in the caller's hands, or an empty root table, or a dead table that roots no other); the free pages cease to form a list if and only if the page was free already |
| `VmCode.Memory.Walk` | kernel/vm.c:98-116 | Finds the last-level table; without alloc nothing changes, with alloc only tables are added and no translation changes; fails only if there is no entry and no memory; with alloc it takes exactly one page of memory for each table lacking on the way, and fails exactly if there are fewer |
| `VmCode.Memory.Walkaddr` | kernel/vm.c:121-139 | Gives the page exactly when it is mapped for user access |
| `TableCount.HasTabMeans` | kernel/vm.c:98-116 | A table is lacking exactly where the entry on the way is invalid |
| `TableCount.TablesSplit` | kernel/vm.c:98-116 | The tables lacking for two sets of pages are those for the first and, once these are made, those for the second |
| `VmCode.Memory.Mappages` | kernel/vm.c:146-175 | Changes exactly the translations of the pages it reports mapped, all of them unmapped before; panics exactly for an empty range or at the first page that is mapped already; fails otherwise exactly if there is less memory than tables lacking for the range, and takes exactly that much |
| `VmCode.Memory.Uvmcreate` | kernel/vm.c:179-188 | A new address space maps nothing |
| `VmCode.Memory.Uvmunmap` | kernel/vm.c:193-213 | Removes exactly the addressed translations and returns exactly the pages behind them |
| `VmCode.Memory.Uvmalloc` | kernel/vm.c:217-242 | Adds zeroed pages with the given permission; on failure every translation and every owner is as before, but for tables; it fails if and only if there are fewer free pages than new pages and the tables lacking for them, and otherwise takes exactly that many |
| `VmCode.Memory.Uvmdealloc` | kernel/vm.c:248-260 | Returns exactly the pages wholly above the new size |
| `VmCode.RolledBack` | kernel/vm.c:217-326 | Undoing a partial growth or copy restores the flat map and all owners |
| `VmCode.Memory.Uvmcopy` | kernel/vm.c:298-326 | The child gets equal contents and permissions on different pages; on failure it is as before; it succeeds if and only if there are as many free pages as mapped pages of the parent below sz and tables the child lacks for them, and then takes exactly that many |
| `VmCode.CopyEqual` | kernel/vm.c:298-326 | Parent and child then agree on every byte, untouched pages reading as zeros in both |
| `VmCode.Memory.Freewalk` | kernel/vm.c:264-280 | Frees exactly the tables below the given one, each once, without reaching the leaf panic, and no other address space notices |
| `VmCode.Memory.Uvmfree` | kernel/vm.c:284-290 | Frees exactly the pages and tables of the address space when nothing is mapped above its size; all other pages and translations are untouched |
| `VmCode.Memory.Vmfault` | kernel/vm.c:454-488 | Gives an untouched page below sz its memory without changing any byte of user memory as seen through untouched pages reading as zeros, and keeps every translation there was; it refuses exactly addresses from sz on, mapped pages, and for want of memory for the page and the tables lacking |
| `VmCode.FaultInvisible` | kernel/vm.c:454-475 | Allocating an untouched page changes no byte of any address space |
| `VmCode.Memory.Copyout` | kernel/vm.c:344-377 | Writes exactly the bytes that arrived at any alignment, changes no other user byte anywhere, and stops only at a page user code may not write or for want of memory; keeps every translation; a success leaves the whole range mapped for user writing, and a range so mapped succeeds |
| `VmCode.Memory.Copyin` | kernel/vm.c:382-405 | Reads exactly the user bytes, changes none, and stops only at a page user code may not reach or for want of memory; keeps every translation; succeeds on a range mapped for user access |
| `VmCode.Memory.CopyRoundTrip` | kernel/vm.c:344-405 | Whenever copyout succeeds, copyin from the same address succeeds and returns the same bytes, at any alignment and length |
| `Umalloc.Allocator.Malloc` | user/umalloc.c:63-90 | Returns a block apart from all others and of the right size, asks sbrk at most once, terminates, leaves the contents of blocks in use alone, and fails only if no free block fits and sbrk refuses; this goes wrong, by recording more than sbrk was asked for, if and only if the request exceeds 0x7fffffe0 bytes, no free block fits and sbrk answers |
| `Umalloc.AskedWholeExactly` | user/umalloc.c:46-69 | The int that sbrk is asked for is the size in bytes of the units recorded if and only if the request is at most 0x7fffffe0 bytes, and is smaller otherwise |
| `Umalloc.LargestRequest` | user/umalloc.c:46-69 | A request of 0xffffffff bytes asks sbrk for 16 bytes and records 0x10000001 units |
| `Umalloc.Allocator.Free` | user/umalloc.c:24-44 | The block returns to the address-ordered list and is merged with both neighbours it touches; blocks in use keep their contents |
| `Umalloc.Allocator.Predecessor` | user/umalloc.c:29-33 | The search stops at the last free block below the address, from wherever it starts |
| `Umalloc.Allocator.Morecore` | user/umalloc.c:46-61 | The new region is in the list where the next pass of malloc finds room |
| `Umalloc.InsertedOrdered` | user/umalloc.c:34-44 | Inserting and merging keeps address order with a gap between neighbours |
| `Umalloc.InsertedRing` | user/umalloc.c:34-44 | The pointer updates of free leave one circle through the merged list |
| `Umalloc.Conservation` | user/umalloc.c:46-90 | Free and used sizes add up to what sbrk gave |
| `Umalloc.UnitsFit` | user/umalloc.c:69 | The units reserved hold the request, with less than one unit to spare |

## Left out

- Device drivers, boot code, assembly and the disk controller: the disk is a sequence of atomic block writes.
- Spinlock atomics and memory ordering: a section under a spinlock is one step.
- Directories, path names, the inode cache with its reference and link counts, and system-call argument handling.
- exec, console, monitoring system calls, mkfs, user programs other than the allocator.
- uvmclear and copyinstr: they would add only easy members.
- Fields of struct proc that scheduling, exit and wait do not read (trap frame, files, working directory, name).
- LogProgress.RecoveryCompletes, LogProgress.CommitCompletes and the other lemmas that give a run: that a fair scheduler takes it is not modelled.
- SchedulerMachine.Init: a slot that was never used is as freeproc leaves it; in the kernel its fields are zero, also priority and time slice, until allocproc sets them.
- Overflow of the 64-bit tick and burst counters and of the process number counter, and 64-bit wraparound of user addresses plus lengths: such counters and addresses are unbounded numbers here. The 32-bit pipe counters and the 32-bit offset test of readi and writei are modelled with their wraparound.
- FsCode.FileSystem: on-disk inodes are records; their byte layout within inode blocks is not modelled, and the operations are those of one thread holding the inode lock.
- FsCode.FileSystem.Writei: the block in which a copy faults is changed in its buffer and not logged; a file's bytes are those in the buffers, and that such a change is lost when the buffer is recycled is not modelled.
- FsCode.FileSystem.Filewrite: the pipe and device branches and the writable flag are not modelled.
- LogCode.Log: one thread at a time; what interleaving adds is in LogMachine.
- BufferCache.Cache: sleep locks of buffers and reading from disk are in LogMachine, which lets any unreferenced buffer be recycled.
- Overtaking.BoundedWaiting: one CPU with an atomic scan, and at most one clock interrupt in the moment before a scan in which scheduler() lets interrupts in, since the timer is armed a million cycles ahead; the condition on the slices is sufficient, and Starvation.StarvationPossible shows that some condition is needed, but the exact limit in between is not determined.
- LogRefinement.CrashAtomicity: power-on requires a header whose count fits the log and whose entries are distinct home blocks, as mkfs and every later header write leave it; the kernel does not check.
- Umalloc.Allocator.Malloc: what becomes of the list after morecore has recorded more units than it asked for.
- VmCode.Memory.Vmfault: the page table argument is the process's own, as in traps and ordinary system calls; exec, which copies into a table that is not yet installed, is not modelled.
- VmCode.Memory: a page is typed by its use (list link, table, data) instead of being raw bytes, and address translation caches are not modelled.

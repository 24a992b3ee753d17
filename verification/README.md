# Verified models of an xv6 kernel with a staircase scheduler

The system is the teaching kernel xv6 for the x86, with its round robin scheduler replaced by a Rotating
Staircase DeadLine (RSDL) scheduler. The project models its scheduler, its crash-safe log with the
buffer cache, block and file layer, virtual memory, pipes, the user-level allocator and the matcher of
`grep`, and proves what they are for. `dafny verify dfyconfig.toml` checks all of it.

Code that works in place is modelled twice: as a function on values, about which the properties are
proved, and as a class with arrays and loops, each method of which is proved to do what the function
says.

| files | source | content |
|---|---|---|
| `Rsdl`, `RsdlInvariant`, `RsdlRuns`, `RsdlOrder`, `RsdlPanics`, `RsdlExact`, `RsdlPids` | `proc.c`, `trap.c` | the scheduler as a state machine, its invariant, theorems over runs, its panics, what each step does, pids |
| `RsdlRefine`, `RsdlKernel`, `RsdlCalls` | `proc.c`, `trap.c` | the queues as arrays and the loops over them |
| `Journal`, `JournalProofs`, `JournalRuns`, `JournalQuota`, `JournalFull`, `JournalExact`, `JournalKernel` | `log.c` | the log as a state machine of single block writes, crashes anywhere; when it runs full; the code |
| `BufferCache`, `BufferOrder`, `BufferRing`, `BufferCommit`, `BufferJam` | `bio.c`, `memide.c`, `log.c` | buffers, their order of use, the linked ring; a commit on a cache of `NBUF` buffers, and which sizes let it through |
| `Fs`, `FsSpace`, `FsFile`, `FsWrite`, `FsLogs`, `FsKernel` | `fs.c`, `file.c` | block ownership, the blocks a stretch of a file lacks, files as bytes, reads and writes of open files, what a write logs; the code |
| `Umalloc`, `UmallocExact`, `UmallocKernel` | `umalloc.c` | the free list and the circular list of headers |
| `Vm`, `VmKernel` | `vm.c`, `kalloc.c` | page tables, frames, the free list of frames |
| `Pipe`, `PipeRuns`, `PipeExact` | `pipe.c` | the ring buffer and the sleep and wakeup protocol |
| `Grep` | `grep.c` | the matcher against the language of a pattern |

## How the system is modelled

- One CPU, as the shipped Makefile configures (`CPUS := 1`): each section under `ptable.lock`, and each
  stretch of a pipe call under the lock of the pipe, is one step. On one CPU the timer charges and yields
  at once, so a process that leaves a depleted level is never a ZOMBIE there; the code's arm for that is
  modelled but not reached.
- Sizes (`NPROC`, levels, quanta, `LOGSIZE`, `MAXOPBLOCKS`, the log region, `NBUF`) are parameters, so the
  results hold for the shipped values and all others that the types admit.
- Choices of the world outside are parameters of steps: which process calls what, which cached block is
  evicted, when a crash happens, whether `sbrk` finds pages, whether some operation of the log is under way
  during a read.
- A panic, or a -1, is a value of the result. `begin_op`, `wait` and the pipe calls are modelled one turn
  of their sleeping loop at a time.

## Findings

- The scheduler swaps when no process of the active set is RUNNABLE (`proc.c:716`). The repository's own
  README describes the swap as following the use of all quanta; the model follows the code
  (`RsdlOrder.ScheduleExact`), and `RsdlOrder.EarlySwap` is a run that swaps with all quanta left.
- A process can be born killed. `kill` looks at pids only, so `kill(0)` marks the first empty slot, and the
  pid of a fork that failed marks the slot it left; `allocproc` does not clear the mark
  (`RsdlPids.BornKilled`, and exactly when in `RsdlPids.MarksExactly`).
- The log region is one block short. `mkfs.c` makes it `LOGSIZE` blocks, of which one is the header, so
  operations within their reservations reach the panic of `log_write` (`JournalFull.ShippedLogRunsFull`);
  one more block is exactly what it takes (`JournalFull.NeverFullExactly`). As long as two operations can be
  under way, writing a block again on a full log panics in any case, because the guard comes before the
  search for a block to absorb (`JournalFull.QuotaSufficesExactly`).
- The cache can be too small for a commit. A logged block keeps its buffer until it is installed, and
  `write_log` needs one more (`BufferCommit.CommitExactly`). With the shipped sizes, at most 29 logged blocks
  and 30 buffers, every commit goes through exactly if no other process holds a clean buffer meanwhile, as a
  reader does that is preempted between `bread` and `brelse` (`BufferJam.ShippedCommits`); a region one block
  larger would make a commit panic even alone (`BufferJam.AlwaysCommitsExactly`).
- `malloc` keeps its promise exactly up to 2147483632 bytes (`Umalloc.ReliableExactly`): above that the
  argument of `sbrk` is negative or zero, and above 4294967288 bytes the unit count wraps to 1. In the
  former case the header is stored at the old end of memory, which faults unless the memory still ends
  inside that page (`Umalloc.HeaderMapped`), or `sbrk` has freed all memory and returns -1 to a process that
  faults at once (`Umalloc.HugeMisplaced`).
- A writer that is killed on a full pipe leaves a reader asleep that went to sleep while the pipe was
  empty (`PipeRuns.KilledWriterStrandsReader`); nothing else does (`PipeRuns.StepReasoned`).
- A `filewrite` that returns -1 can have written all but its last chunks (`FsWrite.PartialHappens`, and
  exactly when in `FsWrite.PartialExactly`).
- A read changes the disk exactly if it meets a hole (`FsFile.ReadiUnchanged`): it takes a block for it.
  `fileread` begins no operation for that, so that it panics in `log_write` unless an operation of some other
  process is under way (`FsFile.FileReadOk`; `FsFile.HollowRead` is a disk on which this happens). Files the
  kernel writes have no holes (`FsFile.WriteiOk`, `FsFile.TruncatedHoles`), but `mkfs.c:161` rounds the size
  of a root directory that ends on a block border up by a whole block it does not have.
- A write into a hole gives the inode an address without logging the inode, because `writei` calls `iupdate`
  only when the file grows (`FsLogs.HollowWrite`, and exactly when in `FsLogs.WriteiCovered`). On files without
  holes it does not happen (`FsLogs.InodeLogged`).

## Model

| member | source | states |
|---|---|---|
| `RsdlInvariant.BootInv` | proc.c:80-107 | the state after `pinit` and `userinit` satisfies the invariant |
| `RsdlInvariant.NextInv` | proc.c:430-886 | every step of fork, exit, wait, sleep, wakeup, kill, yield, tick and schedule keeps the invariant: every SLEEPING, RUNNABLE or RUNNING process is in exactly one slot of one queue and no other process in any, depleted active levels are empty, queued processes have quantum and never stand above their default level, expired levels hold only their own refilled processes, the CPU runs the one RUNNING process, every process has a live parent, and nobody sleeps in `wait` with a dead child |
| `RsdlPanics.QueuesNeverFail` | proc.c:148-309 | under the invariant no step meets a panic of the queues: no queue is full when a process goes in, none lacks the process that is taken out, and there always is a level for the processes that move, whatever order a migration or a swap places them in |
| `RsdlPanics.ForkPanics` | proc.c:290-309 | in any table, `priofork` panics if and only if every level from the one asked for on, of both sets, is out of quantum or full |
| `RsdlPanics.YieldPanics` | proc.c:696-709 | in any table, a yield with ticks left on a level with quantum panics if and only if the process is not in the queue of its level, or no level from there on and no expired level from its default level on is open |
| `RsdlPanics.OnlyInitExitPanics` | proc.c:505-506 | under the invariant a step panics, in the queues or elsewhere, if and only if it is the exit of init |
| `RsdlRuns.RunInv` | proc.c:597-744 | the invariant holds in every state of every run |
| `RsdlRuns.StepStanding` | proc.c:654-710 | no step but a swap moves a live process to a higher level or raises the running time it has left, and a tick costs it one |
| `RsdlRuns.StaircaseBound` | trap.c:105-117 | over any stretch of any run without a swap a live process never moves up, and runs for at most one process quantum per level from its default level down |
| `RsdlOrder.DepletionToActive` | proc.c:654-679 | when level k runs out, its processes go in order to the tail of the first lower active level with quantum, the one that ran last, and level k ends empty |
| `RsdlOrder.DepletionToExpired` | proc.c:654-679 | with no quantum below, each goes in order to the tail of its default level in the expired set |
| `RsdlOrder.SwapExact` | proc.c:716-740 | a swap leaves the expired set empty, every quantum full, and on each active level the old expired queue followed by the old active processes with that default level, in level and queue order |
| `RsdlOrder.ScheduleExact` | proc.c:615-631 | the scheduler swaps if and only if no process of the active set is RUNNABLE, else it dispatches the first RUNNABLE one by level and position; its level and the process have quantum, so the two tick tests of the loop reject nobody |
| `RsdlOrder.EarlySwap` | proc.c:716-740 | a run in which the sets are swapped with the whole quantum of every active level left |
| `RsdlOrder.StepConserves` | trap.c:112-113 | every step takes from the sum of the active quanta exactly the tick it charges, unless it is a swap |
| `RsdlOrder.EpochConserved` | trap.c:105-117 | over any stretch without a swap, running ticks and active ticks left add up to a constant |
| `RsdlOrder.EpochStart` | proc.c:716-726 | at boot and right after a swap the active quanta add up to levels times level quantum |
| `RsdlOrder.EpochBound` | trap.c:105-117 | no stretch of any run without a swap has more running ticks than levels times level quantum, and from a swap on running ticks and ticks left add up to that exactly |
| `RsdlOrder.ExpiredWait` | proc.c:716-740 | a process that stays in the expired set waits there for at most one epoch of running ticks |
| `RsdlOrder.DepletedStaysEmpty` | proc.c:654-679 | an active level without quantum is empty and stays empty until the next swap |
| `RsdlOrder.StepForward` | proc.c:173-218 | while a live process waits, no step but a swap moves it back in its queue |
| `RsdlOrder.AheadNeverGrows` | proc.c:684-709 | over any stretch without a swap in which a process waits on one active level, the number of processes ahead of it never grows |
| `RsdlExact.TickExact` | trap.c:105-117 | the running process keeps the CPU if and only if it and its level both have more than one tick; then every queue is as it was and exactly one tick is gone from each; else, charged and RUNNABLE, it is handed back and the CPU is in the scheduler |
| `RsdlExact.HandBackIs` | proc.c:653-710 | a process handed back with ticks left leaves its place for the tail of its level; without, it is refilled and goes to the tail of the first level with quantum from the next on, or of its default level in the expired set; on a level out of quantum all go, refilled and in order, the one that ran last, to the first level below with quantum or each to its expired default level; nothing else changes |
| `RsdlExact.YieldExact` | proc.c:773-780 | the process is RUNNABLE and handed back in this way |
| `RsdlExact.SleepExact` | proc.c:805-840 | the process is SLEEPING on the address and handed back in this way |
| `RsdlExact.ForkBeginExact` | proc.c:316-362 | the first UNUSED slot becomes an EMBRYO with the next pid, a full quantum and the starting level, its mark of having been killed unchanged; nothing else changes but the next pid |
| `RsdlExact.ForkCommitExact` | proc.c:460-486 | the child is RUNNABLE, a child of the caller, with the level asked for as its default level, and stands last on the first active level from there on with quantum or on that level of the expired set; nothing else changes, and `wait` by the caller does not return -1 unless the caller is killed |
| `RsdlExact.ForkAbortExact` | proc.c:453-458 | the slot is UNUSED again and otherwise as it was |
| `RsdlExact.WaitReaps` | proc.c:555-575 | with a zombie child, the first in the table becomes UNUSED without pid, parent or mark, and its pid is the result; nothing else changes |
| `RsdlExact.WaitSleeps` | proc.c:578-585 | without one, -1 and no change if there is no child or the caller is killed, else the caller sleeps on its own slot |
| `RsdlExact.KillExact` | proc.c:868-886 | the first slot with the pid, whatever its state, is marked, and RUNNABLE if it slept; nothing else changes |
| `RsdlExact.WakeupExact` | proc.c:845-864 | exactly the sleepers on the address become RUNNABLE |
| `RsdlExact.ExitExact` | proc.c:498-542 | the process is a ZOMBIE, out of its queue, which closes up, and off the CPU; its children are those of init; its parent is awake if it waited, and init if it waited and gets a zombie; nothing else changes |
| `RsdlExact.DispatchExact` | proc.c:632-650 | the first RUNNABLE process by level and position is RUNNING and awaits nothing; nothing else changes |
| `RsdlExact.SwapStep` | proc.c:716-740 | with none RUNNABLE: full quanta, an empty expired set, processes of the old active set refilled, and on each level the old expired queue followed by those of the old active set with that default level |
| `RsdlExact.FlatAt` | proc.c:724-739 | in the order in which the swap takes them: from the first level on, each in queue order |
| `RsdlPids.RunPids` | proc.c:316-362 | in every state of every run all processes have different pids, below the next one |
| `RsdlPids.MarksExactly` | proc.c:868-886 | while no empty slot is marked as killed, a step marks one if and only if it is a `kill` whose first match is an UNUSED slot, or a fork that fails after its half-made process was killed |
| `RsdlPids.RunUnmarked` | proc.c:316-362 | in every run without such steps no empty slot is marked, so that no process is born killed |
| `RsdlPids.BornKilled` | proc.c:868-886 | a run in which one is: `kill(0)` marks the slot of the next process |
| `RsdlKernel.LevelQueue.Enqueue` | proc.c:148-169 | appends at the tail, and refuses exactly when the level is full |
| `RsdlKernel.LevelQueue.Find` | proc.c:190-197 | the first position of the process, or the length |
| `RsdlKernel.LevelQueue.CloseGap` | proc.c:199-205 | shifting the array in place removes entry i and keeps the rest in order |
| `RsdlKernel.LevelQueue.Unqueue` | proc.c:173-218 | the queue without the process, the rest in order; the index it had, or -1 if it was not there |
| `RsdlKernel.NextLevel` | proc.c:257-276 | the first level from start on with quantum and room, or -1 if there is none |
| `RsdlKernel.PTable.FindAvailableQueue` | proc.c:290-309 | an open active level from one start on, else an open expired level from the other, none before it being open; fails exactly when there is none |
| `RsdlKernel.PTable.FindFor` | proc.c:290-309 | in the tables that occur it always finds a queue, and the one where `Place` puts the process |
| `RsdlKernel.PTable.MigrateLevel` | proc.c:654-679 | the migration loop turns the table into the one `Deplete` describes |
| `RsdlKernel.PTable.RequeueRunning` | proc.c:680-710 | the requeue branch turns the table into the one `Requeue` describes |
| `RsdlKernel.PTable.AfterSwitch` | proc.c:653-710 | what the scheduler does after a process switched back is `HandBack` |
| `RsdlKernel.PTable.ScanQueue` | proc.c:621-627 | scanning one queue for a RUNNABLE process with ticks left finds the first RUNNABLE one |
| `RsdlKernel.PTable.ScanLevel` | proc.c:616-630 | skipping a level without quantum skips nobody |
| `RsdlKernel.PTable.Select` | proc.c:615-631 | the nested selection loops find the first RUNNABLE process by level and position, or none exactly if there is none |
| `RsdlKernel.PTable.SwapSets` | proc.c:716-740 | exchanging the pointers and draining the old active set gives the table `Swap` describes |
| `RsdlKernel.PInit` | proc.c:80-107 | fresh tables with all queues of both sets empty and full quanta |
| `RsdlCalls.Wakeup1` | proc.c:845-854 | exactly the sleepers on the channel become RUNNABLE |
| `RsdlCalls.PassChildren` | proc.c:526-532 | all children go to init, which is woken exactly if one of them is a zombie |
| `RsdlCalls.RemoveProcFromLevels` | proc.c:232-255 | stopping at the first hit removes the process from all queues; the result says whether it was in one |
| `RsdlCalls.Sched` | proc.c:753-770 | the switch to the scheduler hands the process that ran back to its queues |
| `RsdlCalls.Yield` | proc.c:773-780 | is the step `DoYield` |
| `RsdlCalls.Sleep` | proc.c:805-840 | is the step `GoToSleep` |
| `RsdlCalls.Tick` | trap.c:105-117 | charges the process and its level and yields if either runs out: the step `DoTick` |
| `RsdlCalls.Exit` | proc.c:498-542 | is the step `DoExit`: parent woken, children adopted, out of all queues, ZOMBIE |
| `RsdlCalls.AllocProc` | proc.c:316-362 | the first UNUSED slot becomes an EMBRYO with the next pid; fails exactly if there is none |
| `RsdlCalls.UserInit` | proc.c:366-403 | leads from the empty table to `Boot` |
| `RsdlCalls.Kill` | proc.c:868-886 | marks the first process with the pid and wakes it if it sleeps; fails exactly if there is none |
| `RsdlCalls.ScanChildren` | proc.c:555-577 | the first zombie child, and whether there is a child at all |
| `RsdlCalls.Wait` | proc.c:546-587 | one round reaps the first zombie child and returns its pid, gives up with -1, or sleeps and returns nothing yet: the step `DoWait` |
| `RsdlCalls.ForkCommit` | proc.c:475-483 | the child becomes RUNNABLE and goes to the tail of the first level with quantum from its level on: the step `DoForkCommit` |
| `RsdlCalls.Schedule` | proc.c:597-652 | one pass of the scheduler loop is the step `DoSchedule` |
| `Journal.WithHead` | log.c:101-113 | a header block that lists exactly the given block numbers |
| `JournalProofs.WriteStep` | log.c:213-233 | a logged write changes what readers see in its block only, and nothing that survives a crash |
| `JournalProofs.CommitPoint` | log.c:192-202 | the header write makes exactly what readers see what survives a crash |
| `JournalProofs.InstallStep` | log.c:69-82 | installing a block changes neither what readers see nor what survives |
| `JournalProofs.ClearStep` | log.c:192-202 | clearing the header after the installation changes neither |
| `JournalProofs.RecoverStep` | log.c:115-122 | a block installed by recovery changes neither, so recovery may crash and start again |
| `JournalProofs.NextRefines` | log.c:125-233 | every step of any interleaving of operations, single block writes, cache fills, evictions and crashes keeps the invariant: committing implies no operation under way, logged numbers are distinct and within LOGSIZE and the region, a logged block is cached and dirty until installed; readers see exactly the writes, and what survives changes only at a commit point, to what readers see |
| `JournalProofs.OnlyTooBigPanics` | log.c:145-174 | under the invariant a step panics if and only if it is a proper write that meets the guard of `log_write`; the panic on log.committing cannot happen |
| `JournalRuns.RunInv` | log.c:125-233 | the invariant holds in every state of every run, with crashes anywhere |
| `JournalRuns.DurableBetweenCommits` | log.c:69-122 | between commit points nothing that survives a crash changes |
| `JournalRuns.DurableIsLastCommit` | log.c:192-202 | what survives is what readers saw at the last commit point, when no operation was under way: operations survive whole or not at all |
| `JournalRuns.CrashAtomicity` | log.c:115-122 | from a crash after any block write, through any number of crashes during recovery, a finished recovery leaves every home block as it would have survived the first crash, on an empty log |
| `JournalExact.BeginExact` | log.c:125-141 | an operation begins if and only if nothing commits or recovers and the log has room for it besides those under way; nothing else changes |
| `JournalExact.LogWriteExact` | log.c:213-233 | the block is cached with the new data and pinned, its number listed last unless it was listed; the disk and other blocks stay |
| `JournalExact.EndExact` | log.c:145-174 | the operation is gone, the others in order; a commit starts if and only if it was the last |
| `JournalExact.CrashExact` | log.c:115-122 | all but the disk is lost, and the list found there is what recovery installs |
| `JournalQuota.RunReserved` | log.c:133-139 | in every run in which each operation logs at most MAXOPBLOCKS distinct blocks, blocks in use plus unused reservations fit in LOGSIZE |
| `JournalQuota.FullMeansUsedUp` | log.c:133-139 | then, in a log region larger than LOGSIZE, a full log means that every operation under way has used up its reservation |
| `JournalFull.RunLone` | log.c:125-141 | with LOGSIZE below twice MAXOPBLOCKS, in every run at most one operation is under way, and all that is logged is its |
| `JournalFull.NeverFullExactly` | log.c:213-219 | for all sizes, on a disk with as many home blocks as the log has blocks: in no run of operations within their quota does a write of one with reservation left ever panic if and only if the region has more blocks than such operations can log, which is LOGSIZE if two can be under way, MAXOPBLOCKS if one can, and 0 if none can begin |
| `JournalFull.ShippedLogRunsFull` | mkfs.c:25 | the shipped file system, whose region has LOGSIZE blocks, reaches that panic |
| `JournalFull.QuotaSufficesExactly` | log.c:213-228 | for all sizes: no write that keeps its operation within MAXOPBLOCKS distinct blocks ever panics if and only if no operation can begin, or only one at a time can and both LOGSIZE and the region leave a block more than it may log; else writing a logged block again does, since the guard strikes before the search for a block to absorb |
| `JournalKernel.Log.Bread` | bio.c:96-106 | returns the current contents of the block, as a read step |
| `JournalKernel.Log.Bwrite` | bio.c:109-116 | the only store to the disk is one step of the run |
| `JournalKernel.Log.WriteLog` | log.c:177-190 | copies all logged blocks to the log, each store one step of the run |
| `JournalKernel.Log.FillHead` | log.c:101-113 | the copied header lists the in-memory block numbers and keeps the rest of the block |
| `JournalKernel.Log.WriteHead` | log.c:101-113 | writes the header: the commit point when called first, the clearing of the log when called last |
| `JournalKernel.Log.InstallTrans` | log.c:69-82 | installs all listed blocks, each store one step of the run |
| `JournalKernel.Log.Commit` | log.c:192-202 | a commit is a run of reads and block writes that ends with an empty log |
| `JournalKernel.Log.BeginOp` | log.c:125-141 | an operation starts exactly if no commit is under way and the log has room for it |
| `JournalKernel.Log.LogWrite` | log.c:213-233 | fails exactly on its two guards; else records the block once, absorbing a repeated one, and pins it |
| `JournalKernel.Log.EndOp` | log.c:145-174 | the last operation to end commits: the disk then holds exactly what readers saw, on an empty log |
| `JournalKernel.Log.ReadHead` | log.c:85-96 | the in-memory header becomes what the disk lists |
| `JournalKernel.Log.Reboot` | log.c:115-122 | after a crash in any state, `recover_from_log` leaves every home block as it would survive, on an empty log |
| `BufferCache.Hit` | bio.c:69-76 | the position of the first buffer, from the most recently used, that holds the block |
| `BufferCache.Victim` | bio.c:81-91 | the position of the last buffer that nobody holds and that is not dirty |
| `BufferCache.NoBuffersExactly` | bio.c:61-93 | `bget` panics if and only if no buffer holds the block and every buffer is held or dirty |
| `BufferCache.BgetOk` | bio.c:61-93 | keeps every buffer once on the ring, at most one buffer per block of the root device, clean buffers equal to the disk; the buffer recycled was neither held nor dirty |
| `BufferCache.StoreOk` | bio.c:109-116 | `bwrite` keeps the cache in order |
| `BufferCache.PinOk` | log.c:231 | marking a buffer dirty keeps the cache in order |
| `BufferCache.ReleaseOk` | bio.c:120-141 | `brelse` keeps the cache in order, the ring a permutation of the buffers |
| `BufferCache.BreadRefines` | bio.c:96-106 | a lookup returns the current contents; to the journal it is a read, after at most one eviction of a block that is not dirty |
| `BufferCache.StoreRefines` | bio.c:109-116 | to the journal `bwrite` is a block write |
| `BufferCache.PinRefines` | log.c:213-233 | to the journal `log_write` of a changed buffer caches the data and makes the block dirty |
| `BufferCache.ReleaseRefines` | bio.c:120-141 | to the journal `brelse` changes nothing |
| `BufferCache.EnoughBuffers` | bio.c:78-92 | a lookup cannot fail while held buffers and dirty blocks are together fewer than NBUF |
| `BufferOrder.BgetHits` | bio.c:69-76 | a hit takes the buffer nearest to the front that holds the block and only counts one more holder |
| `BufferOrder.BgetRecycles` | bio.c:78-92 | a miss takes the buffer nearest to the back that is neither held nor dirty, for the block, not filled, with one holder; all others stay |
| `BufferOrder.ReleaseExact` | bio.c:120-141 | the last release moves the buffer to the front and leaves the others in order; any other only counts one holder less |
| `BufferOrder.LastResort` | bio.c:120-141 | a buffer just let go for good is the next to be recycled if and only if it is clean and every other is held or dirty |
| `BufferOrder.ReleaseAges` | bio.c:130-137 | releases keep the ring in the order of when buffers were last let go |
| `BufferOrder.OldestGoes` | bio.c:78-92 | so a miss recycles a buffer that was let go no later than any other it could take |
| `BufferCommit.LookupFails` | bio.c:61-93 | the lookup of a block that is in no busy buffer panics if and only if every buffer is held or dirty |
| `BufferCommit.RoundRuns` | log.c:177-190 | while some buffer is neither held nor dirty, a round of `write_log` or `install_trans` on the cache goes through, gives both its buffers back, leaves those that others hold, and is the next block write of the journal |
| `BufferCommit.HeadRuns` | log.c:101-113 | so does `write_head` |
| `BufferCommit.BusyCount` | log.c:177-202 | the buffers that cannot be recycled during a commit are as many as the logged blocks and the clean buffers that others hold together |
| `BufferCommit.CommitExactly` | log.c:192-202 | while others hold any buffers but of log blocks: a commit goes through if and only if the logged blocks and the clean buffers that others hold are together fewer than the buffers; then every home block on disk is what readers saw, nothing is dirty, exactly the buffers of others are held and the log on disk is empty |
| `BufferJam.AlwaysCommitsExactly` | log.c:177-202 | for all sizes: every commit goes through, while others hold at most h clean buffers, if and only if the longest log that `log_write` allows and h together leave a buffer |
| `BufferJam.ShippedCommits` | param.h:11-12 | with the shipped sizes, if and only if h is 0 |
| `BufferJam.Jams` | log.c:177-190 | a cache and a log, both in order, on which the commit panics: n logged blocks, and others hold all other buffers |
| `BufferRing.FrontLinked` | bio.c:47-55 | the four stores put a buffer at the front of the ring, forwards and backwards |
| `BufferRing.UnlinkLinked` | bio.c:132-133 | the two stores take a buffer out of the ring |
| `BufferRing.BCache.constructor` | bio.c:38-56 | all buffers are on the ring, the last first |
| `BufferRing.BCache.Binit` | bio.c:38-56 | the loop strings all buffers on the ring |
| `BufferRing.BCache.Find` | bio.c:69-76 | following next finds what `Hit` says |
| `BufferRing.BCache.FindUnused` | bio.c:81-91 | following prev finds what `Victim` says |
| `BufferRing.BCache.GetBuffer` | bio.c:61-93 | is `Bget`, with the cache kept in order |
| `BufferRing.BCache.BreadBuffer` | bio.c:96-106 | is `Bread` |
| `BufferRing.BCache.BwriteBuffer` | memide.c:38-60 | is `Store` |
| `BufferRing.BCache.PinBuffer` | log.c:231 | is `Pin` |
| `BufferRing.BCache.Brelse` | bio.c:120-141 | is `Release`: the last holder makes the buffer the most recently used |
| `Fs.PutWordAt` | fs.c:390-392 | a word stored in an indirect block is read back, and no other changes |
| `Fs.BmapOk` | fs.c:372-400 | the block in the slot asked for, a fresh zeroed one if there was none; all addresses of all inodes stay distinct, in the data area and marked as used, no block is leaked, no address in use and no byte of any file changes |
| `Fs.BmapPanicsExactly` | fs.c:372-400 | panics if and only if the block number is out of range, fewer blocks are free than it needs, or it needs any while no operation is under way |
| `Fs.NeverFreesFree` | fs.c:81-95 | the panic on freeing a free block cannot happen in `itrunc` |
| `Fs.TruncatedOk` | fs.c:407-435 | `itrunc` clears exactly the bits of the blocks of that inode, keeps the ownership invariant and leaves every other file as it was |
| `FsSpace.BmapFilled` | fs.c:372-400 | `bmap` of a block in range panics if and only if too few blocks are free or it needs one while no operation is under way, and else fills that slot, and the indirect one if it was empty, and no other, with exactly as many blocks as were missing |
| `FsFile.WriteFromOk` | fs.c:498-504 | the block loop panics if and only if its stretch lacks more blocks than are free; else it writes its bytes and nothing else, wherever block borders fall, and fills exactly the slots of the stretch |
| `FsFile.WriteiOk` | fs.c:481-511 | refused, or out of blocks, or the file is the old one with the data spliced in; then all other files stay, files stay without holes, no block is leaked, and exactly the blocks that the stretch lacked are taken |
| `FsFile.WriteiCrashes` | fs.c:481-511 | panics if and only if it is not refused and fewer blocks are free than its stretch lacks, the indirect block included |
| `FsFile.ReadFromOk` | fs.c:469-474 | the block loop gives the bytes of the file and changes none; it panics if and only if it meets more missing blocks than are free, or any while no operation is under way |
| `FsFile.ReadiOk` | fs.c:452-476 | on any disk: refused, or a panic at a hole it cannot fill, or gives the bytes from the offset on, as many as asked for and as there are; every file stays, and exactly the blocks that were missing are taken |
| `FsFile.ReadiCrashes` | fs.c:452-476 | panics if and only if it is not refused and meets missing blocks, more than are free or any while no operation is under way |
| `FsFile.ReadiUnchanged` | fs.c:469-474 | a read that gives bytes leaves the disk as it is if and only if no block of its stretch is missing |
| `FsFile.HollowRead` | fs.c:469-474 | a disk with a hole: the read takes the free block while an operation is under way, and panics when none is |
| `FsFile.ReadiExact` | fs.c:452-476 | on a disk whose files have no holes: never panics and changes nothing; refused if and only if it starts behind the end or its end wraps; else gives the bytes from the offset on, as many as asked for and as there are |
| `FsFile.TruncatedHoles` | fs.c:407-435 | `itrunc` leaves no hole in any file |
| `FsFile.FileReadOk` | file.c:94-113 | `fileread`, which begins no operation: refused or not as `readi`; panics if and only if it is not refused and meets missing blocks while no operation of others is under way, or more than are free; else the offset moves by the bytes given, and without an operation under way the disk stays |
| `FsFile.FileReadTwice` | file.c:94-113 | on files without holes two reads in a row give what one read of both lengths gives, and leave the same offset |
| `FsFile.WriteThenRead` | fs.c:452-511 | reading back what was written gives it, and changes nothing |
| `FsWrite.WriteiRefuses` | fs.c:493-496 | refused if and only if it starts behind the end or ends behind the largest file |
| `FsWrite.WriteLogsIn` | fs.c:498-504 | the blocks that a write logs are those of its stretch, the indirect block, and free-map blocks, at most one per block taken |
| `FsWrite.ChunkFits` | file.c:126-145 | each transaction of `filewrite` logs at most MAXOPBLOCKS distinct blocks on a disk of any size whose files have no holes, and at most seven if the free map is one block |
| `FsWrite.FileWriteOk` | file.c:118-156 | the chunks that are not refused are written in order and nothing else is, unless blocks run out |
| `FsWrite.FileWriteCrashes` | file.c:118-156 | panics if and only if the chunks that are not refused lack more blocks than are free |
| `FsWrite.PartialExactly` | file.c:148-153 | a call that returns -1 has written part of its data if and only if it starts within the file, ends behind the largest file, its first chunk does not, and blocks do not run out |
| `FsWrite.PartialHappens` | file.c:148-153 | a file system and a call for which this happens: one byte more than the largest file, of which 70656 bytes are written |
| `FsLogs.WriteCovered` | fs.c:498-504 | from the disks before and after the loop: every block that changed, every block taken and the free-map block of its mark, and every block of the stretch are logged |
| `FsLogs.WriteiCovered` | fs.c:481-511 | the same of a whole write; no inode but the file's changes, and that is logged if the file grows; else it changes, unlogged, if and only if it gets a new address |
| `FsLogs.InodeLogged` | fs.c:506-509 | on files without holes a write that changes the inode logs it |
| `FsLogs.HollowWrite` | fs.c:506-509 | a write into a hole that changes the inode and does not log it |
| `FsKernel.SetBits` | fs.c:66-68 | setting a bit of the free map marks that block and no other |
| `FsKernel.ClearBits` | fs.c:89-92 | clearing a bit frees that block and no other |
| `FsKernel.FileSystem.FindFree` | fs.c:56-78 | the search over blocks and bits of the free map finds the first free block |
| `FsKernel.FileSystem.Bfree` | fs.c:81-95 | fails exactly on a free block, else clears its bit |
| `FsKernel.FileSystem.Balloc` | fs.c:56-78 | is `Balloc`: the first free block, marked and zeroed |
| `FsKernel.FileSystem.BmapBlock` | fs.c:372-400 | is `Bmap` |
| `FsKernel.FileSystem.Itrunc` | fs.c:407-435 | the loops give `Truncated` |
| `FsKernel.FileSystem.WriteInode` | fs.c:481-511 | is `Writei`, with its return values |
| `FsKernel.FileSystem.ReadInode` | fs.c:452-476 | is `Readi`, with its return values |
| `FsKernel.FileSystem.FileRead` | file.c:94-113 | is `FileRead`, with the offset it leaves |
| `FsKernel.FileSystem.FileWrite` | file.c:118-156 | is `FileWrite`, with its return values and the offset it leaves |
| `Umalloc.InsertOk` | umalloc.c:33-42 | putting a block in its place and joining it on both sides keeps the list ascending with no two blocks touching, and covers exactly the old units and the new |
| `Umalloc.FreeOk` | umalloc.c:24-44 | `free` of a live block keeps the heap in order: free and live blocks are disjoint and together are exactly the units obtained from sbrk; only the units of the block change from live to free |
| `Umalloc.TakeOk` | umalloc.c:75-82 | cutting the tail of a block, or taking it whole, keeps the list in order and separates the two parts |
| `Umalloc.AllocOk` | umalloc.c:75-84 | an allocation keeps the heap in order; only its units change from free to live |
| `Umalloc.MallocOk` | umalloc.c:63-90 | up to LARGEST bytes, `malloc` fails if and only if no free block is large enough and sbrk refuses, and then changes nothing; else it hands out a new block apart from all others that holds the bytes, and memory grows if and only if no free block was large enough |
| `Umalloc.MorecoreServes` | umalloc.c:46-61 | after `morecore` the search must succeed |
| `Umalloc.UnitsOk` | umalloc.c:69 | the units for a request hold its bytes if and only if the sum does not wrap in 32 bits |
| `Umalloc.HeaderMapped` | umalloc.c:54-58 | the header store of `morecore`, at the old end of memory, hits a page of the process after every reliable request, and after a larger one if and only if the memory still ends inside that page; else the process faults there |
| `Umalloc.HugeMisplaced` | umalloc.c:46-61 | a larger request either makes sbrk give back exactly all memory, or, unless its header store faults, gets a block that begins where the memory ended |
| `Umalloc.ReliableExactly` | umalloc.c:63-90 | `malloc` keeps its promise in every valid heap if and only if the request is at most 2147483632 bytes |
| `Umalloc.Canonical` | umalloc.c:33-42 | two lists in order with the same free units are the same list |
| `Umalloc.AllocFree` | umalloc.c:24-90 | freeing what was just allocated restores the free list exactly |
| `Umalloc.FreeCommutes` | umalloc.c:24-44 | the order in which two blocks are freed does not matter to the free list |
| `Umalloc.RunValid` | umalloc.c:24-90 | over every run of frees of live blocks, reliable requests and other growth of the process, the heap stays in order |
| `UmallocExact.NextFit` | umalloc.c:74-85 | `malloc` takes the first block after `freep` that is large enough, whole if it fits exactly and else its end, and leaves `freep` at the block before |
| `UmallocExact.GrowthFit` | umalloc.c:86-88 | with none large enough the block is the end of the memory that sbrk gave |
| `UmallocExact.FreeNext` | umalloc.c:30-43 | `free` leaves `freep` at the free block next below the one freed, or that contains it |
| `UmallocKernel.FreedStrung` | umalloc.c:33-42 | the stores of `free` turn the circular list of headers into that of the new free list |
| `UmallocKernel.CutStrung` | umalloc.c:75-82 | the stores of `malloc` do so for the list without the units taken |
| `UmallocKernel.Allocator.FindBelow` | umalloc.c:30-32 | from anywhere on the ring the search ends at the block below |
| `UmallocKernel.Allocator.Free` | umalloc.c:24-44 | is `Free` |
| `UmallocKernel.Allocator.Morecore` | umalloc.c:46-61 | is `Morecore` |
| `UmallocKernel.Allocator.Malloc` | umalloc.c:63-90 | is `Malloc`; the loop ends, with at most one call of `morecore` |
| `Vm.MapUserOk` | vm.c:60-80 | mapping a frame as a user page that was not mapped changes that page only; it fails only for want of a frame for a table, changing nothing, and never panics |
| `Vm.DeallocOk` | vm.c:255-279 | unmaps its range and only that, the frames going to the free list |
| `Vm.FreeVmOk` | vm.c:283-298 | every user frame, every table and the directory return to the free list exactly once; no other frame changes |
| `Vm.SetupKvmOk` | vm.c:118-136 | a new address space of frames that were free, mapping exactly the kernel map, or failure with the same frames free as before |
| `Vm.ParentStays` | vm.c:315-345 | neither the page table nor the pages of the parent change |
| `Vm.CopyUvmOk` | vm.c:315-345 | a child with the bytes and flags of every page of the parent in frames that were free and that it shares with nobody, the rest of its user part not mapped; or failure with exactly the frames free that were free before |
| `Vm.AllocFromOk` | vm.c:221-249 | zeroed pages in frames of their own, or failure with everything mapped as before; no frame is lost or doubled |
| `Vm.MapPageExact` | vm.c:60-80 | mapping one page panics if and only if it is mapped already, and fails, with nothing changed, if and only if it lacks a table and no frame is free |
| `Vm.FreedIsNext` | kalloc.c:60-96 | a frame freed is overwritten and is the next to be handed out, which leaves the free frames as they were |
| `VmKernel.Memory.Kfree` | kalloc.c:60-78 | the frame becomes the head of the free list |
| `VmKernel.Memory.Kalloc` | kalloc.c:83-96 | takes the head of the free list, and fails exactly if it is empty |
| `VmKernel.Memory.Walk` | vm.c:35-55 | finds the table, or makes one from a free frame |
| `VmKernel.Memory.MapOne` | vm.c:60-80 | is `MapPage` |
| `VmKernel.Memory.Mappages` | vm.c:60-80 | is `MapPages` |
| `VmKernel.Memory.Deallocuvm` | vm.c:255-279 | is `Dealloc`, though it skips tables that are not there |
| `VmKernel.Memory.Freevm` | vm.c:283-298 | is `FreeVm` |
| `VmKernel.Memory.Setupkvm` | vm.c:118-136 | is `SetupKvm` |
| `VmKernel.Memory.Copyuvm` | vm.c:315-345 | is `CopyUvm` |
| `VmKernel.Memory.Allocuvm` | vm.c:221-249 | is `AllocFrom` |
| `Pipe.Tests` | pipe.c:85-114 | the counter tests tell a full and an empty ring also after the counters wrapped |
| `Pipe.PutOne` | pipe.c:94 | storing a byte appends it to the queue |
| `Pipe.TakeOne` | pipe.c:116 | reading a byte takes the front of the queue |
| `Pipe.PutAllQueues` | pipe.c:84-95 | the writing loop appends in order as much as fits |
| `Pipe.TakeAllDequeues` | pipe.c:113-117 | the reading loop takes from the front as much as there is and as is asked for |
| `PipeRuns.StepStream` | pipe.c:59-121 | every step keeps: bytes sent are bytes received followed by the bytes in the ring |
| `PipeRuns.RunStream` | pipe.c:59-121 | over every interleaving, what was received is a prefix of what was sent and the rest, at most 512 bytes, is in the ring |
| `PipeRuns.StepReasoned` | pipe.c:78-121 | exactly when a step leaves someone asleep without reason: a write returns -1 on a full ring while a reader sleeps |
| `PipeRuns.RunReasoned` | pipe.c:78-121 | in every run without that, a sleeping reader implies an empty ring open for writing and a sleeping writer a full ring open for reading |
| `PipeRuns.RunAttended` | pipe.c:59-75 | a pipe is freed only with nobody in a call on it, and a write that gives up while a reader sleeps is one of a killed process |
| `PipeRuns.KilledWriterStrandsReader` | pipe.c:85-89 | a run in which this happens: the reader sleeps on a full ring |
| `PipeRuns.PipeBuffer.CopyIn` | pipe.c:84-95 | the writing loop is `PutAll` |
| `PipeRuns.PipeBuffer.CopyOut` | pipe.c:113-117 | the reading loop is `TakeAll` |
| `PipeRuns.PipeBuffer.CloseEnd` | pipe.c:59-75 | closes that end, and frees the pipe exactly when both are closed |
| `PipeExact.ReadExact` | pipe.c:102-121 | on an empty pipe that may be written to, a killed reader returns and any other sleeps; else it takes from the front as many bytes as asked for and there, wakes the writers and returns |
| `PipeExact.WriteExact` | pipe.c:78-98 | puts in as many bytes as there is room for; with all in, or asleep with the rest, it wakes the readers; with the read end closed or the writer killed it returns and wakes nobody |
| `PipeExact.CloseExact` | pipe.c:59-75 | wakes the sleepers at the other end and changes nothing else |
| `PipeExact.KillExact` | proc.c:868-886 | marks the process and wakes it if it sleeps in a call |
| `Grep.RenderParse` | grep.c:85-96 | a pattern can be read back from its parse |
| `Grep.StartStar` | grep.c:99-106 | a starred character takes some characters it accepts and the rest of the text starts with the rest of the pattern, and conversely |
| `Grep.MatchHere` | grep.c:85-96 | returns 1 if and only if the text starts with a word of the language of the pattern |
| `Grep.MatchStar` | grep.c:99-106 | returns 1 if and only if the rest matches after some number of accepted characters |
| `Grep.Match` | grep.c:72-82 | for every pattern and text, ends and returns 1 if and only if some part of the text, or with a caret its start, matches the language of the pattern |

## Left out

- Several CPUs: the queue invariants of the scheduler rely on one.
- Machine integers of the scheduler and of reference counts: pids, ticks and `refcnt` do not wrap in the model.
- `proc.c`: kernel stacks, contexts, open files and `cwd` of a process, `growproc`, `procdump`, the schedule log.
- `sleep` and `wakeup` inside the log, the buffer locks and the inode locks: the log's steps are enabled when their caller may go on, and a buffer is changed only by its holder.
- JournalKernel.Log: its calls run one after another; interleavings, evictions and crashes between them are the runs of `Journal`, of which every call is one.
- Bounds of the buffer cache inside the runs of the log: there the cache may evict any block that is not dirty; `BufferCache.BreadRefines` and `BufferCommit.CommitExactly` connect a cache of `NBUF` buffers, the latter with the buffers that others hold staying the same during the commit, and none of them of the log.
- Recovery on a cache of `NBUF` buffers: nothing is dirty then.
- `initlog` and `readsb`: where the log lies, and that its header fits in a block, is part of the geometry.
- `fs.c`: inode allocation, locking and caching, directories and path names; on-disk and in-memory inodes are one, so what `iupdate` delays is not modelled.
- `readi` and `writei` on device files; `fileread` and `filewrite` on pipes and on files not open for it.
- The guard of `log_write` on the length of the log, inside `fs.c`: that a chunk of `filewrite` stays within what the log reserves is `FsWrite.ChunkFits`; the blocks a read takes for holes are reserved by nobody.
- The contents of the free map's blocks other than as bits, and of inode blocks.
- `mkfs.c` beyond the layout facts used.
- Umalloc.HugeMisplaced: the fault of the header store, and that of a process whose memory `sbrk` freed, are not outcomes of `Malloc`; `Umalloc.HeaderMapped` and `Umalloc.Wipes` say when they happen.
- UmallocKernel.Allocator.Morecore: requires fewer than `KERNBASE` bytes, because a larger request leaves a block beyond the memory and the list out of order; `Umalloc.HugeMisplaced` covers those.
- UmallocKernel.Allocator.Malloc: requires at most `LARGEST` bytes, for the same reason.
- Umalloc.MallocOk: stated up to the largest reliable request, beyond which the promise is false; `Umalloc.ReliableExactly` says so for all.
- Writes of a program to memory it was not given, which could change block headers.
- `vm.c`: segment setup, `switchuvm`, `loaduvm`, `inituvm`, `copyout`, `clearpteu`; the range tests of `kfree`; permission bits are one number.
- The wrap to 0 of the last device region in the kernel map: its length in pages is given.
- VmKernel.Memory.Kfree: requires that the frame is not free already; `kfree` does not look, and a second free would close the list into a loop.
- PipeRuns.PipeBuffer.CloseEnd: does not state the wakeup, which is part of the step `Close` of the runs.
- `pipealloc` beyond the fields of the pipe; negative lengths in pipe calls.
- The line buffering of `grep`, and its output.
- Device drivers, trap entry and exit, system call arguments, `exec.c`, the shell and the test programs.

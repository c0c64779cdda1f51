# Verified model of the ZOSys kernel

ZOSys is a small Unix-like kernel for the Z180. This project models its process table and
scheduler, its blocking primitives, its buffer pool, its open files, its file transfers, the
memory image that `execve` builds, and its rings, pipes and serial ports, and proves what they
promise. Nothing was executed. `dafny verify dfyconfig.toml` checks everything.

## How the model is built

A step of the kernel is one critical section (`__critical` or a `di` region), cut where the code
calls the scheduler. Each part of the kernel has a value-level form, in which a step is a function
from state to state, and an imperative form, a class with the kernel's own variables whose methods
are proved equal to those functions. What the kernel promises over whole runs is proved about the
functions, and what each step does to each variable is stated once more, literally, beside them
(`KernelEffects`, `KernelDeeds`, `FileEffects`, `FileDeeds`, `PoolEffects`, `SerialEffects`).

| part | value level | in place |
|---|---|---|
| page map | `PageMap` | `PageMap` (methods over the array) |
| processes, scheduler, mutexes, semaphores | `Kernel`, `KernelInv`, `KernelSteps`, `KernelLocks`, `KernelEvents`, `KernelRuns`, `KernelReturns`, `KernelOrphans`, `KernelSafety`, `KernelFairness`, `KernelSync`, `KernelEffects`, `KernelDeeds`, `KernelLasting`, `KernelScenarios` | `Machine` |
| 512-byte buffer pool | `BlockPool`, `PoolEffects`, `PoolStranding` | `BlockBuffers` |
| open files and reference counts | `OpenFiles`, `FileCalls`, `FileRuns`, `FileEffects`, `FileSteps`, `FileDeeds` (with `Counting`) | `FileTable` |
| SD card, initrd, `sys_read`, `sys_write` | `Storage`, `Transfers` | `Storage`, `Transfers` |
| user pointers and `execve` | `UserMemory`, `Execve` | `UserMemory`, `ExecveCall` |
| ring and pipe | `Pipe` | `Ring`, `Pipe` |
| serial ports | `Serial`, `SerialEffects` | `SerialPort` |

`Lists` holds the sequences that stand for the kernel's linked lists.

A run of the kernel is any sequence of enabled steps from boot: which process calls what, when the
timer fires, whether an allocation succeeds and what a sender sends are all free. A run of the
buffer pool adds every interleaving of any number of requests over a pool of any size.

## Where the code differs from the obvious intent

The model does what the code does; these are results, each with the exact condition.

- `semaphore_wait` decrements once and then retries while the count is negative
  (src/semaphore.c:10-18), so a signal can wake a process that goes back to sleep although a permit
  is free. `KernelSync.RetryGetsThrough` and `KernelSync.SignalServesSleeper` say exactly when a woken
  process gets through; `KernelSync.StrandedForever`, `BlockPool.AllAsleepForever` and
  `PoolStranding.EveryPoolCanStrand` show that a pool of any size can stop serving for good.
- A zombie that passes to a sleeping PID 1 by re-parenting does not wake it (src/process.c:404-430).
  `KernelOrphans.OverlooksExactly` says which steps make a sleeper overlook which zombie: exactly the
  exits that leave PID 1 such an orphan. `KernelScenarios.InitCanOverlook` gives a run that does.
- If PID 1 exits, its children and later orphans have a dead parent. `KernelSafety.ProcessTree` gives
  the exact condition and `KernelScenarios.InitCanDieFirst` a run that fails it.
- A file whose open operation fails (src/file.c:189-190) and the working directory of a fork that
  fails (src/process.c:291-298) lose a reference. `FileRuns.ReferenceCounts` counts those losses exactly.
- `sys_read` returns a 16-bit signed count, negative from 32 KiB on, as in execve's own read of 0xE000
  bytes: `Transfers.ReadReturns`.
- `sys_write` refuses a buffer that ends exactly at 0xF000 and `sys_read` takes it:
  `Transfers.LastByteOfUserSpace`.
- `execve` does not check that its size sums stay within 16 bits, that the new stack stays in user
  space, or that its program ends below that stack. `Execve.SizesRight`, `Execve.StackRight` and
  `Execve.LoadsWhole` give the three exact bounds, `Execve.SizesCanOverflow` an input that passes every
  check and fails the first, and `ExecveCall.SysExecve` says which calls go wrong.
- `int_asci1` treats a zero byte like an empty queue (src/dev_asci.c:219): `Serial.Asci1SendsAllButZeros`
  and `Serial.Asci1DropsZero`.

## What is assumed

- PID 0 polls `waitpid` with WNOHANG, never exits, and never takes a lock that is not free, as
  `main` does (src/main.c:92-96). A mutex is unlocked by a process that locked it, and a semaphore is
  signalled only while a permit is held.
- PIDs do not wrap and reference counts do not reach SIZE_MAX.
- The heap is a choice made anew at each allocation; objects get addresses not in use.
- Page block 8 is the kernel's own and the first process's, as `main` reserves it (src/main.c:47).
- The card has whole 512-byte blocks, and transfers stay on it.
- In `execve`, the memory above 0xF000, where the kernel keeps its stack and user buffer, does not change
  while a string that runs into it is read.

## Model

| member | source | states |
|---|---|---|
| `PageMap.FirstFree` | src/mem.c:49-60 | the block found is the lowest whose word is zero; none is found exactly when every word is in use |
| `PageMap.AllocPageBlock` | src/mem.c:49-60 | claims the lowest empty block and returns its first page, or returns -1 and changes nothing; no other word changes |
| `PageMap.AllocPageBlockSpecific` | src/mem.c:62-75 | succeeds exactly for an aligned, in-range page of an empty block |
| `PageMap.FreePageBlock` | src/mem.c:83-86 | clears exactly the word of the page's block |
| `Kernel.FindChild` | src/process.c:331-359 | a matching child of a list; none exactly when the list has no matching child |
| `Kernel.FindChildFirst` | src/process.c:331-359 | the child found is the first one of the list that matches |
| `Kernel.FindWaiter` | src/process.c:413-427 | a sleeping parent whose wait the dying process ends; none exactly when no sleeping parent's does |
| `KernelEvents.StepPreserves` | src/process.c:96-433 | every step that can start finds what it reads (no empty-queue pop, no missing process) and keeps the whole invariant: places, states, tree, waits, pages, mutexes, semaphores |
| `KernelRuns.RunInv` | src/main.c:40-97 | the invariant holds in every state of every run from boot |
| `KernelRuns.NeverStuck` | src/process.c:183-200 | in every reachable state PID 0 runs or is ready, the scheduler's empty-queue panic cannot be reached, and some step can start |
| `KernelRuns.ExactlyOnePlace` | src/process.c:96-433 | every created process is in exactly one of: the processor, the ready queue, one lock's sleepers, the wait list, the zombie list, one reaper's hands, one builder's hands; its state field says which; no list holds it twice |
| `KernelRuns.WaitersAreServed` | src/process.c:361-373 | whoever sleeps in waitpid has a living child that would end the wait; whoever wakes holds its own matching zombie, taken off the list |
| `KernelRuns.WaitPidKept` | src/process.c:361-373 | the sleep does not change what the process waits for, over any stretch of a run |
| `KernelRuns.SleepingWaitFindsItsChild` | src/process.c:361-388 | a blocking waitpid that slept next runs with a zombie child that matches its argument, so it never returns 0 |
| `KernelReturns.WaitpidReturnsChild` | src/process.c:370-383 | a blocking waitpid that slept and has returned gave back the positive pid of a zombie child that matches, which is destroyed |
| `KernelRuns.WaitpidReturns` | src/process.c:318-388 | -1 exactly for unknown options or no matching child; 0 under WNOHANG exactly when children match and none is an unclaimed zombie; otherwise it sleeps or takes a zombie child that matches |
| `KernelOrphans.StepOverlooksNone` | src/process.c:318-388 | no step but an exit makes anybody asleep in waitpid overlook an unclaimed zombie that would end its wait |
| `KernelOrphans.RunOverlooksNone` | src/process.c:318-433 | over any run only PID 1 sleeps beside a zombie that would end its wait |
| `KernelOrphans.OverlooksExactly` | src/process.c:390-433 | a step makes a sleeper overlook a zombie if and only if the sleeper is PID 1 and the step is the exit of a process that is not its child and leaves it that zombie |
| `KernelScenarios.InitCanOverlook` | src/process.c:390-433 | a run of forks, a wait and two exits reaches that case |
| `KernelScenarios.InitCanDieFirst` | src/process.c:404-411 | a run reaches a state in which PID 1 is dead and a process still has it as parent |
| `KernelOrphans.NextWaitFinds` | src/process.c:331-346 | the parent's next waitpid takes a zombie at once |
| `KernelSafety.ProcessTree` | src/process.c:281-290 | every nonzero pid is above its parent's, no process is its own ancestor; every parent lives, and every chain of parents ends at PID 0, exactly while PID 1 lives or has no children |
| `KernelSafety.ParentsLiveWhile` | src/process.c:404-411 | the exact condition under which every process has a live parent despite re-parenting |
| `KernelSafety.MemoryIsConserved` | src/mem.c:17-20 | the used blocks are the reserved ones and one block of each process, no two alike, so at most eight processes exist |
| `KernelSafety.ForkTakesUnownedBlock` | src/process.c:105-113 | fork takes the lowest block that nobody owns and fails exactly when there is none or the heap is exhausted |
| `KernelSafety.DestroyedOnce` | src/process.c:132-137 | over any run a process is destroyed at most once, and only as a zombie or as the child of a failed fork |
| `KernelSafety.GoneForever` | src/process.c:118-125 | a destroyed pid never comes back |
| `KernelDeeds.ForkBeginDoes` | src/process.c:96-113 | the lowest empty block becomes 0xFFFF and is remembered, or only the result changes, to -1 |
| `KernelDeeds.ForkCreateDoes` | src/process.c:118-130 | the child has the next pid, the block claimed and the last place of the list, in state EMPTY |
| `KernelDeeds.ForkSetParentDoes` | src/process.c:286-290 | the child's ppid is the caller's pid, and nothing else changes |
| `KernelDeeds.ForkDoneDoes` | src/process.c:304-312 | the child is READY at the end of the queue with result 0, and the parent has its pid |
| `KernelDeeds.ForkFailDoes` | src/process.c:295-298 | the child is gone from list and records, its block is free, and the result is -1 |
| `KernelDeeds.WaitAnswers` | src/process.c:318-370 | -1 for other options or no child to wait for, 0 for WNOHANG without a zombie; nothing else changes |
| `KernelDeeds.WaitSleepDoes` | src/process.c:361-370 | the caller is BLOCKED, last on the wait list, with what it asked for, and the next process runs |
| `KernelDeeds.WaitTakeDoes` | src/process.c:331-346 | a matching zombie child leaves the zombie list for this caller, and nothing else changes |
| `KernelDeeds.WaitResumeDoes` | src/process.c:372-375 | the woken waiter goes on with the zombie it was left |
| `KernelDeeds.ReapDoes` | src/process.c:377-382 | the zombie is gone from list and records, its block is free, and the result is its pid |
| `KernelDeeds.ExitHandsOver` | src/process.c:396-427 | a parent asleep for this child, or for any, leaves the wait list, has the zombie and runs at once; the dead process's children have PPID 1 |
| `KernelDeeds.ExitBuries` | src/process.c:396-432 | otherwise the zombie goes to the end of the zombie list and the next process runs; the dead process's children have PPID 1 |
| `KernelDeeds.ExitDies` | src/process.c:401-402 | in either case the dead process is a zombie whose status is the low byte of the exit code |
| `KernelLasting.StatusLasts` | src/process.c:390-402 | over any run: as long as it exists, a process that exited is a zombie with the low byte of its exit code |
| `KernelLasting.WaitpidGetsStatus` | src/process.c:377-402 | over any run: the zombie that waitpid destroys has the low byte of what it passed to exit, and its pid is the result |
| `KernelFairness.SchedulingStep` | src/process.c:183-209 | each call of the scheduler takes its choice from the queue it finds and keeps the rest in order |
| `KernelEffects.TickDoes` | src/process.c:183-209 | the running process goes to the back of the queue, the front one runs, or the second if the front is PID 0, which then goes to the back; nothing else changes |
| `KernelFairness.IdleRunsLast` | src/process.c:186-193 | PID 0 is dispatched exactly when it is the only ready process |
| `KernelFairness.PickAdvances` | src/process.c:183-200 | one call dispatches a waiting process or brings it at least one place forward |
| `KernelFairness.BoundedWaiting` | src/process.c:183-209 | a process other than PID 0 at index k of the ready queue runs within k+1 calls of the scheduler, whatever arrives |
| `KernelSync.MutualExclusion` | src/mutex.c:11-39 | at most one holder of a mutex, which is then marked locked, and a try-lock on it fails without effect |
| `KernelSync.NoLostWakeup` | src/mutex.c:31-39 | a mutex with sleepers is locked, or a woken process that has yet to retry is running or ready |
| `KernelSync.SemaphoreAccounting` | src/semaphore.c:10-38 | count is the initial value less the permits held and the processes not yet through; permits never exceed the initial value |
| `KernelSync.RetryGetsThrough` | src/semaphore.c:13-17 | a retrying waiter gets through exactly when permits held plus all waiters fit in the initial value, and sleeps again otherwise |
| `KernelSync.SignalServesSleeper` | src/semaphore.c:30-38 | the sleeper that a signal wakes finds its way free exactly when the count was at least -1 |
| `KernelSync.StrandedForever` | src/semaphore.c:10-38 | once every permit is free while all waiters sleep below zero, it stays so and no waiter ever runs again |
| `KernelEffects.TryLockDoes` | src/mutex.c:21-29 | a free mutex becomes locked and held by the caller, with result 1; on a locked one only the result changes, to 0; sleepers, other locks, queues and other processes stay |
| `KernelEffects.LockDoes` | src/mutex.c:11-19 | mutex_lock, first turn or later: a free mutex is taken; on a locked one the caller sleeps last in its list and the next process runs |
| `KernelEffects.UnlockDoes` | src/mutex.c:31-39 | the mutex is free and no longer held, its longest sleeper is last in the ready queue, and nothing else changes |
| `KernelEffects.SemWaitDoes` | src/semaphore.c:10-18 | the count falls by one; below zero the caller sleeps last in the list, else it has a permit |
| `KernelEffects.SemRetryDoes` | src/semaphore.c:13-17 | a later turn tests the count without touching it |
| `KernelEffects.TryWaitDoes` | src/semaphore.c:20-28 | a positive count falls by one with result 1; otherwise only the result changes, to 0 |
| `KernelEffects.SignalDoes` | src/semaphore.c:30-38 | the count rises by one, the longest sleeper is last in the ready queue, and nothing else changes |
| `KernelLasting.LockedUntilUnlock` | src/mutex.c:11-39 | over any run a locked mutex stays locked until a mutex_unlock of it |
| `KernelLasting.TryLockExcludes` | src/mutex.c:21-29 | after a mutex_trylock, whatever it answered, every other one by anybody answers 0 and changes nothing until the unlock |
| `Machine.Globals.constructor` | src/process.c:36-49 | after main reserves its page block, the boot state: PID 0 alone, running in that block, with the invariant |
| `Machine.Globals.ProcessSwitch` | src/process.c:150-180 | the chosen process becomes current and RUNNING |
| `Machine.Globals.ProcessSchedule` | src/process.c:183-200 | the two pops and the push back come to the model's choice of the next process |
| `Machine.Globals.ProcessTick` | src/process.c:203-209 | a tick is the model's Tick step, safe and invariant-keeping |
| `Machine.Globals.ForkBegins` | src/process.c:96-113 | heap and page block allocation is the model's step |
| `Machine.Globals.ForkCreates` | src/process.c:118-127 | pid and list entry are taken in one critical section |
| `Machine.Globals.ForkSetsParent` | src/process.c:286-290 | the child's ppid is set as the model's step |
| `Machine.Globals.ProcessDestroy` | src/process.c:132-137 | frees the block and unlinks the process, nothing else |
| `Machine.Globals.ForkFails` | src/process.c:295-298 | a failed copy destroys the child and returns -1 |
| `Machine.Globals.ForkCompletes` | src/process.c:304-312 | the child becomes ready and the parent returns its pid |
| `Machine.Globals.SearchChild` | src/process.c:331-359 | the walk over a list finds what FindChild says |
| `Machine.Globals.SysWaitpid` | src/process.c:318-370 | the whole first critical section of waitpid is the model's step |
| `Machine.Globals.WaitResumes` | src/process.c:372-375 | the woken waiter takes wait_process |
| `Machine.Globals.Reaps` | src/process.c:377-382 | the zombie is destroyed and its pid returned |
| `Machine.Globals.ReparentChildren` | src/process.c:404-411 | exactly the dying process's children take PPID 1 |
| `Machine.Globals.SearchWaiter` | src/process.c:413-427 | the walk over the wait list finds what FindWaiter says |
| `Machine.Globals.SysExit` | src/process.c:396-432 | the critical section of exit, with hand-off or burial, is the model's step |
| `Machine.Globals.MutexLocks` | src/mutex.c:11-19 | mutex_lock up to its first sleep or its acquisition |
| `Machine.Globals.MutexTryLocks` | src/mutex.c:21-29 | mutex_trylock and its result |
| `Machine.Globals.MutexUnlocks` | src/mutex.c:31-39 | mutex_unlock with its wake-up |
| `Machine.Globals.SemWaits` | src/semaphore.c:10-18 | the decrement and the first turn of the loop |
| `Machine.Globals.SemTryWaits` | src/semaphore.c:20-28 | semaphore_trywait and its result |
| `Machine.Globals.SemSignals` | src/semaphore.c:30-38 | semaphore_signal with its wake-up |
| `Machine.Globals.Retries` | src/mutex.c:12-16 | a woken process goes round the loop it slept in |
| `BlockPool.PoolStepPreserves` | src/block_buf.c:33-65 | every interleaved step keeps the counting invariant: holders at or above index i number at most n - i, each locked mutex has one owner |
| `BlockPool.PoolRunInv` | src/block_buf.c:33-65 | the counting invariant in every state of every run, for any pool size and any requests |
| `BlockPool.NeverPanics` | src/block_buf.c:36-43 | no scan runs past the last buffer, so neither panic is reachable, and no buffer has two owners |
| `BlockPool.TestPasses` | src/block_buf.c:33-49 | a request gets a permit exactly when all outstanding requests fit in the pool |
| `PoolEffects.AllocDoes` | src/block_buf.c:33-36 | the count falls by one; from a positive count the request scans from buffer 0, otherwise it sleeps last in the list |
| `PoolEffects.AgainDoes` | src/semaphore.c:13-17 | a woken request scans from buffer 0 exactly when the count is not negative, and the count stays |
| `PoolEffects.TryAllocDoes` | src/block_buf.c:46-51 | as alloc from a positive count, and nothing at all otherwise |
| `PoolEffects.ScanDoes` | src/block_buf.c:36-40 | a free buffer is locked and owned; a locked one is passed over; nothing else changes |
| `PoolEffects.UnlockDoes` | src/block_buf.c:61-63 | the owner's buffer is free, and no other |
| `PoolEffects.SignalDoes` | src/block_buf.c:64 | the count rises by one, the request is over, and the longest sleeper can test again |
| `PoolEffects.OwnsUntilFreed` | src/block_buf.c:33-65 | a buffer stays locked and its owner's own through every step but its owner's free |
| `BlockPool.AllAsleepForever` | src/semaphore.c:10-38 | when more requests than buffers sleep beside free buffers, nobody is served again |
| `BlockPool.OneBufferCanStrand` | src/block_buf.c:7-11 | with the one buffer of the code, a run of seven steps reaches that state |
| `PoolStranding.EveryPoolCanStrand` | src/block_buf.c:33-65 | for every pool size some run reaches that state |
| `BlockBuffers.Buffers.constructor` | src/block_buf.c:21-27 | the boot state of the pool |
| `BlockBuffers.Buffers.AllocStarts` | src/block_buf.c:33-34 | the permit is taken or waited for as in the model, and the result says which |
| `BlockBuffers.Buffers.WokenTests` | src/semaphore.c:13-17 | the retry of a woken request, and whether it got through |
| `BlockBuffers.Buffers.TryallocStarts` | src/block_buf.c:46-49 | no permit, no request |
| `BlockBuffers.Buffers.TryLockNext` | src/block_buf.c:36-40 | one try-lock of the scan |
| `BlockBuffers.Buffers.ScanAll` | src/block_buf.c:36-43 | an undisturbed scan ends at the first free buffer and never at the panic |
| `BlockBuffers.Buffers.Unlocks` | src/block_buf.c:61-63 | the buffer's own mutex is released |
| `BlockBuffers.Buffers.Signals` | src/block_buf.c:64 | the permit is returned |
| `OpenFiles.NothingDangles` | src/file.c:83-136 | while counts agree, what a filled slot or a working directory names has not been freed |
| `OpenFiles.DropSlotOk` | src/file.c:125-136 | dropping a slot's reference, with the frees it causes, keeps every count exact |
| `FileCalls.FreeSlot` | src/file.c:314-338 | the lowest empty descriptor; none exactly when all are filled |
| `FileCalls.CloneTurn` | src/process.c:213-217 | each turn of the copying loop keeps every count and gives the child an open file of its own |
| `FileRuns.CallEffect` | src/file.c:314-642 | every call keeps all counts exact, loses references only where stated, and leaves other processes' slots, directories and positions alone |
| `FileEffects.OpenDoes` | src/file.c:314-338 | the lowest empty slot has a new open file on the file found, at position 0; or -1 and no slot changes; exactly when each happens |
| `FileEffects.CloseDoes` | src/file.c:340-351 | a filled slot becomes empty, with result 0; otherwise -1 and nothing changes; every other slot, directory and position stays |
| `FileEffects.Dup2Does` | src/file.c:619-642 | the new slot names the old one's open file, whose file and position stay, with the new slot as result; a slot onto itself changes nothing; otherwise -1 and nothing changes |
| `FileEffects.PipeDoes` | src/file.c:535-617 | the two lowest empty slots get open files on two new files, read end first, exactly when two slots are empty, memory suffices and the result pointer is valid; otherwise -1 and nothing changes |
| `FileEffects.ChdirDoes` | src/file.c:497-515 | a directory found becomes the caller's; otherwise -1 and no directory changes |
| `FileEffects.FchdirDoes` | src/file.c:517-533 | the directory behind the slot becomes the caller's; otherwise -1 and nothing changes |
| `FileEffects.MoveDoes` | src/file.c:444-476 | one open file has the new position, and nothing else changes |
| `FileEffects.ExitDoes` | src/process.c:390-400 | all the caller's slots and its directory are empty, and nobody else's |
| `FileRuns.RunInv` | src/file.c:29-136 | over any run all counts agree with the references there are |
| `FileRuns.ReferenceCounts` | src/file.c:29-136 | over any run: an open file's count is its descriptor slots; a file's count is its open files, working directories, table entries and the references lost; nothing named is freed; no open file is shared by two processes |
| `FileRuns.ForkCopies` | src/process.c:211-230 | fork works exactly when its allocations do; the child has for each filled slot, and no other, its own open file on the same file, and the same directory; a failed fork leaves no child |
| `FileRuns.ExitEffect` | src/process.c:390-400 | exit drops every slot and the directory of the caller and no other's |
| `FileSteps.ActKeeps` | src/file.c:29-136 | each critical section on a shared count, by a process that uses only what is its own, finds what it touches and keeps all counts exact |
| `FileDeeds.RefDoes` | src/file.c:29-37 | one reference more on that file, which is in hand |
| `FileDeeds.ReleaseDoes` | src/file.c:39-50 | one reference less, and the file freed with the last |
| `FileDeeds.FillDoes` | src/file.c:314-338 | the file in hand is behind a new open file with one reference, in the slot |
| `FileDeeds.DupDoes` | src/file.c:638-641 | the second slot names the first one's open file, which has one reference more |
| `FileDeeds.DropDoes` | src/file.c:125-136 | the slot is empty and its open file has one reference less; with the last it goes, with its reference to the file |
| `FileDeeds.EnterDoes` | src/file.c:497-515 | the file in hand is the working directory |
| `FileDeeds.LeaveDoes` | src/file.c:517-533 | the working directory is in hand |
| `FileSteps.InterleavingInv` | src/file.c:29-136 | the counts agree in every state of every interleaving, references in hand included |
| `FileSteps.NoUseAfterFree` | src/file.c:29-136 | in every interleaving inside file calls nothing that is used has been freed, and a file's count is its open files, directories, table entries, hands and losses |
| `FileTable.Tables.FileRef` | src/file.c:29-37 | one more reference |
| `FileTable.Tables.FileUnref` | src/file.c:39-50 | one reference less, and the file freed with the last |
| `FileTable.Tables.OpenFileRef` | src/file.c:115-123 | one more reference to an open file |
| `FileTable.Tables.ClearSlot` | src/file.c:125-136 | one open-file reference less; the last frees it and drops its file |
| `FileTable.Tables.SysOpen` | src/file.c:314-338 | open on the objects is the model's call, with its result |
| `FileTable.Tables.SysClose` | src/file.c:340-351 | close, with its result |
| `FileTable.Tables.SysDup2` | src/file.c:619-642 | dup2, with its result; onto itself it changes nothing |
| `FileTable.Tables.SysPipe` | src/file.c:535-617 | pipe, with its result; a call in which an allocation fails leaves files, open files and slots as they were |
| `FileTable.Tables.SysChdir` | src/file.c:497-515 | chdir, with the path that loses a reference |
| `FileTable.Tables.SysFchdir` | src/file.c:517-533 | fchdir, safe although it drops the old directory first |
| `FileTable.Tables.ExitFiles` | src/process.c:390-400 | the file part of exit |
| `FileTable.Tables.CloneFiles` | src/process.c:211-230 | the copying loop and where it stops |
| `FileTable.Tables.ForkFiles` | src/process.c:281-298 | the file part of fork, with the reference a failure loses |
| `FileTable.Tables.SysLseek` | src/file.c:444-476 | the new 32-bit position, and -1 for SEEK_END and unknown modes |
| `Storage.SpliceChunks` | src/dev_sd.c:424-427 | two adjacent chunks are one transfer |
| `Storage.NextPiece` | src/dev_sd.c:397-405 | a piece stays inside one block and is whole only if aligned |
| `Storage.ReadModifyWrite` | src/dev_sd.c:454-470 | reading a block, changing a part and writing it back changes exactly that part of the card |
| `Storage.ReadPiece` | src/dev_sd.c:396-423 | one turn of the loop delivers exactly its range of the card |
| `Storage.WritePiece` | src/dev_sd.c:443-474 | one turn of the loop changes exactly its range of the card |
| `Storage.SdRead` | src/dev_sd.c:387-431 | exactly the bytes [pos, pos+count) arrive, at any alignment; other minors fail |
| `Storage.SdWrite` | src/dev_sd.c:434-482 | exactly the bytes [pos, pos+count) of the card change, to the buffer; other minors fail |
| `Storage.ReadAfterWrite` | src/dev_sd.c:387-482 | reading the range written brings back what was written |
| `Transfers.NextChunk` | src/file.c:367-372 | after a full chunk the next one continues the flat transfer, and a short one ends it |
| `Transfers.FsInitrdRead` | src/fs_initrd.c:96-115 | a read is cut off at the end of the file; at or past it, or without an image, -1 |
| `Transfers.FileRead` | src/file.c:227-248 | dispatch by file type, for one chunk |
| `Transfers.FileWrite` | src/file.c:261-282 | dispatch by file type: initrd takes nothing, the card takes everything |
| `Transfers.ReadTouches` | src/file.c:353-391 | a read changes only bytes of its buffer inside user space; of all positions only that of the open file it reads moves, and every descriptor that names that open file moves with it |
| `Transfers.WriteTouches` | src/file.c:393-429 | a write changes no memory, and moves the same descriptors |
| `Transfers.DuplicatesShare` | src/file.c:619-642 | a read through a duplicated descriptor goes on where the other one stopped |
| `Transfers.ReadReturns` | src/file.c:366-390 | the result is min(count, size - pos) exactly below 32 KiB; -1 exactly when nothing was there to read |
| `Transfers.ReadSplits` | src/file.c:366-388 | two reads in a row are one read of both lengths, at the end of the file as well |
| `Transfers.WriteThenReadBack` | src/file.c:353-429 | bytes written to the card, at any position and alignment, come back from a seek and a read; nothing else of the card changed |
| `Transfers.LastByteOfUserSpace` | src/file.c:401-403 | write differs from read in one case exactly, a buffer that ends at 0xF000 |
| `Transfers.ReadBringsFile` | src/fs_initrd.c:96-115 | an accepted read of an initrd file: byte i of the buffer is byte pos + i of the file, up to count or the end of the file; the rest of memory stays, and the position moves by as much |
| `Transfers.ReadBringsCard` | src/file.c:353-391 | an accepted read of the card: byte i of the buffer is byte pos + i of the card |
| `Transfers.WritePuts` | src/file.c:393-429 | an accepted write to the card: byte pos + i of the card is byte i of the buffer, and no other changes; a write to anything else changes nothing |
| `Transfers.TurnedDown` | src/file.c:353-363 | -1 and no effect for a bad descriptor or a buffer outside user space |
| `Transfers.Session.CopyFromUserBuffer` | src/mem.c:206-218 | the DMA copy out of the user buffer, never asked for zero bytes |
| `Transfers.Session.CopyToUserBuffer` | src/mem.c:192-204 | the DMA copy into the user buffer |
| `Transfers.Session.SysRead` | src/file.c:353-391 | the chunked read over initrd files and the card equals one flat transfer, with its result and position |
| `Transfers.Session.SysWrite` | src/file.c:393-429 | the chunked write equals one flat transfer, with its result and position |
| `UserMemory.OneVector` | src/mem.c:220-264 | a pointer table names one list of strings only |
| `UserMemory.MemUserStrlen` | src/mem.c:220-234 | finds the string exactly when there is a NUL-terminated one within the window |
| `UserMemory.MemUserVectorLen` | src/mem.c:236-264 | finds the terminator exactly when a table of fewer than 256 pointers lies in user space |
| `Execve.TableAt` | src/process.c:528 | a table entry reads back as the pointer stored, in two bytes |
| `Execve.PackAt` | src/process.c:529-530 | each string lies whole at its address in its area, with its NUL |
| `Execve.HoldsVector` | src/process.c:517-547 | a table and the area it points into read back as the strings |
| `Execve.ImageReadsBack` | src/process.c:495-587 | the stack holds start address, argc, argv, envp in order; both vectors read back; tables and areas fill [base, 0xF000) edge to edge; program whole; nothing outside user space changed |
| `Execve.LoadsWhole` | src/process.c:577-578 | every program of a size starts whole with its arguments exactly when it ends below the new stack |
| `Execve.SizesRight` | src/process.c:459-506 | the size asked of malloc is the image size, and both copying loops stay inside the buffer, exactly while the image is smaller than 64 KiB |
| `Execve.StackRight` | src/process.c:502-503 | image and stack lie in user space exactly while they are no larger than it; beyond that the stack falls below it or its base wraps above it |
| `Execve.SizesCanOverflow` | src/process.c:468-469 | the checks accept vectors of which 66824 bytes are copied to a buffer of 1288 |
| `ExecveCall.MeasureStrings` | src/process.c:459-470 | a size is found exactly when every pointer names a string, and is the area's size modulo 2^16 |
| `ExecveCall.CopyMore` | src/process.c:519-531 | one turn of the copying loop extends the table and the area by one entry |
| `ExecveCall.FillVector` | src/process.c:518-532 | the loop and the final NULL put a whole vector in place |
| `ExecveCall.BuildImage` | src/process.c:495-547 | the kernel buffer holds exactly the image, where the sums did not wrap |
| `ExecveCall.GatherVectors` | src/process.c:443-493 | the checks pass exactly when both vectors are well formed and the heap allows |
| `ExecveCall.PushImage` | src/process.c:555-570 | the image goes to the top of user space, envp, argv and argc below it |
| `ExecveCall.LoadProgram` | src/process.c:572-579 | open, one read of up to 0xE000 bytes to 0x1000, close: memory gets exactly the file's bytes and the descriptors are as before |
| `ExecveCall.SysExecve` | src/process.c:435-589 | a call that its checks or malloc turn down changes nothing; of the others exactly those whose image and stack do not fit below 0xF000 overrun; one that fits leaves exactly image, stack and program, and the new stack pointer, or fails with the memory already overwritten if its program does not open |
| `ExecveCall.ExecveHandsOn` | src/process.c:435-589 | the round trip: behind the pointers on its stack the new program finds the caller's vectors and no others, under execve's own rules for vectors |
| `ExecveCall.StackAt` | src/process.c:495-503 | the new stack pointer is 0xF000 less two tables with their NULLs, the strings with theirs, and four words; calls overrun exactly when there is no room for those |
| `ExecveCall.ProgramArrives` | src/process.c:572-584 | after a successful call, of the file's or card's first 0xE000 bytes each one that lands below it is in memory at 0x1000 and up, in order |
| `ExecveCall.ProgramWhole` | src/process.c:572-584 | a program file of at most 0xE000 bytes that ends below the stack pointer is in memory whole |
| `Ring.CircularBuffer.constructor` | src/file.c:572-575 | an empty ring |
| `Ring.CircularBuffer.Put` | src/circular_buffer.c:17-26 | appends, or fails and changes nothing exactly when the ring is full |
| `Ring.CircularBuffer.Get` | src/circular_buffer.c:28-36 | removes the oldest byte, or fails exactly when the ring is empty |
| `Ring.CircularBuffer.IsFull` | src/circular_buffer.c:38-41 | true exactly when size - 1 bytes are held |
| `Ring.CircularBuffer.SpaceLeft` | src/circular_buffer.c:43-53 | length plus space is size - 1 for every order of head and tail |
| `Pipe.PipeRead` | src/file.c:215-225 | brings min(count, held) bytes, the oldest first, and leaves the rest |
| `Pipe.PipeWrite` | src/file.c:250-259 | takes as many bytes as fit, in order |
| `Pipe.FileRead` | src/file.c:239-243 | the write end cannot be read |
| `Pipe.FileWrite` | src/file.c:273-277 | the read end cannot be written |
| `Pipe.Fifo` | src/file.c:215-259 | over any calls: bytes read, then bytes held, are the bytes accepted |
| `Serial.AllAudible` | src/dev_asci.c:215-223 | a port sends all it takes exactly when it is port 0 or no byte taken is zero |
| `Serial.TransmitRun` | src/dev_asci.c:185-225 | over any events: taken plus queued is accepted, and what was sent is the audible part of what was taken |
| `Serial.Asci0SendsAll` | src/dev_asci.c:86-94 | sent bytes followed by queued bytes are the accepted bytes, and a non-empty queue has its interrupt enabled, in every interleaving |
| `Serial.Asci1SendsAllButZeros` | src/dev_asci.c:207-225 | port 1 does so exactly while it has taken no zero byte |
| `Serial.Asci1DropsZero` | src/dev_asci.c:217-221 | a zero byte is dropped and the byte behind it waits with the interrupt off |
| `Serial.BoundedSending` | src/dev_asci.c:195-204 | a byte at place k of port 0's queue is sent once the transmitter was free k + 1 times |
| `Serial.StopExactly` | src/dev_asci.c:96-106 | RTS says stop exactly while fewer than eight cells are free |
| `Serial.PoliteLosesNothing` | src/dev_asci.c:188-193 | a sender with at most seven bytes to come after stop loses none, and they are delivered in order |
| `Serial.SafeSlack` | src/dev_asci.c:10-11 | seven is the exact limit |
| `SerialEffects.PutcDoes` | src/dev_asci.c:86-94 | the byte goes to the back and the interrupt on, or nothing changes exactly when 31 bytes wait |
| `SerialEffects.GetcDoes` | src/dev_asci.c:96-125 | the oldest byte goes; port 0 says go exactly when eight cells are free then |
| `SerialEffects.ReceiveDoes` | src/dev_asci.c:185-214 | a byte goes to the back, or is lost exactly when 31 wait; port 0 says stop below eight free cells, port 1 never |
| `SerialEffects.TransmitDoes` | src/dev_asci.c:195-225 | the oldest byte is sent, or the interrupt goes off for want of one; port 1 drops a zero and turns it off as well |
| `SerialPort.AsciPort.Putc` | src/dev_asci.c:86-94 | asci_0_putc and asci_1_putc are the model's step, with their result |
| `SerialPort.AsciPort.Getc` | src/dev_asci.c:96-106 | asci_0_getc and asci_1_getc, with their result |
| `SerialPort.AsciPort.Interrupts` | src/dev_asci.c:185-225 | int_asci0 and int_asci1 are the model's step |
| `SerialPort.AsciPort.Write` | src/dev_asci.c:160-183 | takes as many bytes as there is room for, in order |
| `SerialPort.AsciPort.Read` | src/dev_asci.c:127-158 | brings the oldest min(count, waiting) bytes, or returns -1 for none |
| `SerialPort.GetManyLeaves` | src/dev_asci.c:127-158 | what was read is gone from the front of the queue and delivered, and the rest still waits |

## Left out

- Assembly for context switches, system call entry, interrupts and MMU registers: `Switch` makes the next process current, and the child of a fork resumes with result 0.
- `p_list`, `malloc` and libc, which are not in the repository: sequences, and an allocator that may fail.
- DMA registers, SPI transfers, SD start-up, tokens and timeouts: an ideal memory copy of a nonzero count (and of 64 KiB where fork asks for it with count 0), and ideal reads and writes of one block.
- Machine.Globals.Reaps: the copy of the status word to user memory (src/process.c:378-379) is left out.
- Machine.Globals.SysExit: the release of the working directory inside the critical section is part of FileTable.Tables.ExitFiles.
- Storage.SdRead: card errors, and so ranges past the end of the card, are not modelled, as the code ignores them; runs are sequential, since a read-modify-write of the code holds no lock across its two transfers.
- Storage.SdWrite: as for reads.
- Transfers.FileRead: covers initrd files, the SD card and directories; pipes are modelled separately, because a read of an empty pipe through `sys_read` asks the DMA for a count of zero, and other devices are left out.
- Transfers.FileWrite: as for reads.
- Transfers.Session.SysRead: positions do not wrap at 2^32.
- UserMemory.MemUserStrlen: the window is the 0x200 bytes that the C code declares; the assembly reserves 0x100 (src/syscall.s:121).
- FileTable.Tables.SysOpen: path lookup and the driver's open operation are parameters; `file_close`'s call of the driver is left out.
- FileTable.Tables.SysClose: the call of the driver's close operation is left out.
- FileTable.Tables.ForkFiles: the position of a copied open file is a parameter, because `file_open_file_clone` copies only the first bytes of the structure (src/file.c:98).
- FileTable.Tables.SysPipe: the open files and buffers that a failing call allocates and frees again are not tracked, nor are pipe buffers, which the code never frees; the two result integers written to user memory are left out.
- FileRuns.ReferenceCounts: each file call is one step; interleavings inside calls are those of FileSteps, where a slot is emptied together with its reference. The working directory pointer that a zombie still holds is not counted as a reference.
- ExecveCall.BuildImage: sums that wrapped are the overrun case of SysExecve.
- ExecveCall.SysExecve: what the code overwrites in the overrun case is not followed; the result of `sys_open` is a parameter, as the path is read after the image has been copied over user memory; failures of the second pass over the strings cannot happen, as memory does not change between the passes.
- Serial.Asci0SendsAll: overrun inside the receiver hardware is left out; the interrupt handler runs once for each byte.
- SerialPort.AsciPort.Read: other processes' calls and interrupts between two bytes appear only in the value-level runs.
- SerialPort.AsciPort.Write: other processes' calls and interrupts between two bytes appear only in the value-level runs.
- `mem_alloc_page` and `mem_free_page` are not used by the kernel and number pages differently from each other.
- `ioctl`, `readdirent` and `process_dump_all`: plumbing that would add only easy members.
- src/vfs.c, src/device.c, src/fs_dev.c, and the flash, serial memory, clock and timer drivers: tables and plumbing that would add only easy members.
- User programs and the C library stubs.

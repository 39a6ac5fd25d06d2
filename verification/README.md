# Verified models of fio's concurrent cores

fio is an I/O workload generator. This project models twelve of its small
protocols and kernels in Dafny and proves what their asserts, abort branches and
comments promise, over every interleaving and every input.

| module | what it models |
|---|---|
| `FileLocks` | the pool of named file locks: look-up by hash, reference counts, the global lock dropped while waiting for a free object, the trylock race |
| `InflightLogs` | the log of writes in flight and the snapshot another thread takes of it for verify state |
| `ClockTest` | the multi-core test of the CPU clock: threads racing on a compare-and-swap counter, then a sort and a scan |
| `CpuClock`, `Bits` | the fixed-point tick-to-nanosecond conversion and the loops that compute its parameters |
| `Semaphores` | the counting semaphore built from a mutex and a condition variable |
| `FlowControl` | the proportional-share throttle with a shared counter |
| `Scheduler` | the passes that create, wait for, start and reap jobs, with stonewall, wait_for and the start handshake |
| `EtaRounds` | the client's ETA rounds: a pending count settled by reply, timeout or removal |
| `Overlap` | serialize_overlap: no two overlapping I/Os in flight |
| `FList`, `Fifos`, `Condense` | the intrusive circular list, the wrapping byte FIFO, the run-length status printer |

A section of code under a lock, or one atomic access where there is no lock, is one
step. A run is a sequence of states from an initial one, each reached from the one
before by some enabled step, so a lemma about `run[i]` speaks about every reachable
state of every interleaving, for any number of threads, clients, jobs or slots.
Code that updates fields or arrays in place is also given as a class (or methods on
heap nodes) whose methods are proved equal to the functions the steps use. Memory is
sequentially consistent. The functions that hash names, sort, allocate memory or read
a clock are not part of the model; their results are free choices, and sorting is
"some permutation ordered by the comparator".

Results where the code does not do what one would expect:

* The comment at backend.c:2145 says that publishing the slot before the counter
  protects a concurrent reader. That holds for a reader that loads the counter first
  (`CounterFirstIsSafe`), unless a clear sets the counter back below what it has loaded,
  as clear_inflight does after a reset of the statistics; then a snapshot can miss a
  write (`SetBackMisses`, `CounterFirstCanMiss`). The reader in verify.c loads the slots first and the counter
  last. `SlotsFirstExact` shows that its snapshot is safe exactly when the job thread
  is not past its stop_io check with a write still to be logged; `MissedWrite` and
  `SnapshotCanMiss` give the runs where a write in flight is taken for completed.
* The semaphore signals only on a change from zero, so it can lose a wakeup.
  `NoLostWakeupExactly` gives the uses for which it never does: one waiter at a time,
  or a value of at most one with no timed waiter.
* `clock_cmp` returns an unsigned difference as an int. `CmpCorrectExactly`: it orders
  all sequence numbers below a bound if and only if that bound is at most 2^31.
* A job that leaves a flow between its two counter increments leaves the shared counter
  too high. `LastReleaseAssert`: the assert on the last release holds if and only if
  this never happened; `LastReleaseCanAbort` is a run where it does.
* A client that is idle but not running when an ETA round starts stays counted in that
  round. `DisplayedExactly`: the round is shown if and only if there was no such client
  and there was some client at all; `RoundCanStick` is a run with a round never shown.
* The wait loop of `run_threads` has a branch for a job that exited before it was
  started, which would leave nr_started too high. `WaitSeesNoExit`: it is never taken,
  because such a job does not raise startup_sem and the pass is aborted before.

## Model

| member | source | states |
|---|---|---|
| `FileLocks.MutualExclusion` | filelock.c:219-306 | in every reachable state, two threads that hold the lock for the same hash are the same thread |
| `FileLocks.Accounting` | filelock.c:182-306 | every active entry has a hash no other active entry has, a reference count equal to the number of threads holding, waiting for or deciding about it, never zero, and a semaphore value of one minus its holders |
| `FileLocks.Conservation` | filelock.c:72-108 | active plus free objects are exactly the objects allocated, each once, and no thread refers to a free object |
| `FileLocks.ExitAssertHolds` | filelock.c:143-164 | when no thread is at a lock object, the active list is empty and every object is back in the free list |
| `FileLocks.NobodyStranded` | filelock.c:219-269 | a waiting thread can take the lock or somebody holds it; with no free object every object has a referring thread |
| `FileLocks.LockOutcome` | filelock.c:219-243 | a lock call gets an object under its own hash if and only if the hash is active or an object is free; without one only a trylock returns, as the assert at line 235 says, and a blocking call sleeps; no other thread moves |
| `FileLocks.WakeOutcome` | filelock.c:95-105 | a sleeper goes on with its call if and only if an object has become free, otherwise nothing changes |
| `FileLocks.TrylockOutcome` | filelock.c:246-268 | a trylock takes the lock if and only if nobody holds it; a refused one gives up if and only if some other thread is at the lock |
| `FileLocks.HoldOutcome` | filelock.c:240-303 | a down makes its caller the holder, a holder can always unlock, and then it is idle |
| `FileLocks.StepInv` | filelock.c:182-306 | every locked section, sleep and retry of any thread keeps the invariant of pool and threads |
| `FileLocks.EnterInv` | filelock.c:182-216 | the look-up section keeps the invariant whether it finds, installs, runs dry or has to sleep |
| `FileLocks.WithdrawInv` | filelock.c:249-268 | a failed trylock that drops its reference leaves an entry somebody else still references |
| `FileLocks.SoleReferenceFree` | filelock.c:252-264 | a refused trylock that has the sole reference finds the file's semaphore free and can take it |
| `FileLocks.TrylockCanBlock` | filelock.c:261-265 | a run in which a third thread locks and takes the semaphore after that check, so that the trylock waits |
| `FileLocks.TakeInv` | filelock.c:239-247 | taking the file's semaphore turns a waiter into the only holder |
| `FileLocks.UnlockInv` | filelock.c:284-306 | unlocking releases the semaphore and frees the object exactly when its last reference goes |
| `FileLocks.RunInv` | filelock.c:219-306 | the invariant holds in every state of every run |
| `FileLocks.FindActive` | filelock.c:167-179 | the search by hash finds exactly the active entry that carries the hash |
| `FileLocks.ActivateKeeps` | filelock.c:210-212 | installing a free object under a hash that is not active keeps conservation and the uniqueness of hashes |
| `FileLocks.ReleaseKeeps` | filelock.c:291-301 | releasing keeps conservation and the uniqueness of hashes |
| `FileLocks.FileLockData.constructor` | filelock.c:111-140 | the pool starts with 1024 unlocked objects, all free |
| `FileLocks.FileLockData.HashFind` | filelock.c:167-179 | the loop over the active list returns the first entry with that hash, or none if there is none |
| `FileLocks.FileLockData.PopFree` | filelock.c:78-88 | takes the first free object, or nothing from an empty list |
| `FileLocks.FileLockData.PutFilelock` | filelock.c:72-75 | the object becomes the first of the free list |
| `FileLocks.FileLockData.LockSection` | filelock.c:182-232 | gets an object of that hash if and only if one is active or free, otherwise changes nothing, reporting no object only to a trylock and a drop of the lock only to a blocking call; the pool changes as in the step of the state machine |
| `FileLocks.FileLockData.RetrySection` | filelock.c:91-108 | gets an object of that hash if and only if one has become free, giving it back if another thread has installed the hash meanwhile |
| `FileLocks.FileLockData.SettleSection` | filelock.c:249-268 | a refused trylock keeps its reference if and only if it is the only one |
| `FileLocks.FileLockData.UnlockSection` | filelock.c:284-306 | the in-place unlock equals the release step |
| `InflightLogs.AbortsExactly` | backend.c:2118-2214 | in every reachable state, the only step that can abort is logging a write whose number differs from inflight_issued, and that one always does: no io_u is logged twice, because one that owns a slot still carries IO_U_F_PATTERN_DONE, and no slot is missing or foreign at completion; clears happen when no io_u carries that flag |
| `InflightLogs.AbortsUnreachable` | backend.c:2118-2214 | in a run where the number given to each write (backend.c:2498) equals inflight_issued and clears happen when no io_u carries IO_U_F_PATTERN_DONE, nothing aborts, occupied slots and io_us with an index stay one-to-one with equal numbers, and a write about to be logged always finds a slot |
| `InflightLogs.CounterFirstIsSafe` | backend.c:2140-2161 | a reader that loads the counter and then the slots, while the job goes on logging, completing and clearing any number of writes, reports every write below the counter that is still in flight when the scan ends, provided no clear sets the counter below what it has loaded |
| `InflightLogs.SetBackMisses` | backend.c:2251-2251 | from any state where a reader has loaded the counter and not yet a slot, the job is not stopped and a clear can set the counter back below what was loaded, a run whose snapshot misses the write that reuses the number |
| `InflightLogs.CounterFirstCanMiss` | backend.c:2233-2252 | from any initial state, such a run |
| `InflightLogs.ClearExactly` | backend.c:2233-2252 | a clear keeps slots and io_us in correspondence if and only if no io_u owns a slot, and completing one that did aborts |
| `InflightLogs.StepsPossible` | backend.c:2118-2214 | the indices used by logging and completing are in range in every reachable state |
| `InflightLogs.SlotsFirstExact` | verify.c:3056-3062 | for the order the code uses, all continuations give a safe snapshot if and only if no write is past the stop check, acceptable to the log and not yet logged |
| `InflightLogs.MissedWrite` | verify.c:3056-3062 | from any state with such a write, a run whose snapshot misses it |
| `InflightLogs.SnapshotCanMiss` | verify.c:3031-3062 | from any initial state, a run whose snapshot misses a write in flight |
| `InflightLogs.StepInv` | backend.c:2118-2252 | logging, publishing, completing, clearing with all writes completed, to any count, and reading keep log and io_us consistent |
| `InflightLogs.StepProtected` | backend.c:2145-2161 | slot first, counter second: a step keeps what a counter-first reader has loaded covered by its scan if and only if it is not a clear below the loaded counter |
| `InflightLogs.StepQuiet` | io_u.c:3382-3390 | once the job was asked to stop with nothing to be logged, what a slots-first reader has loaded stays covered |
| `InflightLogs.ScanCoversAll` | backend.c:2140-2161 | a circular search that finds nothing has seen every slot occupied, from any start index |
| `InflightLogs.SearchFinds` | backend.c:2140-2161 | with one free slot anywhere the circular search succeeds |
| `InflightLogs.FreeSlotExists` | backend.c:2780-2800 | with as many slots as io_us, an io_u without a slot implies a free slot |
| `InflightLogs.ClaimSucceeds` | backend.c:2118-2167 | a write numbered with the current counter passes every check and finds a slot |
| `InflightLogs.LogInflightSteps` | backend.c:2140-2158 | the two stores of the job thread, with nothing in between, are log_inflight, which reports success |
| `InflightLogs.ScanTakesFirst` | backend.c:2142-2161 | the search takes the first free slot in circular order from its start index |
| `InflightLogs.StoreKeeps` | backend.c:2151-2155 | claiming keeps the one-to-one correspondence with the number accounted for one ahead of the counter |
| `InflightLogs.InvalidateKeeps` | backend.c:2188-2214 | completing any io_u never aborts and keeps the correspondence |
| `InflightLogs.InflightLog.constructor` | backend.c:2780-2800 | iodepth empty slots, or no log when it is not enabled, and no io_u in it |
| `InflightLogs.InflightLog.LogIo` | backend.c:2118-2167 | skips if and only if logging is off or the io_u is no write; on success a free slot holds the number, the io_u knows it, the search index is behind it and the counter is the number plus one; otherwise nothing changes |
| `InflightLogs.InflightLog.InvalidateInflight` | backend.c:2188-2214 | skips if and only if logging is off, the io_u is no write or owns no slot; on success its slot, which held its number, is free and the io_u owns none; otherwise nothing changes |
| `InflightLogs.InflightLog.ClearInflight` | backend.c:2233-2252 | empties every slot and restarts the counter at the given number |
| `InflightLogs.VerifyStateShouldStop` | verify.c:3457-3487 | lets through exactly the numbers below the counter that no slot of the snapshot holds |
| `ClockTest.ClaimsInOrder` | gettime.c:749-767 | with a globally non-decreasing clock, in every interleaving the claimed numbers are exactly 0 to n-1, each once, and the samples never decrease in that order |
| `ClockTest.TestNeverReportsMismatch` | gettime.c:816-953 | for up to 2^31 samples, whatever permutation the sort returns has gap-free numbers and non-decreasing clocks, so neither a mismatch nor an equal number is found |
| `ClockTest.StepInv` | gettime.c:749-767 | loads, samples and won or lost swaps of any thread keep samples, numbers and clocks consistent |
| `ClockTest.SwapExactly` | gettime.c:749-767 | a swap succeeds if and only if nobody claimed a number since it was loaded, and then records that number with the thread's own sample; otherwise the thread starts over |
| `ClockTest.LoadExactly` | gettime.c:753-758 | a load sees the next number to be claimed, or that none is left |
| `ClockTest.OneSample` | gettime.c:749-767 | a finished run of one thread, at any clock value |
| `ClockTest.CmpCorrectExactly` | gettime.c:794-803 | the comparator orders all numbers below a bound if and only if the bound is at most 2^31 |
| `ClockTest.SortRestoresOrder` | gettime.c:911-912 | sorting the claims by that comparator gives back the order in which they were claimed |
| `ClockTest.CountMismatches` | gettime.c:914-942 | the scan counts zero if and only if neighbours never decrease, and stops at one without debug |
| `ClockTest.Verdict` | gettime.c:782-952 | the test passes if and only if no thread with two samples or more has zero in its first and its last, and the sorted clocks never decrease |
| `ClockTest.TestRun` | gettime.c:782-953 | on a finished run of a non-decreasing clock the test fails if and only if some thread with two samples or more has zero in its first and its last |
| `CpuClock.Calibrate` | gettime.c:393-442 | the halving and masking loops give the floor logarithms, clock_mult the floor within its cap, max_cycles_shift the floor logarithm of max_ticks, the mask 2^max_cycles_shift - 1, and each of the three products on the way fits 64 bits |
| `CpuClock.ProductsFit` | gettime.c:393-442 | every product of the calibration fits 64 bits for every frequency in range, every shift the search may settle on and every block within the hour |
| `CpuClock.SearchStart` | gettime.c:393-404 | the cap on the multiplier is attained within 64 bits and leaves room for at least one nanosecond per millisecond's ticks |
| `CpuClock.MultWithinCap` | gettime.c:404-412 | any shift the search settles on gives a multiplier within the cap |
| `CpuClock.RemainderProductFits` | gettime.c:259-259 | the masked ticks times the multiplier fit 64 bits for any tick count |
| `CpuClock.ConversionBounds` | gettime.c:256-259 | the split conversion never exceeds ticks * mult / 2^shift and lags it by less than the number of whole blocks plus one |
| `CpuClock.TickStep` | gettime.c:256-259 | one more tick adds between zero and ceil(mult / 2^shift), also across a block boundary |
| `CpuClock.ConversionMonotone` | gettime.c:256-259 | more ticks never give fewer nanoseconds |
| `CpuClock.NeverFast` | gettime.c:256-259 | with calibrated parameters the clock never runs ahead of the measured frequency |
| `CpuClock.NeverSlow` | gettime.c:256-259 | nor behind it by more than a nanosecond per whole block, one for the rest, and ticks / 2^shift for the rounded multiplier |
| `CpuClock.NoWrap` | gettime.c:257-259 | the 64-bit sum does not wrap as long as the exact result fits |
| `CpuClock.GetTime` | gettime.c:242-263 | seconds and nanoseconds of the converted tick difference, with 64-bit wrap-around and nanoseconds below 10^9 |
| `Bits.FloorLog2` | gettime.c:404-429 | the halving loop computes the floor of the binary logarithm |
| `Bits.LowMask` | gettime.c:441-442 | or-ing one bit after another builds 2^k - 1 |
| `Bits.AndMask` | gettime.c:259-259 | and-ing with that mask is the remainder by 2^k |
| `Semaphores.RunCounted` | fio_sem.c:125-225 | in every run the value is the initial value plus ups minus successful downs, of all three kinds, and waiters counts the threads inside a wait |
| `Semaphores.LeavePossible` | fio_sem.c:153-203 | a thread leaving a wait never decrements a zero waiters count |
| `Semaphores.AcquireExactly` | fio_sem.c:125-207 | in every reachable state a down, a trylock or a woken waiter acquires if and only if the value is positive; otherwise a trylock changes nothing and the others sleep |
| `Semaphores.StepSingle` | fio_sem.c:125-225 | with at most one waiter no step loses a wakeup, timeouts and spurious wakeups included |
| `Semaphores.StepBinary` | fio_sem.c:176-225 | with the value at most one and no deadline no step loses a wakeup, for any number of waiters |
| `Semaphores.RunKeepsWakeup` | fio_sem.c:125-225 | in a safe use, a positive value with a sleeper always comes with a woken thread on its way |
| `Semaphores.CountingLoses` | fio_sem.c:210-225 | two ups with two sleepers signal once: a run that loses a wakeup |
| `Semaphores.TimeoutLoses` | fio_sem.c:125-173 | a signalled timed waiter that reports its deadline swallows the signal: a run that loses a wakeup |
| `Semaphores.NoLostWakeupExactly` | fio_sem.c:125-225 | no run of a use loses a wakeup if and only if it has a single waiter, or a binary value and no timed waiter |
| `Semaphores.FioSem.constructor` | fio_sem.c:72-87 | the given value and no waiters |
| `Semaphores.FioSem.UpSection` | fio_sem.c:210-225 | adds one and signals exactly when the value was zero with a waiter |
| `Semaphores.FioSem.DownTrylock` | fio_sem.c:176-190 | fails if and only if the value is zero, and then changes nothing; otherwise takes one |
| `Semaphores.FioSem.DownSection` | fio_sem.c:193-207 | takes one or becomes a waiter |
| `Semaphores.FioSem.TimeoutSection` | fio_sem.c:125-173 | one round of the timed wait: acquired, waiting again, or expired without touching the value |
| `FlowControl.RunConserved` | flow.c:47-178 | across joins, grants and leaves in any interleaving, the shared counter is one plus the members' grants plus what early leavers left behind, total_weight the sum of the weights added, refs the number of members |
| `FlowControl.LastReleaseAssert` | flow.c:138-156 | the assert on the last release holds if and only if no member ever left between its two increments |
| `FlowControl.LastReleaseCanAbort` | flow.c:86-152 | a run of one job, stopped between the two increments, in which the assert fails |
| `FlowControl.SomebodyPasses` | flow.c:56-73 | whenever some weight is registered, some member is below its threshold |
| `FlowControl.ExceedsIsRatio` | flow.c:56-69 | the test is that the job's share of the grants is greater than its share of the weight, as ratios |
| `FlowControl.ProportionalShare` | flow.c:47-89 | with n fixed members of total weight W, after N grants a member of weight w has at least w*N/W - (n-1) and at most w*N/W + 1 of them |
| `FlowControl.RunShare` | flow.c:47-89 | the upper bound is kept by every interleaving of loads, decisions and increments |
| `FlowControl.ExitEnabled` | flow.c:138-178 | the subtractions of a leaving member never go below zero |
| `FlowControl.FlowList.Get` | flow.c:95-133 | returns the flow with that id, creating it with counter 1 only if there is none, adds one reference and changes no other flow |
| `FlowControl.FlowList.Put` | flow.c:138-156 | takes back the member's count, weight and reference; the flow leaves the list with its last reference and the result says whether the assert held |
| `FlowControl.JobFlow.ThresholdExceeded` | flow.c:47-89 | refuses if and only if the ratio of the job's count to the shared one exceeds the ratio of its weight to the total, else counts one grant in both counters |
| `FlowControl.JobFlow.InitJob` | flow.c:162-169 | joins the flow with a zero count and adds its weight |
| `FlowControl.JobFlow.ExitJob` | flow.c:172-178 | leaves the flow once, and does nothing without one |
| `Scheduler.StonewallCreation` | backend.c:4805-4837 | when a stonewall job is about to be created, every job ever created is reaped |
| `Scheduler.StonewallFence` | backend.c:4805-4938 | in every state, all jobs created before a created stonewall job are reaped |
| `Scheduler.ReapsOnlyTheDead` | backend.c:4229-4304 | no step makes a job TD_REAPED that is short of TD_EXITED and alive |
| `Scheduler.ReapedHadDeparted` | backend.c:4202-4319 | a created job that is TD_REAPED had exited or died in an earlier state of the run |
| `Scheduler.StonewallAfterExit` | backend.c:4831-4836 | when a stonewall job is about to be created, every job created before has exited or died |
| `Scheduler.CreateExactly` | backend.c:4805-4843 | the create loop can take a job if and only if it is not created, all waitees of another name have exited and, for a stonewall job, all created jobs are reaped |
| `Scheduler.CreateLoopEnds` | backend.c:4831-4936 | a waiting stonewall job, a failed creation and a hung one end the loop; only the last aborts and takes one off nr_started again |
| `Scheduler.CompleteRun` | backend.c:4805-5022 | a run in which a job is created, initialized, started, exits and is reaped, with both counters back at zero |
| `Scheduler.WaitForFence` | backend.c:4562-4586 | a created job with wait_for implies that all its waitees, apart from its own namesakes, have exited |
| `Scheduler.StartTogether` | backend.c:3648-3652 | a job past td->sem implies that every job of its batch was initialized and raised startup_sem |
| `Scheduler.CountersExact` | backend.c:4805-5022 | until creation fails, nr_started is the number of jobs created and neither released through td->sem nor reaped, nr_running the number of jobs released and not reaped |
| `Scheduler.AccountsMean` | backend.c:4805-5022 | the same two numbers are what the scheduler's bookkeeping of a job stands for, in every state of the invariant |
| `Scheduler.WaitSeesNoExit` | backend.c:4953-4977 | the wait loop only ever settles initialized jobs; its branch for exited ones is dead |
| `Scheduler.StepInv` | backend.c:4669-5035 | every iteration of every scheduler loop and every step of a job keeps the invariant |
| `Scheduler.CreateInv` | backend.c:4805-4921 | creating a job, or failing to, keeps fences, counters and handshake |
| `Scheduler.StartInv` | backend.c:5000-5018 | releasing a job keeps them: its whole batch is ready |
| `Scheduler.ReapInv` | backend.c:4202-4319 | reaping keeps them and takes exactly one from nr_running |
| `Scheduler.AllReaped` | backend.c:4831-4836 | with both counters at zero every created job is reaped |
| `Scheduler.WaiteeRunningScan` | backend.c:4562-4586 | true if and only if some job has the awaited name, not the waiter's own, and is neither TD_EXITED nor TD_REAPED |
| `Scheduler.ReapPassExact` | backend.c:4202-4319 | one reap pass reaps exactly the reapable jobs, changes no other, and takes the number of reapable jobs off nr_running |
| `Scheduler.StartPassExact` | backend.c:5000-5018 | one start pass releases exactly the initialized jobs and brings nr_started to zero |
| `Scheduler.Backend.ReapThreads` | backend.c:4202-4319 | the loop in place makes TD_REAPED exactly the created jobs with a pid that are TD_EXITED or dead, changes no other, and equals the reap pass |
| `Scheduler.Backend.StartThreads` | backend.c:5000-5018 | the loop in place starts exactly the initialized jobs, in TD_RAMP or TD_RUNNING, changes no other, and equals the start pass |
| `EtaRounds.PendingAccounted` | client.c:2159-2229 | over any order of requests, replies, timeouts and removals no assert fails, a live round's pending count is the clients whose request points at it plus those not running at request time, and a freed round is referenced by nobody |
| `EtaRounds.DisplayedExactly` | client.c:322-331 | a round is shown at most once, never while a client is in flight for it, and, when all have settled, if and only if it counted a client and none that was idle and not running |
| `EtaRounds.RoundCanStick` | client.c:2172-2182 | a run in which a round with one connected, not running client has nobody left to settle it and is not shown |
| `EtaRounds.LateReplyIgnored` | client.c:1450-1473 | once a request was settled by its reply, its timeout or the removal of its client, a reply or timeout for it changes nothing in any later state, after any other requests, removals and reconnects |
| `EtaRounds.RequestTracks` | client.c:2174-2189 | every idle running client is asked and expects its reply if and only if the request could be sent; nobody else is touched |
| `EtaRounds.ReplySettles` | client.c:1501-1519 | a tracked reply, or its timeout, takes exactly that client out of its round |
| `EtaRounds.RemoveSettles` | client.c:354-380 | a removed client is gone, from its round too |
| `EtaRounds.RoundCompletes` | client.c:2159-2197 | a round started while every client was running, with all requests sent, is displayed once all clients asked have replied, in any order |
| `EtaRounds.CrashesExactly` | client.c:1508-1508 | which replies, timeouts, removals and requests would fail an assert or use a round that is gone |
| `EtaRounds.RunSpent` | client.c:1450-1473 | a tag that no longer expects a reply never expects one again in the run |
| `EtaRounds.StepInv` | client.c:2159-2229 | every handler keeps the invariant of rounds and clients |
| `EtaRounds.SettleOne` | client.c:322-331 | settling one in-flight client decrements its own round once and frees it only when nobody refers to it |
| `EtaRounds.ReplyInv` | client.c:1501-1519 | replies and timeouts keep the invariant, with known and unknown tags |
| `EtaRounds.RemoveInv` | client.c:354-380 | removing a client keeps the invariant whether or not it is in flight |
| `EtaRounds.RequestInv` | client.c:2159-2197 | starting a round keeps the invariant of all rounds |
| `EtaRounds.SettleMany` | client.c:2191-2194 | discounting the busy clients shows and frees the round exactly when nothing is left, and stops there |
| `EtaRounds.AskedEverybody` | client.c:2172-2189 | the loop over the client list asks every idle running client once and counts every busy one |
| `EtaRounds.AskIdle` | client.c:2174-2189 | the loop computes that, and stops at the assert if and only if some running, not listed client still points at a round |
| `EtaRounds.EtaClient.Dec` | client.c:322-331 | decrements, and at zero shows and frees the round |
| `EtaRounds.EtaClient.Reply` | client.c:2039-2047 | the handler equals the reply step |
| `EtaRounds.EtaClient.CmdTimeout` | client.c:2203-2229 | the handler equals the timeout step |
| `EtaRounds.EtaClient.Remove` | client.c:354-380 | the handler equals the removal step |
| `EtaRounds.EtaClient.Discount` | client.c:2191-2194 | the loop equals settling that many clients, stopping when the round is freed |
| `EtaRounds.EtaClient.Request` | client.c:2159-2197 | the handler equals the request step, its failed assert included |
| `Overlap.InFlightDisjoint` | backend.c:1424-1500 | over every run of get, submit, complete, requeue and put, no byte is covered by two I/Os in flight |
| `Overlap.ShortcutSound` | backend.c:1481-1500 | an io_u let through does not overlap any in flight, also when the depth test skipped the scan |
| `Overlap.SubmitExact` | backend.c:1481-1500 | an io_u is held back if and only if it shares a byte with one in flight or one of the two is empty strictly inside the other |
| `Overlap.SubmitOutcome` | backend.c:1481-1500 | a submitted io_u becomes in flight if and only if it meets none in flight and the engine takes it; nothing else changes |
| `Overlap.GetOutcome` | io_u.c:3382-3469 | an io_u obtained carries its range, is not in flight and counts in cur_depth |
| `Overlap.ReturnOutcome` | io_u.c:1999-2043 | completion ends the flight; a requeued io_u continues behind what was done and, like one put back, no longer counts |
| `Overlap.OverlapsExactly` | backend.c:1424-1454 | the two comparisons mean exactly that |
| `Overlap.InFlightOverlap` | backend.c:1424-1454 | the scan that stops at the first hit reports whether any in-flight range overlaps |
| `Overlap.StepInv` | backend.c:1424-1500 | every step keeps the in-flight ranges disjoint and cur_depth the number of io_us taken |
| `Overlap.ReturnPossible` | io_u.c:1999-2043 | requeueing or putting back a taken io_u never decrements a zero cur_depth |
| `FList.Node.constructor` | flist.h:68-70 | a node linked to itself is the empty ring |
| `FList.Init` | flist.h:68-70 | any node becomes the empty ring |
| `FList.Empty` | flist.h:156-159 | true exactly for a ring with no entries |
| `FList.AddBetween` | flist.h:79-87 | inserts the node at that place of the ring and changes no other node |
| `FList.Add` | flist.h:98-102 | the node becomes the first entry |
| `FList.AddTail` | flist.h:105-109 | the node becomes the last entry |
| `FList.DelBetween` | flist.h:119-124 | the ring without that entry |
| `FList.Del` | flist.h:133-138 | the ring without that entry, whose own links are cleared |
| `FList.DelInit` | flist.h:145-149 | the ring without that entry, which becomes an empty ring |
| `FList.DelInitAgain` | flist.h:145-149 | deleting an entry that is in no list leaves it an empty ring |
| `FList.SpliceBetween` | flist.h:162-174 | the entries of one ring are inserted in order at that place of another |
| `FList.Splice` | flist.h:177-182 | the entries of one list, in order, come before those of the other; nothing happens for an empty one |
| `FList.SpliceTail` | flist.h:185-190 | the entries of one list, in order, come after those of the other |
| `FList.SpliceInit` | flist.h:203-210 | as Splice, and the source list is empty afterwards |
| `FList.SpliceTailInit` | flist.h:193-200 | as SpliceTail, and the source list is empty afterwards |
| `FList.Entries` | flist.h:236-237 | the walk visits exactly the entries, in order, and ends |
| `FList.RingUnique` | flist.h:79-210 | the links determine the sequence: any two rings with the same head are the same |
| `Fifos.PerformOps` | fifo.c:69-126 | after any run of puts and gets on the buffer, as its indices wrap and its copies split, the bytes accepted are the bytes delivered followed by the bytes stored, and all three are those of an ideal byte queue |
| `Fifos.TwoPartPut` | fifo.c:75-82 | copying in two parts around the end of the buffer appends to the queue |
| `Fifos.TwoPartGet` | fifo.c:105-117 | copying out in two parts gives the oldest bytes and leaves the rest |
| `Fifos.GetRefines` | fifo.c:98-126 | the masked and wrapped index arithmetic of a get is a queue removal |
| `Fifos.Indices` | fifo.h:44-53 | length plus room is the size, and the masked indices mark the ends of the stored bytes, with 32-bit wrap-around |
| `Fifos.Fifo.constructor` | fifo.c:44-57 | an empty queue of the given power-of-two size |
| `Fifos.Fifo.Put` | fifo.c:69-92 | appends a prefix of the data, all of it unless the queue is then full, and returns its length |
| `Fifos.Fifo.Get` | fifo.c:98-126 | removes the oldest bytes, as many as asked unless the queue is then empty, returns them if a buffer is given, and resets the indices of an empty queue |
| `Condense.UpdateCondensedStr` | eta.c:60-76 | the output decodes to groups that expand to the input, neighbours differ, it ends without a comma and has at most five characters for one |
| `Condense.DecodeRender` | eta.c:60-76 | decoding what was rendered gives the groups back |
| `Condense.RenderInjective` | eta.c:60-76 | different groups never print the same |
| `Condense.FitsBuffer` | eta.c:51-52 | what is written, with its last comma, is at most five characters for each letter |
| `Condense.Example` | eta.c:57-57 | the form of the output: R(3),W(1),R(12) |
| `Condense.ParseDecimal` | eta.c:71-71 | a printed count reads back as itself before any non-digit |

## Left out

- Forced reap of a job that appears stuck (backend.c:4286-4296), and the final loop's counter after a failed creation: the fences do not hold across them by design.
- Exact accounting of todo in run_threads: a terminated job that was never created is taken off on every pass.
- The create loop and the wait loop of run_threads are steps of a state machine and not loops in place: they block on semaphores and clocks while jobs run in between.
- Locks released by a thread that does not hold them: filelock.c does not check, and the counts are then meaningless.
- InflightLogs.AbortsUnreachable: that the job's own count of issued writes, which numbers them (backend.c:2498), equals inflight_issued is a hypothesis on the run; the requeue paths that count down and up again (io_u.c:2020, ioengines.c:828-850) are not modelled. That every write has completed when the log is cleared is a hypothesis too (ClearExactly says what happens otherwise), and a job logs fewer than 2^64 - 1 writes.
- FlowControl.Exceeds: the two double ratios are compared by exact cross-multiplication, so rounding of doubles is not captured; sleeping and quiescing while over the threshold are left out.
- FlowControl.FlowList.Get: allocation failure and the case without flow_lock are not modelled.
- FlowControl.JobFlow.ThresholdExceeded: as one call without interference; the interleavings of its load, test and two increments are in the state machine.
- CpuClock.Calibrate: takes cycles_per_msec as measured, at least 1 and with an hour of ticks within 64 bits; the averaging and trimming of samples are floating point and left out.
- CpuClock.GetTime: the branches for clocks that wrap or have a fixed rate, chosen at compile time, are left out.
- ClockTest.TestNeverReportsMismatch: thread creation, CPU binding and allocation failures are left out, and so is a run that uses up 2^32 - 1 numbers.
- EtaRounds: reply tags are fresh identifiers and never reused addresses; summing the numbers of a reply, and giving up after five timeouts, are left out.
- Overlap: offsets and lengths are unbounded and the file of an I/O is not looked at, as in the scan; the lock around offloaded submission is left out.
- Weak memory effects beyond the order of accesses written in the code.
- The status letters of check_str_update (eta.c:91-178): the printer is proved for every string without a zero byte, which includes them.
- Everything around these cores: option parsing, I/O engines, file set-up, statistics, networking, graphics.

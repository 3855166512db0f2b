# A verified model of fio's core

fio runs jobs (threads or processes) that issue I/O.  This project models the parts of it whose
correctness depends on interleavings, wrap-around arithmetic or bookkeeping across many functions,
and proves what they keep over every run.  `dafny verify dfyconfig.toml` checks it all.

| file | models |
|---|---|
| `FileLock.dfy` | named file locks: a table of 1024 slots, reference counts, one semaphore per slot, threads interleaved at every shared access |
| `Semaphore.dfy` | the process-shared semaphore, with spurious wakeups, timeouts that swallow a signal, and barging threads |
| `SlotSemaphores.dfy`, `TableSemaphore.dfy` | the file locks with that semaphore in every slot, and around the table |
| `Flow.dfy` | flow control between jobs: shared atomic counter, total weight, private counters |
| `Scheduler.dfy` | the main thread's passes (create, wait, start, reap) and stonewall jobs |
| `IoUnits.dfy`, `IoThread.dfy` | the life of I/O units in a job thread: values and theorems, and the object that updates them in place |
| `IoBooks.dfy`, `IoLog.dfy` | what the thread counts, `io_issues` and `io_bytes`, the pieces a transfer is moved in, and all of it read off the acts of a run |
| `IoUQueue.dfy`, `Fifo.dfy` | the free stack, the requeue ring and the byte FIFO, with 32-bit counters |
| `EtaRounds.dfy` | the front end's status rounds over its clients |
| `Clock.dfy` | calibration of the CPU clock, the split conversion to nanoseconds, time differences |
| `FList.dfy` | the intrusive circular list, on the heap |
| `FileHash.dfy`, `Bloom.dfy` | the table of open files and the filtered list of allocated names |
| `StatusString.dfy`, `Dedupe.dfy` | the run-length status line, the dedupe working set |
| `Bits.dfy`, `Sums.dfy`, `Common.dfy` | `&`, `\|`, powers of two; sums over jobs; options, words and flags |

Concurrent code is a state machine whose steps are the accesses other threads can see; a run is any
sequence of such steps from the initial state, and the theorems quantify over all runs and all
positions in them.  Code that updates objects or arrays step by step is a class or a method with
loops, tied to a function of the old state.

## Where the code does less than one would expect

For each there is a lemma with a concrete run or input, and one with the condition under which the
expected property does hold.

- `fio_sem_up` signals only at value zero, so two ups in a row can leave a sleeper behind
  (`Semaphore.LostWakeup`), and the signal may be swallowed by a timed waiter that gives up
  (`Semaphore.LostToTimeout`).  Raising only at values up to a limit, with or without timed waiters in
  company, is safe if and only if the limit is zero and timed waiters wait alone
  (`Semaphore.SafeExactlyInBinaryUse`); with ups at zero alone, a run loses a wakeup if and only if it
  has a step in which the only woken thread times out over a sleeper (`Semaphore.LosesNothingIff`).
  The file locks keep to the rule (`SlotSemaphores.Projection`, `TableSemaphore.Projection`).
- The assertion at the last `flow_put` fails if and only if a member died between the atomic add and
  its own increment (`Flow.LastPutAssertInRun`, `Flow.KilledMember`).
- While a leaver has given back its admissions but not yet its weight, every remaining member can be
  held back (`Flow.StalledByLeaver`).  Some member passes as long as the members' admissions times the
  leavers' weight are within the members' own weight (`Flow.SomeMemberPassesIf`), so always without a
  leaver (`Flow.SomeMemberPasses`); with one member left that is exact (`Flow.OnlyMemberPassesIff`).
- `run_threads` takes one off `todo` on every pass over a job terminated before its creation, so the
  passes can end with another job never created (`Scheduler.JobForgotten`).  None is forgotten if and
  only if `todo` was lowered once for each terminated job over all passes together
  (`Scheduler.NoneForgottenIff`), in particular if no such job is passed over twice
  (`Scheduler.NoneForgottenIfOnce`).
- After a startup that hangs, the last loop of `run_threads` can end with a created job not reaped,
  because the job was never in `nr_running` (`Scheduler.LeftUnreaped`); after the regular end of the
  passes it ends exactly when every job created has been reaped (`Scheduler.DrainEndsIff`).
- `io_u_rpush` compares an unmasked index, so a full ring with its tail at 0 is silently emptied
  (`IoUQueue.FullRingEmptied`, `IoUQueue.Ring.Push`); a job never gets there (`IoUnits.PushesFit`).
- Of a transfer completed in several pieces only the last piece enters `io_bytes`, and none of one
  that a synchronous engine ends at the end of the file (`IoBooks.ShortTransferLosesBytes`); the
  counter is exact if and only if every transfer went in one credited piece (`IoBooks.BytesExactIff`).
- A unit of the verify list that is refused, or comes back short at once, lowers `io_issues` although
  it never raised it (`IoBooks.RefusalLowersIssues`); the counter is exact if and only if that never
  happened (`IoBooks.IssuesExactInRun`).
- `utime_since` divides before it borrows and is then one microsecond too large
  (`Clock.MicrosecondTooMany`, `Clock.MicrosecondsExactWhen`).
- A status round requested while some client is neither running nor still busy with an older round
  never prints (`EtaRounds.NeverFires`, `EtaRounds.FiresExactlyWhen`).

## Model

| member | source | states |
|---|---|---|
| `FileLock.StepInv` | fio/filelock.c:119-246 | every step of any thread keeps: each slot is on exactly one list, active hashes are distinct, a slot's reference count is the number of threads referring to it, and its semaphore is one minus the number of holders |
| `FileLock.RunInv` | fio/filelock.c:70-246 | that invariant holds in every state of every run from the initial table |
| `FileLock.MutualExclusion` | fio/filelock.c:168-246 | two threads never hold the lock for one hash at the same time, however lookups, retries for a free slot, trylocks and unlocks interleave |
| `FileLock.SlotsAccounted` | fio/filelock.c:35-68 | a slot is free exactly when it is not active; free slots are unreferenced with an open semaphore; with the table lock free every active slot is referenced; no two active slots share a hash |
| `FileLock.UnlockFindsOwnSlot` | fio/filelock.c:225-246 | an unlock by a holder finds the slot it locked, and raises a semaphore that is at zero |
| `FileLock.ExitAssertHolds` | fio/filelock.c:98-117 | when all callers are done the active list is empty, so the assertion at exit holds |
| `FileLock.SomebodyCanStep` | fio/filelock.c:133-246 | while a lock, trylock or unlock call is under way some such call can take a step, unless the caller waits for a slot that somebody holds |
| `FileLock.CallsEndRight` | fio/filelock.c:168-246 | in any run a plain lock call goes on until it holds the hash it asked for, a trylock until it holds it or has failed, an unlock until it is done, and no step moves another thread |
| `FileLock.TakesIffUnlocked` | fio/filelock.c:186-192 | with a reference in hand a thread takes the lock if and only if nobody has it; a trylock that cannot goes on to the race check |
| `FileLock.TryFailsIff` | fio/filelock.c:194-212 | the race check fails if and only if another thread refers to the slot, so a trylock on a held lock returns at once |
| `FileLock.SlotFoundIff` | fio/filelock.c:52-68 | looking for a slot ends a trylock, and makes a plain call wait, if and only if no slot is free; otherwise the call gets a slot of its hash |
| `SlotSemaphores.RunInv` | fio/filelock.c:168-246 | with real semaphores in the slots, the table's invariant holds in every run and whoever is inside a slot's semaphore waits for that slot |
| `SlotSemaphores.Projection` | fio/filelock.c:225-246 | what the threads do to one slot's semaphore in any run is a run of the semaphore in binary use without timed waiters |
| `SlotSemaphores.NoLockerForgotten` | fio/fio_sem.c:149-180 | whenever a locker sleeps on a slot whose semaphore is open, a woken thread can take the lock |
| `SlotSemaphores.LocksStaySafe` | fio/filelock.c:35-38 | mutual exclusion carries over, and a slot on the free list has nobody asleep on it and an open semaphore |
| `SlotSemaphores.StepsAreRealised` | fio/filelock.c:186-208 | whatever a thread can do with abstract semaphores it can do with real ones, unless it is asleep |
| `SlotSemaphores.BlockedSleeps` | fio/fio_sem.c:149-163 | and a thread that finds its slot taken goes to sleep on it |
| `TableSemaphore.Projection` | fio/filelock.c:168-246 | with a real semaphore around the table, what the threads do to it in any run is a run of the semaphore in binary use, and the table's invariant holds |
| `TableSemaphore.NoCallerForgotten` | fio/filelock.c:175-245 | the table lock is open exactly while nobody owns the table, and when it is open over a sleeper a woken thread can take it |
| `TableSemaphore.StepsAreRealised` | fio/filelock.c:175-245 | whatever a thread can do with abstract ownership of the table it can do with the semaphore, unless it is asleep |
| `TableSemaphore.BlockedSleeps` | fio/fio_sem.c:149-163 | and a thread that finds the table owned goes to sleep on it |
| `Semaphore.RunAccounted` | fio/fio_sem.c:86-180 | in every run the waiter count is the number of sleeping, woken and expired threads, and value plus successful downs is the initial value plus ups |
| `Semaphore.ValueFromActions` | fio/fio_sem.c:86-180 | over any run the value is the initial one plus the ups called less the tries that found it open |
| `Semaphore.StepThread` | fio/fio_sem.c:86-180 | a down returns at once if and only if the semaphore is open and sleeps otherwise, a trylock always returns, a late timeout leaves, an up at zero wakes a sleeper |
| `Semaphore.BinaryUseLosesNothing` | fio/fio_sem.c:86-180 | if ups happen only at value zero and timed waiters wait alone, the semaphore is never open over a sleeper with no woken thread on its way, signals swallowed by timeouts included |
| `Semaphore.BinaryUseProgress` | fio/fio_sem.c:86-180 | under the same rule, whenever it is open over a sleeper some woken thread can complete its down |
| `Semaphore.LosesNothingIff` | fio/fio_sem.c:112-121 | a run with ups at zero, timed waiters in any company, loses no wakeup if and only if in no step the only woken thread times out while another sleeps under an open semaphore |
| `Semaphore.LostWakeup` | fio/fio_sem.c:165-180 | a run in which the second up does not signal and a sleeper stays behind an open semaphore |
| `Semaphore.LostToTimeout` | fio/fio_sem.c:112-121 | a run in which the one signal goes to a timed waiter that times out nevertheless, and the other sleeper stays behind |
| `Semaphore.SafeExactlyInBinaryUse` | fio/fio_sem.c:86-180 | the rule "up only at values up to a limit, timed waiters in company or not" rules out lost wakeups in all runs if and only if the limit is zero and timed waiters wait alone |
| `Flow.StepInv` | fio/flow.c:17-130 | every access of every job keeps the flow objects' books balanced and their ids distinct |
| `Flow.TestDecides` | fio/flow.c:29-45 | in any run the test lets a job go on if and only if its admissions over the counter it has seen are at most its weight over the total weight, as fractions |
| `Flow.Conservation` | fio/flow.c:57-130 | in every run a flow's counter is one plus its members' admissions plus those of members that died half-way, its weight is the members' weight, its reference count their number, and no member refers to a freed flow |
| `Flow.LastPutAssert` | fio/flow.c:95-113 | the assertion at the last put holds if and only if no member died between the atomic add and its own increment |
| `Flow.LastPutAssertInRun` | fio/flow.c:95-113 | said of the run: the assertion holds if and only if in the life of the object no step took a member out between lines 51 and 52 |
| `Flow.KilledMember` | fio/flow.c:51-52 | a run in which the last put finds the counter at 2 |
| `Flow.SomeMemberPasses` | fio/flow.c:17-55 | outside the window between the two subtractions of a leaver, some member's share of the admissions is within its share of the weight |
| `Flow.GroupAdvances` | fio/flow.c:17-55 | so the group never stalls: when its members are all about to look and no leaver is in that window, one of them can look, be let through and raise the counter |
| `Flow.SomeMemberPassesIf` | fio/flow.c:17-55 | inside the window too: some member passes as long as the members' admissions times the leavers' remaining weight are at most the members' own weight, times one more than the members lost half-way |
| `Flow.OnlyMemberPassesIff` | fio/flow.c:17-55 | with one member left, the member passes if and only if that bound holds |
| `Flow.StalledByLeaver` | fio/flow.c:95-113 | a run in which, inside that window, the only member left is held back |
| `Flow.ProportionalShare` | fio/flow.c:17-55 | while a flow keeps its n members, of total weight W, and whatever other flows do: after S admissions a job of weight w has had at most wS/W + 1 and at least wS/W - (n - 1), in every interleaving |
| `Scheduler.MainStepInv` | fio/backend.c:2376-2646 | every step of the main thread keeps both counters and `todo` exact for the jobs' states, until it stops creating jobs |
| `Scheduler.JobStepInv` | fio/backend.c:2376-2646 | so does every step a job takes by itself at any moment |
| `Scheduler.MarksInv` | fio/libfio.c:248-283 | so does any termination of any jobs at any moment |
| `Scheduler.RunInv` | fio/backend.c:2123-2230 | as long as main may still create jobs, and does not wait for one whose thread could not be created, the counters are exact in every state of every run |
| `Scheduler.GateExact` | fio/backend.c:2476-2500 | the gate of stonewall jobs is closed if and only if some created job is not reaped |
| `Scheduler.CreatedExactlyWhen` | fio/backend.c:2476-2519 | the job main looks at becomes created if and only if it is not created, not terminated, not delayed, not fenced, and, if it is a stonewall job, every job created before has been reaped |
| `Scheduler.StonewallStops` | fio/backend.c:2496-2500 | a stonewall job whose turn has come, with an earlier job not reaped, ends the creating for that pass |
| `Scheduler.StonewallBarrier` | fio/backend.c:2467-2505 | when a stonewall job becomes created, every job created before it has been reaped |
| `Scheduler.NoneExitsEarly` | fio/backend.c:2579-2599 | while main waits for the jobs it created, each is initialised or could not be created: the branch for a job that has exited already is dead |
| `Scheduler.AllStarted` | fio/backend.c:2616-2630 | when main comes to reaping, every job created and not reaped has been started and is counted as running |
| `Scheduler.RunDrains` | fio/backend.c:2638-2641 | after the regular end of the passes `nr_running` stays exact: it counts the jobs created and not reaped |
| `Scheduler.DrainEndsIff` | fio/backend.c:2638-2641 | so the last loop ends exactly when every job created has been reaped |
| `Scheduler.LeftUnreaped` | fio/backend.c:2562-2569 | a run in which a hung startup lets that loop end with a created job not reaped |
| `Scheduler.PassesEndWhen` | fio/backend.c:2467-2636 | what is owed at the end of a pass is the jobs not created, and the passes end exactly when their number equals the decrements for terminated ones, modulo 2^32 |
| `Scheduler.NoneForgottenIff` | fio/backend.c:2476-2487 | when the passes end, every job not created was terminated if and only if the decrements for terminated jobs, over all passes, number as many as those jobs |
| `Scheduler.NoneForgottenIfOnce` | fio/backend.c:2476-2487 | so no job is forgotten when no terminated job is passed over twice |
| `Scheduler.JobForgotten` | fio/backend.c:2484-2494 | a run of three jobs in which a running job terminates its group, two passes count the delayed member off, and a delayed job of another group is never created |
| `IoUnits.GetInv` | fio/io_u.c:1692-1746 | handing out a unit, from the ring or the stack, keeps every unit in exactly one place and the counts exact |
| `IoUnits.SubmitInv` | fio/backend.c:594-605 | so does a submission, whatever the overlap check and the engine answer |
| `IoUnits.ReapInv` | fio/io_u.c:2093-2201 | so does a reaped completion, full, short or failed |
| `IoUnits.RunInv` | fio/backend.c:444-533 | the invariant holds in every run of gets, puts, submissions, commits and reaped events |
| `IoUnits.OverlapSerialised` | fio/backend.c:566-605 | with serialize_overlap no two units in flight share a byte in any reachable state, resubmitted short transfers and the shortcut at depth one included |
| `IoUnits.SubmittedIff` | fio/backend.c:594-605 | in any run a unit the engine would queue goes in flight if and only if overlaps are not serialised or no unit in flight has a byte in common with it; otherwise it waits at the end of the ring |
| `IoUnits.HandsOut` | fio/io_u.c:1692-1746 | a requeued unit comes back oldest first with its transfer as it was left, a fresh one is set up for the range asked for |
| `IoUnits.QueuedBelowBatch` | fio/ioengines.c:441-449 | commits keep the queued units below a batch and leave none queued |
| `IoUnits.OutstandingExact` | fio/ioengines.c:284-470 | queued plus in-flight is the number of units the engine holds, at most the current depth, at most the number of units |
| `IoUnits.PushesFit` | fio/io_u_queue.h:30-70 | a unit handed out can always be given back or requeued: neither push can overflow |
| `IoBooks.RunIssues` | fio/ioengines.c:380-398 | every step of every run keeps `io_issues` equal to counted units in flight plus completions less uncounted decrements |
| `IoBooks.IssuesExact` | fio/ioengines.c:380-398 | so `io_issues` is in flight plus completed if and only if no unit of the verify list was ever refused or short at once |
| `IoBooks.IssuesExactInRun` | fio/ioengines.c:380-398 | said of the run: the counter is exact if and only if no step before refused a verify-list transfer or requeued one that came back short at once |
| `IoBooks.RefusalKeepsIssues` | fio/ioengines.c:380-398 | a refused submission leaves `io_issues` alone if and only if it was the overlap check or the unit is not a transfer of the verify list |
| `IoBooks.RefusalLowersIssues` | fio/ioengines.c:393-398 | a run from the start in which a refused unit of the verify list takes the count below zero |
| `IoBooks.ShortTransferIssues` | fio/io_u.c:878-909 | a requeued short transfer is counted once in all when completed at once, and once more per piece when reaped |
| `IoBooks.RunTracked` | fio/io_u.c:2139-2165 | in every run each unit is where its answers have brought it, and `io_bytes` is what the finished transfers were credited |
| `IoBooks.PiecesTile` | fio/backend.c:474-484 | for every transfer under way in any run, the pieces moved follow one another without gap or overlap from its start to the unit's offset, each non-empty, with the rest still asked for, and there were no more answers than bytes |
| `IoBooks.ChainEnds` | fio/backend.c:453-484 | a transfer with more answers than bytes is over |
| `IoBooks.AccountedInFullWhen` | fio/io_u.c:2139-2160 | a transfer is credited its last piece or nothing, and all it moved if and only if it went in one piece and not to the end of the file at once |
| `IoBooks.BytesExactIff` | fio/io_u.c:2139-2160 | in every run `io_bytes` is at most what the finished transfers moved, and equal if and only if each of them went in one credited piece |
| `IoBooks.ShortTransferLosesBytes` | fio/io_u.c:2139-2160 | a run in which eight bytes move as five and three and `io_bytes` says three |
| `IoLog.UnitsFromActs` | fio/backend.c:474-484 | where every transfer under way is follows from the range it was asked for and the answers to it since, as the acts of the run tell them |
| `IoLog.RunHasLog` | fio/backend.c:444-605 | every run has a log of acts, so the statements about logged runs hold of every run |
| `IoLog.BytesFromActs` | fio/io_u.c:2139-2160 | in any run `io_bytes` is the sum, over the answers given, of what each credits at that point of its transfer |
| `IoLog.IssuesFromActs` | fio/ioengines.c:380-398 | in any run `io_issues` is one for every transfer submitted that did not come straight back, less one for every submission of a verify-list transfer |
| `IoUnits.FindOverlap` | fio/backend.c:566-592 | the search finds an overlap if and only if some unit in flight overlaps, which for non-empty ranges means: shares a byte |
| `IoThread.IoThread.constructor` | fio/backend.c:1296-1360 | a new thread has all its units free, which is the initial state of the runs above |
| `IoThread.IoThread.GetIoU` | fio/io_u.c:1692-1746 | the oldest requeued unit, else the top free one unless the queue counts as full, else none; the object follows the state machine |
| `IoThread.IoThread.PutIoU` | fio/io_u.c:843-870 | giving back on the real stack never fails and follows the state machine |
| `IoThread.IoThread.RequeueIoU` | fio/io_u.c:878-909 | requeueing on the real ring never fails and follows the state machine |
| `IoThread.IoThread.CommitIo` | fio/ioengines.c:492-514 | the commit moves the queued count to in-flight exactly as the state machine does |
| `IoThread.IoThread.QueueIoU` | fio/ioengines.c:327-470 | flag, issue count, queued count and commit for each answer of the engine |
| `IoThread.IoThread.SubmitIoU` | fio/backend.c:444-605 | overlap check, queueing and the handling of the answer on the real containers are one step of the state machine |
| `IoThread.IoThread.ReapEvent` | fio/io_u.c:2093-2201 | so is a reaped completion |
| `IoThread.IoThread.CompleteIoU` | fio/io_u.c:2093-2201 | io_completed and the put after it: moving on, requeueing, crediting bytes, giving back, as the state machine does |
| `IoUQueue.RingSize` | fio/io_u_queue.c:29-48 | the bit-smearing yields the least power of two above the request if and only if the request is below 2^31, and zero otherwise |
| `IoUQueue.Ring.constructor` | fio/io_u_queue.c:29-48 | an empty ring of that size, and no ring at all for 2^31 units or more |
| `IoUQueue.Ring.Push` | fio/io_u_queue.h:61-70 | appends unless full; when full it either reports it or, with the tail at 0, loses everything |
| `IoUQueue.FullRingEmptied` | fio/io_u_queue.h:61-70 | a ring sized for one unit that accepts two and is then empty |
| `IoUQueue.Ring.Pop` | fio/io_u_queue.h:72-82 | takes the oldest, or nothing from an empty ring |
| `IoUQueue.Stack.constructor` | fio/io_u_queue.c:6-19 | an empty stack |
| `IoUQueue.Stack.Push` | fio/io_u_queue.h:30-38 | puts on top if and only if there is room |
| `IoUQueue.Stack.Pop` | fio/io_u_queue.h:17-28 | takes the top |
| `Fifo.Fifo.constructor` | fio/fifo.c:29-42 | an empty FIFO of the given size, valid for powers of two |
| `Fifo.PositionsDistinctIff` | fio/fifo.c:57-61 | the masked positions of a full FIFO's bytes are all different if and only if its size is a power of two |
| `Fifo.Fifo.Put` | fio/fifo.c:50-71 | appends as many bytes as fit, across the end of the buffer and the wrap of the 32-bit counters |
| `Fifo.Fifo.Get` | fio/fifo.c:73-98 | removes and copies out the oldest bytes, across both wraps; the rest of the destination is untouched |
| `EtaRounds.RequestInv` | fio/client.c:2019-2057 | a request keeps the books: each client on the list holds one live round that waits for it, and has at most one stored reply, of that round |
| `EtaRounds.ReceiveInv` | fio/client.c:1357-1424 | so does an answer, even one matched with a newer request |
| `EtaRounds.TimeoutInv` | fio/client.c:2062-2088 | so does a timeout |
| `EtaRounds.RemoveInv` | fio/client.c:310-336 | so does a disconnect |
| `EtaRounds.PendingExact` | fio/client.c:280-289 | in every run `pending` of a live round is the number of clients holding it plus those that could not be asked; it fires at most once, and has fired exactly when both are zero |
| `EtaRounds.IdleAtRequest` | fio/client.c:2019-2057 | nobody is left out at a request if and only if every client is running or busy; the round fires at once if and only if all are busy |
| `EtaRounds.FiresExactlyWhen` | fio/client.c:2019-2057 | at any time after its request a round has fired if and only if every client was running or busy then and nobody holds it now |
| `EtaRounds.CanStillFire` | fio/client.c:280-289 | a round for which everybody could be asked is never stuck: from any state some continuation leads to its firing |
| `EtaRounds.NeverFires` | fio/client.c:2034-2049 | a round that waits although nobody was asked |
| `EtaRounds.NothingDangles` | fio/client.c:1406-1424 | no client and no stored reply refers to a freed round; both assertions of the code hold |
| `EtaRounds.FiredTotal` | fio/client.c:1324-1424 | over any run: what is printed is the sum modulo 2^32 of the figures received for the round, at most one from each client asked, with nobody holding the round |
| `EtaRounds.RunHasLog` | fio/client.c:2163-2230 | every run has a log of events, so the statements about logged runs hold of every run |
| `EtaRounds.AnswersAreReceived` | fio/client.c:1357-1424 | the answers summed into a round are exactly the figures of the replies matched with it, in order |
| `EtaRounds.RequestReaches` | fio/client.c:2034-2049 | a request puts exactly the running clients that are not busy on the new round, with the reply stored where the command went out, and changes no other client or round |
| `EtaRounds.ReleasesOne` | fio/client.c:310-336 | an answer and a timeout release their client and nobody else, a disconnect takes it away as well, and only the round it held changes |
| `EtaRounds.Front.RequestEtas` | fio/client.c:2019-2057 | the walk over the client list and the countdown of the skipped ones do the specified request |
| `Clock.Calibrate` | fio/gettime.c:314-359 | the loops choose the largest shift for which the multiplier keeps an hour's cycles within 64 bits, the largest chunk that fits an hour, and a multiplier and mask such that a chunk converts to a whole number of nanoseconds and no product wraps |
| `Clock.ShiftIs22` | fio/gettime.c:324-331 | the shift is 22 for every frequency up to 9 * 10^11 cycles a millisecond |
| `Clock.SplitIsExact` | fio/gettime.c:203-206 | the chunked 64-bit conversion equals the unsplit fixed-point product modulo 2^64 |
| `Clock.Monotone` | fio/gettime.c:203-206 | the clock does not run backwards, across chunks included |
| `Clock.ErrorBound` | fio/gettime.c:203-206 | it is never ahead of the true time and lags by less than 1 + t / 2^shift nanoseconds |
| `Clock.LagBound` | fio/gettime.c:203-206 | for those frequencies the clock lags by less than one nanosecond plus one in 2^22 of the elapsed cycles |
| `Clock.FromNsecs` | fio/gettime.c:208-209 | seconds and nanoseconds are normal and stand for the count |
| `Clock.DifferencesAreTrue` | fio/gettime.c:432-554 | nanosecond and millisecond differences are the true difference, clamped and rounded down as documented |
| `Clock.MicrosecondsExactWhen` | fio/gettime.c:460-478 | the microsecond difference is the rounded-down one if and only if no borrow meets a fractional microsecond; else it is one more |
| `Clock.MicrosecondTooMany` | fio/gettime.c:464-469 | 999998.5 microseconds reported as 999999 |
| `Clock.ElapsedBetweenReadings` | fio/gettime.c:158-217 | two readings differ by the fixed-point nanoseconds between them |
| `FList.Init` | fio/flist.h:30-32 | an empty list |
| `FList.Empty` | fio/flist.h:111-114 | true if and only if there is no entry |
| `FList.Add` | fio/flist.h:58-62 | the entry becomes the first of a well-formed ring, touching only it, the head and the old first |
| `FList.AddTail` | fio/flist.h:64-68 | the entry becomes the last |
| `FList.Del` | fio/flist.h:90-95 | the rest stays a list in order, the entry has no neighbours |
| `FList.DelInit` | fio/flist.h:101-105 | the rest stays a list in order, the entry is an empty list |
| `FList.SpliceInit` | fio/flist.h:153-160 | one list's entries, in order, in front of the other's; the first becomes empty |
| `FList.SpliceTailInit` | fio/flist.h:144-151 | the same at the end |
| `FList.ForEach` | fio/flist.h:182-183 | visits every entry once, in order |
| `FList.DeleteAll` | fio/flist.h:191-193 | the safe loop visits every entry in order although each is deleted on the way |
| `FileHash.FileTable.constructor` | fio/filehash.c:126-137 | an empty table |
| `FileHash.FileTable.Lookup` | fio/filehash.c:52-68 | searching one bucket finds a file if and only if a hashed file bears the name, and that file is unique |
| `FileHash.FileTable.Add` | fio/filehash.c:80-99 | the file joins unless another of its name is there, which is then returned; never two of one name |
| `FileHash.FileTable.Remove` | fio/filehash.c:39-50 | exactly this file leaves |
| `Bloom.SetBit` | fio/lib/bloom.c:100-106 | setting a bit sets that bit and no other |
| `Bloom.Filter.constructor` | fio/lib/bloom.c:61-79 | an empty filter with room for every position |
| `Bloom.Filter.Check` | fio/lib/bloom.c:87-112 | answers whether all five positions were set before, colliding positions included, and marks them if asked |
| `Bloom.AllocatedNames.IsAllocated` | fio/filesetup.c:1665-1695 | the filter never changes the answer: true if and only if the name is listed |
| `Bloom.AllocatedNames.SetAllocated` | fio/filesetup.c:1697-1715 | the list gains the name once |
| `StatusString.Condense` | fio/eta.c:19-35 | the text of the maximal runs, from which the string can be read back |
| `StatusString.RoundTrip` | fio/eta.c:19-35 | reading the text of any list of runs gives the string it stands for, whatever characters it has |
| `StatusString.RunsUnique` | fio/eta.c:19-35 | a string has one list of maximal runs |
| `Dedupe.InitSeeds` | fio/dedupe.c:21-71 | page i holds the seed of job own + i/p advanced i mod p times the per-page steps, p pages per seed; without global dedupe, its own seed advanced i times |
| `Dedupe.BlocksAreShared` | fio/dedupe.c:57-65 | with at least as many pages as jobs, every job's set contains the whole first block of every other job |

## Left out

- Job processes, engines and devices: the engine's answers, thread scheduling, delays, deaths and timeouts are free choices in the state machines.
- Flow ratios in floating point: the two ratios are compared exactly by cross-multiplication.
- Flow.SomeMemberPassesIf: for several members and a leaver in its window the bound is sufficient, not necessary.
- Flow: allocation failure in shared memory.
- FileLock: lookups compare hashes, so two names with one hash share a lock; names themselves are not modelled.
- Scheduler: forced reaping of stuck jobs, the order in which a job marks its group; when delays and fences end, and whether a startup times out, are free choices.
- IoUnits: offload threads and asynchronous verify (units handled outside the job thread), negative returns of engine hooks, the dry-run and sync submission paths, 64-bit wrap of offset plus length.
- IoUnits.OutstandingExact: the counters are kept unreduced; `io_u_in_flight` alone may be below zero between a reap and the next commit, and the code's unsigned value is that number modulo 2^32.
- IoThread.IoThread.QueueIoU: `io_issue_bytes`, the rate counters and negative returns of the hook are not modelled.
- IoBooks: the size of a unit's file is fixed while the unit is handed out; the block counters and the verify totals are not modelled.
- IoUnits.RunInv: requires of the engine that it reports only units it accepted and never more bytes left than were asked for.
- EtaRounds: more than 2^32 - 1 clients at a time, commands other than status requests, the maximum of `eta_sec`, the copied run string, give-up after repeated timeouts (a removal may happen at any time).
- Clock.Calibrate: a frequency whose ticks in MAX_CLOCK_SEC exceed 64 bits (above 10^12 cycles a millisecond), and zero.
- Clock: the averaging of the measured samples, and clock sources other than the CPU clock.
- FList: sorting, cutting and the splices that leave the source list dangling.
- FileHash: the lock around the table, files without a name, the report on a non-empty table at exit.
- Bloom.Filter.Check: not for a filter of no positions, where the code divides by zero; the five hash functions are parameters.
- Dedupe.InitSeeds: a working set of at least one page, because the code fills the first page without looking; the size arithmetic before the loop.
- Option parsing, statistics, I/O logs, zones, verification headers, engines, the GUI and the experiment scripts of the repository.

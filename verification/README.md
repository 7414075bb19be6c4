# Verified model of fio's engine-side bookkeeping

This project models, in Dafny 4.11, the parts of fio that keep state over unbounded runs and whose
correctness depends on several functions together, and proves what those parts are relied on for.
`dafny verify dfyconfig.toml` checks everything.  All source paths below are relative to the
repository; every modelled file lies in `benchmarks/fio/content`.

| module | what it models |
|---|---|
| `FileLock`, `FileLockCalls`, `FileLockTable`, `FileLockRuns`, `TrylockRun` | the exclusive file locks of filelock.c: every interleaving of lock, trylock and unlock as a transition system, what a call does for its caller, the same table changed in place, a run that needs the second lookup, and one in which a trylock waits |
| `Semaphore`, `SemaphoreCalls` | fio_sem.c: mutex, condition variable, barging and spurious wakeups, and what a call does for its caller |
| `WriteHistory`, `HistoryRuns` | the write history kept for verification (iolog.c): the search tree with its restart loop, and what any run of it says about the bytes of the files |
| `UnitQueues`, `IoUnits`, `IoTransfers`, `JobUnits` | the life cycle of io units: the stack, the ring, the counters and flags as a state machine, what becomes of a unit and its transfer, and the same operations in place over arrays |
| `InflightLog`, `InflightEntries`, `SavedState` | the log of in-flight writes, its verdicts and its entries, and the concurrent reader that saves it |
| `Flow`, `FlowStall`, `FlowList` | the weighted flow groups of flow.c: step by step, when a group can stall, and in place |
| `Clock` | the multiply-and-shift CPU clock of gettime.c: calibration and conversion |
| `Pacing` | usec_for_io and rate_ddir |
| `Fifo` | the byte queue of fifo.c |
| `Eta` | the shared count of ETA answers in client.c |
| `Bits`, `Counting`, `Options` | bitwise operators on naturals, powers of two, cardinalities, optional values |

Protocols that several threads run are transition systems whose steps are single atomic accesses; a
run is any sequence of enabled steps, so a property of every run holds in every interleaving.  Code
that one thread runs is a class or a method in the source's own form, proved against the functions of
the transition system; the lemmas about runs are about those functions.  What an engine answers, how
long a sleep takes, whether memory is found, whether a message arrives: all of these are inputs.

Machine integers are modelled where their width matters: the unit ring, the two submission counters
and the FIFO indices wrap at 2^32, the clock and the pacing arithmetic at 2^64.

The modelled callers use the semaphore only as a lock, and `Semaphore.LockRun` shows that it works as one.
That discipline is needed: used as a counter it would lose wakeups (`Semaphore.CountingLosesWakeup`).

## Where the code does not do what it says

Each point is proved: the condition under which the code does meet the promise, for all inputs and runs,
and, where it does not, a run or the branch that fails.

- The comment in log_inflight (backend.c:941-944) says that storing the slot before publishing the
  count protects a write from being overlooked.  The reader (verify.c:1679-1683) copies the slots
  first and loads the count last, so a write logged in between is overlooked: `SavedState.SlotsFirstMisses`
  is such a run, `SavedState.SlotsFirstExact` says exactly which writes are, and
  `SavedState.IssuedFirstSound` shows that the other order would miss none.
- The aborts of the in-flight log can be reached.  `InflightLog.RunVerdict` says for every run, whatever was
  cleared, reset or put back, when each of them happens; the slot search never fails.
  - log_inflight on an unexpected number (backend.c:931): when the logged writes not yet counted and the gap
    left by earlier steps do not cancel out.  The gap is zero unless statistics were reset in mid-run
    (libfio.c:148, at the end of the ramp time or of a latency search), a logged unit went out as a read, or a
    clear came while a write was uncounted; without any of these the abort comes exactly when a logged write
    waits in the ring or on the freelist (`InflightLog.GapClosed`).  Runs: `InflightLog.NumberCheckCanFail`,
    `InflightLog.ResetEndsProgram`, `InflightLog.LostNumberEndsProgram`.
  - log_inflight on an index already set: when a unit is logged that still has an index, as after a logged
    write was put back and served a read (`InflightLog.DroppedEntryEndsProgram`).
  - invalidate_inflight: never, as long as no clear finds a marked unit other than a read in flight
    (`InflightLog.RunSound`); and a clear that finds one leads to such an abort on some path
    (`InflightLog.ClearExact`, with the run `InflightLog.ClearEndsProgram`).
- unlog_io_piece frees a piece without taking it off the trim list (iolog.c:383-390), unlike the other
  two places that free pieces: `WriteHistory.History.UnlogIoPiece` says when the list stays live, and
  `WriteHistory.FailedTrimWrite` logs and unlogs one write after which it is not.
- fio_trylock_file can wait: between its check that nobody else references the entry and its down
  (filelock.c:200-211) another thread can get in and take the lock.  It waits only there
  (`FileLockCalls.TrylockAnswers`), and `TrylockRun.TrylockCanWait` is a run in which it does.
- A flow group can stall as a whole for the moment between the two subtractions of flow_put:
  whatever the weights and wherever the other jobs stand, some reachable state of the group is stalled
  if and only if a job is there (`FlowStall.StallExact`); one leaver of any weight is enough
  (`FlowStall.LeaverStallsAll`).
- A sleep capped by the run time ends exactly at the timeout, which rate_ddir does not take for late:
  a unit goes out before it is due exactly there (`Pacing.IssuedWhenDue`).  The bound on the bytes issued
  holds at `t` in every run if and only if there is no timeout, or `t` is before it, or the job can switch
  to an unlimited direction (`Pacing.BoundExact`); otherwise `Pacing.EarlyAtTimeout` builds, for every rate,
  size, timeout and such `t`, a run that breaks it.
- An ETA object requested while some client was not running is never freed and its callback never
  runs: `Eta.CallbackExact`, `Eta.IdleForever` and the run `Eta.IdleRun`.
- The full test of the unit ring compares an unmasked index, so a full ring whose tail is at slot 0 takes
  one more unit and then looks empty (`UnitQueues.UnitRing.RPush`); conservation of units is what keeps
  that from happening.

## Model

| member | source | states |
|---|---|---|
| FileLock.StepKeeps | benchmarks/fio/content/filelock.c:133-246 | every step of any thread, with the master lock dropped and retaken while waiting for a free entry, keeps the invariant of table, entries and threads |
| FileLock.RunInv | benchmarks/fio/content/filelock.c:70-246 | the invariant holds in every state of every interleaving |
| FileLock.MutualExclusion | benchmarks/fio/content/filelock.c:168-246 | in every interleaving at most one thread is between lock and unlock for a hash, hence for a file name |
| FileLock.TableConsistent | benchmarks/fio/content/filelock.c:35-246 | in every interleaving each entry is on exactly one of active list, free list and popped by one thread; semaphore value plus holders is 1; an active entry's references equal its users and are positive while the master lock is free; active hashes are distinct |
| FileLock.EntryConsistent | benchmarks/fio/content/filelock.c:52-68 | the same for one entry of any state that satisfies the invariant; in particular no active entry is stranded without a user |
| FileLock.RelookupNeeded | benchmarks/fio/content/filelock.c:144-160 | inserting the popped entry without the second lookup would put two entries of one hash on the active list whenever another thread added the hash meanwhile |
| FileLockRuns.RefindMeetsHash | benchmarks/fio/content/filelock.c:144-158 | a run of three threads and two entries in which a thread that waited for a free entry has popped one while its hash was added to the active list |
| FileLock.UnlockFinds | benchmarks/fio/content/filelock.c:225-236 | the lookup of an unlock finds the very entry its thread holds |
| FileLock.RecycledUnused | benchmarks/fio/content/filelock.c:236-241 | an entry is recycled only when no thread uses, waits on or holds it |
| FileLock.SoleUser | benchmarks/fio/content/filelock.c:185-205 | the reference count is one exactly when its user is alone |
| FileLock.TrylockGivesUp | benchmarks/fio/content/filelock.c:182-208 | a trylock that lost the race gives up exactly when another thread references the entry, and waits otherwise |
| FileLock.BlockedByHolder | benchmarks/fio/content/filelock.c:206-210 | a thread blocked on an entry's semaphore is blocked by a holder of that entry |
| FileLock.SomeThreadMoves | benchmarks/fio/content/filelock.c:133-246 | no deadlock: while no caller keeps a file locked, some thread can move whenever one is inside a call |
| FileLockCalls.LockAnswers | benchmarks/fio/content/filelock.c:168-193 | in every run a call of fio_lock_file works on the hash it asked for, never takes a way that gives up, and is back only after it has had the lock; all from the actions of the run |
| FileLockCalls.TrylockAnswers | benchmarks/fio/content/filelock.c:182-217 | in every run a call of fio_trylock_file works on the hash it asked for, never waits for a free entry, waits for the semaphore only after it was alone with the entry, and is back without having had the lock only if no entry had the hash while the pool was empty, or if it met the lock taken and then another thread that references the entry |
| TrylockRun.TrylockCanWait | benchmarks/fio/content/filelock.c:196-213 | a run of two threads in which a trylock ends up blocked on the semaphore that the other thread holds |
| FileLockCalls.NapsOnlyOnEmptyPool | benchmarks/fio/content/filelock.c:35-68 | in every run a thread waits for a free entry only when it may wait and the pool is empty |
| FileLockCalls.AskedExclusion | benchmarks/fio/content/filelock.c:168-246 | in every run, of the threads whose last call asked for one hash at most one is between lock and unlock |
| FileLock.LookupNone | benchmarks/fio/content/filelock.c:119-131 | the lookup fails exactly when no active entry has the hash |
| FileLockTable.FilelockData.constructor | benchmarks/fio/content/filelock.c:70-96 | builds the table the transition system starts from |
| FileLockTable.FilelockData.FioHashFind | benchmarks/fio/content/filelock.c:119-131 | the list walk returns what the lookup function returns |
| FileLockTable.FilelockData.Unlink | benchmarks/fio/content/filelock.c:238-239 | removes the entry from the active list and nothing else |
| FileLockTable.FilelockData.GetReference | benchmarks/fio/content/filelock.c:133-180 | the table after the first pass of fio_hash_get and the reference taken; None, and nothing changed, exactly when no active entry has the hash and the pool is empty; otherwise an active entry of the hash |
| FileLockTable.FilelockData.UnlockFile | benchmarks/fio/content/filelock.c:225-246 | the table after an unlock; a hash is reported missing, and nothing changes, exactly when no active entry has it |
| FileLockTable.LockSection | benchmarks/fio/content/filelock.c:133-180 | the steps that the thread takes one after the other from the lookup of a lock's first pass to the reference, when an entry is found or a free one is there, add up to that table change |
| FileLockTable.UnlockSection | benchmarks/fio/content/filelock.c:234-241 | the two or three steps that the thread takes one after the other from the lookup of an unlock on add up to that table change |
| Semaphore.NoWakeupLost | benchmarks/fio/content/fio_sem.c:133-180 | in every interleaving in which no up finds the semaphore free: whenever the value is positive and a thread sleeps, another has been woken and is on its way; the waiter count is exact and the value never negative |
| Semaphore.LockRun | benchmarks/fio/content/fio_sem.c:133-180 | used as a lock, the semaphore is never upped while free, at most one thread owns it, value plus owners is 1, and no wakeup is lost, with barging and spurious wakeups |
| Semaphore.StepKeeps | benchmarks/fio/content/fio_sem.c:149-180 | every step but an up on a free semaphore keeps the wakeup property |
| Semaphore.DisciplineKeeps | benchmarks/fio/content/fio_sem.c:133-180 | under the discipline of a lock every step keeps ownership, and no up finds the semaphore free |
| Semaphore.WaiterServed | benchmarks/fio/content/fio_sem.c:149-163 | a free semaphore never leaves all its waiters stuck: a woken thread or the holder of the mutex can move |
| Semaphore.CountingLosesWakeup | benchmarks/fio/content/fio_sem.c:165-180 | a run with count above one after which a thread sleeps on beside a free semaphore |
| SemaphoreCalls.TrylockAnswers | benchmarks/fio/content/fio_sem.c:133-147 | in every run, disciplined or not, a trylock comes back owning the semaphore, having found it free under the mutex and lowered the value by one, or not owning it, the value having been zero whenever it held the mutex |
| SemaphoreCalls.DownAnswers | benchmarks/fio/content/fio_sem.c:149-163 | in every run a down comes back only as an owner that found the semaphore free under the mutex and lowered the value by one |
| SemaphoreCalls.UpAnswers | benchmarks/fio/content/fio_sem.c:165-180 | in every run an up comes back without the semaphore, having raised the value by one under the mutex and woken a sleeper if the value was zero and there was one |
| WriteHistory.OverlapMeansSharedByte | benchmarks/fio/content/iolog.c:330-343 | for pieces that are not empty the offset tests report an overlap exactly when some byte belongs to both |
| WriteHistory.DescentComplete | benchmarks/fio/content/iolog.c:322-358 | a single descent that reaches an empty link without an overlap proves that no piece anywhere in the tree overlaps, and linking there keeps the tree ordered and disjoint |
| WriteHistory.GoLeft | benchmarks/fio/content/iolog.c:330-337 | going left past a piece without overlap keeps everything right of the position after the new piece |
| WriteHistory.GoRight | benchmarks/fio/content/iolog.c:332-341 | going right past a piece without overlap keeps everything left of the position before the new piece |
| WriteHistory.PlugInOrder | benchmarks/fio/content/iolog.c:322-342 | the in-order contents of a tree are what lies left of a position, what hangs there, and what lies right of it |
| WriteHistory.ReducedToLogged | benchmarks/fio/content/iolog.c:345-361 | once nothing left overlaps, the pieces left and the new one are exactly the old pieces that do not overlap the new one, plus the new one |
| WriteHistory.Compare | benchmarks/fio/content/iolog.c:330-343 | the test at one node reports exactly an overlap, and otherwise the side that keeps the order |
| WriteHistory.History.Descend | benchmarks/fio/content/iolog.c:322-356 | one descent ends at a piece that overlaps or at an empty link where the new piece fits |
| WriteHistory.History.EraseOverlapping | benchmarks/fio/content/iolog.c:345-355 | removes one overlapping piece from tree and trim list, frees it unless in flight, and lowers the length |
| WriteHistory.History.LinkHere | benchmarks/fio/content/iolog.c:358-361 | links the new piece in order and raises the length; nothing in the tree overlapped it |
| WriteHistory.History.InsertSorted | benchmarks/fio/content/iolog.c:317-361 | the restart loop terminates and leaves exactly the pieces that do not overlap the new one, plus the new one; the overlapped pieces leave the trim list and are freed unless in flight |
| WriteHistory.History.AppendToList | benchmarks/fio/content/iolog.c:309-315 | appends to the list and leaves the tree alone |
| WriteHistory.History.LogIoPiece | benchmarks/fio/content/iolog.c:283-362 | either path: the pieces in the tree, the list, the records freed, and the trim list, which loses exactly the overlapped pieces, keeps the order of the others, and gets the new piece at its end exactly if it is to be trimmed |
| WriteHistory.History.UnlogIoPiece | benchmarks/fio/content/iolog.c:380-390 | without a piece nothing changes; a linked piece is removed and nothing else; the trim list stays live exactly when the piece was not on it |
| WriteHistory.FailedTrimWrite | benchmarks/fio/content/iolog.c:298-301 | one write logged for trimming and unlogged again leaves a freed piece on the trim list, on either path |
| WriteHistory.History.MarkLanded | benchmarks/fio/content/io_u.c:2136-2139 | clears the in-flight flag of one piece, in the tree or outside it, and changes no other; order, disjointness and lengths are kept |
| WriteHistory.History.TrimIoPiece | benchmarks/fio/content/iolog.c:393-401 | without a piece nothing changes; shortening a linked piece keeps order, disjointness and everything else |
| WriteHistory.History.PruneIoPieceLog | benchmarks/fio/content/iolog.c:258-278 | empties tree and list, brings the length to zero, frees exactly their pieces and takes exactly those off the trim list, the others in order |
| HistoryRuns.RunInv | benchmarks/fio/content/iolog.c:258-401 | in every run each linked piece is a part of what was logged, untouched by later writes, and every write not linked was dropped or overlapped |
| HistoryRuns.LinkedDisjoint | benchmarks/fio/content/iolog.c:258-401 | in every run linked pieces are pairwise disjoint and no write logged after one overlaps it |
| HistoryRuns.NewestWriter | benchmarks/fio/content/iolog.c:258-401 | every byte of a linked piece was last written by the write that the piece records |
| HistoryRuns.LinkedExactly | benchmarks/fio/content/iolog.c:283-362 | nothing is lost silently, and while writes are only logged a write is linked exactly as long as no later write overlaps it |
| UnitQueues.RingSize | benchmarks/fio/content/io_u_queue.c:29-40 | io_u_rinit computes, in 32-bit arithmetic, the least power of two that is at least iodepth + 1 |
| UnitQueues.SmearRight | benchmarks/fio/content/io_u_queue.c:33-38 | the five or-shifts fill every bit below the highest one |
| UnitQueues.RingSeqPush | benchmarks/fio/content/io_u_queue.h:61-70 | writing at head and advancing appends to the ring's sequence, while a slot is spare |
| UnitQueues.RingSeqPop | benchmarks/fio/content/io_u_queue.h:72-82 | reading at tail and advancing removes the oldest element |
| UnitQueues.UnitStack.QInit | benchmarks/fio/content/io_u_queue.c:6-19 | an empty stack of the given depth |
| UnitQueues.UnitStack.QPop | benchmarks/fio/content/io_u_queue.h:17-28 | returns the last unit pushed, or None when empty |
| UnitQueues.UnitStack.QPush | benchmarks/fio/content/io_u_queue.h:30-38 | pushes below the depth; at the depth it reports the failed assertion and changes nothing |
| UnitQueues.UnitRing.RInit | benchmarks/fio/content/io_u_queue.c:29-48 | an empty ring whose size is the least power of two above iodepth |
| UnitQueues.UnitRing.RPush | benchmarks/fio/content/io_u_queue.h:61-70 | a FIFO push below capacity; on a full ring it succeeds exactly when the tail is at slot 0 and then leaves a ring that looks empty; otherwise it fails and changes nothing |
| UnitQueues.UnitRing.RPop | benchmarks/fio/content/io_u_queue.h:72-82 | returns the oldest unit, or None when empty |
| UnitQueues.UnitRing.REmpty | benchmarks/fio/content/io_u_queue.h:84-87 | head equals tail exactly when the ring holds nothing |
| IoUnits.RunInv | benchmarks/fio/content/io_u.c:862-935 | in every state of every run each unit is in exactly one of freelist, ring and held, cur_depth is the number held, the flag bits agree, the two counters add up modulo 2^32, and checked units in flight do not overlap |
| IoUnits.RunSafe | benchmarks/fio/content/io_u_queue.h:30-82 | in every run FREE is set exactly when a unit is on one list, never on both, and while a unit is held both lists have room for it, so the asserts of push cannot fire; a checked unit in flight overlaps no other; for every iodepth |
| IoUnits.StepKeeps | benchmarks/fio/content/io_u.c:862-935 | every call keeps that invariant, whatever the engine answers |
| IoUnits.GetKeeps | benchmarks/fio/content/io_u.c:1718-1772 | __get_io_u keeps it, finds the FREE bit set on what it pops, and hands out a unit not in flight |
| IoUnits.RoomForHeld | benchmarks/fio/content/io_u_queue.h:30-38 | while a unit is held neither list is full |
| IoUnits.SoleUnitAlone | benchmarks/fio/content/backend.c:563-574 | when only one unit is out no other unit is in flight |
| IoUnits.ShortcutExact | benchmarks/fio/content/backend.c:563-574 | skipping the overlap scan when cur_depth is at most 1 never changes its answer |
| IoUnits.SubmitKeeps | benchmarks/fio/content/backend.c:535-574 | with serialize_overlap, submission keeps checked in-flight units pairwise disjoint |
| IoUnits.TdIoQueueKeeps | benchmarks/fio/content/ioengines.c:327-454 | td_io_queue keeps flags and counters for each of the engine's answers |
| IoUnits.IoQueueEventKeeps | benchmarks/fio/content/backend.c:411-502 | io_queue_event keeps the invariant for every status, error and residual, including short transfers and a residual larger than the transfer |
| IoUnits.ReapStepwise | benchmarks/fio/content/ioengines.c:284-325 | lowering io_u_in_flight by all events first, or by one with each event, is the same |
| IoUnits.ReapKeeps | benchmarks/fio/content/io_u.c:2235-2325 | reaping any distinct units the engine holds keeps the invariant, and io_u_queued plus io_u_in_flight still counts what the engine holds |
| IoUnits.InitInv | benchmarks/fio/content/backend.c:1341-1405 | what init_io_u builds satisfies the invariant |
| IoTransfers.CompletionOwes | benchmarks/fio/content/io_u.c:2110-2206 | after completion the unit is free to be used again exactly if there was an error, it is no transfer, all or nothing was moved, or the end of the file is reached; otherwise it is last in the ring with exactly the bytes not moved |
| IoTransfers.EventOwes | benchmarks/fio/content/backend.c:411-496 | the same after a submission that completed at once, except that the ring gets what ends anywhere but at the end of the file; after BUSY the unit is last in the ring unchanged and all that was queued is committed; otherwise nothing changes |
| IoTransfers.GetAnswers | benchmarks/fio/content/io_u.c:1718-1772 | which unit __get_io_u hands out: the oldest requeued one with its transfer as it was left, else the one put back last; and exactly when none |
| IoTransfers.ClashMeansSharedByte | benchmarks/fio/content/backend.c:542-553 | for units that are not empty the overlap test holds exactly when some byte belongs to both |
| IoTransfers.SubmitAnswers | benchmarks/fio/content/backend.c:535-574 | io_u_submit refuses a unit exactly when overlap is to be serialized and another unit in flight overlaps it; otherwise the unit is in the state of the engine's answer, which is returned, with one more counted and a full batch committed if it was taken |
| IoTransfers.CommitAnswers | benchmarks/fio/content/ioengines.c:494-520 | td_io_commit moves all that is queued to in flight, unless no unit is out |
| IoTransfers.PutBackAnswers | benchmarks/fio/content/io_u.c:862-887 | a unit put back unused is on top of the freelist |
| IoTransfers.ReapOwes | benchmarks/fio/content/io_u.c:2235-2250 | what a batch of completions means for each unit: the freelist if its transfer is over, the ring with the rest if not, nothing if it is not in the batch |
| IoTransfers.FreedOnlyWhenOver | benchmarks/fio/content/io_u.c:2110-2206 | in every run no unit gets back on the freelist with bytes left inside the file and no error, unless the job puts it back unused |
| IoTransfers.TransferKept | benchmarks/fio/content/io_u.c:2156-2172 | in every run, while a unit is in use: the bytes moved since it was filled and the bytes of its transfer make the length it was filled with, and its offset has advanced by the bytes moved |
| IoTransfers.WholeTransferMoved | benchmarks/fio/content/io_u.c:2156-2172 | in every run, when a completion finds nothing left, the bytes moved since the unit was filled are all the bytes it was filled with |
| IoTransfers.QueuedUntilReaped | benchmarks/fio/content/ioengines.c:327-454 | in every run a unit that the engine took stays in flight with its transfer as it was submitted until a batch of completions has it |
| JobUnits.ThreadData.InitIoU | benchmarks/fio/content/backend.c:1341-1405 | builds the initial pool, with a ring larger than iodepth |
| JobUnits.ThreadData.FillLists | benchmarks/fio/content/backend.c:1360-1396 | puts every unit on the freelist and on the list of all units |
| JobUnits.ThreadData.GetIoU | benchmarks/fio/content/io_u.c:1718-1772 | returns the unit, and leaves the pool, that the Get step says |
| JobUnits.ThreadData.PutIoU | benchmarks/fio/content/io_u.c:862-889 | performs the Put step; the push cannot fail |
| JobUnits.ThreadData.ClearIoU | benchmarks/fio/content/io_u.c:898-902 | performs the Clear step |
| JobUnits.ThreadData.RequeueIoU | benchmarks/fio/content/io_u.c:904-935 | performs the Requeue step; the push cannot fail and the ring stays a faithful FIFO |
| JobUnits.ThreadData.Overlap | benchmarks/fio/content/backend.c:535-561 | the scan of all units answers whether any unit in flight shares a byte |
| JobUnits.ThreadData.TdIoCommit | benchmarks/fio/content/ioengines.c:494-516 | performs the Commit step |
| JobUnits.ThreadData.QueueUnit | benchmarks/fio/content/ioengines.c:327-454 | performs the TdIoQueue step for every answer of the engine |
| JobUnits.ThreadData.IoUSubmit | benchmarks/fio/content/backend.c:563-574 | performs the Submit step, with the shortcut of the source |
| JobUnits.ThreadData.CompleteIoU | benchmarks/fio/content/io_u.c:2109-2218 | performs the IoCompleted step and the caller's put, and leaves the unit where completion owes it: the freelist if the transfer is over, the end of the ring with the bytes left if not |
| JobUnits.ThreadData.QueueEvent | benchmarks/fio/content/backend.c:411-502 | performs the IoQueueEvent step, and leaves the unit where the answer puts it |
| JobUnits.ThreadData.IosCompleted | benchmarks/fio/content/io_u.c:2235-2249 | the loop over reaped events performs CompleteAll |
| JobUnits.ThreadData.QueuedComplete | benchmarks/fio/content/io_u.c:2292-2325 | performs the Reap step: the counter drops at once, the units are completed one by one |
| InflightLog.FreeSlotFound | benchmarks/fio/content/backend.c:937-959 | when each occupied slot has an owner and the unit has no index, the circular scan reaches a free slot within iodepth probes |
| InflightLog.StepVerdict | benchmarks/fio/content/backend.c:1117-1200 | every round, completion, clear and reset: the verdict is the expected one and never a failed slot search; while it is fine, ownership, placement and the distance of the two counters are kept, and so is soundness except by a clear, which keeps it exactly when it finds no live unit |
| InflightLog.RunInv | benchmarks/fio/content/backend.c:918-1009 | in every run each occupied slot has the one owner that stored it, whose index and number match it, and inflight_issued is the issue count plus the logged writes not yet counted plus the gap left by resets, reads and clears |
| InflightLog.RunVerdict | benchmarks/fio/content/backend.c:918-988 | over every run, after any clears, resets and drops: no slot search fails; a set index ends the program exactly when a unit is logged that has one; an unexpected number exactly when uncounted writes and gap do not cancel out; an invalid entry exactly when the unit's slot has no owner; a wrong entry exactly when the owner has another number |
| InflightLog.GapClosed | benchmarks/fio/content/backend.c:931-935 | in runs without a reset, a clear beside an uncounted write, or a marked unit sent as a read, the number check fails exactly when a logged write in the ring or on the freelist is still to be counted |
| InflightLog.RunSound | benchmarks/fio/content/backend.c:965-988 | over every run in which no clear found a live unit (a marked one other than a read in flight), whatever was put back or reset, neither the slot search nor the checks of invalidate_inflight can end the program |
| InflightLog.RunOwned | benchmarks/fio/content/backend.c:918-988 | over every run in which no clear found a unit with an index: each index names an occupied slot with the unit's number, no two units name one slot, and each occupied slot is named by a unit |
| InflightLog.InFlightLogged | benchmarks/fio/content/backend.c:937-952 | what the log is for: in every run in which no clear found a live unit, each logged write in flight has its number in a slot, where the reader looks for it |
| InflightEntries.WriteEnters | benchmarks/fio/content/backend.c:918-953 | in every run a round that logs a write stores its number, the next one, in a slot that was free, publishes the number after it, and touches no other entry |
| InflightEntries.WriteWithdraws | benchmarks/fio/content/backend.c:965-988 | in every run the completion of a logged write empties the slot that its unit names, which held its number, and touches no other entry |
| InflightEntries.OthersKeepEntries | benchmarks/fio/content/backend.c:918-988 | in every run no other step but a clear touches an entry |
| InflightLog.ClearExact | benchmarks/fio/content/backend.c:993-1009 | some path after a clear, without a further one, reaches a failing check of invalidate_inflight if and only if the clear found a marked unit other than a read in flight |
| InflightLog.ClearEndsProgram | benchmarks/fio/content/libfio.c:132-132 | a run of one unit in which a clear comes while a logged write waits in the ring, and its completion ends the program |
| InflightLog.ResetEndsProgram | benchmarks/fio/content/libfio.c:145-148 | a run of one unit in which a reset follows the first write, and the second ends the program with an empty ring |
| InflightLog.NumberCheckCanFail | benchmarks/fio/content/backend.c:931-935 | a run of two units after which log_inflight ends the program |
| InflightLog.LostNumberEndsProgram | benchmarks/fio/content/backend.c:931-935 | a run of two units, ending with an empty ring, in which a logged unit was put back and went out as a read, and the next logged write ends the program |
| InflightLog.DroppedEntryEndsProgram | benchmarks/fio/content/backend.c:925-929 | a run of one unit after which log_inflight finds the index already set |
| InflightLog.InflightTable.LogInflight | benchmarks/fio/content/backend.c:918-960 | stores slot, index and count as LogEntry says, and gives its verdict |
| InflightLog.InflightTable.InvalidateInflight | benchmarks/fio/content/backend.c:965-988 | clears slot and index as Invalidate says, and gives its verdict |
| InflightLog.InflightTable.ClearInflight | benchmarks/fio/content/backend.c:993-1009 | empties every slot and resets index and count |
| SavedState.RunInv | benchmarks/fio/content/verify.c:1679-1683 | in every interleaving of the reader with log_inflight and invalidate_inflight each stored write is already copied, invalidated, ahead of the reader, stored behind its back, or numbered after the loaded count |
| SavedState.IssuedFirstSound | benchmarks/fio/content/backend.c:937-952 | a reader that loads the count before the slots misses no incomplete write |
| SavedState.SlotsFirstExact | benchmarks/fio/content/verify.c:1679-1683 | the reader as written misses exactly the incomplete writes below the loaded count that were stored into slots it had already copied |
| SavedState.EarlierWritesSafe | benchmarks/fio/content/verify.c:1911-1938 | a write already counted when the copying began is never missed |
| SavedState.SlotsFirstMisses | benchmarks/fio/content/verify.c:1679-1683 | a run after which verification goes past a write that never completed |
| Flow.RatioTest | benchmarks/fio/content/flow.c:25-36 | over the reals the two divisions and the cross-multiplied test agree, for nonzero divisors |
| Flow.StepKeeps | benchmarks/fio/content/flow.c:17-130 | every atomic access keeps: flow_counter is 1 plus the members' counters plus half-finished increments, total_weight and refs are the matching sum and count, and the group exists exactly while referenced |
| Flow.RunInv | benchmarks/fio/content/flow.c:17-130 | the accounting holds in every state of every run of joins, tests and exits |
| Flow.RunAsserts | benchmarks/fio/content/flow.c:25-28 | in every run no test divides by zero, and the last flow_put finds flow_counter at 1 |
| Flow.TestDecides | benchmarks/fio/content/flow.c:17-43 | in every run a job is refused exactly if its counter over the shared counter it read, at its last load, exceeds its weight over the total weight at the test |
| Flow.LastPutFindsOne | benchmarks/fio/content/flow.c:106-110 | the assertion of flow_put, and no weight left |
| Flow.SomeMemberAdmitted | benchmarks/fio/content/flow.c:25-52 | measured against the weight of the members that still run, some member is always admitted |
| Flow.NeverAllStalled | benchmarks/fio/content/flow.c:25-52 | as long as no job is between the two subtractions of flow_put, the test as written admits some member |
| FlowStall.StallExact | benchmarks/fio/content/flow.c:25-130 | for all weights and wherever the jobs stand, at least one of them a member: some reachable state in which the jobs stand so is stalled, with every member refused, if and only if a job is between the two subtractions of flow_put |
| FlowStall.LeaverStallsAll | benchmarks/fio/content/flow.c:103-104 | for all weights of a member and a leaver that are alone in the group, a reachable state in which the member is refused although the test would admit it once the leaver's weight is gone |
| Flow.FixedRunShares | benchmarks/fio/content/flow.c:25-52 | with fixed members, in every run and whatever stale counters were read, each job's counter times the total weight is at most its weight times flow_counter plus the total weight, and, with nobody between its increments, at least its weight times flow_counter minus the number of members times the total weight |
| Flow.PairwiseFair | benchmarks/fio/content/flow.c:25-52 | so any two members stay in proportion to their weights up to a constant that does not grow with the run |
| FlowList.FlowJob.ThresholdExceeded | benchmarks/fio/content/flow.c:17-55 | the test with two real divisions decides as the cross-multiplied one, and an admitted job raises both counters by one |
| FlowList.FlowTable.FlowGet | benchmarks/fio/content/flow.c:57-93 | finds or allocates the group of the id and takes a reference, fails exactly without a lock or without memory for a new group, and touches no other group |
| FlowList.FlowTable.FlowPut | benchmarks/fio/content/flow.c:95-113 | takes counter and weight back, drops the reference, unlinks the group with the last one, and touches no other group |
| FlowList.FlowTable.InitJob | benchmarks/fio/content/flow.c:115-122 | performs the steps Join and AddWeight on the job's group and none on others |
| FlowList.FlowTable.ExitJob | benchmarks/fio/content/flow.c:124-130 | performs the steps SubCounter, SubWeight and Unref on the job's group and none on others |
| FlowList.RemovedIds | benchmarks/fio/content/flow.c:108-109 | unlinking one group removes its id from the list and no other |
| Clock.ShiftIs22 | benchmarks/fio/content/gettime.c:314-331 | for every cycles_per_msec from 1 to 10^9 the search for clock_shift does not overflow and ends at 22 |
| Clock.BlockFits | benchmarks/fio/content/gettime.c:352-353 | a block of at most an hour of cycles times the multiplier fits 64 bits |
| Clock.CountHalvings | benchmarks/fio/content/gettime.c:324-328 | the halving loop finds the highest one bit |
| Clock.LowBits | benchmarks/fio/content/gettime.c:355-357 | the or-loop builds the mask of that many low bits |
| Clock.CpuClock.Calibrate | benchmarks/fio/content/gettime.c:314-357 | with 64-bit arithmetic throughout, the static variables become shift 22, multiplier 2^22 * 10^6 / cycles_per_msec rounded down, the largest power of two of cycles in an hour, its mask and its nanoseconds |
| Clock.CpuClock.GetTime | benchmarks/fio/content/gettime.c:203-209 | seconds and nanoseconds of the timespec add up to the converted cycle count, and the nanoseconds are below 10^9 |
| Clock.MaskedProductFits | benchmarks/fio/content/gettime.c:206-206 | the masked multiplication never overflows, however large the cycle count |
| Clock.CycleStep | benchmarks/fio/content/gettime.c:203-206 | each cycle adds the multiplier's whole nanoseconds or one more, inside a block and across its end alike |
| Clock.Monotone | benchmarks/fio/content/gettime.c:203-206 | time never runs backwards |
| Clock.NeverAhead | benchmarks/fio/content/gettime.c:203-206 | the time never exceeds t * 10^6 / cycles_per_msec |
| Clock.LagBound | benchmarks/fio/content/gettime.c:203-206 | it lags that value by less than t / 2^22 + (t shifted by the block size) + 1 nanoseconds |
| Clock.NoWrap | benchmarks/fio/content/gettime.c:203-206 | as long as the time fits 64 bits the code computes it without wrapping |
| Clock.FitsInTime | benchmarks/fio/content/gettime.c:203-206 | it does fit whenever t * 10^6 is below cycles_per_msec * 2^64 |
| Clock.ReadingsInOrder | benchmarks/fio/content/gettime.c:203-209 | two readings in order and in range give computed times in order, never ahead |
| Pacing.SplitSeconds | benchmarks/fio/content/backend.c:797-802 | splitting off whole seconds loses nothing: the sum is bytes * 10^6 / bps rounded down |
| Pacing.UsecExact | benchmarks/fio/content/backend.c:797-802 | the 64-bit result is that value if and only if the remainder's product and the result fit 64 bits |
| Pacing.RateFits | benchmarks/fio/content/backend.c:797-802 | so it is exact for every rate with bps * 10^6 up to 2^64 |
| Pacing.IssuedWhenDue | benchmarks/fio/content/io_u.c:702-762 | whatever direction rate_ddir settles on, the unit goes out before its bytes are due exactly at the very moment of a timeout that comes before the due time |
| Pacing.BytesWithinRate | benchmarks/fio/content/io_u.c:702-762 | in every run, single-direction or mixed, the bytes issued in a rated direction by microsecond t stay below bps * (t + 1) / 10^6 plus one unit, for every t before a timeout, and for every t when the job can switch to an unlimited direction |
| Pacing.HeldOnlyAhead | benchmarks/fio/content/io_u.c:714-740 | in every run, at or past the timeout too, a unit is held back exactly when its direction is rated and ahead of its rate and so is the other one when the job could switch |
| Pacing.PlanMeans | benchmarks/fio/content/io_u.c:708-752 | the same of the plan, whatever branches compute it |
| Pacing.NeverFarBehind | benchmarks/fio/content/io_u.c:702-762 | in every run, single-direction or mixed, what was issued in a rated direction before a unit goes out is at least the rate times the time, less the time the job idled between rounds or overslept |
| Pacing.EarlyAtTimeout | benchmarks/fio/content/io_u.c:745-760 | for every rate, size and timeout, and every t from the timeout on, unless the job can switch to an unlimited direction: a run of rounds at the very moment of the timeout whose bytes exceed the bound at t |
| Pacing.BoundExact | benchmarks/fio/content/io_u.c:702-762 | so, with rates and times in the range of the 64-bit arithmetic, the bound holds at t in every run if and only if there is no timeout, t is before it, or the job can switch to an unlimited direction |
| Pacing.RateControl.ChooseDdir | benchmarks/fio/content/io_u.c:702-762 | a due direction goes out at once, the one asked for first; otherwise the job sleeps exactly until the first direction it may issue is due, or until a timeout that comes before, and issues that one; and exactly when it stops |
| Pacing.RateControl.CountIssue | benchmarks/fio/content/backend.c:1195-1198 | counts the bytes of an issued unit and sets when they are due |
| Fifo.PutAppends | benchmarks/fio/content/fifo.c:50-71 | fifo_put appends as many bytes as there is room for, and returns that count, through masks, wraps and both segments |
| Fifo.GetRemoves | benchmarks/fio/content/fifo.c:73-98 | fifo_get returns the oldest bytes and leaves the rest in order, also when the indices start over at zero |
| Fifo.PutSegsAppend | benchmarks/fio/content/fifo.c:56-61 | the two segments of a put land behind the contents and overwrite none of them |
| Fifo.GetSegsTake | benchmarks/fio/content/fifo.c:83-89 | the two segments of a get are the oldest bytes, and the rest starts behind them |
| Fifo.RoomLeft | benchmarks/fio/content/fifo.h:39-42 | fifo_room, in 32-bit arithmetic, is the size minus the queued bytes |
| Fifo.HeadSlot | benchmarks/fio/content/fifo.c:57-58 | the masked in index is the slot behind the contents, through any wrap at 2^32 |
| Fifo.ExactlyOnce | benchmarks/fio/content/fifo.c:50-98 | over any sequence of calls the bytes handed out followed by the bytes still queued are the bytes accepted, in order and once each |
| Fifo.FifoBuffer.constructor | benchmarks/fio/content/fifo.c:29-42 | an empty fifo of a power-of-two size |
| Fifo.FifoBuffer.Put | benchmarks/fio/content/fifo.c:50-71 | in place: the queue grows by the first n bytes of the buffer, where n is the smaller of length and room |
| Fifo.FifoBuffer.Get | benchmarks/fio/content/fifo.c:73-98 | in place: the queue loses its first n bytes, which are the first n of the caller's buffer if there is one; the rest of that buffer is untouched |
| Eta.CallbackExact | benchmarks/fio/content/client.c:280-289 | in every run of requests, replies, late replies (which find no command and are dropped), timeouts and removals: pending is the clients in flight with the object plus those idle when it was requested; the callback runs at most once, together with the free, exactly when there were clients, none was idle and none holds it any more; no assertion fires and no freed object is touched |
| Eta.IdleForever | benchmarks/fio/content/client.c:2043-2044 | an object requested while some client was idle is never freed and its callback never runs |
| Eta.IdleRun | benchmarks/fio/content/client.c:2034-2044 | a run whose only client is idle when it is asked: the object is left with nobody in flight |
| Eta.HandlersSafe | benchmarks/fio/content/client.c:1408-1426 | the assertions of request and reply hold and the object decremented is allocated and not freed |
| Eta.RequestAsks | benchmarks/fio/content/client.c:2034-2051 | a request puts exactly the running clients that are not in flight in flight with the new object, their command pending exactly if it was delivered, and leaves the others as they were |
| Eta.RequestMakes | benchmarks/fio/content/client.c:2021-2056 | it makes one object that counts the clients there are and the idle ones, and leaves the other objects alone |
| Eta.AskedUntilSettled | benchmarks/fio/content/client.c:2021-2090 | in every run an asked client stays in flight with that object, its command pending if it was delivered, until a reply, a timeout or its removal |
| Eta.SettledOnce | benchmarks/fio/content/client.c:1408-1426 | a reply or timeout takes the client out of flight, and the object it awaited, no other, gets one answer less |
| Eta.RemovedForGood | benchmarks/fio/content/client.c:310-336 | in every run a removed client stays removed |
| Eta.StepKeeps | benchmarks/fio/content/client.c:2021-2090 | every handler keeps the accounting |
| Eta.EtaTable.RequestClientEtas | benchmarks/fio/content/client.c:2021-2059 | the two loops perform the Request step |
| Eta.EtaTable.AskClients | benchmarks/fio/content/client.c:2036-2051 | asks exactly the running clients not in flight and counts those skipped |
| Eta.EtaTable.GiveBackSkipped | benchmarks/fio/content/client.c:2053-2056 | gives back one answer for each skipped client, and stops if that frees the object |
| Eta.EtaTable.DecJobsEta | benchmarks/fio/content/client.c:280-289 | one answer less; the last one runs the callback and frees |
| Eta.EtaTable.HandleEta | benchmarks/fio/content/client.c:1408-1426 | performs the Reply step; its assertion holds |
| Eta.EtaTable.HandleCmdTimeout | benchmarks/fio/content/client.c:2064-2084 | performs the Timeout step |
| Eta.EtaTable.RemoveClient | benchmarks/fio/content/client.c:310-336 | performs the Remove step |
| Bits.AndMask | benchmarks/fio/content/fifo.c:57-58 | masking with a power of two minus one is reduction modulo that power |
| Bits.ClearLowestBit | benchmarks/fio/content/io_u_queue.c:32-33 | the test n and n - 1 recognises only powers of two |

## Left out

- Concurrency in methods: filelock.c, fio_sem.c, flow.c and the reader of verify.c run on several threads, so they are transition systems over atomic steps; the classes beside them (`FilelockData`, `FlowTable`) show what one section does when nothing interferes.
- fio_filelock_exit, fio_sem_down_timeout, and unlocking a file that the caller does not hold.
- Files of different names with equal hash share a lock in the source and in the model.
- The red-black tree library is not part of this model: the tree may have any shape, and the library is only taken to keep the in-order contents.
- WriteHistory.History.UnlogIoPiece: does not cover a piece that was erased as overlapped while in flight and is unlogged later; unlog is restricted to pieces still linked.
- WriteHistory.History.TrimIoPiece: does not cover a residual larger than the transfer, or a transfer larger than the piece, because those lengthen the piece; lengthening would not keep pieces disjoint.
- WriteHistory.OverlapMeansSharedByte: offsets and lengths are unbounded, so the wrap of offset + length at 2^64 is not modelled.
- UnitQueues.UnitRing.RInit: covers an iodepth below 2^31; above it the rounded size or its index no longer fits 32 bits.
- Offload submission, asynchronous and experimental verification, verify backlog, zoned devices, multi-range trim, units on the verify list, td->parent, and the teardown in cleanup_io_u.
- IoUnits.SubmitKeeps: overlap is compared as the source does, on offset and buflen without regard to the file.
- IoUnits.TdIoQueueKeeps: a fatal engine error leaves the unit with the job, as in the source, where the job then ends; what happens to the unit afterwards is not modelled.
- In the in-flight log: do_verify, which takes units from the same lists, turns them into reads and reuses numberio; do_dry_run, which raises io_issues without logging; a fatal engine error (IoUnits has it as an answer, InflightLog does not); and a log loaded from a verify-state file.
- SavedState.RunInv: one reader between two clears of the log; acquire and release are taken as sequentially consistent.
- Flow.RatioTest: the ratios are exact reals; rounding of double, and the wrap of the counters at their machine width, are not modelled.
- FlowList.FlowTable.InitJob: requires flow_get to succeed, because flow_init_job uses its result without a test.
- The averaging of samples in calibrate_cpu_clock (floating point), ARCH_CPU_CLOCK_CYCLES_PER_USEC, and the flags of ARCH_CPU_CLOCK_WRAPS.
- Clock.CpuClock.Calibrate: covers 1 to 10^9 cycles per millisecond; with none the source would divide by zero.
- Poisson pacing, rate_ign_think, rate_process other than linear, and units that are requeued, which skip rate_ddir.
- Pacing.BytesWithinRate: a sleep is taken to last its full time unless the job is terminated.
- Fifo.FifoBuffer.constructor: requires a power-of-two size, which the masks take for granted.
- The texts and sums of ETA records, the limit of consecutive timeouts (a removal may come at any time), and reuse of a freed reply's address as a new tag.
- User interface, option parsing, sockets, files and processes, statistics and output, cconv.c, blktrace merging, and the job accounting of run_threads: not related to these protocols, or without a clean property to prove.

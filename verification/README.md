# The kernel's promises, proved

The kernel is FreeRTOS's scheduler and blocking objects as one state machine over array indices: no
pointers, no stacks, no heap.  This project models its five parts in Dafny and proves what they promise
for every input, every history and any number of tasks, wraps and rounds.

| file | part of the kernel | main results |
|---|---|---|
| `Basics.dfy` | what the parts share | |
| `Extents.dfy`, `ExtentPool.dfy` | the first-fit, coalescing extent allocator under queues and stream buffers | live and free extents tile the used part; holes never outnumber live extents; the state depends only on what is live |
| `QueueRing.dfy`, `QueueStore.dfy` | queues, semaphores and mutexes over one slot pool | each queue is its own bounded deque, whatever is created, deleted or sent beside it; first in, first out over any history |
| `QueueLocks.dfy` | the interrupt lock counts | no wake-up is lost, no send goes unanswered, and exactly when the cap is harmless |
| `QueueSets.dfy` | queue sets | announcements are conserved |
| `StreamRing.dfy`, `StreamStore.dfy` | stream and message buffers over one byte arena | messages come out whole and in order over any interleaving |
| `Sleepers.dfy`, `DeadSleepers.dfy`, `Ticks.dfy` | the wrapping tick, the two delayed lists, tickless stepping, pended ticks, periodic delays | a refinement of time that never wraps, suspensions and jumps included; delays are exact, an early wake-up is not repeated, and exactly when a task freed in its sleep ends that |
| `Waits.dfy` | block times across retries | charged exactly once |
| `EventGroups.dfy`, `Barriers.dfy` | event groups, and sync as a barrier | nobody sleeps on what is there; the barrier is reusable |
| `TwoCores.dfy` | which core to interrupt, and what a core picks | optimal whenever settled, and exactly which steps end that; fair within a level; no stall |
| `TaskLists.dfy`, `Scheduler.dfy` | one core's lists, switch, priorities and mutexes | list laws, highest priority runs, mutex books balance |
| `Reaping.dfy`, `TaskKernel.dfy` | creation, deletion, notification and deferred freeing over the two cores | what a core holds is live; freed once; the cores stay defended |
| `Revival.dfy` | a deleted task until it is freed | exactly when it is ready or runs again |
| `ReapingOrder.dfy` | the order of the freeing | oldest first, and exactly when not |

`dafny verify dfyconfig.toml` checks all of it.

## How it is modelled

- An object that the kernel changes in place is a class here.  Its methods follow the kernel's functions
  and are proved against functions on values (`View()`, `Clock()`, a ghost `model` field); the laws are
  lemmas about those functions, and the invariants are `Valid()`.
- A loop the kernel has is a loop here: the allocator's walk, the drains, the event group's walk that
  removes from the list it stands in, the core scans, the nested pick.
- The list and the arena are library types whose source is not part of this model.  A list is a sequence
  with a stable sorted insert, an insert at the end, a removal and a move to the end.  Where the place in
  a sorted list does not matter (`Scheduler.dfy`) the insert goes anywhere in it.  An arena never issues
  a live handle twice.
- A word of an event group is the set of its one bits, numbered from the low end (`EventGroups.Word`):
  `|` is union, `&` intersection, `& !` difference.  Bit 24 is `0x0100_0000`, and so on.
- The tick takes `width` = `MAX_DELAY` + 1 values.  Ghost time is the epoch's start plus the tick;
  widths, wraps and the 32-bit and eight-bit counts are written out.
- A critical section is atomic; a tick or an interrupt is a step of its own.

## What the code does, where that is not what is said of it

- The free lists are coalesced but not sorted, because a removal moves the last entry down; a field
  comment calls them sorted (`kernel.rs:550-551`).  Nothing proved here needs an order.
- `queue_delete` says that only the end of the arena comes back (`queue.rs:228-235`); its allocator takes
  any extent back, and that is what is modelled.
- A stream buffer create that is refused its descriptor keeps the bytes it took (`stream.rs:164-192`):
  `StreamStores.StreamStore.NewStreamBuffer` says exactly when and which.  A queue create gives its slots
  back (`queue.rs:402-410`).
- An interrupt's overwrite of an item that is there, made while the queue is locked, counts as an arrival
  (`queue.rs:781-783`), and a set is told of it later.  `QueueSets.SendLockedExact` has the exact
  condition.
- Two mutex paths follow the C and can leave a ready task above what runs with no switch due.
  `Scheduling.Scheduler.GiveMutex` and `Scheduling.Scheduler.DisinheritAfterTimeout` say exactly when;
  `Scheduling.GiveUnderAThird` and `Scheduling.TimeoutRaisesHolder` are runs in which it happens.
- On two cores, a running task whose core has noted a switch, but was not asked for one, can be raised
  without any core being interrupted; its switch may then keep it, and a ready task stays above what the
  other core runs.  So it does where a mutex wait that timed out raises the holder, for which no core is
  looked for.  `TwoCores.StepSettles` has the exact condition, `TwoCores.RaiseCrowdsOut` and
  `TwoCores.LiftOvertakes` are histories.
- A timeout check more than a full turn of the tick after the last one can miss it;
  `Waits.CheckErrsExactly` says exactly when.
- A task that a core holds when it is deleted can run again.  Only the reaping looks at its mark.  Until
  then it may block on the core that still holds it (`kernel.rs:4033-4051`) or be suspended by its handle
  (`kernel.rs:4125-4146`), and then be woken or resumed; and a deletion leaves the state of its notifications
  as it was, which only its own next call or a suspension clears (`kernel.rs:3077`, `3193`, `4162-4168`), so
  that a notification that finds it Waiting readies it although it is on no list (`kernel.rs:3387-3398`).  A
  core picks it like any other.  `Revival.ReadyAgainExactlyIf` and `Revival.DeletedRunsAgainExactlyIf` say
  exactly when; `Revival.DeletedTaskSleepsAndRuns`, `Revival.DeletedTaskResumesAndRuns` and
  `Revival.DeletedTaskIsNotifiedAndRuns` are runs.  It is not freed while it runs
  (`Reaping.RunningTasksLive`).
- Freed while it sleeps, such a task leaves its item on the delayed list (`ReapingOrder.SleeperIsReaped`).  Once
  that item is due at the head, the walk that wakes tasks returns before it removes it
  (`kernel.rs:3809-3811`), at every tick, and nobody behind it is readied by time while the slot stays free.
  `DeadSleepers.DelayIsExactUnlessObstructed` has the exact condition,
  `DeadSleepers.DeadSleeperStopsAnother` a run.
- Deleted tasks are reaped in order until the 32-bit mark wraps while one waits, or a task is deleted twice
  (`ReapingOrder.StepKeepsLine`).  After the second the count of waiting tasks is too high, and the branch for a
  count with nobody marked, which a comment calls unreachable (`kernel.rs:4456-4457`), is taken
  (`ReapingOrder.SecondDeletionLosesCount`); nothing a core holds is freed by it.
- A periodic delay called whole turns of the tick late can delay when it should not (`Ticks.LateCallErrs`).
- The eight-bit lock counts need at most 127 tasks (`QueueLocks.CapFitsEightBits`).

## Model

| member | source | states |
|---|---|---|
| Extents.HistoryIndependent | crates/rusty_rtos_kernel-core/src/queue.rs:320-381 | live extents fix the holes and the bump pointer: two coalesced tilings with the same live extents are the same, whatever creates and deletes led to them |
| Extents.EmptyExactlyWhenNothingLive | crates/rusty_rtos_kernel-core/src/queue.rs:347-381 | the pool is empty again, no hole and the pointer at 0, exactly when nothing live is left |
| Extents.HolesAtMostLive | crates/rusty_rtos_kernel-core/src/kernel.rs:550-560 | there are never more holes than live extents, so a free list with an entry a descriptor cannot overflow |
| Extents.ExtendEnd | crates/rusty_rtos_kernel-core/src/queue.rs:336-342 | an extent taken at the bump pointer keeps the tiling |
| Extents.DropEnd | crates/rusty_rtos_kernel-core/src/queue.rs:371-376 | an extent given back at the end lowers the pointer and keeps the tiling |
| Extents.SplitPiece | crates/rusty_rtos_kernel-core/src/queue.rs:324-335 | an extent cut in two still tiles |
| ExtentPools.TakePart | crates/rusty_rtos_kernel-core/src/queue.rs:324-335 | a fitting part cut from the front of a hole is live and the rest a hole, and no two holes touch |
| Extents.JoinPieces | crates/rusty_rtos_kernel-core/src/queue.rs:354-370 | a returned extent merged with a neighbour keeps the tiling |
| ExtentPools.SwapRemoveElems | crates/rusty_rtos_kernel-core/src/queue.rs:383-393 | removal by moving the last entry down loses exactly the removed entry, so the list is a set without an order |
| ExtentPools.GivingJoins | crates/rusty_rtos_kernel-core/src/queue.rs:354-370 | one merge of the coalescing walk keeps what the walk has established of the entries seen so far |
| ExtentPools.GivingEndsAtTail | crates/rusty_rtos_kernel-core/src/queue.rs:371-376 | a walk that ends at the pointer leaves a coalesced tiling without the extent |
| ExtentPools.GivingEndsOnList | crates/rusty_rtos_kernel-core/src/queue.rs:377-381 | a walk that ends on the list leaves a coalesced tiling with the merged hole |
| ExtentPools.GivingStrands | crates/rusty_rtos_kernel-core/src/queue.rs:377-381 | what happens where the list has no entry left: exactly the merged extent is lost |
| ExtentPools.GivingNeedsRoom | crates/rusty_rtos_kernel-core/src/queue.rs:377-381 | while live and stranded extents fit the list, it has an entry for one more hole |
| ExtentPools.ExtentPool.DropFree | crates/rusty_rtos_kernel-core/src/queue.rs:383-393 | the in-place removal is the swap-remove of the list |
| ExtentPools.ExtentPool.Take | crates/rusty_rtos_kernel-core/src/queue.rs:320-343 | first fit, then the end: fails exactly if neither has room, and a success makes one extent live and moves no other |
| ExtentPools.ExtentPool.Coalesce | crates/rusty_rtos_kernel-core/src/queue.rs:354-370 | after the walk nothing on the list touches the merged extent |
| ExtentPools.ExtentPool.Give | crates/rusty_rtos_kernel-core/src/queue.rs:347-381 | giving back makes exactly that extent not live, keeps the tiling coalesced, and strands nothing while the list has as many entries as extents can be live |
| QueueRings.CellIsModular | crates/rusty_rtos_kernel-core/src/queue.rs:1962-1979 | the two wrapping steps count modulo the length: the write cursor is (read cursor + 1 + waiting) mod length |
| QueueRings.OverwriteKeepsRing | crates/rusty_rtos_kernel-core/src/queue.rs:1225-1262 | an overwrite leaves a ring of data consistent exactly if nothing was waiting or the length is one |
| QueueRings.SendKeepsRing | crates/rusty_rtos_kernel-core/src/queue.rs:1191-1273 | every send the code admits keeps the cursor law |
| QueueRings.SentBack | crates/rusty_rtos_kernel-core/src/queue.rs:1191-1273 | a send to the back is read last, everything else where it was |
| QueueRings.SentFront | crates/rusty_rtos_kernel-core/src/queue.rs:1191-1273 | a send to the front, and an overwrite, is read next |
| QueueRings.SendIsPut | crates/rusty_rtos_kernel-core/src/queue.rs:1191-1273 | one send on the ring is one put on the bounded deque it stands for |
| QueueRings.FirstInFirstOut | crates/rusty_rtos_kernel-core/src/queue.rs:1191-1273 | over any history of sends to the back and receives, what was handed over and then what is left is what was there and then what arrived |
| QueueRings.NothingLostOrMadeUp | crates/rusty_rtos_kernel-core/src/queue.rs:1349-1473 | of every kind and from every position, what was there and what arrived is what was handed over and what is left, never more than there is room for |
| QueueRings.PutExactly | crates/rusty_rtos_kernel-core/src/queue.rs:1191-1273 | what a send leaves, item by item, by position and kind |
| QueueRings.TakeIsGot | crates/rusty_rtos_kernel-core/src/queue.rs:1349-1473 | one receive hands over the deque's front item and leaves the rest, and makes the taker of a mutex its holder |
| QueueRings.WriteElsewhere | crates/rusty_rtos_kernel-core/src/queue.rs:1191-1273 | a write in one queue's slots is invisible to a queue whose slots are apart from it |
| QueueStores.OneQueueMoved | crates/rusty_rtos_kernel-core/src/queue.rs:1191-1273 | whatever one queue does with its own slots and cursors, every other queue's contents stay |
| QueueStores.QueueJoins | crates/rusty_rtos_kernel-core/src/queue.rs:395-410 | a new queue on slots nobody held starts empty and changes nobody's contents |
| QueueStores.QueueLeaves | crates/rusty_rtos_kernel-core/src/queue.rs:214-243 | a deleted queue changes nobody else's contents |
| QueueStores.ExtentsAtMostQueues | crates/rusty_rtos_kernel-core/src/queue.rs:347-381 | there are no more live extents than live descriptors |
| QueueStores.QueueTable.CopyDataToQueue | crates/rusty_rtos_kernel-core/src/queue.rs:1191-1273 | the array write and the cursor step are one put in the model, item by item as PutExactly has it, and of no other queue |
| QueueStores.QueueTable.Send | crates/rusty_rtos_kernel-core/src/queue.rs:751-787 | refused exactly when full and no overwrite; otherwise one put; a stale handle is an error |
| QueueStores.QueueTable.Receive | crates/rusty_rtos_kernel-core/src/queue.rs:1349-1473 | an error exactly when empty or stale; otherwise the front item, which a peek leaves there and a receive takes out, making the taker of a mutex its holder |
| QueueStores.QueueTable.QueueReset | crates/rusty_rtos_kernel-core/src/queue.rs:508-520 | the ring's half of a reset: the queue is empty, its slots and every other queue as they were |
| QueueLocks.LockableQueue.QueueReset | crates/rusty_rtos_kernel-core/src/queue.rs:518-526 | the lists' half: both halves unlocked without a drain, one sender woken if any is parked, the receivers left |
| QueueStores.QueueTable.Insert | crates/rusty_rtos_kernel-core/src/queue.rs:402-403 | the arena issues a handle never issued before |
| QueueStores.QueueTable.Discard | crates/rusty_rtos_kernel-core/src/queue.rs:239-240 | a stale handle names nothing, every other queue is as it was |
| QueueStores.QueueStore.TakeSlots | crates/rusty_rtos_kernel-core/src/queue.rs:320-343 | slots for a queue of data, none for one without |
| QueueStores.QueueStore.GiveBack | crates/rusty_rtos_kernel-core/src/queue.rs:404-409 | slots returned by a refused create leave holes and pointer as they were before it |
| QueueStores.QueueStore.GiveSlots | crates/rusty_rtos_kernel-core/src/queue.rs:347-381 | a deleted queue's slots are no longer live and nothing is stranded |
| QueueStores.QueueStore.NewQueue | crates/rusty_rtos_kernel-core/src/queue.rs:395-410 | when a create succeeds and which error it gives otherwise; a refusal leaves pool and queues untouched, a success adds one empty queue |
| QueueStores.QueueStore.QueueDelete | crates/rusty_rtos_kernel-core/src/queue.rs:214-243 | one queue goes, the others stay, and its slots come back, over any history of creates and deletes |
| QueueLocks.CapFitsEightBits | crates/rusty_rtos_kernel-core/src/queue.rs:898-925 | the capped eight-bit count is min(uses, tasks) for every number of uses exactly if there are at most 127 tasks |
| QueueLocks.CountIsCapped | crates/rusty_rtos_kernel-core/src/queue.rs:898-911 | with at most 127 tasks the count after n uses is min(n, tasks) |
| QueueLocks.LockedRun | crates/rusty_rtos_kernel-core/src/queue.rs:751-787 | while locked, interrupts wake nobody and the two counts are the sends and receives that went through, capped |
| QueueLocks.NoWakeUpIsLost | crates/rusty_rtos_kernel-core/src/queue.rs:1728-1862 | between any lock and unlock the unlock wakes exactly min(sends, receivers parked) receivers and min(receives, senders parked) senders, from the head of the list |
| QueueLocks.NoSendGoesUnanswered | crates/rusty_rtos_kernel-core/src/queue.rs:751-787 | over any history of interrupts, parked tasks, locks and unlocks: while a receiver stays parked, every send that went through has taken a receiver off the list, but for those under the present lock, which it counts |
| QueueLocks.WokenAreHighest | crates/rusty_rtos_kernel-core/src/kernel.rs:5083-5105 | of the receivers and of the senders, nobody the unlock leaves waiting outranks anybody it wakes |
| QueueLocks.ParkBehindEquals | crates/rusty_rtos_kernel-core/src/kernel.rs:5083-5105 | a waiter goes right behind everybody of its priority or more, and nobody else moves |
| QueueLocks.ParkFacts | crates/rusty_rtos_kernel-core/src/kernel.rs:5083-5105 | the list stays ordered and gains that one waiter |
| QueueLocks.LockableQueue.LockQueue | crates/rusty_rtos_kernel-core/src/queue.rs:1728-1739 | an unlocked half becomes locked with nothing counted, a locked one keeps its count |
| QueueLocks.LockableQueue.QueueSendFromIsr | crates/rusty_rtos_kernel-core/src/queue.rs:751-787 | refused when full; on an unlocked queue the head receiver, if any, leaves the list and is readied; on a locked one nobody is and the send is counted; the other half stays |
| QueueLocks.LockableQueue.QueueReceiveFromIsr | crates/rusty_rtos_kernel-core/src/queue.rs:831-893 | refused when empty; on an unlocked queue the head sender, if any, leaves the list and is readied; on a locked one the receive is counted; the other half stays |
| QueueLocks.LockableQueue.DrainTx | crates/rusty_rtos_kernel-core/src/queue.rs:1824-1862 | the drain's loop wakes the first `txLock` receivers or all there are |
| QueueLocks.LockableQueue.DrainRx | crates/rusty_rtos_kernel-core/src/queue.rs:1824-1862 | the same for senders |
| QueueLocks.LockableQueue.UnlockQueue | crates/rusty_rtos_kernel-core/src/queue.rs:1748-1803 | both halves in turn, then neither is locked |
| QueueSets.AnnouncementsAreConserved | crates/rusty_rtos_kernel-core/src/queue.rs:673-703 | over any history, handles on the set + announcements held back by the lock + selections in hand = items waiting, of every member |
| QueueSets.RoomForOneMore | crates/rusty_rtos_kernel-core/src/queue.rs:674-679 | a set as long as its members together is never full when an announcement comes |
| QueueSets.TaskSendKeeps | crates/rusty_rtos_kernel-core/src/queue.rs:1058-1071 | a task's arrival at a member is announced once and for certain, locked or not; an overwrite of a present item is not announced |
| QueueSets.SendUnlocked | crates/rusty_rtos_kernel-core/src/queue.rs:768-776 | and so is an interrupt's at a member that is not locked |
| QueueSets.SendLockedExact | crates/rusty_rtos_kernel-core/src/queue.rs:782-784 | an interrupt's send under the lock keeps the balance exactly if it is an arrival below the cap, or an overwrite of a present item at it |
| QueueSets.UnlockKeeps | crates/rusty_rtos_kernel-core/src/queue.rs:1830-1839 | an unlock announces exactly what its lock held back, with room for all of it |
| QueueSets.NotifyPays | crates/rusty_rtos_kernel-core/src/queue.rs:1830-1839 | each turn of the drain pays one announcement owed |
| QueueSets.SelectKeeps | crates/rusty_rtos_kernel-core/src/queue.rs:622-637 | a selection takes the oldest announcement and loses none |
| QueueSets.SelectionFindsItem | crates/rusty_rtos_kernel-core/src/queue.rs:622-637 | whoever selected a member finds an item on it |
| QueueSets.RemovedLeavesNothing | crates/rusty_rtos_kernel-core/src/queue.rs:591-612 | a member that may be removed has left no announcement anywhere |
| QueueSets.AddedBalances | crates/rusty_rtos_kernel-core/src/queue.rs:570-585 | a queue that may be added is in balance exactly if its lock holds nothing back |
| QueueSets.QueueSet.QueueAddToSet | crates/rusty_rtos_kernel-core/src/queue.rs:570-585 | refused exactly for a target that is no set, and for a queue that is in this set or another or has items waiting; a queue is in one set at most |
| QueueSets.OverwriteIsAnnouncedTwice | crates/rusty_rtos_kernel-core/src/queue.rs:768-785 | an interrupt's overwrite, under a lock, of the one item there is, after whose unlock the set announces two |
| QueueSets.SendAtTheCapIsLost | crates/rusty_rtos_kernel-core/src/queue.rs:898-911 | an interrupt's send, under a lock, with the count at its cap, after whose unlock the set announces one item of two |
| QueueSets.QueueSet.QueueRemoveFromSet | crates/rusty_rtos_kernel-core/src/queue.rs:591-612 | refused exactly for a queue not in that very set or with items waiting |
| QueueSets.QueueSet.NotifyQueueSetContainer | crates/rusty_rtos_kernel-core/src/queue.rs:673-703 | one handle at the back of the set, or nothing where it is full |
| QueueSets.QueueSet.SendToMember | crates/rusty_rtos_kernel-core/src/queue.rs:1058-1071 | the copy and the announcement of a task's send, which does not look at the lock |
| QueueSets.QueueSet.SendToMemberFromIsr | crates/rusty_rtos_kernel-core/src/queue.rs:751-785 | the copy of an interrupt's send, and its announcement, or its count where the member is locked |
| QueueSets.QueueSet.UnlockQueue | crates/rusty_rtos_kernel-core/src/queue.rs:1824-1862 | the drain's loop announces once for each send counted |
| QueueSets.QueueSet.QueueSelectFromSet | crates/rusty_rtos_kernel-core/src/queue.rs:622-637 | the oldest announcement, or none |
| QueueSets.QueueSet.ReceiveFromMember | crates/rusty_rtos_kernel-core/src/queue.rs:1349-1473 | one item less on the member and one selection less in hand |
| StreamRings.SpareByte | crates/rusty_rtos_kernel-core/src/stream.rs:74-99 | bytes held and spaces free always add up to length - 1, so full and empty differ |
| StreamRings.PokeAppends | crates/rusty_rtos_kernel-core/src/stream.rs:1132-1165 | a wrapping write within the free space appends to the contents |
| StreamRings.PokeTwice | crates/rusty_rtos_kernel-core/src/stream.rs:1041-1071 | prefix then data is the write of both in one |
| StreamRings.PeekTakes | crates/rusty_rtos_kernel-core/src/stream.rs:1183-1214 | a wrapping read is a prefix of the contents |
| StreamRings.PeekTwice | crates/rusty_rtos_kernel-core/src/stream.rs:1183-1214 | reading on where a read stopped reads the rest |
| StreamRings.PokeElsewhere | crates/rusty_rtos_kernel-core/src/stream.rs:1132-1165 | a write in one ring's bytes is invisible to a ring apart from it |
| StreamRings.DecodeEncode | crates/rusty_rtos_kernel-core/src/stream.rs:1228-1262 | a length below 256^w, little-endian in w bytes and back, is the length |
| StreamRings.DecodeIsCut | crates/rusty_rtos_kernel-core/src/stream.rs:1228-1262 | any length, little-endian in w bytes and back, is the length modulo 256^w |
| StreamRings.PrefixIsLittleEndian | crates/rusty_rtos_kernel-core/src/stream.rs:1040-1060 | byte k of a prefix is the k-th byte of the length, from the low end |
| StreamRings.PrefixRoundTrips | crates/rusty_rtos_kernel-core/src/stream.rs:1041-1061 | a length survives its prefix exactly if it is below 256^w |
| StreamRings.FirstFrame | crates/rusty_rtos_kernel-core/src/stream.rs:1076-1114 | the first w bytes of a frame sequence say how long its first message is, which follows them |
| StreamRings.FramesInjective | crates/rusty_rtos_kernel-core/src/stream.rs:1017-1114 | two lists of messages that frame to the same bytes are the same list |
| StreamStores.LaidIsSent | crates/rusty_rtos_kernel-core/src/stream.rs:1017-1073 | what a send lays in the ring is one whole send of the channel, or nothing; a message of no bytes moves nothing |
| StreamStores.SendExactly | crates/rusty_rtos_kernel-core/src/stream.rs:1066-1072 | in sizes: a stream takes the smaller of the data and the free space, a message buffer the whole message or none, exactly if it is not empty and fits with its prefix |
| StreamStores.ReceiveExactly | crates/rusty_rtos_kernel-core/src/stream.rs:1076-1114 | in sizes: a stream hands over the smallest of the room, what was seen and what is there, a message buffer its first message exactly if it is no longer than the room |
| StreamStores.SendKeepsSample | crates/rusty_rtos_kernel-core/src/stream.rs:844-876 | what the reader saw stays good while the writer goes on sending |
| StreamStores.SampleHoldsFirst | crates/rusty_rtos_kernel-core/src/stream.rs:875-891 | a reader that sees more than a prefix sees a whole message |
| StreamStores.TakenMessage | crates/rusty_rtos_kernel-core/src/stream.rs:1076-1114 | the prefix read is the first message's length and the bytes behind it are the message |
| StreamStores.MessageLeaves | crates/rusty_rtos_kernel-core/src/stream.rs:1076-1114 | a message that fits leaves the buffer whole, one too long stays, its prefix too |
| StreamStores.BytesLeave | crates/rusty_rtos_kernel-core/src/stream.rs:1076-1114 | of a stream a receive takes as many bytes as there is room for |
| StreamStores.WaitingShows | crates/rusty_rtos_kernel-core/src/stream.rs:409-419 | bytes beyond a prefix are there exactly if a message is |
| StreamStores.MessagesInOrder | crates/rusty_rtos_kernel-core/src/stream.rs:1017-1114 | over any interleaving, messages handed out followed by those in the buffer are the messages accepted, whole and in order |
| StreamStores.BytesInOrder | crates/rusty_rtos_kernel-core/src/stream.rs:1017-1114 | over any interleaving, a stream buffer is a queue of bytes |
| StreamStores.OneBufferMoved | crates/rusty_rtos_kernel-core/src/stream.rs:1017-1073 | whatever one buffer does in its bytes, every other buffer's contents stay |
| StreamStores.BufferJoins | crates/rusty_rtos_kernel-core/src/stream.rs:164-206 | a new buffer starts empty and changes nobody's contents |
| StreamStores.BufferLeaves | crates/rusty_rtos_kernel-core/src/stream.rs:287-302 | a deleted buffer changes nobody else's contents |
| StreamStores.StreamTable.WriteBytesInto | crates/rusty_rtos_kernel-core/src/stream.rs:1132-1165 | the two copies are the wrapping write |
| StreamStores.StreamTable.ReadBytesFrom | crates/rusty_rtos_kernel-core/src/stream.rs:1183-1214 | the two copies are the wrapping read |
| StreamStores.StreamTable.LayMessage | crates/rusty_rtos_kernel-core/src/stream.rs:1039-1073 | the bytes laid, how many are accepted in terms of the sizes, and where the head goes |
| StreamStores.StreamTable.WriteMessage | crates/rusty_rtos_kernel-core/src/stream.rs:1017-1073 | one send of the channel against the space last seen, in sizes as SendExactly has it, and of no other buffer |
| StreamStores.StreamTable.ReadLengthPrefix | crates/rusty_rtos_kernel-core/src/stream.rs:1228-1262 | the little-endian number at the tail, and where the message starts |
| StreamStores.StreamTable.TakeFramed | crates/rusty_rtos_kernel-core/src/stream.rs:1076-1114 | the first message whole, or nothing if it is longer than the room |
| StreamStores.StreamTable.TakeMessage | crates/rusty_rtos_kernel-core/src/stream.rs:1076-1114 | the same for either kind of buffer |
| StreamStores.StreamTable.ReadMessage | crates/rusty_rtos_kernel-core/src/stream.rs:1076-1114 | one receive of the channel, of no other buffer |
| StreamStores.StreamTable.SendFromIsr | crates/rusty_rtos_kernel-core/src/stream.rs:679-723 | one send against the space there is, in sizes as SendExactly has it; a stale handle is an error; a refusal changes nothing |
| StreamStores.StreamTable.ReceiveFromIsr | crates/rusty_rtos_kernel-core/src/stream.rs:896-918 | one receive of what is there, in sizes as ReceiveExactly has it; a stale handle is an error |
| StreamStores.StreamTable.NextMessageLength | crates/rusty_rtos_kernel-core/src/stream.rs:409-419 | the first message's length, 0 if there is none or it is a stream |
| StreamStores.StreamTable.Reset | crates/rusty_rtos_kernel-core/src/stream.rs:391-403 | emptied exactly if no task waits on it |
| StreamStores.StreamStore.NewStreamBuffer | crates/rusty_rtos_kernel-core/src/stream.rs:164-206 | on the state before: which creates succeed, with which error others fail, and that bytes are lost exactly when there were bytes and no descriptor, and then exactly those |
| StreamStores.StreamStore.MessageBufferCreate | crates/rusty_rtos_kernel-core/src/stream.rs:151-156 | the same for a message buffer, which must be longer than a prefix |
| StreamStores.SecondCreateStrands | crates/rusty_rtos_kernel-core/src/stream.rs:164-192 | two creates over one descriptor, of which the second strands its bytes |
| StreamStores.ReceiveKeepsSpace | crates/rusty_rtos_kernel-core/src/stream.rs:74-99 | a receive adds to the free space what it takes out, so the space a writer sampled stays there |
| StreamStores.StreamStore.StreamBufferDelete | crates/rusty_rtos_kernel-core/src/stream.rs:287-302 | one buffer goes, the others stay; with nothing stranded before, nothing is after |
| StreamStores.StreamStore.GiveBytes | crates/rusty_rtos_kernel-core/src/stream.rs:237-268 | the ring's bytes are no longer live; nothing is lost while the live and stranded extents left are no more than the list has entries |
| Sleepers.AdvanceAdds | crates/rusty_rtos_kernel-core/src/kernel.rs:2913-2993 | m ticks and then n are m + n ticks, for what is woken and in which order |
| Sleepers.TickedIsAdvance | crates/rusty_rtos_kernel-core/src/kernel.rs:2913-2993 | n ticks one at a time are n ticks at once |
| Sleepers.DelayIsExact | crates/rusty_rtos_kernel-core/src/kernel.rs:4003-4117 | where no task is freed in its sleep, a task that delays n ticks and is not otherwise woken is readied by the n-th tick and by no earlier one, whatever others do meanwhile |
| Sleepers.SleeperIsExact | crates/rusty_rtos_kernel-core/src/kernel.rs:3784-3854 | the same for any sleeper already on the list |
| Sleepers.AdvanceExactly | crates/rusty_rtos_kernel-core/src/kernel.rs:3784-3854 | time readies exactly those whose wake has come, in the order they wake, and leaves the rest as they stood |
| Sleepers.InsertBehindEquals | crates/rusty_rtos_kernel-core/src/kernel.rs:4058-4117 | a new sleeper stands right behind all who wake no later |
| Sleepers.WokenIsNotReadiedAgain | crates/rusty_rtos_kernel-core/src/kernel.rs:4985-5008 | a wake-up takes exactly that task's sleepers off, and no tick of any later history readies it unless it delays again |
| DeadSleepers.DelayIsExactUnlessObstructed | crates/rusty_rtos_kernel-core/src/kernel.rs:3809-3811 | with tasks freed in their sleep and created again: it is readied by the n-th tick and by no earlier one, exactly unless at that tick a task freed in its sleep is ahead of it on the list, and then by no tick at all |
| DeadSleepers.SleeperIsExactPast | crates/rusty_rtos_kernel-core/src/kernel.rs:3784-3854 | the same for any sleeper already on the list |
| DeadSleepers.StaysBehind | crates/rusty_rtos_kernel-core/src/kernel.rs:3809-3811 | whoever has a dead sleeper ahead of it on the list is readied by no tick, whatever others do |
| DeadSleepers.ReachIsDue | crates/rusty_rtos_kernel-core/src/kernel.rs:3784-3854 | a tick readies exactly who is due if and only if none of those is dead; else the first of the dead stays at the head |
| DeadSleepers.DeadHeadStopsAll | crates/rusty_rtos_kernel-core/src/kernel.rs:3809-3811 | with a dead sleeper at the head of the list no number of ticks readies anybody |
| DeadSleepers.DeadSleeperStopsAnother | crates/rusty_rtos_kernel-core/src/kernel.rs:3809-3811 | a run of two sleepers: the first is freed, and the second sleeps past its time through any number of ticks |
| Ticks.DrainIsAdvance | crates/rusty_rtos_kernel-core/src/kernel.rs:3784-3854 | readying the due front of the delayed list is one tick of unbounded time |
| Ticks.ListsAreSorted | crates/rusty_rtos_kernel-core/src/kernel.rs:4071-4095 | the delayed list and the overflow list behind it are together in the order their sleepers wake |
| Ticks.InsertLifts | crates/rusty_rtos_kernel-core/src/kernel.rs:4071-4095 | the library's sorted insert, in unbounded time |
| Ticks.EpochArithmetic | crates/rusty_rtos_kernel-core/src/kernel.rs:3862-3866 | the tick and the 32-bit overflow count are the unbounded time cut to their widths |
| Ticks.NothingLeft | crates/rusty_rtos_kernel-core/src/kernel.rs:2919-2923 | the delayed list is empty at every wrap |
| Ticks.PeriodsAddUp | crates/rusty_rtos_kernel-core/src/kernel.rs:5289-5300 | after n calls the reference of a periodic delay is start + n periods modulo the tick width |
| Ticks.TickKernel.ResetNextTaskUnblockTime | crates/rusty_rtos_kernel-core/src/kernel.rs:3907-3914 | never later than the first wake |
| Ticks.TickKernel.SwitchDelayedLists | crates/rusty_rtos_kernel-core/src/kernel.rs:3862-3866 | the overflow list becomes the delayed list of the next epoch |
| Ticks.TickKernel.DrainDue | crates/rusty_rtos_kernel-core/src/kernel.rs:3784-3854 | exactly the due front is readied, soonest first, up to the first item whose slot no task lives in, which stays at the head |
| Ticks.TickKernel.WakeDueTasks | crates/rusty_rtos_kernel-core/src/kernel.rs:3784-3854 | one tick of unbounded time, and the next unblock time is the first wake, exactly unless some due item is dead; then the front before it is readied and the next unblock time stays |
| Ticks.TickKernel.AdvanceToNext | crates/rusty_rtos_kernel-core/src/kernel.rs:2913-2923 | the count moves on by one in unbounded time, across a wrap or not |
| Ticks.TickKernel.IncrementTick | crates/rusty_rtos_kernel-core/src/kernel.rs:2913-2993 | one tick exactly, or one pended while the scheduler is suspended |
| Ticks.TickKernel.FileDelay | crates/rusty_rtos_kernel-core/src/kernel.rs:4071-4117 | a finite delay ends at now + n in unbounded time, on the list of the right epoch |
| Ticks.TickKernel.AddToDelayedList | crates/rusty_rtos_kernel-core/src/kernel.rs:4003-4117 | a delay of MAX_DELAY that may be indefinite suspends, every other one is filed |
| Ticks.TickKernel.RemoveFromDelayedList | crates/rusty_rtos_kernel-core/src/kernel.rs:4985-5008 | exactly the woken task's items leave both lists, the others stay in their order, and the next unblock time is the new head's if it is reset |
| Ticks.TickKernel.WakeEarly | crates/rusty_rtos_kernel-core/src/kernel.rs:3955-3990 | woken before its time, a task is readied no more by any history in which it does not delay again, across any number of wraps |
| Ticks.TickKernel.DelayUntil | crates/rusty_rtos_kernel-core/src/kernel.rs:5289-5319 | it delays exactly if a period after the last time the tick had the previous wake's value is still to come, and exactly that long |
| Ticks.LateCallErrs | crates/rusty_rtos_kernel-core/src/kernel.rs:5289-5319 | a call whole turns of the tick later than it looks is wrong exactly if it looks early enough to delay |
| Ticks.TickKernel.StepTick | crates/rusty_rtos_kernel-core/src/kernel.rs:1535-1550 | a jump stops short of the next unblock time and pends the tick that reaches it |
| Ticks.TickKernel.UnwindPendedTicks | crates/rusty_rtos_kernel-core/src/kernel.rs:4654-4663 | the pended ticks are taken, each as an ordinary tick |
| Ticks.TickKernel.ResumeAll | crates/rusty_rtos_kernel-core/src/kernel.rs:4692-4716 | the last resume takes exactly the ticks that were held back |
| Ticks.TickKernel.SuppressTicks | crates/rusty_rtos_kernel-core/src/kernel.rs:1564-1588 | suspend, jump and resume leave count, overflow count, lists and ready tasks as the same number of ordinary ticks, or as those up to the next unblock time if the port overslept |
| Ticks.TickKernel.HoldTicks | crates/rusty_rtos_kernel-core/src/kernel.rs:2984-2991 | ticks while suspended and then a resume do the same |
| Ticks.TickKernel.TakeTicks | crates/rusty_rtos_kernel-core/src/kernel.rs:2913-2993 | the ordinary ticks the two are compared with |
| Ticks.TickKernel.Execute | crates/rusty_rtos_kernel-core/src/kernel.rs:2913-2993 | any history of ticks, delays and wake-ups, across any number of wraps, is that history in unbounded time |
| Ticks.TickKernel.ExecuteAll | crates/rusty_rtos_kernel-core/src/kernel.rs:2913-2993 | and so is one with suspensions of the scheduler, resumes and tickless jumps anywhere in it: the clock is that of the plain history in which each held tick comes at the resume |
| Ticks.TicksBalance | crates/rusty_rtos_kernel-core/src/kernel.rs:4654-4663 | no tick is lost or made up by suspending or jumping: the ticks of the plain history and those still held are the ticks there were |
| Ticks.TickKernel.JumpOver | crates/rusty_rtos_kernel-core/src/kernel.rs:1535-1550 | a jump is as many ticks in unbounded time, and one at most is left pended |
| Waits.CheckIsExact | crates/rusty_rtos_kernel-core/src/kernel.rs:4875-4950 | with at most one wrap since the last check the answer is "timed out" exactly when the time passed reaches what was left |
| Waits.CheckErrsExactly | crates/rusty_rtos_kernel-core/src/kernel.rs:4920-4946 | for any time since, exactly when the answer is wrong |
| Waits.LateCheckErrs | crates/rusty_rtos_kernel-core/src/kernel.rs:4920-4946 | a check that comes 17 ticks after 8 were asked for, on a tick of ten values, and says that 1 is left |
| Waits.IndefiniteNeverTimesOut | crates/rusty_rtos_kernel-core/src/kernel.rs:4923-4927 | an indefinite wait never times out |
| Waits.ChargedExactlyOnce | crates/rusty_rtos_kernel-core/src/kernel.rs:4875-4950 | over any number of retries, what is left and what has passed since entry are what was asked for |
| Waits.WaitFrame.BeginWait | crates/rusty_rtos_kernel-core/src/kernel.rs:4737-4801 | only the first pass of a call writes the frame; no block time needs none |
| Waits.WaitFrame.EndWait | crates/rusty_rtos_kernel-core/src/kernel.rs:4804-4825 | a frame is torn down once |
| Waits.WaitFrame.CheckForTimeout | crates/rusty_rtos_kernel-core/src/kernel.rs:4875-4950 | an abort ends the wait once; otherwise the check, and the frame it leaves |
| EventGroups.PackRoundTrips | crates/rusty_rtos_kernel-core/src/events.rs:43-51 | a condition on low 24 bits survives its packing into an item value |
| EventGroups.AnswerRoundTrips | crates/rusty_rtos_kernel-core/src/events.rs:497-499 | the answer left in an item value is read back whole |
| EventGroups.TestedBitByBit | crates/rusty_rtos_kernel-core/src/events.rs:85-91 | the test of a condition, bit by bit: every bit of it is there, or some bit of it is |
| EventGroups.SetWakesExactlyTheSatisfied | crates/rusty_rtos_kernel-core/src/events.rs:191-251 | a set wakes exactly the satisfied waiters, each with the bits that did it, and nobody left waits for what is there |
| EventGroups.SetClearsExactlyWhatWasAsked | crates/rusty_rtos_kernel-core/src/events.rs:209-245 | a bit survives a set exactly if it was there and nobody woken asked to have it cleared |
| EventGroups.SetExactly | crates/rusty_rtos_kernel-core/src/events.rs:191-251 | what a set does to bits, waiters, items and the ready, each bit and each waiter in its place |
| EventGroups.ClearSettles | crates/rusty_rtos_kernel-core/src/events.rs:174-184 | a clear satisfies nobody |
| EventGroups.WaitSettles | crates/rusty_rtos_kernel-core/src/events.rs:354-403 | a wait blocks exactly if it is unsatisfied and may, and then under the condition it asked for |
| EventGroups.SyncSettles | crates/rusty_rtos_kernel-core/src/events.rs:440-470 | a sync leaves nobody asleep on a satisfied condition; one that is met answers the mask and clears it |
| EventGroups.SweepClears | crates/rusty_rtos_kernel-core/src/events.rs:224-227 | what is cleared is the union of the woken clear-on-exit masks |
| EventGroups.SweepStep | crates/rusty_rtos_kernel-core/src/events.rs:209-234 | reading the next waiter before removing this one walks the list as it was |
| EventGroups.EventGroup.RemoveFromUnorderedEventList | crates/rusty_rtos_kernel-core/src/kernel.rs:4985-5008 | the answer in the item, the task off the list and readied |
| EventGroups.EventGroup.PlaceOnUnorderedEventList | crates/rusty_rtos_kernel-core/src/kernel.rs:4963-4974 | the condition in the item, at the end of the list |
| EventGroups.EventGroup.Walk | crates/rusty_rtos_kernel-core/src/events.rs:207-235 | the walk that removes from the list it stands in is the sweep of the whole list |
| EventGroups.NobodySleepsOnWhatIsThere | crates/rusty_rtos_kernel-core/src/events.rs:191-251 | in every state that any history of sets, clears, waits, syncs, timeouts and priority changes reaches, no waiter for any of its bits sleeps while one is there, nor one for all of them while all are |
| EventGroups.WaitersAreServed | crates/rusty_rtos_kernel-core/src/events.rs:191-251 | until time takes it off or it reads its answer, over any history, a waiter waits under the condition it asked for or was readied with bits that satisfy it |
| EventGroups.EventGroup.EventGroupSetBits | crates/rusty_rtos_kernel-core/src/events.rs:191-251 | bit by bit: exactly the waiters whose bits are there then are readied, in their order, an all-waiter by all its bits and another by any one; each gets the bits that were there; and a bit goes exactly if somebody woken asked for it; the bits it returns; the group's law is kept |
| EventGroups.EventGroup.EventGroupClearBits | crates/rusty_rtos_kernel-core/src/events.rs:174-184 | the bits as they were, then cleared; the group's law is kept |
| EventGroups.EventGroup.EventGroupWaitBits | crates/rusty_rtos_kernel-core/src/events.rs:333-405 | the wait's first half, bit by bit: done at once exactly if all its bits, or any of them, are there, or it may not block; what is cleared; or the caller parked last with its condition in its item |
| EventGroups.EventGroup.EventGroupSync | crates/rusty_rtos_kernel-core/src/events.rs:421-470 | the sync's first half: the set, then done with the mask cleared exactly if every bit of it is there, or the bits as they are, or the caller parked for all of it |
| EventGroups.EventGroup.FinishWait | crates/rusty_rtos_kernel-core/src/events.rs:489-511 | a task that was answered is handed the answer; one woken by time tests the bits again, for all or any as it asked, and clears only if they are there |
| EventGroups.EventGroup.TimeOut | crates/rusty_rtos_kernel-core/src/kernel.rs:3819-3827 | a waiter woken by time leaves the others waiting on what they did |
| EventGroups.EventGroup.SetEventPriorityValue | crates/rusty_rtos_kernel-core/src/kernel.rs:5016-5027 | a priority change leaves a waiter's condition alone |
| EventGroups.EventGroup.EventGroupDelete | crates/rusty_rtos_kernel-core/src/events.rs:133-149 | every waiter is readied, each with an answer of no bits |
| Barriers.SyncStep | crates/rusty_rtos_kernel-core/src/events.rs:421-470 | before the last arrival nobody is released; the last releases everybody at once with a value that holds the whole mask and clears exactly the mask |
| Barriers.Arrivals | crates/rusty_rtos_kernel-core/src/events.rs:443-449 | a sync finds its mask covered exactly when everybody else is waiting |
| Barriers.CoveredWhenAllCame | crates/rusty_rtos_kernel-core/src/events.rs:443-447 | the bits of those who came cover the mask exactly when all came |
| Barriers.BarrierHolds | crates/rusty_rtos_kernel-core/src/events.rs:421-470 | over unboundedly many rounds every participant has returned once a round, and only waiters are one call ahead |
| TwoCores.SettledMeansOptimal | crates/rusty_rtos_kernel-core/src/kernel.rs:2046-2108 | from any defended state, over any history of readying, removing, lowering, raising, blocking, timed-out waits, asking and switching in which no step crowds, whenever no core owes a switch no ready task that no core holds outranks what a core runs |
| TwoCores.StepSettles | crates/rusty_rtos_kernel-core/src/kernel.rs:2046-2314 | exactly when a step breaks that: the switches owed after it lead, in either order, to an optimal state if and only if the step does not crowd, which only four do: a task that a core holds is readied or raised while that core has noted a switch unasked and a free task outranks the other core, and the raise after a timed-out wait where it asks nobody and somebody should make way |
| TwoCores.CoveredIsSettling | crates/rusty_rtos_kernel-core/src/kernel.rs:2046-2314 | both cores are defended if and only if the switches now owed lead to an optimal state, whichever comes first |
| TwoCores.RaiseCrowdsOut | crates/rusty_rtos_kernel-core/src/kernel.rs:2069-2108 | a history of three steps from a settled optimal state that ends settled and not optimal |
| TwoCores.LiftedIsCovered | crates/rusty_rtos_kernel-core/src/kernel.rs:5263-5276 | raising a free holder after a timed-out wait, which asks nobody, keeps both cores defended exactly where it overtakes neither |
| TwoCores.RestoredIsCovered | crates/rusty_rtos_kernel-core/src/kernel.rs:5263-5276 | and of a running holder, whose core is asked if it is ready, exactly where it is not crowded |
| TwoCores.LiftOvertakes | crates/rusty_rtos_kernel-core/src/kernel.rs:5228-5279 | a settled optimal state that one such raise leaves settled and not optimal |
| TwoCores.PlacedIsCovered | crates/rusty_rtos_kernel-core/src/kernel.rs:4601-4635 | placing what was held back while the scheduler was suspended, which asks nobody, keeps both cores defended exactly where it overtakes neither; placing what is ready already always does |
| TwoCores.SoughtKeeps | crates/rusty_rtos_kernel-core/src/kernel.rs:2069-2108 | a search for a core, whatever for, keeps both cores defended |
| TwoCores.ReadiedIsPlaced | crates/rusty_rtos_kernel-core/src/kernel.rs:3395-3415 | to be readied is to be placed and a core to be sought |
| TwoCores.UnlistedPlaced | crates/rusty_rtos_kernel-core/src/kernel.rs:3395-3398 | off whatever list a task is on and onto its ready list is to be placed |
| TwoCores.PromotedIsCovered | crates/rusty_rtos_kernel-core/src/kernel.rs:5144-5162 | a raise of what a core runs, with the search for a core that it makes where the task is ready, keeps both cores defended exactly where the task is not squeezed |
| TwoCores.SwitchesSettle | crates/rusty_rtos_kernel-core/src/kernel.rs:2163-2314 | one switch of each core that owes one, in either order, leaves none owed, and none of them stalls |
| TwoCores.StepKeeps | crates/rusty_rtos_kernel-core/src/kernel.rs:2046-2314 | every step keeps the lists sound and the idle tasks ready, and keeps both cores defended exactly if it does not crowd |
| TwoCores.StepMoves | crates/rusty_rtos_kernel-core/src/kernel.rs:2163-2249 | exactly which task becomes or stops being ready in a step; a core takes over only by a switch, and only what is ready |
| TwoCores.LoweredKeeps | crates/rusty_rtos_kernel-core/src/kernel.rs:5176-5223 | lowering a ready task that no core holds, which asks nobody, keeps both cores defended |
| TwoCores.BlockedKeeps | crates/rusty_rtos_kernel-core/src/kernel.rs:4179-4196 | a running task that stops being ready keeps both cores defended, its core asked unless it was asked already |
| TwoCores.DemotedKeeps | crates/rusty_rtos_kernel-core/src/kernel.rs:4514-4562 | lowering what a core runs keeps both cores defended, its core asked unless it was asked already |
| TwoCores.AskedKeeps | crates/rusty_rtos_kernel-core/src/kernel.rs:2046-2056 | asking a core to yield keeps both defended |
| TwoCores.RemovedKeeps | crates/rusty_rtos_kernel-core/src/kernel.rs:4135-4142 | suspending or deleting a ready task that no core holds keeps both defended |
| TwoCores.VacatedKeeps | crates/rusty_rtos_kernel-core/src/kernel.rs:2213-2226 | and freeing one whose item stays on its list, which a pick then passes over |
| TwoCores.NoStall | crates/rusty_rtos_kernel-core/src/kernel.rs:2296-2312 | two ready tasks, and no switch stalls |
| TwoCores.ReadiedIsCovered | crates/rusty_rtos_kernel-core/src/kernel.rs:2069-2108 | a newly ready task is covered by what runs, by a switch already owed, or by the one it asks for, unless it is squeezed |
| TwoCores.SmpKernel.SwitchContext | crates/rusty_rtos_kernel-core/src/kernel.rs:2296-2314 | suspended, it is owed; otherwise it is taken, or reported as a stall |
| TwoCores.SmpKernel.SetPriority | crates/rusty_rtos_kernel-core/src/kernel.rs:4493-4567 | the lists, the cached priority and the core asked, of a raise and of a fall of what a core runs |
| TwoCores.UnlistedHeld | crates/rusty_rtos_kernel-core/src/kernel.rs:4292-4378 | taking a running task off its list and telling its core to yield is a block and a request |
| TwoCores.YieldDefends | crates/rusty_rtos_kernel-core/src/kernel.rs:2069-2108 | whichever core is asked, the other is outranked by one contender at most |
| TwoCores.ScanFacts | crates/rusty_rtos_kernel-core/src/kernel.rs:2082-2104 | the core chosen owes nothing, stands below the task, no other that owes nothing stands lower, and of equals it is the last; if none is chosen none stands below |
| TwoCores.SoughtExactly | crates/rusty_rtos_kernel-core/src/kernel.rs:2069-2108 | which core a search asks, in terms of what the cores run and owe: nobody if a core not yet asked runs the task, else the last of the lowest that may give way, an idle task counting below others of its level |
| TwoCores.BlockedExactly | crates/rusty_rtos_kernel-core/src/kernel.rs:4185-4194 | what blocks is off its list, and the core that runs it is asked once |
| TwoCores.TickKeeps | crates/rusty_rtos_kernel-core/src/kernel.rs:2260-2291 | time slicing and its interrupts keep both defended, and reach every core that shares its level or owes a switch |
| TwoCores.SwitchPicksHighest | crates/rusty_rtos_kernel-core/src/kernel.rs:2163-2249 | a switch takes a highest of the ready tasks the other core does not hold, and fails exactly where there is none |
| TwoCores.SwitchKeeps | crates/rusty_rtos_kernel-core/src/kernel.rs:2296-2314 | after it that core owes nothing and both are defended |
| TwoCores.SwitchKeepsSound | crates/rusty_rtos_kernel-core/src/kernel.rs:2163-2249 | no two cores run the same task, and what a core runs is ready at its cached level |
| TwoCores.TopAfterFacts | crates/rusty_rtos_kernel-core/src/kernel.rs:2239-2241 | the top level comes down past empty levels only, to the highest that is not |
| TwoCores.SwitchTurns | crates/rusty_rtos_kernel-core/src/kernel.rs:2163-2249 | a switch sends the runner to the back of its line and runs the front |
| TwoCores.EverybodyHasATurn | crates/rusty_rtos_kernel-core/src/kernel.rs:2163-2249 | repeated switches run the line in order, everybody within as many switches as it is long |
| TwoCores.SmpKernel.DoYieldCore | crates/rusty_rtos_kernel-core/src/kernel.rs:2046-2056 | the calling core notes it; another is interrupted once however often it is asked |
| TwoCores.SmpKernel.DoYieldForTask | crates/rusty_rtos_kernel-core/src/kernel.rs:2069-2108 | the loop over the cores is the scan |
| TwoCores.SmpKernel.SelectForCore | crates/rusty_rtos_kernel-core/src/kernel.rs:2163-2249 | the two nested walks find the pick, lower the top level as they go, and leave the other core alone |
| TwoCores.SmpKernel.TickTimeSlice | crates/rusty_rtos_kernel-core/src/kernel.rs:2260-2269 | every core whose level has a second task |
| TwoCores.SmpKernel.TickYields | crates/rusty_rtos_kernel-core/src/kernel.rs:2276-2291 | every other core that owes a switch, and whether this one does |
| TaskLists.ListsPartItems | crates/rusty_rtos_kernel-core/src/kernel.rs:4071-4095 | every item is on exactly one list, and once |
| TaskLists.MovedKeeps | crates/rusty_rtos_kernel-core/src/kernel.rs:2166-2171 | taking an item off its list and putting it on another, at any place, keeps that |
| Scheduling.TasksArePartedByLists | crates/rusty_rtos_kernel-core/src/kernel.rs:1837-1848 | in every state the invariant admits: each task is on one list; a ready list holds tasks of its own priority, at or below the top level; a task on an event list is on no ready list; nobody is pending while the scheduler runs |
| Scheduling.Scheduler.Shelve | crates/rusty_rtos_kernel-core/src/kernel.rs:1837-1848 | both items off their lists and onto the new ones, at the end of a ready or pending list |
| Scheduling.LevelIsEmpty | crates/rusty_rtos_kernel-core/src/kernel.rs:2358-2377 | an empty level at or above every ready task puts them all below it, and at the bottom leaves nobody ready |
| Scheduling.Scheduler.NextRoundRobin | crates/rusty_rtos_kernel-core/src/kernel.rs:2358-2360 | some ready task of the level, whatever the cursor |
| Scheduling.Scheduler.SwitchContext | crates/rusty_rtos_kernel-core/src/kernel.rs:2319-2401 | with the scheduler running what runs next is a ready task that none outranks; it fails exactly where nothing is ready |
| Scheduling.Scheduler.Put | crates/rusty_rtos_kernel-core/src/kernel.rs:1165-1177 | a task rewritten keeps every list law, and the cached priority follows what runs |
| Scheduling.Scheduler.AddTaskToReadyListAt | crates/rusty_rtos_kernel-core/src/kernel.rs:1837-1848 | at the end of the ready list of its own priority and on no other list of either kind, otherwise the same task; the top level bounds it |
| Scheduling.Scheduler.Ready | crates/rusty_rtos_kernel-core/src/kernel.rs:1837-1848 | on the ready list of its own priority and on no other list of either kind, otherwise the same task; a switch is due if it outranks what runs |
| Scheduling.Scheduler.RemoveFromEventList | crates/rusty_rtos_kernel-core/src/kernel.rs:5344-5391 | the head of the list is on the ready list of its own priority and on no other list of either kind, otherwise the same task, or pending with its other item where it was while the scheduler is suspended; the answer says whether it outranks |
| Scheduling.Scheduler.Wake | crates/rusty_rtos_kernel-core/src/kernel.rs:4985-5008 | a task woken out of an event group, by time or by a notification is on the ready list of its own priority and on no other list of either kind, otherwise the same task |
| Scheduling.Scheduler.BlockCurrent | crates/rusty_rtos_kernel-core/src/kernel.rs:5083-5105 | a task that blocks is on an event list and a delayed or suspended list, on no ready list |
| Scheduling.Scheduler.Suspend | crates/rusty_rtos_kernel-core/src/kernel.rs:4125-4204 | off every other list and on the suspended one; a switch is due if it runs |
| Scheduling.Scheduler.Resume | crates/rusty_rtos_kernel-core/src/kernel.rs:4216-4267 | exactly a task that is suspended and waits for nothing becomes ready, on the ready list of its own priority and on no other list of either kind, otherwise the same task |
| Scheduling.Scheduler.TaskDelete | crates/rusty_rtos_kernel-core/src/kernel.rs:4292-4378 | another task is gone; the running one is on no list until it is reaped |
| Scheduling.Scheduler.DrainPendingReady | crates/rusty_rtos_kernel-core/src/kernel.rs:4601-4635 | exactly the pending tasks become ready, each on the ready list of its own priority and on no other list of either kind, otherwise the same task |
| Scheduling.Scheduler.ResumeAll | crates/rusty_rtos_kernel-core/src/kernel.rs:4692-4716 | the last resume leaves nobody pending: who was is on the ready list of its own priority and on no other list of either kind, otherwise the same task |
| Scheduling.Scheduler.SetPriority | crates/rusty_rtos_kernel-core/src/kernel.rs:4493-4567 | the new base, and which priority results, lent or not |
| Scheduling.Scheduler.TakeMutex | crates/rusty_rtos_kernel-core/src/queue.rs:1438-1441 | one holder, who counts one more |
| Scheduling.Scheduler.PriorityInherit | crates/rusty_rtos_kernel-core/src/kernel.rs:5130-5171 | the holder runs at least at the waiter's priority, on the right list, and says whether it was lent |
| Scheduling.Scheduler.Disinherit | crates/rusty_rtos_kernel-core/src/kernel.rs:5176-5223 | one mutex less; only the last puts the giver back at its base, ready there wherever it was |
| Scheduling.Scheduler.GiveMutex | crates/rusty_rtos_kernel-core/src/queue.rs:1074-1092 | a give in any state of the scheduler: the giver's count, priority and list, the waiter on its ready list or pending, everybody else as before; and exactly when it leaves a ready task above what runs with no switch due |
| Scheduling.GiveUnderAThird | crates/rusty_rtos_kernel-core/src/queue.rs:1074-1092 | a run from the start after which it does |
| Scheduling.Scheduler.DisinheritAfterTimeout | crates/rusty_rtos_kernel-core/src/queue.rs:1541-1549 | a holder of one mutex keeps what the claim at the head of the waiters left justifies; exactly when, in terms of the state before, that leaves what runs outranked with no switch due |
| Scheduling.TimeoutRaisesHolder | crates/rusty_rtos_kernel-core/src/kernel.rs:5228-5276 | a run from the start after which it does |
| Scheduling.Scheduler.ResetEventItem | crates/rusty_rtos_kernel-core/src/kernel.rs:5031-5038 | a task that has read its event group's answer claims its own priority again |
| Scheduling.LeavesNothing | crates/rusty_rtos_kernel-core/src/kernel.rs:4292-4378 | a task can go with the mutexes' books in order exactly if it holds none |
| Scheduling.Scheduler.MutexTakeRecursive | crates/rusty_rtos_kernel-core/src/queue.rs:1671-1691 | the holder only counts; a mutex another holds is not taken |
| Scheduling.Scheduler.MutexGiveRecursive | crates/rusty_rtos_kernel-core/src/queue.rs:1697-1712 | only the holder gives, and only its last give frees the mutex |
| Scheduling.OutrankedByAnother | crates/rusty_rtos_kernel-core/src/queue.rs:1074-1092 | after a give that falls back and wakes a low waiter, what runs is outranked exactly by the other ready tasks above its base |
| Scheduling.HandOver | crates/rusty_rtos_kernel-core/src/kernel.rs:5118-5122 | a take or a give keeps every task's count equal to the mutexes that name it |
| Scheduling.HolderCounts | crates/rusty_rtos_kernel-core/src/kernel.rs:5118-5122 | whoever is named as holder counts at least one mutex |
| Reaping.RunningTasksLive | crates/rusty_rtos_kernel-core/src/kernel.rs:4292-4378 | over any history of creating, deleting, suspending, waiting for notifications, notifying, reaping and scheduling, what a core holds is live, deleted or not; nothing freed is held or named by its handle again; and each freed task was freed once |
| Revival.DeletedRunsAgainExactlyIf | crates/rusty_rtos_kernel-core/src/kernel.rs:3383-3398 | over any history from its deletion on, a core comes to hold a deleted task if and only if the task is put to sleep or suspended, or a notification finds it waiting, and it is readied in that step or a later one, and then picked, all before it is freed |
| Revival.ReadyAgainExactlyIf | crates/rusty_rtos_kernel-core/src/kernel.rs:4125-4142 | over any history from its deletion on, a deleted task becomes ready again if and only if it is put to sleep or suspended, or a notification finds it waiting, and something readies it in that step or a later one, all before it is freed |
| Revival.NeverPickedAgain | crates/rusty_rtos_kernel-core/src/kernel.rs:4292-4378 | a deleted task that nobody puts to sleep or suspends, and no notification finds waiting, is never ready or picked by a core again, through its freeing and the reuse of its slot |
| Revival.SilentIsLeftAlone | crates/rusty_rtos_kernel-core/src/kernel.rs:3020-3062 | one that waited for no notification when it was deleted, and since then neither waits for one, sleeps nor is suspended, is found waiting by none, so that holds of it |
| Revival.DeleteDeletes | crates/rusty_rtos_kernel-core/src/kernel.rs:4301-4344 | a deletion takes the task off every list and leaves the state of its notifications as it was |
| Revival.DeletedMoves | crates/rusty_rtos_kernel-core/src/kernel.rs:2163-2249 | in each step a deleted task sleeps, is held back, is ready, or waits for a notification exactly if the step makes it so or it did and the step does not end it, and is taken by a core exactly if its switch picks it, which it does only if it is ready; the mark plays no part |
| Revival.DeletedTaskSleepsAndRuns | crates/rusty_rtos_kernel-core/src/kernel.rs:4033-4051 | a run in which a task deleted from the other core delays before its core makes way, is woken, and runs there |
| Revival.DeletedTaskResumesAndRuns | crates/rusty_rtos_kernel-core/src/kernel.rs:4216-4245 | a run in which a deleted task that its core has let go is suspended by its handle, resumed, and runs |
| Revival.DeletedTaskIsNotifiedAndRuns | crates/rusty_rtos_kernel-core/src/kernel.rs:3383-3398 | a run in which a task deleted while it waits for a notification, and put to sleep or suspended by nobody since, is notified and runs on the other core |
| ReapingOrder.SleeperIsReaped | crates/rusty_rtos_kernel-core/src/kernel.rs:4452-4473 | the idle task frees a deleted task that sleeps all the same, and its item stays on the list, where DeadSleepers has what it stops |
| Reaping.HeldIsNeverFreed | crates/rusty_rtos_kernel-core/src/kernel.rs:4452-4473 | in any state of the lists, no deletion, suspension, creation, notification or reaping takes a task from under the core that holds it |
| Reaping.CreatedExactly | crates/rusty_rtos_kernel-core/src/kernel.rs:1670-1800 | a new task is live in its slot, last on the ready list of its level, waits for nothing, and nothing else of the arena or the lists changes |
| Reaping.DeletedExactly | crates/rusty_rtos_kernel-core/src/kernel.rs:4301-4378 | a deleted task is on no list; marked with the next number, counted, and its core told to yield where one holds it, its slot free for the next generation where none does; nobody else is moved |
| Reaping.SuspendedExactly | crates/rusty_rtos_kernel-core/src/kernel.rs:4125-4195 | a suspended task sleeps, is ready and pending nowhere, waits for no notification; nobody else is moved |
| Reaping.NotifiedExactly | crates/rusty_rtos_kernel-core/src/kernel.rs:3353-3398 | a notification that finds its task waiting ends that wait and readies it, or holds it back; any other does nothing |
| Reaping.StepKeepsAlive | crates/rusty_rtos_kernel-core/src/kernel.rs:4292-4378 | each step keeps that: handles in cores resolve, ready tasks are live and sleep nowhere, freed handles are stale |
| Reaping.StepKeepsCovered | crates/rusty_rtos_kernel-core/src/kernel.rs:1770-1800 | every step keeps both cores defended exactly if it does not crowd: creating, deleting, suspending and reaping never do, nor does a notification that is held back or of a task that is ready |
| ReapingOrder.ReapsOldestFirst | crates/rusty_rtos_kernel-core/src/kernel.rs:4452-4473 | over any orderly history the tasks reaped are a first part of the deletions put off, in their order |
| ReapingOrder.StepKeepsLine | crates/rusty_rtos_kernel-core/src/kernel.rs:4335-4344 | exactly which steps keep the line in order: every one but a second deletion of a task, and a deletion put off where the mark or the count would wrap |
| ReapingOrder.DeferKeepsLine | crates/rusty_rtos_kernel-core/src/kernel.rs:4335-4344 | a deletion put off is last in line exactly if the task was not marked, the count has room, and nobody waited or the mark did not wrap |
| ReapingOrder.WrapReordersTheLine | crates/rusty_rtos_kernel-core/src/kernel.rs:4335-4344 | a state at the wrap of the mark in which a deletion puts the second deleted task first |
| ReapingOrder.SecondDeletionLosesCount | crates/rusty_rtos_kernel-core/src/kernel.rs:4458-4464 | a task deleted again after its core left it is freed at once; the count is then one too high, and the next pass sets it to 0 |
| ReapingOrder.ReapsFromTheFront | crates/rusty_rtos_kernel-core/src/kernel.rs:4452-4473 | a pass frees from the front of the line, in order, and ends at its end or at a task that a core holds |
| TaskKernels.TaskKernel.TaskCreate | crates/rusty_rtos_kernel-core/src/kernel.rs:1670-1800 | in the slot the arena gives, ready, with a core looked for; refused where there is none |
| TaskKernels.TaskKernel.TaskDelete | crates/rusty_rtos_kernel-core/src/kernel.rs:4292-4378 | refused for a stale handle; off every list; freed at once, or marked and its core told to yield where one holds it |
| TaskKernels.TaskKernel.TaskSuspend | crates/rusty_rtos_kernel-core/src/kernel.rs:4125-4195 | refused for a stale handle only; off every list and on the suspended one, no notification waited for, and the core that runs it told to yield unless it was asked |
| TaskKernels.TaskKernel.NotifyAwait | crates/rusty_rtos_kernel-core/src/kernel.rs:3022-3062 | the flag is set, and nothing else, before the task is put to sleep |
| TaskKernels.TaskKernel.NotifyAnswer | crates/rusty_rtos_kernel-core/src/kernel.rs:3063-3082 | the flag is cleared where the task calls in again, not where it is woken |
| TaskKernels.TaskKernel.TaskNotify | crates/rusty_rtos_kernel-core/src/kernel.rs:3345-3433 | refused for a stale handle; a task whose flag is set goes from wherever it is onto its ready list and a core is sought, or is held back from an interrupt while the scheduler is suspended; the answer is whether the caller's core now owes a switch |
| TaskKernels.TaskKernel.ReadyPending | crates/rusty_rtos_kernel-core/src/kernel.rs:4603-4614 | one turn of the drain readies a task held back, wherever it was, with no core sought |
| TaskKernels.TaskKernel.FindHead | crates/rusty_rtos_kernel-core/src/kernel.rs:4479-4487 | the walk over the arena finds the first of the least mark |
| TaskKernels.TaskKernel.ReapWaitingTasks | crates/rusty_rtos_kernel-core/src/kernel.rs:4452-4473 | the loop is one pass of the model, with the cores' own tasks as what is held |
| TaskKernels.TaskKernel.SwitchContext | crates/rusty_rtos_kernel-core/src/kernel.rs:2163-2249 | a switch takes the handle of the task it picks from the arena, and does not stall |

## Left out

- The port seam, interrupt masking, exit counting and the replay of owed exits, yields and trace lines: they match a C trace and schedule nothing.
- Tracing, names, tick hooks and application completion hooks: no scheduling content.
- Software timers, the typed face and the `system!` macro: not part of this model.
- The internals of the list and arena libraries, and the round-robin cursor within a one-core level: the one-core switch picks some task of the level.
- Task notifications beyond who waits for which and whom they ready: the values, the bound on the index, and which of the other states a notification is in; so a wait may begin in any. `abort_delay` beyond the flag a wait checks.
- The order of the pending-ready list on two cores: a history places any of the tasks held back that still lives, where the drain takes the first item, and ends at one whose task was freed.
- The retry loops around a blocking send or receive are represented by their steps (lock, check, park, unlock, resume), not as one call, because other tasks run in between.
- `semaphore_create_counting` and `new_mutex` are compositions of create and send and add no law of their own.
- Stalls reported for list errors and indices out of range: the invariants rule them out.
- Event-group calls from interrupts, which only hand work to the timer task.
- Sleepers.DelayIsExact: no task is freed in its sleep; DeadSleepers.DelayIsExactUnlessObstructed has it without that.
- Ticks.TickKernel.IncrementTick: no task is freed in its sleep, there and in whatever takes ticks through it; Ticks.TickKernel.WakeDueTasks says what a tick does where one was, and what a dead item does at a wrap of the tick is not part of this model.
- Scheduling.Scheduler.SwitchContext: does not say which of several equal tasks runs, because the list cursor is not part of this model.
- Scheduling.Scheduler.Suspend: does not model the notification flags it resets, nor on one core a task that awaits its reaping and is suspended, resumed or otherwise used by its handle; Reaping has that on two cores.
- Scheduling.Scheduler.TaskDelete: requires that the task holds no mutex, which the code does not check; Scheduling.LeavesNothing shows that the books stay in order exactly then.
- Scheduling.Scheduler.BlockCurrent: takes the delayed, overflow or suspended list as given, because Ticks.TickKernel.AddToDelayedList says which it is; the place on the event list is left open, QueueLocks.ParkBehindEquals has the sorted insert.
- TwoCores.SettledMeansOptimal: preemption on; the idle tasks stay ready at priority 0.
- TwoCores.SmpKernel.SetPriority: of a task that runs at its base priority; lent priorities on two cores are the raises and falls of the history only.
- Reaping.RunningTasksLive: idle tasks are neither deleted nor suspended; a slot that was freed while its item is on a list is not issued again, because what the list library does with an item that is on a list is not part of this model (Reaping.HeldIsNeverFreed holds there too); the task count and the 16-bit wrap of the arena's generations are not modelled.
- TaskKernels.TaskKernel.TaskDelete: of no idle task.
- TaskKernels.TaskKernel.TaskSuspend: of no idle task.
- TaskKernels.TaskKernel.TaskNotify: at the level that the task has, which the lists and cores of this model know only where it is ready or held.
- TaskKernels.TaskKernel.TaskCreate: in no slot whose item is still on a list.
- TwoCores.SmpKernel.TickTimeSlice: preemption and time slicing configured on.
- QueueSets.AnnouncementsAreConserved: members are read only after a selection and not reset or deleted while in the set, and an interrupt's send under a lock is one the lock counts.
- QueueLocks.NoSendGoesUnanswered: of sends and the receivers they wake; a receive is answered call by call (QueueLocks.LockableQueue.QueueReceiveFromIsr) and by each unlock (QueueLocks.NoWakeUpIsLost).
- QueueLocks.NoWakeUpIsLost: the queue is in no set, and every waiter is one of the counted tasks.
- QueueStores.QueueTable.Send: an overwrite must not meet items on a data queue longer than one, where the C asserts; QueueRings.OverwriteKeepsRing shows that it would break the ring there and nowhere else.
- QueueStores.QueueTable.CopyDataToQueue: the same.
- StreamStores.StreamTable.WriteMessage: a message length is required to fit its prefix, as the C asserts.
- StreamStores.StreamTable.SendFromIsr: the same.
- Scheduling.Scheduler.GiveMutex: by the holder, as the C asserts, which is on no event list while it runs.
- Waits.ChargedExactlyOnce: at most one wrap of the tick between checks, and no abort.

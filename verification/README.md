# RT-Thread kernel and build tools: a Dafny model

This project models the hardest parts of the RT-Thread kernel in `src/` and of two Python tools in
`tools/`, and proves what they are meant to keep.  To verify it:

    dafny verify dfyconfig.toml --resource-limit 2000000 --verification-time-limit 0

Code that changes state step by step is a class whose methods change fields in place; each method is
tied to a function of the old state or states the new state outright, and the properties are then
lemmas about those functions, over all inputs and all runs.

| file | what it models |
|---|---|
| `WaitLists.dfy` | suspend lists, `rt_ipc_list_suspend`/`resume`/`resume_all`, thread timeouts, and the argument why no wake-up is lost |
| `Mailbox.dfy`, `MessageQueue.dfy`, `MessageOrder.dfy`, `MemPool.dfy` | blocking mailboxes, message queues and memory pools as step systems |
| `Semaphore.dfy`, `Mutex.dfy`, `Event.dfy` | counting semaphores, mutexes with priority inheritance, events |
| `Rings.dfy` | the intrusive circular list |
| `Layout.dfy`, `HeapBytes.dfy` | a heap as a sequence of blocks, and its bytes |
| `MemHeap.dfy`, `SmallMem.dfy` | the allocators of `src/memheap.c` and `src/mem.c` |
| `PageList.dfy`, `Slab.dfy` | the page allocator and the zones of `src/slab.c` |
| `Timer.dfy` | the timer skip list on a wrapping clock |
| `Scheduler.dfy` | ready bitmaps, `rt_schedule`, suspending, resuming and the time slice |
| `Kconfig.dfy`, `KconfigValues.dfy` | evaluation of Kconfig items, and what their values are |
| `KconfigReads.dfy`, `KconfigCache.dfy`, `KconfigEngine.dfy`, `KconfigStray.dfy` | the value cache and its invalidation |
| `KconfigExpr.dfy`, `KconfigText.dfy` | the expression parser and printer, on tokens and on text |
| `KconfigLoops.dfy`, `KconfigRanks.dfy`, `KconfigCircles.dfy` | the dependency-loop check, what it means for evaluation, and what it misses |
| `Wcs.dfy` | worst-case stack analysis |
| `Division.dfy` | quotients and remainders |

How concurrency is modelled: each region that runs with interrupts disabled is one step; between two
steps any other thread may run.  A blocking call is split at every `rt_schedule()`.  A run is any
sequence of enabled steps: calls, re-runs of woken threads, timer expiries, resets and priority changes.
A wake-up is *not lost* if, while somebody sleeps, the units that are available are no more than the
sleepers that were already woken and have not run again.

How the heaps are modelled: the link words and used bits of the block headers are maps keyed by header
address; the bytes of the pool are a sequence in which a store to a header overwrites the whole header, so
"no live byte changes" also says that no header is ever written inside a live block.

## Where the code falls short of what it promises

- A mutex counts nested takes in eight bits.  After 257 takes the first release hands it over
  (`DeepNestingReleasesEarly`); a release matches the outermost take exactly when the depth is 1 or is
  not 1 modulo 256 (`ReleaseMatchesOutermostTake`).
- Priority inheritance holds in every run exactly if the mutex waits by priority
  (`InheritanceNeedsPriorityOrder`); with first-in-first-out waiting it is lost when the mutex is handed over.
- The 16-bit counter of a semaphore loses units exactly when it is released at 65535 while nobody sleeps
  (`OnlyFullReleaseLoses`); a run of 65536 releases gets there and leaves 0 (`FullCounterLosesAll`).
- `rt_exit_critical` unlocks the scheduler at the outermost exit exactly up to 32768 nested enters, because
  the counter is a signed 16-bit number; the comment at the increment says 65535
  (`ExitMatchesOutermostEnter`).
- `RT_ALIGN` wraps: a request is rounded to at least its size exactly up to 2^32 less the alignment.
  Beyond, `rt_memheap_alloc` and `rt_malloc` in `src/mem.c` hand out the minimum block
  (`RoundedIsEnough`, `RequestHolds`; `AllocOfNearlyAll` and `MallocOfNearlyAll` have blocks of 12 bytes for
  2^32 - 1), and `rt_realloc` in `src/mem.c` frees the block (`RoundsToZero`).
- The sum in the growth test of `rt_memheap_realloc` (`src/memheap.c`, line 350) wraps for a rounded size of
  at least 2^32 - 12.  If such a call comes for a smaller block before a free one, it "succeeds" and writes a
  header into the block's own (`ReallocOfNearlyAll`, `OverlappedIsBroken`); in all other cases the call keeps its
  promise (`Realloc`, `OvergrowsBeforeFree`).
- `rt_realloc` in `src/mem.c` gives back the end of a block without lowering `lfree`: it stays the lowest
  free block exactly under the condition of `ShrinkLowest`; `ShrinkHidesFreeBlock` has a request that then fails although
  a free block is large enough.  An exact fit in the last block is refused (`NoFitMeansNoBlock`, `ExactFitIsRefused`).
- `src/slab.c` promises that power-of-two sizes are aligned to their size (lines 157-158).  That holds up
  to the page size.  Above it, chunks are aligned exactly in zones that are (`PowerOfTwoAlignment`), `MisalignedChunk` is one that
  is not, and of every larger power of two up to 2^31 some block is misaligned (`MisalignedBlock`).
- The sizes of mailboxes and message queues are kept in 16 bits: a message size just below 2^16 becomes
  zero (`SlotsFit` has the exact bound), and a mailbox keeps its size modulo 2^16.
- A memory pool that holds no block overwrites a word before its region (`MemPool.constructor`).
- The value cache of Kconfig can go stale at two kinds of cells that it only warns about: the selection of
  a choice with a default symbol outside it (lines 3736-3740; `StrayDefaultGoesStale`), and a choice symbol with its
  prompt outside the choice (lines 3758-3764; `StraySymbolGoesStale`).  Nothing else goes stale but what may read
  such a cell (`InvalidationKeepsFresh`, `UncleanReadsStray`).
- The dependency-loop check of Kconfig can miss a loop through an item that depends on a choice without
  being one of its symbols (`MenuLoopIsMissed`), and one between two symbols of a choice (`SiblingLoopIsMissed`; in another
  order of definitions it is found, `SiblingLoopIsFound`).  When the check passes, there is a loop in `_dependents`
  exactly if the graph has such a hidden path (`CheckAll`, `NoHiddenPaths`).
- The check does not see that tristate symbols read MODULES.  Evaluation is well-founded if there is no loop
  and no tristate symbol among what MODULES depends on (`AcyclicIsRanked`), and if and only if no value needs itself
  (`RankedIffNoCircle`); `CheckMissesModules`, `CheckMissesMenu` and `CheckMissesSiblings` are configurations that pass
  the check and have such a circle.

## Model

| member | source | states |
|---|---|---|
| `WaitLists.PrioInsertKeepsSorted` | src/ipc.c:94-119 | A priority-ordered suspend list stays sorted, and a new waiter goes behind all waiters of its own priority |
| `WaitLists.InsertionPointSplits` | src/ipc.c:98-112 | The scan stops between the waiters at least as urgent and those strictly less urgent |
| `WaitLists.RemainingIsDifference` | src/ipc.c:1525-1532 | The timeout recomputed after a wake-up is what is left of it, also across a wrap of the tick counter; waiting for ever stays so |
| `WaitLists.Overtakes` | src/ipc.c:80-123 | A newcomer overtakes a waiter never with FIFO order, always where the pool inserts at the head, and with priority order exactly if it is strictly more urgent |
| `WaitLists.FirstIsWoken` | src/ipc.c:134-147 | Resuming wakes exactly the first waiter and keeps the order of the others |
| `WaitLists.ErrorsAreTold` | src/ipc.c:157-185 | A timeout tells one waiter -RT_ETIMEOUT and a reset tells all of them -RT_ERROR; nobody else is told anything |
| `WaitLists.WakeFirstKeeps` | src/ipc.c:134-147 | Adding one unit and waking one sleeper loses no wake-up |
| `WaitLists.LeaveKeeps` | src/ipc.c:1512-1533 | A woken thread that runs again uses up at most its own wake-up |
| `WaitLists.ExpireKeeps` | src/thread.c:807-829 | A timeout takes a sleeper off its list without losing a wake-up |
| `WaitLists.WaitList.Suspend` | src/ipc.c:80-123 | Inserting in place gives the list of the specification, for both flags and for the pool's insertion at the head |
| `WaitLists.WaitList.ResumeAll` | src/ipc.c:157-185 | Exactly the sleepers leave, each with -RT_ERROR; parked threads that were woken before keep their result |
| `WaitLists.WaitList.TimeOut` | src/thread.c:807-829 | The thread leaves the list with -RT_ETIMEOUT, the order of the others is unchanged |
| `MailboxSpec.NoLostWakeUps` | src/ipc.c:1442-1714 | In every run: while a receiver sleeps there are at most as many mails as woken receivers, and while a sender sleeps at most as many free slots as woken senders |
| `MailboxSpec.NobodySleepsInVain` | src/ipc.c:1473-1533 | Once all woken threads have run, a receiver sleeps only before an empty mailbox and a sender only before a full one |
| `MailboxSpec.StepKeepsInv` | src/ipc.c:1442-1758 | Every step (send, receive, re-run, timeout, reset, priority change) keeps the invariant behind these |
| `MailboxSpec.MailsInOrder` | src/ipc.c:1535-1542 | In every run the mails delivered or dropped, followed by those in the box, are the accepted ones in order; never more than fit |
| `MailboxSpec.OnlyResetDrops` | src/ipc.c:1726-1758 | Without a reset every mail that leaves the box was delivered |
| `MailboxSpec.WokenReceiverGetsOldest` | src/ipc.c:1663-1684 | A woken receiver gets the oldest mail whenever one is left, however little of its timeout remains |
| `MailboxSpec.SendReplies` | src/ipc.c:1462-1561 | RT_EOK exactly if the box is not full, which then has the mail at its end and wakes the first receiver; -RT_EFULL exactly if it is full and the timeout 0; else the sender sleeps with its mail and time |
| `MailboxSpec.RecvReplies` | src/ipc.c:1610-1714 | The oldest mail exactly if there is one, waking the first sender; -RT_ETIMEOUT exactly for an empty box and timeout 0; else the receiver sleeps |
| `MailboxSpec.RerunReplies` | src/ipc.c:1512-1533 | A thread that runs again reports its error, or succeeds if it can, or reports the end of its time, or sleeps again with what is left |
| `Mailboxes.Mailbox.constructor` | src/ipc.c:1294-1322 | An empty mailbox of the given size, kept in 16 bits |
| `Mailboxes.Mailbox.PutMail` | src/ipc.c:1535-1542 | The ring buffer with wrapping input offset appends to the queue it represents |
| `Mailboxes.Mailbox.FetchMail` | src/ipc.c:1683-1691 | The ring buffer with wrapping output offset hands out the head of the queue |
| `Mailboxes.Mailbox.SendWait` | src/ipc.c:1442-1561 | One attempt to send is the send step, with the same reply |
| `Mailboxes.Mailbox.ReceiveMail` | src/ipc.c:1590-1714 | One attempt to receive is the receive step, with the same reply |
| `Mailboxes.Mailbox.ResumeSend` | src/ipc.c:1515-1533 | After rt_schedule: report the error, or test again with the remaining time |
| `Mailboxes.Mailbox.ResumeRecv` | src/ipc.c:1663-1681 | The same for a receiver |
| `Mailboxes.Mailbox.ControlReset` | src/ipc.c:1726-1758 | Reset empties the box and fails all sleepers on both lists |
| `MessageQueueSpec.SlotsConservedAndNoLostWakeUps` | src/ipc.c:1975-2445 | In every run each slot is in exactly one of free list, message list and one call in flight, and no wake-up is lost on either side |
| `MessageQueueSpec.StepKeepsInv` | src/ipc.c:1975-2445 | Every step keeps this, with sends and receives split into take, copy and give-back |
| `MessageQueueSpec.FlightUndisturbed` | src/ipc.c:2079-2088 | No step of another thread changes the slot a thread is copying to or from |
| `MessageQueueSpec.ReceiverGetsSentBytes` | src/ipc.c:2339-2372 | In every reachable state, whatever ran in between, a receive hands out min(size, msg_size) bytes, and as many of them as the message has are its sender's |
| `MessageQueueSpec.SendReplies` | src/ipc.c:1990-2080 | A send reports -RT_ERROR exactly if the message is longer than msg_size, -RT_EFULL exactly if it fits, no slot is free and the timeout is 0, sleeps exactly with another timeout, and goes on exactly if it fits and a slot is free, of which it takes one |
| `MessageQueueSpec.UrgentReplies` | src/ipc.c:2165-2189 | The same for an urgent send, which reports -RT_EFULL whenever no slot is free |
| `MessageQueueSpec.RecvReplies` | src/ipc.c:2262-2352 | A receive takes the first message exactly if there is one, reports -RT_ETIMEOUT exactly for an empty queue and timeout 0, and else sleeps |
| `MessageQueueSpec.RerunReplies` | src/ipc.c:2058-2079 | A thread that runs again reports its error, or is answered as if it called now with what is left of its time |
| `MessageQueueSpec.SentIsLinked` | src/ipc.c:1975-2122 | A message of any length from 1 to msg_size is sent with RT_EOK and linked with all its bytes, at the front if urgent, else at the back |
| `MessageQueueSpec.HeadIsReceived` | src/ipc.c:2240-2385 | The first message is received byte for byte, as far as the buffer goes |
| `MessageQueueSpec.SentComesBack` | src/ipc.c:1975-2385 | Sent into an empty queue and received, a message of any length from 1 to msg_size comes back byte for byte |
| `MessageQueueOrder.MessagesInOrder` | src/ipc.c:2092-2106 | In every run without urgent messages and resets, messages are taken in the order they were linked, none lost, none twice |
| `MessageQueueOrder.PlainInOrder` | src/ipc.c:2092-2206 | Also with urgent messages in between, the others are taken in the order they were linked, none lost, none twice |
| `MessageQueueOrder.MessagesConserved` | src/ipc.c:2197-2206 | With urgent messages, what was linked is what was taken and what is still queued |
| `MessageQueueOrder.StepInOrder` | src/ipc.c:2079-2206 | A step takes from the front, links urgent messages at the front and others at the back |
| `MessageQueueOrder.UrgentIsNext` | src/ipc.c:2197-2206 | An urgent message that is linked before the next receive is received next |
| `MessageQueueSizes.SlotsFit` | src/ipc.c:1806-1808 | The slots fit the pool, and hold messages of the requested size exactly up to 2^16 less the alignment |
| `MessageQueues.MessageQueue.constructor` | src/ipc.c:1801-1831 | Size and number of the slots follow from the pool and the alignment, in 16 bits; all slots are threaded onto the free list, which starts the invariant |
| `MessageQueues.MessageQueue.SendWait` | src/ipc.c:1998-2080 | The first region of a send is the send step, whose replies `SendReplies` gives: longer than msg_size, full, asleep, or a slot taken off the free list |
| `MessageQueues.MessageQueue.SendUrgent` | src/ipc.c:2155-2189 | The first region of an urgent send, which never waits, with the replies of `UrgentReplies` |
| `MessageQueues.MessageQueue.FillSlot` | src/ipc.c:2085-2088 | Terminating the node and copying is the copy step |
| `MessageQueues.MessageQueue.LinkTail` | src/ipc.c:2090-2122 | The second region of a send links the node and wakes a receiver |
| `MessageQueues.MessageQueue.LinkHead` | src/ipc.c:2193-2225 | The second region of an urgent send, which links at the head |
| `MessageQueues.MessageQueue.ReceiveWait` | src/ipc.c:2262-2352 | The first region of a receive: empty, asleep, or the first message taken |
| `MessageQueues.MessageQueue.GiveSlotBack` | src/ipc.c:2357-2385 | The second region of a receive puts the slot on the free list and wakes a sender |
| `MessageQueues.MessageQueue.AppendNode` | src/ipc.c:2092-2106 | Linking at the tail, with the head and tail pointers, appends to the message list |
| `MessageQueues.MessageQueue.PrependNode` | src/ipc.c:2197-2206 | Linking at the head puts the message first and keeps the tail pointer right |
| `MessageQueues.MessageQueue.DrainSlot` | src/ipc.c:2354-2355 | Copying out is the copy step of a receive |
| `MemPoolSpec.BlocksConservedAndNoLostWakeUps` | src/mempool.c:303-449 | In every run each block is free or live but not both, and no sleeping allocator misses a free |
| `MemPoolSpec.StepKeepsInv` | src/mempool.c:303-449 | Every step keeps this |
| `MemPoolSpec.AllocatedWasNotLive` | src/mempool.c:371-391 | An allocation hands out a block of the pool that nobody holds |
| `MemPoolSpec.AllocReplies` | src/mempool.c:319-391 | A block exactly if one is free, the one freed last; the timeout error exactly for none and timeout 0; else the thread sleeps in front of all other sleepers |
| `MemPoolSpec.RerunReplies` | src/mempool.c:345-369 | A thread that runs again reports its error, or is answered as if it called now with what is left of its time |
| `MemPoolSpec.FreeWakes` | src/mempool.c:399-449 | A free puts exactly its block in front of the free list and wakes the thread that went to sleep last |
| `MemPoolSpec.FreeUndoesAlloc` | src/mempool.c:399-449 | Freeing the block just allocated restores the pool when nobody waits |
| `MemPools.MemPool.constructor` | src/mempool.c:77-124 | The blocks are chained through their header words in address order; with no block a word before the region is overwritten |
| `MemPools.MemPool.AllocBlock` | src/mempool.c:319-391 | Allocating through the header words is the allocation step |
| `MemPools.MemPool.ResumeAlloc` | src/mempool.c:358-366 | A woken allocator reports its error or tests again with the remaining time |
| `MemPools.MemPool.FreeBlock` | src/mempool.c:399-449 | Freeing through the header words is the free step |
| `SemaphoreSpec.UnitsConserved` | src/ipc.c:324-515 | In every run: nobody sleeps while units are there; every unit given out was reported by exactly one take or belongs to a woken thread; the counter is the number of units left exactly as long as that fits 16 bits |
| `SemaphoreSpec.OnlyFullReleaseLoses` | src/ipc.c:452-464 | From a right count, a step goes wrong exactly if it is a release at 65535 while nobody sleeps |
| `SemaphoreSpec.CountIsRight` | src/ipc.c:324-515 | In every run without such a release the counter is the number of units left |
| `SemaphoreSpec.FullCounterLosesAll` | src/ipc.c:433-471 | 65536 releases of an empty semaphore, of which the last one overflows, leave 0 |
| `SemaphoreSpec.TakeReplies` | src/ipc.c:337-391 | RT_EOK exactly if the counter is not 0, which is then counted as a take; -RT_ETIMEOUT exactly at 0 with timeout 0; else the thread sleeps |
| `SemaphoreSpec.ReturnReplies` | src/ipc.c:393-408 | A thread that runs again reports its error; it is RT_EOK exactly if a release woke it, and exactly then a take is counted |
| `SemaphoreSpec.ReleaseGives` | src/ipc.c:452-464 | A release gives its unit to the first sleeper, or to the counter if nobody sleeps |
| `SemaphoreSpec.SleeperIsAnswered` | src/ipc.c:393-408 | In every run: a sleeper leaves the list as the first at a release, by its timer or by a reset, and whatever happens until it runs again it then reports RT_EOK, -RT_ETIMEOUT and -RT_ERROR respectively |
| `SemaphoreSpec.StepKeepsInv` | src/ipc.c:324-515 | Every take, return, release, timeout and reset keeps this |
| `Semaphores.Semaphore.constructor` | src/ipc.c:199-220 | A semaphore of the given value without waiters |
| `Semaphores.Semaphore.TakeSemaphore` | src/ipc.c:324-391 | Taking up to rt_schedule is the take step |
| `Semaphores.Semaphore.ReturnFromTake` | src/ipc.c:393-408 | A woken thread reports its error and does not test the counter again |
| `Semaphores.Semaphore.ReleaseSemaphore` | src/ipc.c:433-471 | A release gives its unit to the first waiter, or counts it |
| `Semaphores.Semaphore.ControlReset` | src/ipc.c:483-515 | Reset fails all sleepers and sets the value |
| `MutexSpec.PriorityInheritance` | src/ipc.c:654-881 | In every run of a priority-ordered mutex: available exactly when nobody owns it, and then nobody waits; the owner is at least as urgent as every waiter; all others run at their own priority |
| `MutexSpec.StepKeepsShape` | src/ipc.c:654-881 | Every take, return, release and timeout keeps value, owner, hold and waiters consistent, for either waiting order |
| `MutexSpec.StepKeepsInherited` | src/ipc.c:721-733 | Every step keeps the waiters sorted and the owner at least as urgent as the first of them |
| `MutexSpec.TakenMeansOwned` | src/ipc.c:681-778 | A take reports RT_EOK only to the owner |
| `MutexSpec.TakeReplies` | src/ipc.c:681-747 | RT_EOK exactly if the mutex is free or the caller's own; -RT_ETIMEOUT exactly if another thread owns it and the timeout is 0; else the thread sleeps and the owner, and nobody else, is raised to its priority if that is higher |
| `MutexSpec.ReleaseReplies` | src/ipc.c:790-881 | Refused exactly to a thread that is not the owner; a release that gives the mutex away wakes exactly the new owner, whose take then reports RT_EOK |
| `MutexSpec.FinalReleaseRestores` | src/ipc.c:830-870 | The release that gives the mutex away restores the priority held at acquisition and hands over to the first waiter |
| `MutexSpec.ReleaseMatchesOutermostTake` | src/ipc.c:828-831 | With the 8-bit counter a release gives the mutex away exactly at the outermost take, if and only if the depth is 1 or not 1 modulo 256 |
| `MutexSpec.ShallowNestingIsSafe` | src/ipc.c:828-831 | Up to 256 nested takes the mutex is given away exactly by the outermost release |
| `MutexSpec.DeepNestingReleasesEarly` | src/ipc.c:681-685 | After 257, 513, ... takes, reached by takes alone, the first release gives the mutex away |
| `MutexSpec.InheritanceNeedsPriorityOrder` | src/ipc.c:841-856 | The owner is at least as urgent as every waiter in all runs if and only if the mutex waits by priority |
| `MutexSpec.FifoLosesInheritance` | src/ipc.c:841-856 | Three threads and one first-in-first-out hand-over after which a more urgent thread waits for a less urgent one |
| `Mutexes.Mutex.constructor` | src/ipc.c:530-550 | A new mutex is available and has the shape that every step keeps |
| `Mutexes.Mutex.TakeMutex` | src/ipc.c:654-747 | Taking up to rt_schedule is the take step |
| `Mutexes.Mutex.ReturnFromTake` | src/ipc.c:755-778 | After rt_schedule the thread reports its error |
| `Mutexes.Mutex.ReleaseMutex` | src/ipc.c:790-881 | Releasing is the release step |
| `EventSpec.NobodyWaitsInVain` | src/ipc.c:1029-1237 | In every run no thread waits for a condition that the current bits satisfy |
| `EventSpec.SendIsReplay` | src/ipc.c:1029-1111 | A send has the effect of setting the bits and running the non-blocking receive of each waiter in list order: same bits left, same waiters left, same bits reported |
| `EventSpec.ScanIsReplay` | src/ipc.c:1057-1100 | The same for any part of the list |
| `EventSpec.StepKeepsInv` | src/ipc.c:1029-1277 | Every step keeps it |
| `EventSpec.RecvReports` | src/ipc.c:1150-1213 | Bits exactly if the condition holds, and then exactly the wanted bits that are set, cleared if asked for; else -RT_ETIMEOUT for timeout 0, or the thread sleeps with its request |
| `EventSpec.WokenReportsItsTurn` | src/ipc.c:1215-1236 | In every run: a thread that a send wakes reports, whenever it runs again and whatever other threads do until then, exactly the wanted bits set when its turn in the list came, for AND all of them |
| `EventSpec.SendWakes` | src/ipc.c:1057-1100 | A send wakes exactly the threads whose condition holds when their turn comes |
| `EventSpec.FailedReportsError` | src/ipc.c:1215-1219 | In every run: a thread whose wait expired or was reset reports -RT_ETIMEOUT or -RT_ERROR when it runs again |
| `Events.Event.constructor` | src/ipc.c:915-933 | A new event satisfies the invariant |
| `Events.Event.SendEvent` | src/ipc.c:1029-1111 | The loop over the suspend list, which clears bits as it goes, is the send step |
| `Events.Event.ReceiveEvent` | src/ipc.c:1127-1213 | Receiving up to rt_schedule is the receive step |
| `Events.Event.ReturnFromReceive` | src/ipc.c:1215-1236 | A woken thread reports exactly the bits its sender left for it, or its error |
| `Events.Event.ControlReset` | src/ipc.c:1249-1277 | Reset clears the bits and fails all waiters |
| `Rings.InsertLinks` | include/rtservice.h:58-65 | Four stores to the links insert one node into the ring, in both directions |
| `Rings.RemoveLinks` | include/rtservice.h:86-92 | Two stores take a node out of the ring, in both directions |
| `Rings.RemoveUndoesInsert` | include/rtservice.h:86-92 | Removing what was just inserted gives the ring back |
| `Rings.Ring.constructor` | include/rtservice.h:47-50 | A ring of one node |
| `Rings.Ring.InsertAfter` | include/rtservice.h:58-65 | The node follows l, all others keep their order |
| `Rings.Ring.InsertBefore` | include/rtservice.h:73-80 | The node precedes l |
| `Rings.Ring.Unlink` | include/rtservice.h:86-92 | Exactly that node leaves the ring |
| `Rings.Ring.Len` | include/rtservice.h:107-118 | The number of nodes behind the head |
| `Layout.BlocksApart` | src/memheap.c:50-121 | Blocks that tile the heap do not overlap |
| `Layout.SplitKeeps` | src/memheap.c:187-236 | Splitting a free block keeps the tiling, leaves no two free neighbours, and accounts for the bytes |
| `Layout.ReleaseKeeps` | src/memheap.c:535-591 | Freeing with merging on both sides keeps the tiling, leaves no two free neighbours, and accounts for the bytes |
| `Layout.ResizeKeeps` | src/memheap.c:333-485 | Growing into or shrinking before a free neighbour keeps the same |
| `Layout.ReleaseSets` | src/memheap.c:535-591 | Freeing takes exactly one block out of the live ones |
| `Layout.ResizeSets` | src/memheap.c:333-485 | Resizing replaces exactly one live block |
| `HeapBytes.RoundsToZero` | src/mem.c:288-296 | A request rounds to zero if it is zero or so large that RT_ALIGN wraps, and only then |
| `HeapBytes.StampKeepsAll` | src/memheap.c:203-225 | Stores to headers change no byte of a block that is live before and after |
| `HeapBytes.HeadersAreOverwritten` | src/memheap.c:203-225 | A store to a header leaves nothing of the bytes that were there, so no live byte may lie in one |
| `HeapBytes.KeptByteForByte` | src/memheap.c:203-225 | A payload that is kept has the same byte at every place |
| `HeapBytes.CopyKeeps` | src/mem.c:502-507 | Writing into the payload of one live block leaves all others alone |
| `HeapBytes.CarriedByteForByte` | src/mem.c:502-507 | A payload that is carried over has its bytes, one by one, at the new place |
| `MemHeaps.RoundedIsEnough` | src/memheap.c:147-150 | The rounded request is large enough exactly up to 2^32 less the alignment |
| `MemHeaps.RoundedTwice` | src/memheap.c:300-307 | Rounding what was rounded does not wrap, so the allocation inside a realloc is large enough |
| `MemHeaps.AllocOfNearlyAll` | src/memheap.c:147-150 | A run in which a request of 2^32 - 1 bytes gets 12 |
| `MemHeaps.MemHeap.constructor` | src/memheap.c:50-121 | One free block and the tail tile the pool; all invariants hold |
| `MemHeaps.MemHeap.FindFit` | src/memheap.c:169-180 | The search returns the first item of the free list that is large enough, and fails only if none is |
| `MemHeaps.MemHeap.Alloc` | src/memheap.c:138-281 | Fails exactly when the request reaches available_size or no free block is large enough; else adds one block, the first fit, of the rounded size plus at most a header and the minimum; all live bytes stay. Keeps: blocks tile the pool in address order, the free list holds exactly the free blocks, no two neighbours are free, available_size is the sum of free payloads; max_used_size is the largest use so far |
| `MemHeaps.MemHeap.Free` | src/memheap.c:495-595 | Removes exactly the block of the pointer and keeps the invariants and all live bytes |
| `MemHeaps.MemHeap.Realloc` | src/memheap.c:284-492 | Unless the sum of line 350 wraps before a free block: grows in place, shrinks or moves, and moves only if the next block is not free or too small; exactly this block is replaced and starts with the first min(old, new) bytes; a failure changes nothing and happens only when an allocation of that size would fail; no other live byte changes.  If it wraps, the block is returned and the heap is broken |
| `MemHeaps.MemHeap.OvergrowsBeforeFree` | src/memheap.c:345-351 | For a rounded size of at least 2^32 - 12 the growth test succeeds exactly if the next block is free |
| `MemHeaps.MemHeap.Overgrow` | src/memheap.c:350-402 | The stores that follow then: the new header lies within the block's own |
| `MemHeaps.MemHeap.OverlappedIsBroken` | src/memheap.c:372-391 | After that the list of items no longer tiles the pool |
| `MemHeaps.ReallocOfNearlyAll` | src/memheap.c:350-402 | A run in which growing a block to 2^32 - 8 bytes returns the block and breaks the heap |
| `MemHeaps.MemHeap.MoveItem` | src/memheap.c:408-416 | The move: allocate, copy, free |
| `MemHeaps.MemHeap.GrowItem` | src/memheap.c:333-402 | Taking room from a free right neighbour, and its place in both lists |
| `MemHeaps.MemHeap.ShrinkItem` | src/memheap.c:432-485 | Giving back the end of a block, merged with a free right neighbour |
| `MemHeaps.MemHeap.ReleaseItem` | src/memheap.c:535-595 | Merging with the left and the right neighbour, and the free list |
| `MemHeaps.MemHeap.SplitItem` | src/memheap.c:187-236 | Splitting an item and replacing it by its rest at the front of the free list |
| `MemHeaps.MemHeap.TakeItem` | src/memheap.c:237-255 | Taking an item whole off the free list |
| `SmallMemSpec.NoFitMeansNoBlock` | src/mem.c:305-311 | While lfree is the lowest free block, the search fails exactly when no free block is large enough, but for an exact fit in the last block |
| `SmallMemSpec.BoundIsFit` | src/mem.c:305-307 | The bound of the search loop is that exception |
| `SmallMemSpec.FreedIsLowest` | src/mem.c:589-607 | Freeing keeps lfree on a free header or the end, and the lowest free block if it was |
| `SmallMemSpec.AdvanceKeepsLowest` | src/mem.c:380-384 | Moving lfree up after an allocation finds the lowest free block |
| `SmallMemSpec.ShrinkLowest` | src/mem.c:471-493 | After shrinking in place lfree is still the lowest free block exactly if it lies below the block or is the free block right behind it |
| `SmallMemSpec.PlugIsRelease` | src/mem.c:156-194 | Merging forward and then backward is freeing with both neighbours merged |
| `SmallMemSpec.Chained` | src/mem.c:501-507 | Allocating, copying and freeing carries the bytes over and keeps all others |
| `SmallMem.SmallHeap.constructor` | src/mem.c:204-257 | One free block and the end header; lfree is the lowest free block |
| `SmallMem.SmallHeap.PlugHoles` | src/mem.c:156-194 | In place, on the next and prev offsets, the merge of the specification |
| `SmallMem.SmallHeap.Search` | src/mem.c:305-312 | Finds the lowest free block at or above lfree that is large enough, or there is none |
| `SmallMem.SmallHeap.Malloc` | src/mem.c:272-410 | Fails exactly for size 0, for more than the heap, or when nothing fits; else adds one block, the first fit; keeps the chain tiling the heap, no two free neighbours, used_mem the total length of used blocks, all live bytes, and lfree lowest |
| `SmallMem.SmallHeap.RequestHolds` | src/mem.c:288-300 | The rounded request is large enough exactly up to 2^32 less the alignment; beyond it is the minimum |
| `SmallMem.MallocOfNearlyAll` | src/mem.c:288-300 | A run in which a request of 2^32 - 1 bytes gets 12 |
| `SmallMem.ExactFitIsRefused` | src/mem.c:305-311 | A run in which a request for exactly the size of the only free block fails |
| `SmallMem.ShrinkHidesFreeBlock` | src/mem.c:471-498 | A run in which a request for 40 bytes fails after a shrink although 68 are free, because lfree is too high |
| `SmallMem.SmallHeap.Free` | src/mem.c:546-609 | Removes exactly the block of the pointer, keeps the same; foreign pointers and NULL change nothing |
| `SmallMem.SmallHeap.Shrink` | src/mem.c:471-498 | Cuts the block in place, keeps its bytes and all others, and says where lfree ends up |
| `SmallMem.SmallHeap.Move` | src/mem.c:501-509 | Fails exactly when an allocation would; else the new block starts with the old bytes and only the old block is gone |
| `SmallMem.SmallHeap.ResizeBlock` | src/mem.c:459-510 | Fails exactly if the block has to move and nothing fits, and then changes nothing |
| `SmallMem.SmallHeap.Realloc` | src/mem.c:421-510 | All cases: too large, zero, NULL, foreign pointer, same size, shrink, move; the first min(old, new) bytes survive and no other live byte changes |
| `PageRuns.CanonicalIsUnique` | src/slab.c:236-322 | A sorted, disjoint, maximally merged list is determined by its set of pages |
| `PageRuns.FreesCommute` | src/slab.c:272-322 | Two frees in either order give the identical list |
| `PageRuns.FreeUndoesTake` | src/slab.c:272-322 | Freeing what was just allocated restores the identical list |
| `PageRuns.RunIsWhole` | src/slab.c:245-262 | Consecutive free pages lie in one run, so the search cannot miss them |
| `PageLists.PageList.constructor` | src/slab.c:327-334 | One run of all pages |
| `PageLists.PageList.Alloc` | src/slab.c:236-270 | Keeps the list canonical, takes exactly those pages from the lowest run that is long enough, and fails exactly when no such consecutive pages are free |
| `PageLists.PageList.Free` | src/slab.c:272-322 | Keeps the list canonical and adds exactly those pages, merging on both sides |
| `SlabSpec.ClassesAreSizes` | src/slab.c:401-459 | 72 classes; two requests have the same index exactly when they have the same chunk size |
| `SlabSpec.ClassIsSize` | src/slab.c:401-459 | The index determines the chunk size and the chunk size the index |
| `SlabSpec.ChunkSizeTwice` | src/slab.c:401-459 | A chunk size is its own chunk size; rounding wastes less than 8 bytes or at most an eighth |
| `SlabSpec.NewZoneOk` | src/slab.c:628-646 | A new zone lies within its pages, has at least two chunks, and counts its free chunks right |
| `SlabSpec.TakeKeepsZone` | src/slab.c:544-568 | Taking a chunk keeps z_nfree equal to never-used chunks plus the free list, and makes exactly one chunk live, which was not |
| `SlabSpec.PutKeepsZone` | src/slab.c:830-842 | Putting a chunk back keeps the same and makes exactly that chunk dead |
| `SlabSpec.AllFree` | src/slab.c:854-855 | A zone with z_nfree == z_nmax has no live chunk |
| `SlabSpec.ChunksApart` | src/slab.c:628-648 | Two different live chunks do not overlap |
| `SlabSpec.UsageLeadsHome` | src/slab.c:825-828 | The page-usage table leads from every address of a live chunk to its zone, and the offset gives the chunk back |
| `SlabSpec.PowerOfTwoAlignment` | src/slab.c:631-644 | Chunks of power-of-two size are aligned to it exactly if their zone is; always up to the page size |
| `SlabSpec.SmallPowersAre` | src/slab.c:157-158 | The powers of two whose blocks are aligned to their size are 1, 2, 4, up to the page size |
| `Slab.SlabHeap.constructor` | src/slab.c:344-395 | All invariants hold of the empty heap, with the zone size computed by the loop and the pages behind the usage table free |
| `Slab.SlabHeap.Malloc` | src/slab.c:478-667 | A small request makes one chunk of its class live that was not and fails exactly without a free chunk, a cached zone and room for a zone; a large one takes whole free pages and fails exactly when no run is long enough or the rounding wraps; power-of-two sizes up to the page are aligned; nothing else changes. Keeps: every page is free or in exactly one block, zones are on the list of their class exactly when in use with a free chunk, at most two zones are cached, the usage table is right |
| `Slab.SlabHeap.MallocLarge` | src/slab.c:489-521 | Fails exactly when no long enough run of pages is free |
| `Slab.MisalignedBlock` | src/slab.c:489-521 | For every power of two above the page size, up to 2^31, a run in which a block of that size is not aligned to it |
| `Slab.MisalignedChunk` | src/slab.c:599-648 | A run in which a chunk of 8192 bytes is not aligned to it |
| `Slab.SlabHeap.OpenZone` | src/slab.c:587-659 | A cached zone is used first; fails exactly when there is none and no pages for one |
| `Slab.SlabHeap.TakeFromZone` | src/slab.c:539-577 | The head of the list gives a chunk, a never-used one first, and leaves the list when it has no more |
| `Slab.SlabHeap.Free` | src/slab.c:771-904 | Frees exactly the chunk or large block that the usage table finds for the pointer, with the same fate of the zone; all other blocks stay |
| `Slab.SlabHeap.FreeSmall` | src/slab.c:822-904 | Puts the chunk back; the zone stays in use unless it became free while another of its class has a free chunk, and then is cached, or given back if two are cached |
| `Slab.SlabHeap.RetireZone` | src/slab.c:854-900 | The zone moves to the cache, or with two there its pages go back to the page allocator; no live chunk is affected |
| `Slab.SlabHeap.Realloc` | src/slab.c:678-735 | Same chunk size: the same pointer; else the block moves with min(old, new) bytes copied and only the old block is gone; a failure changes nothing |
| `TimerSpec.CompareByDist` | src/timer.c:359-366 | Within half the tick range of a base, the wrapping comparisons are the order of distances |
| `TimerSpec.ScanSplits` | src/timer.c:345-367 | In a sorted row the scan stops between the deadlines up to the new one and the later ones |
| `TimerSpec.InsertOrdered` | src/timer.c:354-380 | Inserting there keeps the row sorted and puts the timer behind all equal deadlines |
| `TimerSpec.RowsAreSubLists` | src/timer.c:379-391 | Every row is a sub-list of the row below it |
| `TimerSpec.InsertLayered` | src/timer.c:342-391 | The multi-row search inserts into the bottom row where a linear scan of it would, for every number of rows and every height |
| `TimerSpec.RowOfInserted` | src/timer.c:379-391 | The same, row by row |
| `TimerSpec.LinearScanStops` | src/timer.c:345-367 | The linear scan that serves as reference stops at the first later deadline |
| `TimerSpec.RowsByDivision` | src/timer.c:376-392 | A timer enters row k from the bottom exactly if the counter is divisible by the (k-1)-th power of the mask plus one |
| `TimerSpec.HeadIsNext` | src/timer.c:509-516 | As long as the head is due it is the next timer of the old list whose turn has come |
| `TimerSpec.FiresUnlessTouched` | src/timer.c:504-545 | Only due timers fire, and a due timer does unless one that fires before starts or stops it |
| `TimerSpec.RearmedIsAhead` | src/timer.c:532-538 | A re-armed periodic timer is not due again |
| `TimerSpec.FireAllSpares` | src/timer.c:524-544 | A timer that no timeout function touches: if it fires it gets a new deadline one period later, or becomes inactive if it is not periodic; else it is unchanged |
| `TimerSpec.DueInTick` | src/timer.c:512-516 | With no deadline passed before a tick, the timers due after it are those whose deadline is one of the two |
| `Timers.TimerList.Init` | src/timer.c:80-105 | A new timer is not active |
| `Timers.TimerList.FindHeads` | src/timer.c:342-370 | In every row the search stops where a scan of the whole row would |
| `Timers.TimerList.Insert` | src/timer.c:376-391 | The timer enters the bottom row and the rows above as long as the counter says, each behind its head |
| `Timers.TimerList.Start` | src/timer.c:296-412 | The bottom row is the sorted insertion of the timer, restarted timers leave their old place; exactly the active timers are listed |
| `Timers.TimerList.Stop` | src/timer.c:422-447 | The timer leaves all rows; an inactive one is refused |
| `Timers.TimerList.TimeoutFunction` | src/timer.c:524 | A timeout function that starts and stops other timers takes exactly these off the timers whose turn may come |
| `Timers.TimerList.FireHead` | src/timer.c:516-544 | The head fires: out of all rows, its timeout function called; periodic, it is listed again with a deadline one period from now, otherwise inactive and not listed |
| `Timers.TimerList.FireDue` | src/timer.c:504-548 | The loop of the check fires the timers of the sorted list one by one as long as the head is due |
| `Timers.TimerList.Check` | src/timer.c:494-553 | Timeout functions may start and stop other timers.  The due timers fire in deadline order with ties in start order, each once, but those that a timer firing before has started or stopped; without such interference exactly the due ones; periodic ones are re-armed, all remaining deadlines lie ahead, and the loop ends.  Of the timers that no timeout function touches, those that fired are listed again with a deadline one period from now if they are periodic and inactive otherwise, and all others are as before |
| `Timers.TimerList.NextTimeout` | src/timer.c:108-119 | The earliest deadline of all, or RT_TICK_MAX |
| `Timers.TimerList.Tick` | src/clock.c:72-106 | With one check per tick every timer fires exactly at the tick of its deadline, or at the next if it was started with zero ticks, unless a timeout function starts or stops it first; for ever |
| `Timers.Ticks` | src/timer.c:494-553 | Over any number of ticks, whatever the timeout functions do to other timers: an undisturbed periodic timer of period n fires first at its deadline and then exactly at every n-th tick, another exactly once |
| `ReadyBits.FfsIsLowest` | src/kservice.c:1316-1330 | The table lookup finds the lowest set bit, counted from one, of every 32-bit value, and 0 for 0 |
| `ReadyBits.BitOfSet` | src/scheduler.c:733-738 | Setting a mask sets that bit and no other |
| `ReadyBits.BitOfClear` | src/scheduler.c:821-832 | Clearing a mask clears that bit and no other |
| `SchedulingSpec.HighestIsHighest` | src/scheduler.c:162-184 | The bitmap search, one or two levels, finds the first non-empty priority list |
| `SchedulingSpec.MarkAgree` | src/scheduler.c:733-738 | Marking keeps bitmaps and lists in agreement |
| `SchedulingSpec.ClearAgree` | src/scheduler.c:821-832 | Clearing when a list became empty keeps them in agreement |
| `SchedulingSpec.SwitchQueues` | src/scheduler.c:457-472 | A switch keeps every ready thread on its list, and afterwards no ready thread is more urgent than the running one |
| `SchedulingSpec.RoundRobin` | src/clock.c:72-106 | Wherever k equal threads stand in their slices, each runs once per round, and with full slices the rotation has the sum of slices as period |
| `SchedulingSpec.ManyRounds` | src/clock.c:72-106 | The same after any number of rounds |
| `SchedulingSpec.RoundTurns` | src/clock.c:87-97 | The same for part of a round |
| `SchedulingSpec.SliceExpired` | src/clock.c:89-97 | When the slice of the running thread ends, the scheduler gives the next of the same priority its turn |
| `SchedulingSpec.ExitMatchesOutermostEnter` | src/scheduler.c:879-966 | The outermost exit and no earlier one unlocks exactly up to a depth of 32768; the lock is open again after 65536 enters |
| `Scheduling.Scheduler.constructor` | src/scheduler.c:191-239 | The first thread runs and all lists are empty |
| `Scheduling.Scheduler.InsertThread` | src/scheduler.c:709-743 | At the end of its list, with the bitmaps in agreement; the current thread is only marked running |
| `Scheduling.Scheduler.RemoveThread` | src/scheduler.c:806-836 | Off its list, with the bitmaps in agreement |
| `Scheduling.Scheduler.HighestPriority` | src/scheduler.c:162-184 | The most urgent priority with a ready thread |
| `Scheduling.Scheduler.Schedule` | src/scheduler.c:418-539 | A locked scheduler does nothing; else the current thread goes on or the head of the most urgent list takes over, and no ready thread is more urgent than the one that runs; only the thread that takes over and the one that gives way change their state |
| `Scheduling.Scheduler.Suspend` | src/thread.c:715-754 | A ready or running thread is suspended and leaves its list; others are refused |
| `Scheduling.Scheduler.Resume` | src/thread.c:764-798 | A suspended thread becomes ready; others are refused |
| `Scheduling.Scheduler.Startup` | src/thread.c:289-321 | The thread is ready or runs afterwards; it runs at once if it is more urgent than the running and all ready threads, and waits at the end of its list while the scheduler is locked or the running thread is at least as urgent; priorities and slices are kept, and no other thread changes its state but by the switch |
| `Scheduling.Scheduler.ChangePriority` | src/thread.c:630-671 | A ready thread moves to the list of its new priority, others only change their number; bitmaps stay in agreement |
| `Scheduling.Scheduler.EnterCritical` | src/scheduler.c:879-894 | The 16-bit lock counter nests |
| `Scheduling.Scheduler.ExitCritical` | src/scheduler.c:941-966 | The counter goes down; when it is not positive any more it is 0 and the scheduler runs, after which the most urgent thread runs |
| `Scheduling.Scheduler.Tick` | src/clock.c:72-106 | A tick uses up the slice of the running thread only; a slice used up is full again, and its thread gives way unless the scheduler is locked; while nobody more urgent is ready, the queue of equals takes one turn step |
| `Scheduling.Ticks` | src/clock.c:72-106 | n ticks of the scheduler are n turn steps of the queue of equals, while nobody more urgent becomes ready |
| `Scheduling.Rounds` | src/clock.c:72-106 | After any number of rounds the threads of the running priority stand in the same order with full slices |
| `KconfigCacheSpec.InvalidationKeepsFresh` | tools/kconfiglib.py:4737-4766 | If a closed set of items that covers a change of user values is dropped, every cached value whose computation can reach no stray cell equals a recomputation with the new values |
| `KconfigCacheSpec.UncleanReadsStray` | tools/kconfiglib.py:3354-3427 | Any set of cells without stray ones that holds all its members may read is safe: only stray cells and what reads them can go stale |
| `KconfigCacheSpec.WithoutStrayAllClean` | tools/kconfiglib.py:3354-3427 | Without stray cells nothing can go stale |
| `KconfigCacheSpec.SameReadsSameResult` | tools/kconfiglib.py:4307-4384 | A computation with short circuits is determined by the values it actually reads |
| `KconfigCacheSpec.AllowedReads` | tools/kconfiglib.py:3354-3427 | Everything a visibility, value or selection that is not stray can read is registered as a dependency, or belongs to the item itself |
| `KconfigCacheSpec.SurvivorsReadNoChange` | tools/kconfiglib.py:4737-4766 | No value that survives read an input that changed |
| `KconfigCacheSpec.SurvivorsReadSurvivors` | tools/kconfiglib.py:4737-4766 | A value that survives read only values that survive |
| `KconfigCacheSpec.UnchangedValue` | tools/kconfiglib.py:4737-4766 | A value whose sources did not change does not change |
| `KconfigCacheSpec.DeadIsN` | tools/kconfiglib.py:4373-4384 | A choice symbol that can never be visible is n, whatever the choice does |
| `KconfigCacheSpec.NeverVisibleIsInvisible` | tools/kconfiglib.py:6145-6172 | Without a prompt that is not constantly n an item is invisible under all settings |
| `KconfigReads.TriOk` | tools/kconfiglib.py:4307-4384 | On every path, the value of a symbol reads only its visibility, user value, choice and dependencies, and a user value only after some cached value of the item |
| `KconfigReads.VisOk` | tools/kconfiglib.py:6145-6172 | The same for visibilities |
| `KconfigReads.SelOk` | tools/kconfiglib.py:5274-5303 | The same for selections |
| `KconfigReads.ExprOk` | tools/kconfiglib.py:5838-5892 | The same for expressions with their short circuits |
| `KconfigEngine.Engine.constructor` | tools/kconfiglib.py:3354-3427 | The dependents are the inverse of the dependency relation |
| `KconfigEngine.Engine.Read` | tools/kconfiglib.py:4396-4403 | A cached property is the value that the theorems of `KconfigValues` describe, unless it may read a stray cell |
| `KconfigEngine.Engine.Compute` | tools/kconfiglib.py:4307-4384 | Running the formula gives that value and leaves everything it read cached, unless it may read a stray cell |
| `KconfigEngine.Engine.RecInvalidate` | tools/kconfiglib.py:4737-4766 | Although it stops at items that are not cached, and in spite of loops: it terminates, drops only items that a change reaches, and leaves nothing cached that depends on a dropped item |
| `KconfigEngine.Engine.InvalidateAll` | tools/kconfiglib.py:3429-3437 | Nothing stays cached |
| `KconfigEngine.Engine.InvalidateIfPrompt` | tools/kconfiglib.py:4768-4788 | A symbol without prompt needs no invalidation |
| `KconfigEngine.Engine.SetSymbol` | tools/kconfiglib.py:4430-4517 | After set_value every clean value still cached is right for the new user values: the value is stored if it is valid, and y also selects a choice symbol, nothing else changes; true exactly for a valid value, or for the value it has if it is not in a choice |
| `KconfigEngine.Engine.UnsetSymbol` | tools/kconfiglib.py:4519-4526 | The same after unset_value |
| `KconfigEngine.Engine.SetChoice` | tools/kconfiglib.py:5094-5133 | The same for choices |
| `KconfigEngine.Engine.UnsetChoice` | tools/kconfiglib.py:5135-5142 | The same for choices |
| `KconfigValues.TriValueIs` | tools/kconfiglib.py:4331-4370 | A symbol outside choices: the user value up to the visibility if it is visible and has one; else the first default whose condition is not n, up to that condition, raised to what implies it if the direct dependencies are met; then at least the reverse dependencies; m becomes y if it is no tristate or implied to be y |
| `KconfigValues.ChoiceSymbolIs` | tools/kconfiglib.py:4372-4381 | A choice symbol is y exactly if its visibility is y and it is the selection, and m exactly if its visibility is m and the user asked for it |
| `KconfigValues.VisibilityIs` | tools/kconfiglib.py:6145-6172 | The visibility is the maximum of the prompt conditions, cut off for a choice symbol in the wrong mode, and m becomes y for what is no tristate |
| `KconfigValues.ChoiceModeIs` | tools/kconfiglib.py:5048-5073 | The mode of a choice: what the user set, at least m unless it is optional, at most the visibility; m becomes y unless it is a tristate with modules on |
| `KconfigValues.SelectionIs` | tools/kconfiglib.py:5274-5303 | In y mode alone: the user's selection if it is visible, else the first default that applies and is visible, else the first visible symbol, else none |
| `KconfigValues.ChoiceSelectsOne` | tools/kconfiglib.py:4372-4381 | At most one symbol of a choice is y, and only in y mode; there exactly the selected one is y and the others are n |
| `KconfigValues.SettingSelects` | tools/kconfiglib.py:4501-4513 | Setting a visible symbol of a choice in y mode to y makes it y and all others of the choice n |
| `KconfigValues.ExpressionMeans` | tools/kconfiglib.py:5850-5891 | Conjunction is the minimum, disjunction the maximum of both operands, negation mirrors n and y, a comparison is y or n |
| `KconfigValues.ExprRuns` | tools/kconfiglib.py:5850-5891 | Evaluating an expression, with its short circuits, gives the value of the expression under the values of its items |
| `KconfigValues.ValuesAreTristate` | tools/kconfiglib.py:4307-4384 | Every value is n, m or y, so the short circuits give what both operands would |
| `KconfigValues.SettersStayProper` | tools/kconfiglib.py:4430-4517 | The setters store only values that these theorems assume |
| `KconfigStray.StrayDefaultGoesStale` | tools/kconfiglib.py:3736-3740 | With a default symbol outside the choice, setting that symbol's condition leaves a wrong selection cached |
| `KconfigStray.StraySymbolGoesStale` | tools/kconfiglib.py:3758-3764 | With a choice symbol that has its prompt outside the choice, setting it to y leaves it n |
| `KconfigStray.HeightRanks` | tools/kconfiglib.py:5290-5303 | The evaluation of these examples is well-founded |
| `KconfigExprSpec.ShortCircuitsAreRight` | tools/kconfiglib.py:5838-5892 | Not looking at the second operand never changes a value |
| `KconfigExprSpec.MakeKeepsValue` | tools/kconfiglib.py:2745-2771 | The simplifications of _make_and and _make_or never change a value |
| `KconfigExprSpec.MakeSimplifies` | tools/kconfiglib.py:2745-2771 | A constant operand never stays: n decides a conjunction and y a disjunction, the other one falls away |
| `KconfigExprSpec.ExprRoundTrip` | tools/kconfiglib.py:3264-3348 | What is printed parses, to the right-nested form of the expression, and leaves the rest of the tokens |
| `KconfigExprSpec.PrintParseKeepsValue` | tools/kconfiglib.py:5910-5951 | Printing and parsing keeps the value under every assignment |
| `KconfigExprSpec.PrintParseIsIdentity` | tools/kconfiglib.py:5910-5951 | The tree comes back identical exactly if it is right-nested |
| `KconfigExprSpec.PrintParseKeepsRewritten` | tools/kconfiglib.py:3322-3329 | With m rewritten to m && MODULES, a parsed expression keeps its value when printed and parsed again |
| `KconfigExprSpec.NormKeepsValue` | tools/kconfiglib.py:3264-3348 | The form the parser gives has the value of the expression with m read as m && MODULES |
| `KconfigParser.Parser.ParseExpr` | tools/kconfiglib.py:3264-3303 | The parser that advances a token index gives the tree and the rest of the grammar's function, and fails exactly when it does |
| `KconfigParser.Parser.ParseAnd` | tools/kconfiglib.py:3305-3312 | The same for and-expressions |
| `KconfigParser.Parser.ParseFactor` | tools/kconfiglib.py:3314-3348 | The same for factors |
| `KconfigParser.Parser.CheckToken` | tools/kconfiglib.py:2476-2484 | Advances exactly over a token that matches |
| `KconfigStrings.EscapeRoundTrip` | tools/kconfiglib.py:6026-6044 | Every string survives escape and unescape, and its escaped form is one quoted string |
| `KconfigText.TextRoundTrip` | tools/kconfiglib.py:2267-2424 | The tokenizer splits the printed text into the printed tokens |
| `KconfigText.LexEscaped` | tools/kconfiglib.py:2599-2630 | A quoted string is read back behind its opening quote, and no further |
| `KconfigText.WordOrKeyword` | tools/kconfiglib.py:2267-2290 | A maximal run of letters, digits and _/.- is one token: a keyword if it is in the table, else a name |
| `KconfigText.PrintIsText` | tools/kconfiglib.py:5933-5951 | Printing text is printing tokens and spelling them |
| `KconfigText.TextParsesBack` | tools/kconfiglib.py:5910-5951 | What expr_str prints is read and parsed to the right-nested form, with its value under every assignment, whatever characters quoted constants contain |
| `KconfigLoops.LoopCheck.CheckAll` | tools/kconfiglib.py:1060-1069 | A loop that is reported is real; a round that is not has a step that the search leaves out; its answer is right exactly if it reports a loop or the graph has no hidden paths |
| `KconfigLoops.LoopCheck.CheckSym` | tools/kconfiglib.py:6422-6494 | The loop over the dependents and the choice is one call of the search |
| `KconfigLoops.LoopCheck.CheckChoice` | tools/kconfiglib.py:6496-6528 | The loop over the symbols of the choice, but the one it was entered through, is one call of the search |
| `KconfigLoops.LoopCheck.FoundLoop` | tools/kconfiglib.py:6531-6577 | The chain is extended, or closed exactly at its first item |
| `KconfigLoopSpec.DirectRoundsAreFound` | tools/kconfiglib.py:6460-6472 | No round is missed that only goes from symbols to their dependents and from choices to their symbols |
| `KconfigLoopSpec.SomeRoundIsDirect` | tools/kconfiglib.py:6460-6516 | Without hidden paths there is such a round if there is one at all |
| `KconfigLoopSpec.HiddenPathIsLoop` | tools/kconfiglib.py:6504-6516 | A hidden path is part of a loop |
| `KconfigLoopSpec.VisitFinishes` | tools/kconfiglib.py:6422-6528 | What a finished item calls was finished before it, and what the entry of a choice calls before the choice |
| `KconfigLoopSpec.VisitTells` | tools/kconfiglib.py:6531-6541 | What comes back on the way up is the chain of calls down to an item on the stack, or a closed one |
| `KconfigLoopSpec.ClosedChainIsLoop` | tools/kconfiglib.py:6454-6457 | A closed chain of calls contains a dependency: the flags keep it from going between a choice and its symbols only |
| `KconfigLoops.SiblingLoopIsMissed` | tools/kconfiglib.py:6504-6516 | A choice of three symbols in which one depends on another, and the search that ends without an error |
| `KconfigLoops.MenuLoopIsMissed` | tools/kconfiglib.py:6394-6406 | A symbol in a menu inside a choice through which the choice depends on itself, and the search that ends without an error |
| `KconfigLoops.SiblingLoopIsFound` | tools/kconfiglib.py:6504-6516 | The same graph with the symbols in another order, and the search that reports the loop |
| `KconfigRanks.AcyclicIsRanked` | tools/kconfiglib.py:3354-3403 | Where there is no loop, and no tristate item among what MODULES depends on, evaluation is well-founded |
| `KconfigRanks.RankedIffNoCircle` | tools/kconfiglib.py:4307-4384 | Evaluation is well-founded exactly if no value needs itself on any path |
| `KconfigRanks.Load` | tools/kconfiglib.py:1058-1074 | Without hidden paths and tristate items below MODULES the check passes exactly if there is no loop, and the engine it leads to never gives out a stale value if there are no stray cells |
| `KconfigCircles.CheckMissesModules` | tools/kconfiglib.py:4153-4163 | No loop in the recorded dependents, but a symbol whose value needs itself through MODULES |
| `KconfigCircles.CheckMissesMenu` | tools/kconfiglib.py:6394-6406 | The check passes, and the visibility of a choice needs itself through a symbol in a menu inside it |
| `KconfigCircles.CheckMissesSiblings` | tools/kconfiglib.py:6504-6516 | The check passes, and the selection of a choice needs itself through two of its symbols |
| `WcsSpec.ExactIsUnique` | tools/WCS.py:245-299 | The result is determined by the call graph, whatever the order of visits |
| `WcsSpec.CallsAreResolved` | tools/WCS.py:84-99 | A call goes to the global function of its name, else to the local one of the unit, and else is unresolved; nothing else is called |
| `WcsSpec.CircleHasNoBound` | tools/WCS.py:264-267 | A call back to a function being analysed means recursion |
| `WcsSpec.BoundedByCallees` | tools/WCS.py:278-281 | A function is unbounded only through a pointer call of its own or an unbounded callee |
| `WcsSpec.LargestByCallees` | tools/WCS.py:283-290 | Its own stack plus the largest of its callees' numbers is the largest total of any call chain |
| `WcsSpec.MissingByCallees` | tools/WCS.py:286-288 | Unresolved calls below a function are its own and those below its callees |
| `WcsAnalysis.CallGraph.ResolveAll` | tools/WCS.py:223-242 | Each call goes to the global function of that name, else to the local one of the same unit, else it is unresolved |
| `WcsAnalysis.CallGraph.CalcWcs` | tools/WCS.py:246-290 | Memoised and in the middle of other analyses: every number stored is exact |
| `WcsAnalysis.CallGraph.CalcAll` | tools/WCS.py:245-299 | A function is unbounded exactly if some call chain reaches a pointer call or goes round in a circle; else its number is the largest total of any chain, and its unresolved calls are exactly those some chain reaches |

## Left out

Deliberately weaker or conditional statements:

- KconfigEngine.Engine.SetSymbol: says nothing about stray cells and what may read them; each kind has an example that goes stale, but not every such cell does.
- KconfigCacheSpec.InvalidationKeepsFresh: assumes that evaluation is well-founded on every branch; `RankedIffNoCircle` says when it is.
- KconfigRanks.AcyclicIsRanked: one way only; a loop in `_dependents` need not be one of evaluation, since some dependents only need the visibility of a choice.
- KconfigText.TextParsesBack: names without a dollar sign, which stands for a macro or a variable when the text is read.
- MutexSpec.PriorityInheritance: one mutex used alone; with several held mutexes the original priorities overwrite each other.
- MutexSpec.ReleaseMatchesOutermostTake: about one mutex; nothing is said about takes from interrupts, which the source forbids.
- Timers.TimerList.Check: timeout functions act on other timers, start them with at least one tick, and pending deadlines lie within half the tick range.
- Timers.TimerList.Tick: one check per tick, and no periodic timer with a period of zero ticks, for which the loop of the check does not end.
- Slab.SlabHeap.Realloc: says how many bytes are copied, not what they are; the contents of slab memory are not modelled.
- WcsAnalysis.CallGraph.CalcWcs: functions are told apart by name and unit, where the source compares whole records.
- Scheduling.Scheduler.Tick: the yield flag is set by slice expiry only, since rt_thread_yield does not set it.

What the model does not have:

- Multi-core branches, spinlocks, context switching, stacks, interrupt nesting.
- Signals and the EINTR paths; deletion and detaching of objects and of blocked threads.
- Hooks, assertions, debug output, object names, `max_used` counters of `src/mem.c` and the pool and slab statistics.
- The semaphore that serialises each allocator: an allocator call is one step.
- `thread->error` of a thread that is not in a blocking call; the thread timer, whose expiry is a step of its own.
- Event bits are sets of bit numbers and not machine words.
- `rt_thread_delay_until` and `rt_thread_yield`, which do not do what their comments say; the soft-timer thread; restarting a one-shot timer in its own callback.
- `heap_end->prev` of `src/mem.c`, which the source does not keep; initialisation with unaligned addresses.
- `rt_calloc`, `rt_malloc_align`, `rt_free_align` and `rt_tick_from_millisecond`: they would add easy members only.
- Alignment of the addresses that `src/memheap.c` and `src/mem.c` return.
- Pages of the slab usage table itself, which are taken once and never returned.
- Kconfig strings, ints, hex values and ranges; reading files, macros, menus and writing configurations.
- Comparison of symbols in Kconfig relations is a parameter of the expression semantics; in the cache model it compares tristate values.
- Readers and printers of `tools/WCS.py`; duplicate entries in its call lists, which do not change a maximum.

# Kernel lists, queues, co-routines, event groups, VLAN table, TLS window, Telnet filter

A Dafny model of the parts of this firmware in which correctness depends on many steps taken
together: the FreeRTOS V10.0.0 kernel code under `supports/rtos`, the VLAN table of the switch
driver, the receive-window accounting of the TLS layer and the Telnet input filter.

Each component is one module.  Where the source changes objects in place the model is a class
with the same fields; its methods are proved to act as functions on a value, and the laws that
the source relies on are lemmas about those functions and about every run made of them.

| file | what it models |
|---|---|
| `Common.dfy` | types that several components share |
| `Lists.dfy` | the intrusive circular list, as a ring of nodes and as a sequence with a cursor |
| `Queues.dfy` | the queue: byte buffer, waiting lists, lock counters, and every critical section |
| `QueueProtocol.dfy` | tasks and interrupts interleaved on one queue: no lost wake-up, delivery in order, how calls end, progress |
| `QueueSets.dfy` | members and set under interleaved task and interrupt steps: conservation, order of the handles |
| `Mutexes.dfy` | recursive mutexes taken and given by interleaved tasks |
| `EventGroups.dfy` | set, clear, wait and sync on a 32-bit word with deferred clearing |
| `Barrier.dfy` | n tasks that use sync as a barrier, round after round |
| `CoRoutines.dfy` | the co-routine scheduler with interrupts striking inside its functions |
| `VlanTable.dfy` | the hashed VLAN table with its overflow CAM, down to the packed registers |
| `TlsWindow.dfy` | the four byte counters of the TLS layer, for any engine and any application |
| `Telnet.dfy` | the in-place, resumable decoder of the Telnet escape scheme (RFC 854, section "TELNET COMMAND STRUCTURE") |

## How the machines are cut into steps

A critical section is one step.  Suspending the scheduler keeps other tasks out but not
interrupts, so every step of a suspended task can be preceded by interrupt steps.  In the
co-routine scheduler the interrupts are an arbitrary oracle: at each point where they are
enabled, any sequence of event lists may have its head moved to the pending list.  The TLS
engine and the application are arbitrary too: every call takes a description of what they will
do, any number of bytes up to the buffer size may be decrypted at any time, and the methods are
proved for all of them.  Window is conserved exactly as long as both are fair: that is the
equivalence below.

## Properties that hold only under a condition

Each is stated as an equivalence, with the condition on one side, and with an input or a run that
shows the failure.

* A reset wakes one sender and frees every slot: senders stay covered if and only if at most
  one waits or the queue is short enough (`QueueProtocol.ResetAndSenders`; for a caller: at most
  one, or length 1, `QueueProtocol.SafeResets`).  Two senders on a full queue show it
  (`QueueProtocol.ResetLosesSender`).
* Posts in one locked window: receivers are covered after the unlocking if and only if there
  were at most 127 posts or no more receivers wait than are woken, where 128 to 255 posts wake
  nobody because the 8-bit counter has wrapped (`QueueProtocol.PostsInWindow`).  A receiver that
  goes to sleep and 128 posts show it (`QueueProtocol.OverrunLosesReceiver`).
* A task that uses the plain and the recursive interface on the mutex it holds: a recursive give
  makes the call count underflow if and only if the only take outstanding is a plain one, and
  releases the mutex under a plain take if and only if one of each is outstanding
  (`Mutexes.ReleaseAtZero`, and `Mutexes.StepKeepsInv` for every access).  Runs of three and five
  calls show both (`Mutexes.CountUnderflows`, `Mutexes.TwoHolders`).
* An overwrite replaces the item if and only if items have a size or the queue is empty
  (`Queues.OverwriteReplaces`): a full semaphore comes to hold two (`Queues.SemaphoreOvercounts`).
* The copy routine leaves the buffer ready for the next send to the back if and only if it does
  not overwrite a queue that is longer than 1 and not empty (`Queues.Queue.CopyDataToQueue`).
  Nothing keeps an overwriting post to a member from doing that to its set; the next handle is
  then stored where it is not read (`Queues.GapHidesItem`).
* `xQueueRemoveFromSet` tests for emptiness outside the critical section that removes: sound if
  and only if the member is still empty then (`QueueSets.RemoveRace`).  An interrupt that posts
  in between shows it (`QueueSets.RaceHappens`, `QueueSets.RaceIsReached`).
* A delay of 0 ticks leaves a due co-routine on the delay list
  (`CoRoutines.Scheduler.AddToDelayedList`); on the last tick of a period it sleeps two periods
  too long (`CoRoutines.ZeroDelayOversleeps`).  The callers never ask for 0
  (`supports/rtos/include/croutine.h:292`, `supports/rtos/queue.c:2352`, `supports/rtos/queue.c:2429`).
* `rtk_vlan_stg_set` changes nothing but the fid if and only if the entry was last written in the
  present IVL/SVL mode (`VlanTable.StgOnlyFid`), as it was in every run without a change of mode
  (`VlanTable.OnlyFidInEveryRun`); after `rtk_vlan_init` and a change to SVL it
  changes more (`VlanTable.StgChangesMore`).
* An engine that makes more of a finished record than was read for it, an application that
  acknowledges data and then refuses it, and one without a receive callback: each breaks the
  account, and nothing else does (`TlsWindow.EventBalance`, `TlsWindow.UnfairActBreaks`,
  `TlsWindow.UnfairActs`).
* A byte 255 among subnegotiation parameters, even doubled, ends the subnegotiation and lets the
  rest through as data (`Telnet.RoundTrip`).  So a reported window size arrives if and only if
  none of its bytes is 255, or it is the size the terminal has (`Telnet.WindowSizeArrives`); the
  report of 255 columns is lost (`Telnet.WideTerminalIsLost`).

Three places where the code does something its comments do not say: `rtk_vlan_set` stores the port
masks in 8-bit fields before it tests them, so masks that name only ports above 7 delete the VLAN;
the comment in `prvCheckDelayedList` that the event could have moved the generic item speaks
of the event item; and the comment in `xQueueGiveMutexRecursive` that the call count cannot be 0
when the caller is the holder overlooks a holder that took the mutex plainly.

## Model

| member | source | states |
|---|---|---|
| `Lists.SortedInEveryRun` | supports/rtos/list.c:104-168 | under every sequence of sorted inserts, removals and walks the list stays sorted with ties in order of arrival, and the cursor stays inside it |
| `Lists.InsertPosUnique` | supports/rtos/list.c:116-155 | the place the search finds is the only one behind all values not larger and before a larger one |
| `Lists.InsertKeepsSorted` | supports/rtos/list.c:104-168 | inserting at that place keeps a sorted list sorted |
| `Lists.InsertThenRemove` | supports/rtos/list.c:104-197 | removing what was just inserted restores items and cursor |
| `Lists.RoundRobin` | supports/rtos/include/list.h:277-288 | n walks over n items hand out each exactly once and come back to the same cursor |
| `Lists.NewcomerWaitsItsTurn` | supports/rtos/list.c:75-101 | an item inserted at the end is handed out after every other item except the one the cursor is on, or after all of them when the cursor is on the end marker |
| `Lists.SpliceIn` | supports/rtos/list.c:88-100 | relinking two neighbours to a new node gives a ring in which next and previous are mutual inverses and every node has its container |
| `Lists.SpliceOut` | supports/rtos/list.c:177-196 | linking the neighbours of a node to each other gives such a ring without it |
| `Lists.List.constructor` | supports/rtos/list.c:38-60 | an empty ring whose cursor is the end marker |
| `Lists.ListItem.constructor` | supports/rtos/list.c:63-72 | an item in no list |
| `Lists.List.InsertItemEnd` | supports/rtos/list.c:75-101 | the item goes just behind the cursor in walking order; ring, containers and count stay valid |
| `Lists.List.FindPosition` | supports/rtos/list.c:116-155 | the search ends for every value including the maximum, at the node before the first larger value |
| `Lists.List.InsertItem` | supports/rtos/list.c:104-168 | sorted insertion behind equal values; the ring stays valid |
| `Lists.List.Remove` | supports/rtos/list.c:171-197 | the item leaves the list its container names, a cursor on it steps back, and the answer is the number left |
| `Lists.List.NextEntry` | supports/rtos/include/list.h:277-288 | the cursor moves to the next item, skipping the end marker |
| `Queues.AppendItem` | supports/rtos/queue.c:2067-2079 | writing the slot behind the last item appends to the items the buffer stands for |
| `Queues.PrependItem` | supports/rtos/queue.c:2080-2091 | writing the slot in front of the first item prepends |
| `Queues.ItemsFrom` | supports/rtos/queue.c:2120-2135 | the item after the read offset is the first one, and the rest are seen from there |
| `Queues.ItemsUntouched` | supports/rtos/queue.c:2067-2091 | a slot that no item occupies can be written without changing any item |
| `Queues.OverwriteReplaces` | supports/rtos/queue.c:2045-2114 | on a queue of length 1 an overwrite replaces the item if and only if items have a size or the queue is empty |
| `Queues.SemaphoreOvercounts` | supports/rtos/queue.c:2045-2114 | a full binary semaphore that is overwritten comes to hold two |
| `Queues.GapHidesItem` | supports/rtos/queue.c:2067-2111 | a gap left by an overwrite: the next item sent to the back is not read, and the one that dropped out is read again |
| `Queues.Queue.constructor` | supports/rtos/queue.c:359-448 | an empty, unlocked queue with nobody waiting |
| `Queues.Queue.GenericReset` | supports/rtos/queue.c:248-298 | the queue is empty and unlocked and one blocked sender is woken |
| `Queues.Queue.CopyDataToQueue` | supports/rtos/queue.c:2041-2117 | the buffer's items get the new one at the back, at the front, or in front with the last one dropped; the write offset is behind the last item if and only if it did not overwrite a longer queue that holds something |
| `Queues.Queue.CopyDataFromQueue` | supports/rtos/queue.c:2120-2135 | the item read is the first, and the rest follow it |
| `Queues.Queue.SendCritical` | supports/rtos/queue.c:745-842 | accepted exactly when there is room or it overwrites; the item is stored and the first waiting receiver is woken |
| `Queues.Queue.SendInterrupt` | supports/rtos/queue.c:924-1072 | the same from an interrupt: on a locked queue the post is counted instead of waking |
| `Queues.Queue.GiveInterrupt` | supports/rtos/queue.c:1075-1237 | giving a semaphore from an interrupt, without the copy routine, is a post of an empty item |
| `Queues.Queue.ReceiveCritical` | supports/rtos/queue.c:1264-1301 | the head is taken and the first waiting sender woken; an empty queue is left alone |
| `Queues.Queue.ReceiveInterrupt` | supports/rtos/queue.c:1751-1839 | the same from an interrupt: on a locked queue the removal is counted |
| `Queues.Queue.CoRoutineTakeItem` | supports/rtos/queue.c:2452-2465 | the removal written out in the co-routine functions takes the head like the shared routine |
| `Queues.Queue.PeekCritical` | supports/rtos/queue.c:1627-1669 | the head is returned, the items stay, and the next waiting receiver is woken |
| `Queues.Queue.PeekInterrupt` | supports/rtos/queue.c:1842-1893 | the head is returned and nothing changes |
| `Queues.Queue.LockQueue` | supports/rtos/queue.c:233-245 | both counters are locked and nothing they had counted is lost |
| `Queues.Queue.UnlockTransmit` | supports/rtos/queue.c:2146-2222 | one receiver is woken for each post counted, in list order, while any waits |
| `Queues.Queue.UnlockReceive` | supports/rtos/queue.c:2225-2254 | one sender is woken for each removal counted |
| `Queues.Queue.SendCriticalInSet` | supports/rtos/queue.c:758-806 | a post to a member, overwriting or not, puts its handle at the same end of the set instead of waking the member's own waiters, and wakes the first task waiting on an unlocked set; exactly when it leaves a gap in the set's buffer |
| `Queues.Queue.SendInterruptInSet` | supports/rtos/queue.c:924-1072 | the same from an interrupt; on a locked member the post is counted and the set is not told yet |
| `Queues.Queue.NotifyContainer` | supports/rtos/queue.c:2847-2896 | the handle is put at the front or the back of the set, as the item was put in its queue, unless the set is full; a waiter on an unlocked set is woken; the buffer keeps its layout if and only if nothing was overwritten in a longer set that holds handles |
| `Queues.Queue.UnlockTransmitInSet` | supports/rtos/queue.c:2151-2222 | the set is told once for each post counted while the member was locked |
| `Queues.ToldTimes` | supports/rtos/queue.c:2151-2180 | telling a set k times appends as many of the k handles as there is room for and wakes as many waiters of an unlocked set |
| `QueueProtocol.NoLostReceiver` | supports/rtos/queue.c:726-1379 | in every run, from any initial count, while a receiver waits there are never more items than woken receivers still to try plus counted posts; when all is quiet a waiting receiver means an empty queue |
| `QueueProtocol.NoLostSender` | supports/rtos/queue.c:726-1379 | the mirror claim on free slots, from any initial count, in runs without a reset |
| `QueueProtocol.StepKeepsReceivers` | supports/rtos/queue.c:2138-2255 | every task or interrupt step keeps the receivers covered |
| `QueueProtocol.StepKeepsSenders` | supports/rtos/queue.c:2138-2255 | every step but a reset keeps the senders covered |
| `QueueProtocol.StepKeepsCore` | supports/rtos/queue.c:726-921 | every step keeps program counters, locks, suspension and waiting lists consistent |
| `QueueProtocol.ResetAndSenders` | supports/rtos/queue.c:263-284 | a reset keeps the senders covered if and only if at most one waits or the queue is that short |
| `QueueProtocol.SafeResets` | supports/rtos/queue.c:263-284 | a reset is safe when at most one sender waits or the queue has length 1, and when nobody is on the way only then |
| `QueueProtocol.ResetLosesSender` | supports/rtos/queue.c:263-284 | from every full queue of length 2 or more a run in which two senders block, a reset wakes one, and the other is left waiting on a queue with room |
| `QueueProtocol.PostsInWindow` | supports/rtos/queue.c:1054-1059 | for any number of posts in a locked window that begins with nobody on the way, the receivers are covered after the unlocking if and only if there were at most 127 or no more wait than are woken |
| `QueueProtocol.OverrunLosesReceiver` | supports/rtos/queue.c:1324-1379 | a run in which a receiver goes to sleep, 128 interrupts post while the queue is locked, and the receiver sleeps on beside 128 items |
| `QueueProtocol.RunIsFifo` | supports/rtos/queue.c:726-1379 | whatever tasks and interrupts do, what was delivered is what was accepted, each once and in order, up to what is still queued |
| `QueueProtocol.RunConserves` | supports/rtos/queue.c:726-1379 | in every run of sends to the front and to the back no item is lost or made: first items and accepted ones are the delivered ones and those left |
| `QueueProtocol.CallsEnd` | supports/rtos/queue.c:726-1379 | in every run a blocking call ends in one of three ways: with its item accepted, delivered or seen; in an attempt that could not proceed and may not block; or after its last time check had expired, and then a receiver ends only on an empty queue |
| `QueueProtocol.PatientCallsGetTheirItem` | supports/rtos/queue.c:1324-1379 | in every run a call that may block and whose time never expires ends only with its item |
| `QueueProtocol.WhenCallsEnd` | supports/rtos/queue.c:745-921 | a step ends a call if and only if it is an attempt that can proceed or may not block, the resumption of a sender told that its time is up, or the recheck of such a receiver on an empty queue |
| `QueueProtocol.HowCallsEnd` | supports/rtos/queue.c:843-921 | every step that ends a call gives it its item, or could not proceed and may not block, or follows an expired time check |
| `QueueProtocol.AttemptEnds` | supports/rtos/queue.c:1264-1322 | an attempt that can proceed always gets its item; one that cannot ends the call exactly when it may not block |
| `QueueProtocol.GivesUpWhenExpired` | supports/rtos/queue.c:1324-1379 | in every run a call is on its way to giving up, and not to sleep or to try again, exactly when its last time check had expired |
| `QueueProtocol.TriesAgainSoon` | supports/rtos/queue.c:871-921 | in no run does a task take more than nine steps of its own without attempting, sleeping or returning |
| `QueueProtocol.NeverStuck` | supports/rtos/queue.c:726-1379 | in every run a task inside a call that is on no list has a next step whenever it may run |
| `QueueProtocol.BeginsWithAttempt` | supports/rtos/queue.c:742-752 | a call begins with an attempt, and so does what follows a wake-up or a time-out |
| `QueueSets.Conservation` | supports/rtos/queue.c:758-806 | in every run a member's items equal its handles in the set plus its counted posts plus its selected but not yet received items |
| `QueueSets.SetNeverFull` | supports/rtos/queue.c:2847-2896 | in every run a set at least as long as its members has room when one of them is posted to, and for each counted post that an unlocking makes known |
| `QueueSets.StepKeepsInv` | supports/rtos/queue.c:974-1024 | every post, receive, select, lock, unlock, add or sound removal keeps the account |
| `QueueSets.NotifyTimesConserves` | supports/rtos/queue.c:2151-2180 | unlocking moves the counted posts of a member into handles, one for one |
| `QueueSets.FrontPostNamedNext` | supports/rtos/queue.c:2847-2896 | in every run, after a post to the front of a member that is not locked the next select names that member |
| `QueueSets.NamedInOrder` | supports/rtos/queue.c:2151-2180 | in every run of posts to the back, selects name members in the order in which their posts were made known, each as often, up to the handles still in the set |
| `QueueSets.RemoveRace` | supports/rtos/queue.c:2785-2815 | taking a member out of its set is sound if and only if it is still empty at the assignment |
| `QueueSets.FullMemberStays` | supports/rtos/queue.c:2785-2815 | a member in which the test finds an item is not taken out |
| `QueueSets.RaceHappens` | supports/rtos/queue.c:2785-2815 | from every state with an empty member: the test passes, an interrupt posts, the assignment follows, and the set holds a handle of a queue that is not its member |
| `QueueSets.RaceIsReached` | supports/rtos/queue.c:2752-2815 | such a state is reached by adding a member to a new set |
| `Mutexes.MutualExclusion` | supports/rtos/queue.c:575-665 | in every interleaving of plain and recursive calls by tasks that do not end a take of one kind by a give of the other: the mutex is free exactly when it has no holder, whoever has a take of either kind outstanding is the holder, so at most one task has, and the recursive count is the number of its recursive takes |
| `Mutexes.ReleaseAtZero` | supports/rtos/queue.c:575-627 | while nothing has gone wrong, a recursive give underflows the count if and only if the only take outstanding is a plain one, goes on to release if and only if one recursive take is outstanding, and then leaves a plain take outstanding if and only if there is one |
| `Mutexes.ReleaseSucceeds` | supports/rtos/queue.c:596-612 | returning the mutex always succeeds and leaves it free |
| `Mutexes.PlainGiveFrees` | supports/rtos/queue.c:2050-2065 | while nothing has gone wrong, a plain give by a task without recursive takes leaves the mutex free with call count 0 and the task with nothing outstanding; if nobody held it nothing changes |
| `Mutexes.TakeSucceeds` | supports/rtos/queue.c:1411-1463 | while nothing has gone wrong, an attempt of either interface succeeds if and only if nobody holds the mutex, and then its caller is the holder and nothing else changes; a recursive call finds itself the holder exactly when it has a take outstanding |
| `Mutexes.CallsReturn` | supports/rtos/queue.c:575-665 | while nothing has gone wrong, a recursive take that has the mutex counts one take and returns, one that waits in vain returns with nothing changed, and a give drops one take and goes on to return the mutex exactly at the last |
| `Mutexes.StepKeepsInv` | supports/rtos/queue.c:575-665 | every access of either interface keeps count, holder and outstanding takes consistent if and only if it is none of three: a recursive give that ends a plain take, a plain give that ends recursive ones, take number 2^32 |
| `Mutexes.CarefulRunIsRun` | supports/rtos/queue.c:575-665 | if every caller looks to its own outstanding takes before it calls, none of the three happens in any interleaving |
| `Mutexes.TwoHolders` | supports/rtos/queue.c:575-665 | a plain take, a recursive take and a recursive give by one task, after which two tasks have the mutex |
| `Mutexes.CountUnderflows` | supports/rtos/queue.c:587-600 | a plain take and a recursive give: the count wraps, success is reported and the mutex stays taken |
| `Mutexes.Mutex.constructor` | supports/rtos/queue.c:453-476 | a new mutex is free with recursive count 0 |
| `Mutexes.Mutex.SemaphoreTake` | supports/rtos/queue.c:1411-1463 | an attempt gets the mutex exactly when it has no holder and never disturbs another one |
| `Mutexes.Mutex.GenericSend` | supports/rtos/queue.c:2050-2065 | afterwards the mutex is free and has no holder |
| `Mutexes.Mutex.TakeRecursive` | supports/rtos/queue.c:630-665 | succeeds exactly for a free mutex or its holder and counts one more take |
| `Mutexes.Mutex.GiveRecursive` | supports/rtos/queue.c:575-627 | succeeds exactly for the holder, releases at the last recursive take, and wraps the count when there is none |
| `EventGroups.OrderDoesNotMatter` | supports/rtos/event_groups.c:505-596 | bits left, tasks released and tasks kept do not depend on the order of the list |
| `EventGroups.ReleasedExactly` | supports/rtos/event_groups.c:530-583 | exactly the waiters satisfied by old bits and new bits together are released, each once |
| `EventGroups.ToClearContains` | supports/rtos/event_groups.c:558-571 | what is cleared contains the mask of every released clear-on-exit waiter |
| `EventGroups.ToClearLeast` | supports/rtos/event_groups.c:558-571 | and nothing else |
| `EventGroups.WordRoundTrip` | supports/rtos/event_groups.c:346-383 | bits and control flags packed into an item value are what the walk unpacks |
| `EventGroups.ReleaseWordRoundTrip` | supports/rtos/event_groups.c:567-577 | a released task reads back the bits and that it did not time out |
| `EventGroups.Monotone` | supports/rtos/event_groups.c:657-689 | setting more bits never undoes a satisfied condition |
| `EventGroups.ClearingKeepsUnmatched` | supports/rtos/event_groups.c:657-689 | clearing bits never satisfies a condition |
| `EventGroups.TestMeans` | supports/rtos/event_groups.c:657-689 | the condition holds if and only if some bit waited for is set, or for wait-for-all every one |
| `EventGroups.WaitMeans` | supports/rtos/event_groups.c:297-383 | in plain bit operations: a wait is met if and only if `bits & waitFor` is not 0 (any) or is `waitFor` (all); it then returns the bits and clears the mask only if asked; else it leaves the bits and sleeps exactly when it may |
| `EventGroups.SyncMeans` | supports/rtos/event_groups.c:177-235 | in plain bit operations: a sync completes if and only if the old bits and its own cover the mask, and then returns them and clears the mask; else it sleeps for all of it or gives up |
| `EventGroups.SetMeans` | supports/rtos/event_groups.c:505-596 | in plain bit operations: a sleeper is released if and only if its condition holds of the old bits and the new ones together, and stays on the list otherwise |
| `EventGroups.SetKeepsOtherBits` | supports/rtos/event_groups.c:505-596 | a set clears no bit that no released clear-on-exit waiter waited for |
| `EventGroups.NobodyForgotten` | supports/rtos/event_groups.c:177-596 | after every sequence of operations no task on the list waits for a condition that holds |
| `EventGroups.SyncKeeps` | supports/rtos/event_groups.c:192-235 | a sync that does not complete leaves nobody satisfied on the list |
| `EventGroups.EventGroup.constructor` | supports/rtos/event_groups.c:134-174 | no bits and nobody waiting |
| `EventGroups.EventGroup.SetGroupBits` | supports/rtos/event_groups.c:505-596 | the walk that removes items as it goes does what the simultaneous definition says: in plain bit operations, who slept is woken if and only if its condition holds of old and new bits together, and each released task gets the same bits |
| `EventGroups.EventGroup.ClearGroupBits` | supports/rtos/event_groups.c:447-471 | the bits are cleared and the old ones returned |
| `EventGroups.EventGroup.WaitGroupBits` | supports/rtos/event_groups.c:297-383 | in plain bit operations: returns at once if and only if the condition holds of the bits, clearing the mask if asked; else sleeps or gives up with the bits unchanged; nobody satisfied stays on the list |
| `EventGroups.EventGroup.SyncGroup` | supports/rtos/event_groups.c:192-235 | sets its bits, then returns with the mask cleared if and only if the mask is complete, else sleeps for all of it |
| `EventGroups.EventGroup.ReturnFromSleep` | supports/rtos/event_groups.c:385-444 | a task released by a set returns exactly the bits of that set; one that timed out returns the present bits and clears if the condition holds by then |
| `EventGroups.EventGroup.Delete` | supports/rtos/event_groups.c:599-638 | every waiter is released in order with no bits |
| `Barrier.BarrierSafety` | supports/rtos/event_groups.c:177-294 | in every run nobody leaves a round before everybody has entered it, rounds do not mix, and who is released sees the whole mask |
| `Barrier.EarlyArrivalSleeps` | supports/rtos/event_groups.c:192-235 | in every run who arrives while somebody is missing sleeps and affects nobody |
| `Barrier.LastArrivalReleases` | supports/rtos/event_groups.c:177-294 | in every run the last arrival releases all the others with the whole mask and leaves the mask clear |
| `Barrier.QuietSet` | supports/rtos/event_groups.c:505-596 | setting bits that leave the mask incomplete releases no participant and clears none of the mask |
| `Barrier.MoveKeeps` | supports/rtos/event_groups.c:177-596 | every move of participants and of users of other bits keeps the barrier's invariant |
| `CoRoutines.WakesExactly` | supports/rtos/croutine.c:221-276 | after a call, a co-routine whose event has not happened is delayed if and only if its true wake time lies after the clock |
| `CoRoutines.SleepsExactly` | supports/rtos/croutine.c:160-276 | over every sequence of calls: a co-routine that goes to sleep for d >= 1 ticks is delayed after every call short of that time and ready after the first one at or past it, unless its event happens |
| `CoRoutines.KeptOn` | supports/rtos/croutine.c:198-276 | a ready list is unchanged unless somebody of its priority became ready, over any number of steps |
| `CoRoutines.EmptyAtSwap` | supports/rtos/croutine.c:231-241 | the delay list in use is empty whenever the lists are swapped |
| `CoRoutines.TickKeeps` | supports/rtos/croutine.c:226-241 | a tick, wrapped or not, keeps every stored value in step with the true wake time |
| `CoRoutines.PassedTicks` | supports/rtos/croutine.c:225-226 | the wrapped difference is the true number of ticks since the last call, when less than a period has passed |
| `CoRoutines.DelayKeeps` | supports/rtos/croutine.c:160-187 | the list chosen by the overflow test is the one whose period contains the wake time |
| `CoRoutines.ZeroDelayOversleeps` | supports/rtos/croutine.c:164-187 | a delay of 0 on the last tick of a period is woken two periods late |
| `CoRoutines.HeadTells` | supports/rtos/croutine.c:244-252 | the head of the list in use tells whether anybody is due |
| `CoRoutines.OnExactlyOneList` | supports/rtos/croutine.c:103-276 | every co-routine is on exactly one ready or delay list, once, and on at most one event or pending list, only while delayed |
| `CoRoutines.TakeKeepsPlaced` | supports/rtos/list.c:171-197 | removal through the container keeps lists and containers in agreement |
| `CoRoutines.PutKeepsPlaced` | supports/rtos/list.c:104-168 | insertion of an item on no list keeps them in agreement |
| `CoRoutines.OrderInsert` | supports/rtos/croutine.c:143-194 | sorted insertion under the inverted priority keeps an event list in order of priority, then of waiting time |
| `CoRoutines.FireKeeps` | supports/rtos/croutine.c:337-339 | moving a waiter to the pending list keeps the invariant that holds wherever an interrupt may strike |
| `CoRoutines.TopSuffices` | supports/rtos/croutine.c:68-75 | the top priority bounds every non-empty ready list, so the downward search finds the highest one |
| `CoRoutines.TurnComes` | supports/rtos/croutine.c:279-306 | unless somebody of the top list's priority or above becomes ready, whoever else does, a call runs the next co-routine of that list |
| `CoRoutines.EqualShares` | supports/rtos/croutine.c:279-306 | while nothing joins or leaves the top ready list and nobody of its priority or above becomes ready, as many schedule calls in a row as it has items run each exactly once, whatever lower priorities, interrupts and the co-routines themselves do in between |
| `CoRoutines.Scheduler.constructor` | supports/rtos/croutine.c:46-58 | the state before the first co-routine |
| `CoRoutines.Scheduler.InitialiseLists` | supports/rtos/croutine.c:309-326 | all lists are empty and the first delay list is in use |
| `CoRoutines.Scheduler.Create` | supports/rtos/croutine.c:103-157 | the new co-routine is ready at its priority cut to the highest one; a failed allocation changes nothing |
| `CoRoutines.Scheduler.AddToReadyQueue` | supports/rtos/croutine.c:68-75 | the co-routine goes to the end of its ready list and the top priority still bounds all |
| `CoRoutines.Scheduler.AddToDelayedList` | supports/rtos/croutine.c:160-195 | the running co-routine is to wake d ticks from the clock and waits behind its equals on the event list; nobody due is left on a delay list if and only if d is at least 1 |
| `CoRoutines.Scheduler.CheckPendingReadyList` | supports/rtos/croutine.c:198-218 | with interrupts at every step, the loop ends with the pending list empty, everybody on it ready and nobody else moved without cause |
| `CoRoutines.Scheduler.CountTick` | supports/rtos/croutine.c:228-243 | one tick on the counter, swapping the delay lists on wrap-around |
| `CoRoutines.Scheduler.WakeDue` | supports/rtos/croutine.c:246-271 | everybody due becomes ready whatever interrupts do in between, and if nobody is due nothing changes |
| `CoRoutines.Scheduler.CheckDelayedList` | supports/rtos/croutine.c:221-276 | the clock reaches the true tick count, nobody delayed is due, and who became ready was due or had its event |
| `CoRoutines.Scheduler.Dispatch` | supports/rtos/croutine.c:288-303 | a co-routine of the highest ready priority is chosen, the next of its list; none only if none is ready |
| `CoRoutines.Scheduler.Schedule` | supports/rtos/croutine.c:279-306 | all of these together for one call, with interrupts in between; pending co-routines become ready, ready lists nobody joined keep their turn, and the top list moves on by one |
| `CoRoutines.Scheduler.RemoveFromEventList` | supports/rtos/croutine.c:329-351 | the waiter moved to the pending list has the highest priority and among equals has waited longest; the answer compares it with the running one |
| `VlanTable.TableRoundTrip` | supports/rtk/asicdrv/rtl8307h_asicdrv_vlan.c:34-70 | a packed table word read from its bucket gives back the entry |
| `VlanTable.CamRoundTrip` | supports/rtk/asicdrv/rtl8307h_asicdrv_vlan.c:72-109 | a packed CAM word gives back the entry |
| `VlanTable.TableLayout` | supports/rtk/asicdrv/rtl8307h_asicdrv_vlan.c:34-55 | which bits of the table word hold which field |
| `VlanTable.CamLayout` | supports/rtk/asicdrv/rtl8307h_asicdrv_vlan.c:72-94 | which bits of the two CAM words hold which field |
| `VlanTable.EntryOf` | supports/rtk/rtk_api.c:5202-5240 | what the map says of an id is what its one valid entry in table or CAM holds, field by field |
| `VlanTable.WriteSlot` | supports/rtk/rtk_api.c:5240-5283 | writing an entry where its id is, or in a free slot of its bucket or the CAM, updates or deletes that id in the map and keeps ids unique and in their buckets |
| `VlanTable.StoreSlot` | supports/rtk/rtk_api.c:5258-5277 | a valid entry for an id nobody else holds is a map update |
| `VlanTable.EraseSlot` | supports/rtk/rtk_api.c:5251-5255 | an invalid entry is a map deletion |
| `VlanTable.Switch.Search` | supports/rtk/rtk_api.c:5202-5240 | finds the id wherever it is, and a free slot of bucket or CAM exactly when there is one |
| `VlanTable.Switch.Set` | supports/rtk/rtk_api.c:5180-5283 | unless both masks are empty in their low 8 bits the id gets exactly those masks, that fid and the present mode, whether or not it was there, else it is deleted; every other id is unchanged; full exactly when the id is absent and both its bucket and the CAM are full |
| `VlanTable.Switch.Get` | supports/rtk/rtk_api.c:5311-5373 | map lookup, not found exactly when absent |
| `VlanTable.Switch.SetThenGet` | supports/rtk/rtk_api.c:5180-5373 | after a successful set, the lookup gives back the masks and the fid, or does not find the VLAN if both masks were empty |
| `VlanTable.Switch.Destroy` | supports/rtk/rtk_api.c:5472-5524 | map deletion, not found exactly when absent |
| `VlanTable.Switch.StgSet` | supports/rtk/rtk_api.c:6002-6025 | gives an existing VLAN the fid, never removes it, and changes nothing else if and only if its lookup mode is the present one |
| `VlanTable.Switch.IvlSvlModeSet` | supports/rtk/rtk_api.c:5945-5953 | notes the mode and changes no entry |
| `VlanTable.StgOnlyFid` | supports/rtk/rtk_api.c:6002-6025 | for every table and VLAN, only the fid changes if and only if the entry was last written in the present mode |
| `VlanTable.StgChangesMore` | supports/rtk/rtk_api.c:5945-6025 | the default VLAN after a change to SVL mode, given the group it has, changes its lookup mode |
| `VlanTable.UniformKept` | supports/rtk/rtk_api.c:5180-6025 | any sequence of settings, deletions and regroupings keeps every entry in the present mode |
| `VlanTable.OnlyFidInEveryRun` | supports/rtk/rtk_api.c:5081-6025 | after initialisation and any such sequence, a change of group changes nothing but the fid |
| `VlanTable.Switch.StgGet` | supports/rtk/rtk_api.c:6045-6064 | the fid of the VLAN |
| `VlanTable.Switch.Init` | supports/rtk/rtk_api.c:5081-5116 | VLAN 1 with all ports is the only one |
| `TlsWindow.WindowConserved` | lwipApps/altcp_tls/altcp_tls_mbedtls.c:171-478 | in every run of fair engines and applications, bytes pulled equal bytes credited plus the open record, the data held and the data not yet acknowledged; credit does not exceed what was pulled unless the engine is ahead in the middle of a record |
| `TlsWindow.CreditComesFrom` | lwipApps/altcp_tls/altcp_tls_mbedtls.c:171-478 | in every run what was credited is the handshake bytes plus the overhead of finished records plus the bytes acknowledged, each counted from what happened |
| `TlsWindow.ConnectionCredits` | lwipApps/altcp_tls/altcp_tls_mbedtls.c:171-478 | the credits a connection has given are that sum, and its counters are those counts |
| `TlsWindow.CalledMeans` | lwipApps/altcp_tls/altcp_tls_mbedtls.c:312-316 | the flag that the application was called is set if and only if data was delivered to it at some time |
| `TlsWindow.EventBalance` | lwipApps/altcp_tls/altcp_tls_mbedtls.c:302-426 | an event keeps the balance if and only if engine and application are fair in it |
| `TlsWindow.UnfairActBreaks` | lwipApps/altcp_tls/altcp_tls_mbedtls.c:302-426 | the first unfair act of a run, of the engine or of the application, breaks the balance |
| `TlsWindow.UnfairActs` | lwipApps/altcp_tls/altcp_tls_mbedtls.c:302-426 | an engine that makes 10 bytes of 5, an application that acknowledges 5 bytes and refuses them, and a missing callback each break the account |
| `TlsWindow.EventKeepsRanges` | lwipApps/altcp_tls/altcp_tls_mbedtls.c:312-323 | no counter goes negative whatever engine and application do |
| `TlsWindow.DeliverBalanced` | lwipApps/altcp_tls/altcp_tls_mbedtls.c:312-327 | passing data on keeps the balance if and only if it is taken or no more was acknowledged than had been given before |
| `TlsWindow.DeliverEffect` | lwipApps/altcp_tls/altcp_tls_mbedtls.c:312-329 | a delivery credits exactly what was acknowledged, up to what has been passed on; data taken is no longer held and what was not acknowledged stays due; data refused stays held |
| `TlsWindow.DecryptBalanced` | lwipApps/altcp_tls/altcp_tls_mbedtls.c:391-402 | closing a record keeps the balance if and only if it yielded no more than was read for it |
| `TlsWindow.AcksBalanced` | lwipApps/altcp_tls/altcp_tls_mbedtls.c:781-805 | nested acknowledgements move bytes from unacknowledged to credited, and no more than there are |
| `TlsWindow.PoliteIsFair` | lwipApps/altcp_tls/altcp_tls_mbedtls.c:346-426 | an application that takes its data or refuses it without acknowledging any is fair in every callback |
| `TlsWindow.ConnectionConserves` | lwipApps/altcp_tls/altcp_tls_mbedtls.c:431-478 | between callbacks, with fair engine and application, the connection's counters account for every byte that arrived, and fit 16 bits while the inner window does |
| `TlsWindow.Connection.LowerRecved` | lwipApps/altcp_tls/altcp_tls_mbedtls.c:171-179 | credits of at most 65535 that add up to the count |
| `TlsWindow.Connection.BioRecv` | lwipApps/altcp_tls/altcp_tls_mbedtls.c:431-478 | hands over as much of the first buffer as fits, counts it and leaves the rest of the chain; when nothing is left it reports a due close as 0, or asks to be called again |
| `TlsWindow.Connection.Recved` | lwipApps/altcp_tls/altcp_tls_mbedtls.c:781-805 | an acknowledgement after the handshake is credited up to what was passed on and is not yet acknowledged, and no other |
| `TlsWindow.Connection.PassRxData` | lwipApps/altcp_tls/altcp_tls_mbedtls.c:302-342 | the counters change as one delivery or one drop; only what was acknowledged is credited; the end of the stream is told only when no data is held; a refusal is passed back |
| `TlsWindow.Connection.TakeDecrypted` | lwipApps/altcp_tls/altcp_tls_mbedtls.c:386-411 | the counters change as one decryption of any length, with the overhead credited when the record is done |
| `TlsWindow.Connection.HandleRxAppldata` | lwipApps/altcp_tls/altcp_tls_mbedtls.c:345-426 | whatever engine, allocator and application do, each turn pulls what the engine asks for, accounts for what was decrypted and delivers what is held; the loop stops exactly when nothing was decrypted, an error came or the data was refused; it reports an abort if and only if its last turn met a reconnect or the application, told of data or of the end, aborted |
| `TlsWindow.Connection.ReadAndPass` | lwipApps/altcp_tls/altcp_tls_mbedtls.c:385-423 | the events of one successful read, and that the loop goes on exactly when something was decrypted and not refused |
| `TlsWindow.Connection.ShakeHands` | lwipApps/altcp_tls/altcp_tls_mbedtls.c:260-268 | the handshake pulls what the engine asks for and all of it is credited |
| `TlsWindow.Connection.LowerRecvProcess` | lwipApps/altcp_tls/altcp_tls_mbedtls.c:257-299 | during the handshake all that was read is credited at once; afterwards the data is processed |
| `TlsWindow.Connection.LowerRecv` | lwipApps/altcp_tls/altcp_tls_mbedtls.c:186-254 | an arriving buffer is queued and processed; the end of the stream is remembered and delayed behind unprocessed data; an abort is reported exactly when processing met one or the application aborted on being told of the end |
| `Telnet.ChunksDoNotMatter` | lwipApps/telnet.c:155-214 | splitting the stream anywhere changes neither data, nor replies, nor state |
| `Telnet.ParamsBounded` | lwipApps/telnet.c:195-205 | the parameter buffer never holds more than 256 bytes |
| `Telnet.EscapeRoundTrip` | lwipApps/telnet.c:155-214 | doubling every 255 and filtering gives back the data |
| `Telnet.StreamFiltered` | lwipApps/telnet.c:155-214 | any stream of data, commands, negotiations and subnegotiations yields exactly its data, its replies and what leaks |
| `Telnet.NegotiationAnswered` | lwipApps/telnet.c:100-133 | which of DO, DONT, WILL and WONT a negotiation is answered with: none for echo, DO for the terminal options, agreement on suppressing go-ahead on the side spoken of, refusal of anything else on that side |
| `Telnet.RoundTrip` | lwipApps/telnet.c:155-214 | the data comes back if and only if no subnegotiation has a 255 among its parameters other than as the last |
| `Telnet.SubClean` | lwipApps/telnet.c:195-210 | a subnegotiation without 255 has no effect but that of its parameters |
| `Telnet.SubLeaks` | lwipApps/telnet.c:200-210 | one with a 255 lets the rest of its parameters through as data, and they have no other effect |
| `Telnet.WindowSizeArrives` | lwipApps/telnet.c:135-210 | a reported window size arrives if and only if none of its bytes is 255 or the terminal had it already |
| `Telnet.WindowSizeAfter` | lwipApps/telnet.c:135-210 | what a report of any size leaves: nothing changes if a byte is 255, else each number other than 0 is taken over; and what comes through as data |
| `Telnet.WideTerminalIsLost` | lwipApps/telnet.c:200-210 | the report of 255 columns and 24 lines is lost and two of its bytes come through as input |
| `Telnet.Termstate.Process` | lwipApps/telnet.c:155-214 | the in-place loop with two pointers is the byte-by-byte fold, and touches nothing outside the chunk |
| `Telnet.Termstate.Accept` | lwipApps/telnet.c:164-210 | one byte acts on state, parameters and replies as the fold does |
| `Telnet.Termstate.ParseOption` | lwipApps/telnet.c:100-133 | the reply sent for a negotiated option, verb by verb |
| `Telnet.Termstate.ParseOptionData` | lwipApps/telnet.c:135-153 | the window size changes only by four parameter bytes of its own option, high byte first, and a window that has a size keeps one |

## Left out

- tasks.c: priority inheritance, timeouts and the choice of the next task enter only through their effect on waiting lists and program counters.
- Queue registry, static allocation, trace and debug fields, restricted waiting and MPU wrappers: bookkeeping without a property of its own.
- Co-routine calls from interrupts in the no-lost-wake-up claim: they wake at most one co-routine per interrupt by design.
- QueueSets.StepKeepsInv: overwriting posts to members are not among the steps; they can leave a gap in the set's buffer (`Queues.Queue.NotifyContainer`), after which it is not a sequence of handles to which items can be added.
- QueueProtocol.NoLostReceiver: runs with more than 127 interrupt posts in one locked window are excluded; `PostsInWindow` says for any number of posts when they do harm.
- QueueSets.Conservation: clients receive from a member only after selecting it, and members are not reset.
- Mutexes.MutualExclusion: runs in which a task ends a take of one interface by a give of the other are excluded; `StepKeepsInv` and `ReleaseAtZero` say exactly what happens then.
- EventGroups.EventGroup.WaitGroupBits: ends where the task returns or goes to sleep; what it does after sleeping is `ReturnFromSleep`.
- CoRoutines.Scheduler.Schedule: ends where the chosen co-routine is called; that co-routine's own calls are the calls that follow. The scheduler must run at least once per period of the tick counter.
- CoRoutines.Scheduler.RemoveFromEventList: the event list is not empty, which the source's callers check.
- CoRoutines.Scheduler: its lists are values with a cursor and each item's container; the ring of nodes behind them is the class in `Lists.dfy`.
- VlanTable.Switch: register access errors, the polling of the table-access command and null-pointer checks are not modelled; the port settings that end `rtk_vlan_init` do not touch the table.
- TlsWindow.Connection.PassRxData: lengths are unbounded here and 16 bits wide in the source; `ConnectionConserves` shows that they fit while the inner window does.
- TlsWindow.Connection.LowerRecv: closing and deallocation, the send direction, and the error callback are not modelled.
- The rest of the switch API, TFTP, MQTT, LLMNR, SSDP, UPnP, the web server, the Ethernet driver and the boot code: register access, string building and network input and output.

# Timers, message queues, threads and camera buffers: a verified model

The project models two groups of the repository's code and proves what they promise.

**GPS utilities** (`gps/utils`). A timer service in layers: a binary heap steered by size (`HeapTree`
the specification, `LocHeap` the code in place); a container of timers that keeps one kernel timer
armed (`TimerTypes`, `LocTimerContainer`); and the service as a machine in which client threads, a
poll thread and a message thread take turns in any order (`TimerService`, with its invariants in
`TimerInvariant`, `TimerWakeup`, `TimerHistory` and `TimerFrames`, and its theorems in `TimerTheorems` and
`TimerLiveness`). On top of that: what a start asks for is
what it gets (`TimerStarts`), whose callback a callback is (`TimerCallbacks`), what each expiry was
sent for (`TimerTrace`), that every due timer is served (`TimerDue`), that the container's drain is what
the steps come to (`TimerDrain`), and runs in which callbacks come early (`TimerStaleExpiry`,
`TimerEarlyRuns`). Below it the doubly linked list
(`LinkedList`), the blocking queue over it (`MsgQueue`), its receivers (`MsgTask`), and the delegate
that a thread shares with the one it spawns (`LocThread`, and `LocThreadCalls` for what is called on the
runnable).

**Camera HAL** (`camera/QCamera2/HAL`). ION buffers in memory objects and in a pool (`MemoryPool` and
`MemoryRuns` the specification, `QCameraMemories` the code in place), preview buffers between camera
and native window (`Gralloc`), the preview copy without strides (`Preview`), and deferred jobs in
slots (`DeferredWork`).

`Counting` and `Wrappers` are shared helpers.

What a class changes in place is proved equal to a function of the old state, and the properties are
proved of the function. What several threads do is a step relation; its theorems hold in every state
of every run, and steps are as fine as what the threads can see of each other.

## What the proofs found

- A callback may come long before the deadline of its start, in two ways and no other
  (`TimerTrace.WhyEarly`). The expiry was sent for a timer whose start had ended when it arrived, and
  the first pop asks nothing (`TimerStaleExpiry.FirstPopCanBeEarly`). Or the client stopped the popped
  timer and started another between the read of `mClient` and the `stop()` that precedes the callback,
  which then is for the new start (`TimerEarlyRuns.CallbackForAnotherStart`).
- The branch of `updateSoonestTime` that disarms an empty container is dead
  (`TimerTheorems.NeverDisarmed`). So an fd may stay armed for an empty heap, and that is one source of
  the expiries that come too early for the next timer (`TimerEarlyRuns.EmptyButArmed`).
- `LocThread.h` (lines 75-77) says that the runnable is deleted by the thread if `start()` returns
  true and is the client's if not. Both halves can fail (`LocThread.FalseStartMayDelete`,
  `LocThread.EarlyStopLeaks`); `LocThread.RunnableFreed` says when the thread deletes it, exactly.
- `alloc` gives back every slot down to 0 when it fails, so a failing `allocateMore` of an object in
  use leaves buffers in two places. `MemoryRuns.AllocateConserves` says when, from what is there before
  the call, and `MemoryRuns.RunConserves` that nothing else can go wrong.
- A size above 0xFFFFF000 bytes gets a buffer that is too small (`MemoryPool.AlignedIsEnough`).
- A window buffer whose ION step fails during `allocate` is neither used nor given back: exactly then a
  failed `allocate` leaves a buffer with the camera (`Gralloc.QCameraGrallocMemory.Allocate`,
  `Gralloc.StrandsOne`).
- With two threads in `waitDefferedWork`, one may sleep on after its job is done
  (`DeferredWork.OtherWaiterSleepsOn`); with one it cannot (`DeferredWork.OneWaiterIsWoken`).

Where code and comment disagree the model follows the code: `mSize` counts the node itself
(LocHeap.cpp:34 says not), and heap removal is by address (LocHeap.h:84 says by rank).

## Assumptions

- Timers: a client does not use a `LocTimer` whose destructor has begun, and does not destroy one
  while the message thread is between its read of `mClient` and the end of the callback. The read
  and the `stop()` that follows are separate steps. Timers are started at clock values below
  2^31 - 4294968 seconds, so that no deadline leaves 32 bits; `TimerTypes.DeadlineIsExact` says what
  happens beyond. The clock never goes back.
- Messages: a message is not sent again after it was accepted, as each is a new object.
- Threads: `run()`, `prerun()` and `postrun()` return; the client makes one of the calls `stop()` or
  destruction, as `LocThread` sees to by forgetting the delegate.
- Memory: descriptors and handles are positive; the kernel gives out handles that are not in use.
- Window: it gives out only buffers it has, and their number is the count it was set to, at least
  its own min-undequeued; it is set and stays the same while buffers are in use. `allocate` is called
  when the object has no buffers and none is stranded.
- Preview: strides and scanlines are at least the image's, and the frame holds its planes.

## Model

| member | source | states |
|---|---|---|
| `HeapTree.CheckNodesIsValid` | gps/utils/LocHeap.cpp:195-220 | the source's own consistency check answers true exactly for the trees that are rank-ordered throughout and whose sizes count themselves |
| `HeapTree.PushAdds` | gps/utils/LocHeap.cpp:107-124 | push adds exactly one occurrence of the new element and keeps rank order and sizes |
| `HeapTree.PopRemovesTop` | gps/utils/LocHeap.cpp:134-164 | pop takes out exactly one occurrence of the top, which nothing in the heap outranks, and keeps rank order and sizes |
| `HeapTree.RemoveIsComplete` | gps/utils/LocHeap.cpp:166-193 | pruned by rank, remove still succeeds if and only if that very element is in the tree; it takes out one occurrence of it, leaves the others and the top, and keeps rank order and sizes |
| `HeapTree.HeapRefinesBag` | gps/utils/LocHeap.cpp:228-267 | over every sequence of pushes, pops and removes the heap acts as a bag that hands out an element nothing outranks |
| `HeapTree.PopAllSorts` | gps/utils/LocHeap.cpp:245-254 | popping to empty yields everything that was in the heap, as often, by descending rank |
| `HeapTree.NothingOutranksTop` | gps/utils/LocHeap.cpp:237-243 | no element anywhere in an ordered tree outranks its top |
| `HeapTree.PushesAloneBalance` | gps/utils/LocHeap.cpp:101-124 | a heap built by any pushes is balanced at every node, so its height and the recursion depth of the next push are logarithmic in its size |
| `HeapTree.BraunIsShallow` | gps/utils/LocHeap.cpp:113-122 | a tree balanced to within one at every node has between 2^(height-1) and 2^height - 1 nodes |
| `LocHeap.LocHeapNode.Push` | gps/utils/LocHeap.cpp:107-124 | rewriting nodes in place, the tree under this node becomes the specification's push of the element, and owns exactly the new node more |
| `LocHeap.LocHeapNode.Pop` | gps/utils/LocHeap.cpp:134-164 | the tree becomes the specification's pop; the node that leaves carries the old top's element and is no longer reachable |
| `LocHeap.LocHeapNode.Remove` | gps/utils/LocHeap.cpp:170-193 | answers non-NULL exactly when the specification finds the element; the tree becomes what the specification leaves, untouched if nothing was found |
| `LocHeap.LocHeapNode.CheckNodes` | gps/utils/LocHeap.cpp:197-220 | answers what the specification's check answers on the tree |
| `LocHeap.LocHeap.Push` | gps/utils/LocHeap.cpp:228-235 | one more occurrence of the element and of no other |
| `LocHeap.LocHeap.Peek` | gps/utils/LocHeap.cpp:237-243 | the top, which is in the heap and which nothing in it outranks, or none for an empty heap |
| `LocHeap.LocHeap.Pop` | gps/utils/LocHeap.cpp:245-254 | hands out an element nothing outranks, exactly unless the heap is empty, and loses one occurrence of it only |
| `LocHeap.LocHeap.Remove` | gps/utils/LocHeap.cpp:256-267 | hands out the element exactly if the heap held that very object, and loses one occurrence of it only |
| `TimerTypes.DeadlineIsExact` | gps/utils/LocTimer.cpp:546-553 | the deadline is now + ms in normalised form if and only if that moment has a non-negative 32-bit second |
| `TimerTypes.RanksIsExact` | gps/utils/LocTimer.cpp:503-512 | the 32-bit subtraction orders two seconds the right way if and only if their difference fits 32 bits |
| `TimerTypes.OutRanksBySecond` | gps/utils/LocTimer.cpp:503-512 | on timers ranking never wraps, compares whole seconds, and is a total preorder |
| `TimerTypes.TopWithinASecond` | gps/utils/LocTimer.cpp:503-512 | the deadline on top is less than one second later than any deadline in the heap |
| `TimerTypes.DueIsBySecond` | gps/utils/LocTimer.cpp:383-390 | the drain's test is by the second, so what passes it is less than one second early |
| `LocTimerContainer.DrainedIsDue` | gps/utils/LocTimer.cpp:360-373 | the drain ends; every timer popped after the first has its second come, none that is left has; popped and left are what the heap held; timers come out in order of their seconds |
| `LocTimerContainer.ExpiredIsArmed` | gps/utils/LocTimer.cpp:360-374 | after an expiry message a heap that still holds a timer is polled and armed at its top's deadline |
| `LocTimerContainer.LocTimerContainer.UpdateSoonestTime` | gps/utils/LocTimer.cpp:281-306 | the fd is polled and armed at the top's deadline if the top is new and there was none before or it ranks higher, taken out and disarmed if there is none left, and left alone otherwise; the heap stays |
| `LocTimerContainer.LocTimerContainer.ProcPush` | gps/utils/LocTimer.cpp:317-321 | one more occurrence of the timer; if it is the new top the fd is polled and armed at its deadline, if the top stays the fd is left alone |
| `LocTimerContainer.LocTimerContainer.ProcRemove` | gps/utils/LocTimer.cpp:334-346 | one occurrence of the timer less, if there was any; if it was the top and another is now, the fd is polled and armed at that one's deadline, and in every other case the fd is left alone |
| `LocTimerContainer.LocTimerContainer.PopIfOutRanks` | gps/utils/LocTimer.cpp:383-390 | pops the top exactly when the heap is not empty and its top's second has come |
| `LocTimerContainer.LocTimerContainer.ProcExpire` | gps/utils/LocTimer.cpp:360-374 | the loop pops, in order, exactly the timers that the specification's drain pops and leaves what it leaves; then the fd is polled and armed at the top's deadline if there is a top, and left alone if not |
| `LocTimerContainer.StepsArePush` | gps/utils/LocTimer.cpp:317-321 | the steps that other threads can come between do together what the uninterrupted handler of a push message does |
| `LocTimerContainer.StepsAreRemove` | gps/utils/LocTimer.cpp:334-346 | the same for a remove message |
| `TimerDrain.StepsAreExpire` | gps/utils/LocTimer.cpp:360-374 | the same for an expiry message: the steps of the drain, with nobody between, expire the same timers in the same order and leave the same container as the handler |
| `TimerTheorems.RunInv` | gps/utils/LocTimer.cpp:281-381 | one inductive invariant holds in every state of every interleaving of clients, poll thread and message thread over two containers |
| `TimerStarts.StartMakesOne` | gps/utils/LocTimer.cpp:542-560 | a start of an idle client issues exactly one new timer, for the client, the container and the moment now + ms asked for, and queues its push; a start of a client that has a timer changes nothing |
| `TimerStarts.EachTimerAsAskedFor` | gps/utils/LocTimer.cpp:475-482 | in every run each timer ever issued stems from a start of its client that asked for its container and its deadline, and the heap of the other container never holds it |
| `TimerTheorems.NoLostWakeup` | gps/utils/LocTimer.cpp:281-381 | between messages a non-empty heap has an expiry in flight, or its fd is polled and armed at exactly the deadline on top |
| `TimerTheorems.NeverDisarmed` | gps/utils/LocTimer.cpp:289-305 | the branch that disarms an emptied container is never taken: whatever updateSoonestTime programs is the deadline of a timer then on top |
| `TimerTheorems.UnpolledSleeps` | gps/utils/LocTimer.cpp:425-442 | an fd that was taken out of the epoll set wakes nobody, armed or not, and only an update by the message thread, which goes on to arm it for the top, puts it back |
| `TimerTheorems.DelegateLifetime` | gps/utils/LocTimer.cpp:310-350 | no deleted delegate, client or lock is ever touched; the heap holds live delegates only, each once and in its own container; between messages a live delegate is queued to be pushed, in the heap, or has its one removal queued, never with a push behind it |
| `TimerTheorems.DeletedOnce` | gps/utils/LocTimer.cpp:344-346 | a delegate that was deleted is never alive again |
| `TimerTheorems.OneOutcomePerStart` | gps/utils/LocTimer.cpp:542-575 | no start ends twice, in callback or stop; it has ended exactly when its client no longer has that timer |
| `TimerTheorems.LockCountsItsHolders` | gps/utils/LocSharedLock.h:42-57 | the count is that of the live client and its live delegates, and the lock exists exactly while there are any |
| `TimerTheorems.LaterPopsAreNearlyDue` | gps/utils/LocTimer.cpp:367-373 | a delegate popped after the first of a drain, and leading to a callback, was popped less than one second before its own deadline (the callback may be for another start) |
| `TimerCallbacks.CallbackIsForPopped` | gps/utils/LocTimer.cpp:515-527 | a callback is for another start than the one whose delegate was popped if and only if the client had stopped that one by then |
| `TimerCallbacks.LaterCallbackIsNearlyDue` | gps/utils/LocTimer.cpp:367-373 | a callback after a later pop of a drain, whose popped timer the client had not stopped, is less than one second before the deadline of its start |
| `TimerTrace.EveryRunHasTrace` | gps/utils/LocTimer.cpp:281-381 | every run can be followed by a trace that remembers what each fd was armed for and what each expiry was sent for, and that takes nothing from the run |
| `TimerTrace.EarlyPopIsFirst` | gps/utils/LocTimer.cpp:360-381 | an expiry is sent for a timer whose deadline has come; while that timer is in the heap the first pop is on time; a pop is early exactly when it is a first one and no timer in the heap has its second come, and then the start that the expiry was sent for has ended |
| `TimerTrace.WhyEarly` | gps/utils/LocTimer.cpp:360-390 | a callback before its start's second is either for another start than the popped one, which the client had stopped, or it follows a first pop by an expiry whose own start had ended before |
| `TimerEarlyRuns.CallbackForAnotherStart` | gps/utils/LocTimer.cpp:515-527 | a run in which a timer that is due is popped second and the callback is for a start with a hundred seconds to go |
| `TimerEarlyRuns.EmptyButArmed` | gps/utils/LocTimer.cpp:289-294 | a state at rest with no timer left anywhere and the fd armed, and a run from it in which the next start is called back a hundred seconds early |
| `TimerStaleExpiry.FirstPopCanBeEarly` | gps/utils/LocTimer.cpp:367-373 | a run in which a callback comes a hundred seconds before its deadline, on an expiry meant for a timer since stopped |
| `TimerLiveness.ServiceStops` | gps/utils/LocTimer.cpp:355-381 | left to itself the service takes no more steps than a measure of its state allows |
| `TimerLiveness.BusyCanMove` | gps/utils/LocTimer.cpp:355-381 | unless it is at rest one of its threads can move |
| `TimerLiveness.ComesToRest` | gps/utils/LocTimer.cpp:355-381 | so from every reachable state it comes to rest, invariant kept |
| `TimerLiveness.RestIsArmed` | gps/utils/LocTimer.cpp:295-304 | at rest a non-empty heap is polled and armed at the deadline on top, and the poll thread can wake once the clock is there |
| `TimerLiveness.DueTimerFires` | gps/utils/LocTimer.cpp:446-470 | from rest, once the deadline on top has come, one schedule of eight steps ends in the callback of that very timer, one of the ways that the next row speaks of |
| `TimerDue.EveryDueTimerFires` | gps/utils/LocTimer.cpp:355-381 | with an expiry on its way, however poll thread and message thread take turns until they are at rest, every timer that was in the heap with its second come is gone, deleted, and was called back unless its client had stopped it before |
| `LinkedList.ListState.Add` | gps/utils/linked_list.c:110-160 | a new newest element, or no change with the status that says why; next and prev keep mirroring each other |
| `LinkedList.ListState.Remove` | gps/utils/linked_list.c:162-204 | takes the oldest element and returns its data, or answers that there is none and writes nothing |
| `LinkedList.ListState.Flush` | gps/utils/linked_list.c:230-260 | the list is empty; data is freed once for each element that had it and brought a dealloc function, and no other data is |
| `LinkedList.ListState.Search` | gps/utils/linked_list.c:267-327 | finds the first match from the head and no other; with removal exactly it goes, the others keep their order, and its data is freed only if not handed out |
| `LinkedList.ListState.Unlink` | gps/utils/linked_list.c:298-310 | taking out the element at any position leaves a well-linked list of the others in order |
| `LinkedList.AddRemoveIsFifo` | gps/utils/linked_list.c:110-204 | seen oldest first, add is at the back and remove at the front |
| `MsgQueue.MsgQ.Snd` | gps/utils/msg_q.c:185-221 | accepted exactly if the message is not NULL, the queue not unblocked and memory there, and then last in the queue; each refusal has its status and changes nothing; a waiter is signalled whenever the list was tried |
| `MsgQueue.MsgQ.Rcv` | gps/utils/msg_q.c:247-268 | one stretch under the mutex: who enters an unblocked queue gets nothing and leaves it as it is, pending messages or not; else the oldest message is taken if there is one; else it waits, or if unblocked while waiting reports that there is none |
| `MsgQueue.MsgQ.Flush` | gps/utils/msg_q.c:289-294 | the queue is emptied and each message that brought a dealloc function freed once |
| `MsgQueue.MsgQ.Unblock` | gps/utils/msg_q.c:315-335 | sets the flag, broadcasts the first time only, leaves the messages |
| `MsgTask.NoLostSignal` | gps/utils/msg_q.c:256-264 | in every run of any number of receivers: while one sleeps there are no more pending messages than woken receivers yet to run, and the queue has never been unblocked |
| `MsgTask.Unblocked` | gps/utils/msg_q.c:204-209 | after the unblocking nothing more is accepted, ever |
| `MsgTask.NothingForLatecomers` | gps/utils/msg_q.c:249-254 | a receiver that is outside when the queue is unblocked, or enters later, never gets a message again, and one that is handling a message gets no other |
| `MsgTask.OneEachAfterUnblock` | gps/utils/msg_q.c:256-262 | after the unblocking receivers get no more messages than there were receivers woken inside |
| `MsgTask.EachMessageOnce` | gps/utils/MsgTask.cpp:76-102 | an accepted message is pending, with one receiver, or was deleted once, and exactly one of these; messages leave the queue in the order they were accepted |
| `MsgTask.AllFreedInTheEnd` | gps/utils/MsgTask.cpp:60-63 | after the flush, with no receiver busy, each accepted message has been deleted exactly once and no other |
| `MsgTask.HandledInOrder` | gps/utils/MsgTask.cpp:85-102 | a single receiver handles the accepted messages in order and leaves none out |
| `LocThread.FreedOnceByTheLast` | gps/utils/LocThread.cpp:153-173 | in every interleaving nobody uses a deleted delegate; it is deleted at most once, only after both parties have dropped it, and by the time both are through |
| `LocThread.StopMeansExited` | gps/utils/LocThread.cpp:130-146 | stopping or deleting a joinable thread returns only when the child has exited, and it is joined once |
| `LocThread.NothingSpawned` | gps/utils/LocThread.cpp:97-102 | a thread that could not be created leaves nothing to stop or join, start() returns false, the maker deletes the delegate, and the runnable is not touched |
| `LocThread.RunnableFreed` | gps/utils/LocThread.cpp:175-202 | once both are through, the thread has deleted the runnable if and only if it was created and not stopped before it looked at mRunnable; in particular what start() returned decides it only up to these two cases |
| `LocThreadCalls.CallsInOrder` | gps/utils/LocThread.cpp:181-190 | in every run: prerun() first, if at all; run() again and again while it asks for that; postrun() last, and only after run() has asked for no more |
| `LocThreadCalls.GoesOnUnlessTold` | gps/utils/LocThread.cpp:186 | until stop() has nulled mRunnable or run() has declined, the thread has not left its loop nor deleted the runnable |
| `LocThreadCalls.RunsAgain` | gps/utils/LocThread.cpp:186 | after run() has asked to be called again, with mRunnable still there, the child's next step but one is to be in it again |
| `LocThreadCalls.StoppedWhenAsked` | gps/utils/LocThread.cpp:47-51 | mRunnable is nulled from outside exactly if the client calls stop() or deletes the LocThread of a joinable thread; a detached thread whose LocThread is deleted runs on |
| `LocThread.FalseStartMayDelete` | gps/utils/LocThread.cpp:111-123 | a run in which start() returns false and the runnable has been deleted by the thread |
| `LocThread.EarlyStopLeaks` | gps/utils/LocThread.cpp:137-139 | a run in which start() returns true and nobody deletes the runnable |
| `LocThread.StopComesThrough` | gps/utils/LocThread.cpp:182-201 | from stop() on the child is within nine of its own steps of its exit and never blocked |
| `LocThread.NeverStuck` | gps/utils/LocThread.cpp:111-226 | until both parties are through some step is possible |
| `MemoryPool.AlignedIsEnough` | camera/QCamera2/HAL/QCameraMem.cpp:403-405 | a new buffer has whole pages, and is as large as asked for if and only if that is at most 0xFFFFF000 bytes |
| `MemoryPool.FillKeepsBooks` | camera/QCamera2/HAL/QCameraMem.cpp:322-347 | with every buffer in one place before, the same holds after the allocation loop, which on failure has given back all slots down to 0 |
| `MemoryPool.FillSucceeds` | camera/QCamera2/HAL/QCameraMem.cpp:322-347 | the loop succeeds if and only if as many buffers are to be had before it, counting those in the list that may be reused and those there is memory for |
| `MemoryRuns.AllocateConserves` | camera/QCamera2/HAL/QCameraMem.cpp:919-962 | every buffer stays in exactly one place if and only if before the call the object is empty, or has no slots for so many, or it is allocateMore and that many buffers are to be had |
| `MemoryRuns.FailureLosesNothing` | camera/QCamera2/HAL/QCameraMem.cpp:338-344 | an allocation into an empty object that fails leaves every buffer that existed in one place, and without a pool creates none |
| `MemoryRuns.AllocatedFits` | camera/QCamera2/HAL/QCameraMem.cpp:569-594 | buffers that an allocation brings, reused or new, are at least as large as asked for, of the object's heap and with its caching; the object's others stay |
| `MemoryRuns.DeallocateConserves` | camera/QCamera2/HAL/QCameraMem.cpp:973-981 | deallocate empties the object, every buffer stays in one place, and with a pool none stops existing |
| `MemoryRuns.ClearConserves` | camera/QCamera2/HAL/QCameraMem.cpp:537-551 | clear leaves exactly the buffers that objects hold |
| `MemoryRuns.RunConserves` | camera/QCamera2/HAL/QCameraMem.cpp:304-370 | over every run with any number of objects and stream types, at every time each buffer that exists is in exactly one list or slot, once, and nothing was freed that does not exist, if and only if every allocate was of an empty object and every allocateMore of one in use had its buffers to be had (or either had no slots) |
| `QCameraMemories.QCameraMemoryPool.FindBufferLocked` | camera/QCamera2/HAL/QCameraMem.cpp:569-594 | takes the first buffer of the list that is large enough and has the heap and the caching wanted; answers none only if no buffer of the list has all three; all else stays |
| `QCameraMemories.QCameraMemoryPool.AllocateBuffer` | camera/QCamera2/HAL/QCameraMem.cpp:613-630 | a buffer of this stream type's list if one is large enough with the right heap and caching, and then nothing new; else a new one; none only if there is no memory; other lists untouched |
| `QCameraMemories.QCameraMemoryPool.Clear` | camera/QCamera2/HAL/QCameraMem.cpp:537-551 | every buffer of every list is freed and the lists are empty |
| `QCameraMemories.QCameraMemory.Alloc` | camera/QCamera2/HAL/QCameraMem.cpp:304-350 | slots, list and device become what the specification's loop makes of them, rollback included; refused counts change nothing |
| `QCameraMemories.QCameraMemory.Dealloc` | camera/QCamera2/HAL/QCameraMem.cpp:361-370 | all slots in use are given back, in order |
| `QCameraMemories.QCameraMemory.Allocate` | camera/QCamera2/HAL/QCameraMem.cpp:919-933 | refused exactly for more slots than there are, fails only without memory, and else the count is as asked and every new slot has a buffer that is large enough with the right heap and caching; object, pool and device become what the system specification says |
| `QCameraMemories.QCameraMemory.AllocateMore` | camera/QCamera2/HAL/QCameraMem.cpp:948-962 | the same, the count growing by as many |
| `QCameraMemories.QCameraMemory.Deallocate` | camera/QCamera2/HAL/QCameraMem.cpp:973-981 | the same for giving everything back |
| `Gralloc.QCameraGrallocMemory.Allocate` | camera/QCamera2/HAL/QCameraMem.cpp:1662-1834 | succeeds if and only if all calls it makes work; then all flags are right, the first min-undequeued buffers are the window's and the others owned; on failure everything goes back but the buffer of the failing round, which stays with the camera, flagged, if and only if that round's dequeue worked and its ION step did not |
| `Gralloc.StrandsOne` | camera/QCamera2/HAL/QCameraMem.cpp:1784-1806 | the leak at one input: two buffers, the second one's import failing |
| `Gralloc.QCameraGrallocMemory.DisplayBuffer` | camera/QCamera2/HAL/QCameraMem.cpp:1611-1647 | refused exactly for a buffer that is not owned; otherwise the buffer goes to the window exactly if the enqueue works, and one comes back exactly if the dequeue works and the window has one; flags, the window's holdings and the owned count are exact, and a flag keeps saying OWNED exactly when the window does not have the buffer and no failed cancel lost it |
| `Gralloc.QCameraGrallocMemory.CancelFirst` | camera/QCamera2/HAL/QCameraMem.cpp:1741-1754 | the first buffers go back to the window, their flags and handles cleared, the others untouched |
| `Gralloc.QCameraGrallocMemory.GiveBack` | camera/QCamera2/HAL/QCameraMem.cpp:1824-1828 | exactly the first min-undequeued flags are cleared and the flags stay right |
| `Gralloc.QCameraGrallocMemory.Deallocate` | camera/QCamera2/HAL/QCameraMem.cpp:1864-1891 | the window has every buffer that no failed cancel lost, and no flag says OWNED |
| `Preview.SameSizeIsTight` | camera/QCamera2/HAL/QCamera2HWICallbacks.cpp:632-648 | with strides and scanlines at least the image's, equal sizes hold if and only if every stride and scanline is the image's own (but for the stride of a plane without rows) |
| `Preview.SharedIsImage` | camera/QCamera2/HAL/QCamera2HWICallbacks.cpp:648-656 | then the shared frame is byte for byte what the copy would give |
| `Preview.RowsAt` | camera/QCamera2/HAL/QCamera2HWICallbacks.cpp:665-683 | the byte at row r and column c of a plane without strides is that at r * stride + c of the frame, in bounds |
| `Preview.ImageLuma` | camera/QCamera2/HAL/QCamera2HWICallbacks.cpp:665-671 | the luma byte at row r and column c of the image is that at r * stride + c of the frame |
| `Preview.ImageChroma` | camera/QCamera2/HAL/QCamera2HWICallbacks.cpp:673-683 | the chroma byte at row r and column c of the image, behind its luma plane, is that at r * uv-stride + c behind all scanlines of the frame's luma plane |
| `Preview.CopyRows` | camera/QCamera2/HAL/QCamera2HWICallbacks.cpp:665-683 | the loop reads and writes in bounds, writes every byte of the plane's rows, and no other |
| `Preview.RemoveStrides` | camera/QCamera2/HAL/QCamera2HWICallbacks.cpp:657-684 | both loops together write the whole buffer, each byte from its row and column of its plane |
| `Preview.SendPreviewCallback` | camera/QCamera2/HAL/QCamera2HWICallbacks.cpp:618-699 | for NV21 and NV12 every byte that the application sees is that of its row, column and plane, shared if and only if the frame is tight, copied otherwise, and nothing is sent for a frame without bytes; YV12 is always shared; without memory there is no callback |
| `DeferredWork.OneJobPerSlot` | camera/QCamera2/HAL/QCamera2HWI.cpp:7003-7018 | in every run a slot is busy if and only if exactly one job with its id is queued, running or abandoned, and no two outstanding jobs share an id |
| `DeferredWork.RefusedAtTwentyFive` | camera/QCamera2/HAL/QCamera2HWI.cpp:7003-7018 | in every run there are at most 25 jobs outstanding; a job is refused if and only if there are 25, and accepted otherwise |
| `DeferredWork.WaitedForIsDone` | camera/QCamera2/HAL/QCamera2HWI.cpp:7032-7046 | waitDefferedWork returns, at once or after sleeping, only when the job waited for is done |
| `DeferredWork.AbandonedForGood` | camera/QCamera2/HAL/QCamera2HWI.cpp:6900-6904 | the slot of an allocation job with a NULL channel, or of a job with an unknown command, is never free again once the worker has taken the job |
| `DeferredWork.ImproperBlocksSlot` | camera/QCamera2/HAL/QCamera2HWI.cpp:6951-6955 | when the worker takes such a job, its slot stays busy for ever |
| `DeferredWork.DoneInOrder` | camera/QCamera2/HAL/QCamera2HWI.cpp:6885-6957 | jobs are done in the order they were queued |
| `DeferredWork.OneWaiterIsWoken` | camera/QCamera2/HAL/QCamera2HWI.cpp:6925-6930 | with one waiting thread, it sleeps only while the slot it waits for is busy |
| `DeferredWork.OtherWaiterSleepsOn` | camera/QCamera2/HAL/QCamera2HWI.cpp:6929 | for any larger number of threads, a run after which all jobs are done and a thread sleeps |
| `DeferredWork.Jobs.QueueDefferedWork` | camera/QCamera2/HAL/QCamera2HWI.cpp:7003-7018 | -1 and no change if and only if every slot is busy; else the lowest free slot is taken and the job queued last under its number, as in the machine's queueing step |
| `DeferredWork.Jobs.TakeJob` | camera/QCamera2/HAL/QCamera2HWI.cpp:6885-6904 | does the machine's taking step; an improper job is dropped with its slot still in use |
| `DeferredWork.Jobs.FinishJob` | camera/QCamera2/HAL/QCamera2HWI.cpp:6925-6930 | does the machine's completing step to the slots |
| `DeferredWork.SlotTells` | camera/QCamera2/HAL/QCamera2HWI.cpp:7040-7042 | a slot is in use if and only if a job of its number is outstanding, and once it is free all there ever were are done |
| `DeferredWork.Jobs.WaitDefferedWork` | camera/QCamera2/HAL/QCamera2HWI.cpp:7032-7046 | sleeps, as the machine's waiter does, exactly while a job of that number is outstanding; when it returns all jobs that ever had the number are done; a number that is no slot's is let through unchanged |

## Left out

- LocTimerDelegate, LocTimer, LocTimerPollTask and LocSharedLock are steps and values of one machine, not classes, as several threads run their methods at once; LocThreadDelegate likewise.
- timerfd, epoll and the clock are an armed deadline, a flag and a time that grows; pthread mutexes are the atomicity of steps and condition variables the set of sleepers.
- A container that could not be created (timerfd_create failing), which leaves a start without effect.
- The C interface of the timers (LocTimer.cpp:577-633).
- NULL handles given to msg_q and linked_list functions, and their initialisation and destruction.
- MsgTask.HandledInOrder: says nothing after a flush that drops messages, which a MsgTask makes only when its thread is over.
- DeferredWork.OneWaiterIsWoken: is about one waiting thread, since for more it is false.
- Gralloc.QCameraGrallocMemory.Allocate: is not about a call that follows one that left a buffer with the camera, since the flag of that buffer would be stale.
- A MsgTask destroyed from within its own run(), which would join itself.
- Addresses that are used again: delegates, clients, buffers and jobs have numbers that are not.
- The int width of mSize in the heap, and of offsets and sizes in the preview copy.
- MM_CAMERA_MAX_NUM_FRAMES is not part of this model: it is the length of the arrays.
- mCameraMemory, the HAL's memory handles, and cache operations; video and metadata buffers, which add no branching to allocation.
- What allocateBuffers and the postprocessor do in a deferred job, and CAMERA_CMD_TYPE_EXIT, after which queued jobs stay queued.
- waitAPIResult and signalAPIResult, and the camera HAL's channels, streams, parameters and state machine.
- loc_cfg, LocApiBase, contexts, proxies, the RIL wrapper and Light.cpp: small, fixed-size or glue.

# The GPS runtime, modelled and verified

This project models the runtime that the GPS stack is built on, and proves what it promises: the timer
service and its heap, the blocking message queue and the linked list under it, the thread delegate,
the AGPS resource machine, and three loop-heavy pieces (the escape encoder, the GSV splitter, the array
of adapters). `dafny verify dfyconfig.toml` checks all of it.

| files | what they hold |
|---|---|
| `LocHeapTree`, `LocHeap` | the size-guided heap: as a value, and as linked nodes changed in place |
| `LocTimerClock` | due times, with the 32-bit wrap-around of the target |
| `LocTimerProtocol`, `LocTimerInvariant`, `LocTimerProofs`, `LocTimerTheorems` | client threads, message thread, poll thread and clock as interleaved steps; what each step keeps; what holds over all runs |
| `LocTimerDrain`, `LocTimerHandlers` | one expire message from start to end, the container's handlers in place, and that the protocol's steps add up to them |
| `LocTimerService`, `LocTimerCauses` | from a due timer to its callback, when an expire message fires a timer early, and that early callbacks have no other cause |
| `LocTimerStarts` | that each timer is the one some start asked for, and each stop ends the timer its client runs |
| `LocTimerRuns`, `LocTimerTwoExpiries` | which delegate an expiry stops, and concrete runs that go wrong |
| `LocSharedLock` | the lock a timer shares with its delegates, from the timer's construction to the last delegate's deletion |
| `AgpsModel`, `AgpsTheorems`, `AgpsAccounting`, `AgpsGrants`, `AgpsSteps`, `AgpsStateMachine` | the AGPS machine as a value, its invariants and accounts over all runs, what each call says, lists and ends in, and the machine in place |
| `LinkedList`, `MsgQueue` | the doubly linked list, and the blocking queue over it under every interleaving |
| `LocThread` | the delegate shared by a client thread and the thread it spawned |
| `EscapeEncoder`, `NmeaText`, `GsvText`, `GsvSentences`, `LocAdapters` | the loop-heavy pieces |
| `Options`, `Sequences` | helpers shared by the others |

Conventions. An object's address is a number (`id`, `addr`, a data pointer; 0 is NULL where NULL
matters). Ranking is an integer per object, which is a total preorder. A region under a lock, a kernel
call, or a read or write of a shared field is one step; a run is any sequence of steps, and every
theorem about a protocol quantifies over all runs. Where the source changes fields in place the model
is a class or a loop whose contract is a function of the old state, and the laws are lemmas about that
function.

## Findings

Where the code does less than its comments or callers expect, the code is modelled as it is, a concrete
run shows the failure, and a lemma says exactly when it does what is expected.

- An expire message pops its first element without looking at its due time, so one that finds the timers
  it was sent for already gone fires another timer early. They may have been stopped meanwhile
  (`LocTimerRuns.StaleExpireFiresEarly`); but nobody need stop anything: if a timer's time comes while
  the descriptor is being armed for an earlier one, two expire messages are sent, the first drains what
  is due, and the second fires a timer of ninety seconds later (`LocTimerTwoExpiries.TwoExpiriesFireEarly`).
  Exactly when: the heap it finds has a top due in a later second (`LocTimerService.ExpireTakesEarlyIff`).
- The expire loop stops *the client* of the delegate it popped, which may meanwhile run another
  delegate: that one is stopped and called back early (`LocTimerRuns.RestartedTimerIsCalledBack`).
  Exactly when: `LocTimerRuns.ExpiryStopsThePoppedDelegateIff`.
  These are the only two causes of an early callback (`LocTimerCauses.EarlyCallbackHasOneOfTwoCauses`).
- Ranking compares whole seconds only, so the kernel is not told of a timer due before the armed one
  within the same second: it is overdue, by less than a second, until the other one is due
  (`LocTimerRuns.OverdueTimerIsNotWokenFor`, `LocTimerTheorems.RestingTimerIsUnderASecondLate`). Exactly
  when: `LocTimerHandlers.KernelIsToldIff`.
- A timer destroyed after the expire loop has read it as a delegate's client is stopped, and asked for its
  lock, after its end (`LocTimerRuns.DestroyedTimerIsStopped`). Exactly when:
  `LocSharedLocks.StopsADestroyedTimerIff`.
- `dropAllSubscribers` keeps the machine's state, so a machine outside Released is left with nobody
  listed (`AgpsTheorems.DroppingUnmans`). A run keeps its guarantee throughout if and only if everybody is
  dropped in Released only (`AgpsTheorems.StateInvariant`). In such runs an unsubscription never empties
  the list of a machine in Releasing (`AgpsTheorems.ReleasingOutlivesUnsubscribe`), so that branch of the
  handler is dead.
- A client that leaves, waiting for the close, and subscribes again is told it is granted but stays listed
  as inactive, and the resource is released under it (`AgpsTheorems.ResubscribedIsForgotten`). Exactly
  when: `AgpsTheorems.SubscribedIsActiveIff`. This concerns the handlers as the data-service machine
  `ds_nif` inherits them (loc_eng.cpp:1522), whose clients all wait; it cannot happen on the WiFi machine,
  which takes a single subscriber (`AgpsTheorems.SingleSubscriberIsActive`), nor on the two others, whose
  clients never wait (`AgpsTheorems.SubscriberIsActiveIfNobodyWaits`).
- `LocThread.h` (lines 75-77) promises that the runnable is deleted if `start` returns true and is the
  client's if not. A thread that is done before `create` looks makes `start` return false although the
  runnable is already deleted (`LocThreads.FastThreadLooksFailed`); a stop before the thread's first
  read leaves it to nobody (`LocThreads.EarlyStopLeaksRunnable`). Exactly the schedules that do one of
  the two break the promise (`LocThreads.OwnershipKeptIff`). A client is safe if run() returns true until
  `start` has returned and it stops only after a first callback (`LocThreads.CarefulClientKeepsOwnership`).
- After a removal the interface is opened with the mask of all the adapters left. After an addition it is
  opened with the newcomer's own mask, which leaves out what only the others want and leaves in what is
  excluded (`LocAdapterList.NewcomersMaskCanFallShort`). It is the mask of all the adapters present if and
  only if the newcomer asks for nothing excluded and for everything the others get
  (`LocAdapterList.NewcomersMaskIsEnoughIff`). Whether an implementation of `open` adds up the masks it is
  given is not part of this model; the base class's `open` ignores them (gps/core/LocApiBase.cpp:373-375).

## Model

| member | source | states |
|---|---|---|
| LocHeapTree.RunKeepsHeap | gps/utils/LocHeap.cpp:107-193 | after any run of push, pop and remove the tree is heap-ordered, every cached size is exact, and contents plus everything taken equals everything pushed, as multisets |
| LocHeapTree.PopTakesTheHighest | gps/utils/LocHeap.cpp:134-164 | after any run, a pop takes one element out, and nothing in the heap outranks it; an empty heap is left alone |
| LocHeapTree.DrainSorts | gps/utils/LocHeap.cpp:134-164 | popping until empty yields the contents, highest rank first |
| LocHeapTree.RemoveContents | gps/utils/LocHeap.cpp:170-193 | remove finds its element exactly when it is present, though it skips subtrees; then one occurrence is gone, otherwise the tree is unchanged |
| LocHeapTree.RemoveMisses | gps/utils/LocHeap.cpp:170-193 | when the element is not found the search returns the very same tree |
| LocHeapTree.CheckNodesMeansSound | gps/utils/LocHeap.cpp:197-220 | the self-check passes exactly on trees that are ordered with exact sizes |
| LocHeapTree.PushAllBalanced | gps/utils/LocHeap.cpp:107-124 | at every node of a push-only tree, left size minus right size is 0 or 1 |
| LocHeapTree.ShapeDependsOnCountOnly | gps/utils/LocHeap.h:54-58 | the shape of a push-only tree depends on the number of pushes alone |
| LocHeapTree.PushAllIsShallow | gps/utils/LocHeap.h:54-58 | a push-only tree of height h holds at least 2^(h-1) elements |
| LocHeaps.LocHeapNode.Push | gps/utils/LocHeap.cpp:107-124 | in place: the nodes afterwards denote the specified tree; no other node is touched |
| LocHeaps.LocHeapNode.Pop | gps/utils/LocHeap.cpp:134-164 | in place: data is swapped down, exactly one leaf leaves the tree and carries the old top's data |
| LocHeaps.LocHeapNode.Remove | gps/utils/LocHeap.cpp:170-193 | in place: same answer and tree as specified, exactly the removed node leaves, and it has nothing below it |
| LocHeaps.LocHeapNode.CheckNodes | gps/utils/LocHeap.cpp:197-220 | over linked nodes the self-check answers as over the tree they denote |
| LocHeaps.LocHeap.Push | gps/utils/LocHeap.cpp:228-235 | the heap object's tree afterwards is the pushed one |
| LocHeaps.LocHeap.Peek | gps/utils/LocHeap.cpp:237-243 | shows the top, or nothing on an empty heap |
| LocHeaps.LocHeap.Pop | gps/utils/LocHeap.cpp:245-254 | hands out the top's data and leaves the popped tree; nothing on an empty heap |
| LocHeaps.LocHeap.Remove | gps/utils/LocHeap.cpp:256-267 | hands out the element exactly when it was present |
| LocTimerClock.FutureTime | gps/utils/LocTimer.cpp:545-554 | the due time is normal, its nanosecond field never overflows 32 bits, and it is exactly now plus the delay if and only if the due second fits 32 bits |
| LocTimerProofs.StepKeepsInv | gps/utils/LocTimer.cpp:281-575 | every step of every thread keeps the whole invariant of the service |
| LocTimerTheorems.NoLostWakeup | gps/utils/LocTimer.cpp:281-381 | over every interleaving, a non-empty heap is armed for its top and polled, or the poll thread has woken for it, or an expire message is queued, or the message thread is expiring or re-arming it |
| LocTimerStarts.StartMakesATimer | gps/utils/LocTimer.cpp:542-560 | a start by a client that runs nothing makes one timer of the kind asked for, due exactly the delay asked for later, and sends its push message; any other start changes nothing |
| LocTimerStarts.EachTimerIsAsAsked | gps/utils/LocTimer.cpp:475-482 | over every interleaving each timer was made by exactly one start; it has that call's client and kind and is due exactly that call's delay after that step's clock; only the heap of that kind holds it and its messages name that kind |
| LocTimerStarts.EveryStartMakesItsTimer | gps/utils/LocTimer.cpp:542-560 | every start by a client that runs nothing makes a timer that keeps the client, kind and due time asked for ever after |
| LocTimerStarts.StopEndsTheClientsTimer | gps/utils/LocTimer.cpp:534-575 | in every reachable state a stop, or a destructor, ends the timer its client runs and no other, and sends one remove message, which names that timer; with nothing running it sends nothing |
| LocTimerTheorems.RestingServiceWakes | gps/utils/LocTimer.cpp:446-470 | when all threads rest, the descriptor is armed for the heap's top, than which no timer is due in an earlier second, and once that time has come the poll thread's steps queue the expire message |
| LocTimerTheorems.WakingSendsBoth | gps/utils/LocTimer.cpp:446-470 | a poll thread that wakes for both descriptors at once disarms both and queues both expire messages |
| LocTimerTheorems.RestingTimerIsUnderASecondLate | gps/utils/LocTimer.cpp:503-512 | at rest the descriptor is armed less than a second after any timer of the heap is due, and readable if and only if the top is due |
| LocTimerHandlers.KernelIsToldIff | gps/utils/LocTimer.cpp:281-325 | when a timer due before the armed top is pushed, the descriptor is armed for it if and only if it is due in an earlier second |
| LocTimerHandlers.LastRemovalStaysArmed | gps/utils/LocTimer.cpp:281-306 | removing the last timer leaves the descriptor armed as it was |
| LocTimerHandlers.MessageThreadNeverDisarms | gps/utils/LocTimer.cpp:281-306 | no step of the message thread disarms a descriptor or takes it off the poll set |
| LocTimerRuns.OverdueTimerIsNotWokenFor | gps/utils/LocTimer.cpp:503-512 | a run after which the service rests while a running timer is overdue and the descriptor armed for a later one of the same second |
| LocTimerTheorems.DelegateLifecycle | gps/utils/LocTimer.cpp:310-350 | each delegate is pushed once, removed once after that and only when stopped, is in at most one place, and is deleted at most once, when no heap or loop holds it |
| LocTimerTheorems.PoppedIsDisposedOf | gps/utils/LocTimer.cpp:355-381 | a delegate expiry popped and is done with is stopped, and its remove message is queued, in progress or has deleted it, exactly one of them |
| LocTimerTheorems.RestingServiceLeaksNothing | gps/utils/LocTimer.cpp:328-350 | when all threads rest, a delegate is undeleted exactly while its timer runs |
| LocTimerTheorems.TimerConservation | gps/utils/LocTimer.cpp:515-575 | per timer, successful starts equal successful stops plus callbacks plus one if running; per start, at most one of stop and callback |
| LocTimerDrain.HeapsBelongToMessageThread | gps/utils/MsgTask.cpp:76-102 | no step of another thread changes a heap |
| LocTimerDrain.ExpireDrains | gps/utils/LocTimer.cpp:360-390 | an expire message fires in non-decreasing seconds, loses nothing, leaves only later seconds, and nothing after the first is of a later second |
| LocTimerDrain.LessThanASecondEarly | gps/utils/LocTimer.cpp:503-512 | not of a later second means less than one second early |
| LocTimerDrain.FiresEarlyIff | gps/utils/LocTimer.cpp:367-369 | a timer of a later second is fired exactly when the heap's top, popped unchecked, is one |
| LocTimerDrain.LocTimerContainer.UpdateSoonestTime | gps/utils/LocTimer.cpp:281-306 | in place: when the descriptor is kept, disarmed or armed for the top |
| LocTimerDrain.LocTimerContainer.ProcPush | gps/utils/LocTimer.cpp:310-325 | in place: the push message's effect on heap and descriptor |
| LocTimerDrain.LocTimerContainer.ProcRemove | gps/utils/LocTimer.cpp:328-350 | in place: the remove message's; only losing the top re-arms |
| LocTimerDrain.LocTimerContainer.PopIfOutRanks | gps/utils/LocTimer.cpp:383-390 | pops the top unless it is of a later second |
| LocTimerDrain.LocTimerContainer.ProcExpire | gps/utils/LocTimer.cpp:360-375 | in place: the loop terminates, fires and leaves exactly what the drain functions say, and re-arms |
| LocTimerRuns.ExpiryStopsThePoppedDelegateIff | gps/utils/LocTimer.cpp:515-527 | the delegate popped is the one called back if and only if it is still live; what happens otherwise |
| LocTimerRuns.RestartedTimerIsCalledBack | gps/utils/LocTimer.cpp:515-527 | a run in which a restarted timer is called back five seconds early |
| LocTimerRuns.StaleExpireFiresEarly | gps/utils/LocTimer.cpp:367-369 | a run in which a stale expire message fires another client's timer five seconds early |
| LocTimerTwoExpiries.TwoExpiriesFireEarly | gps/utils/LocTimer.cpp:360-390 | a run without any stop in which a timer due at 100 seconds is called back at 10 seconds |
| LocTimerService.ExpireTakesEarlyIff | gps/utils/LocTimer.cpp:360-390 | in every reachable state whose next message is an expire message: dealing with it pops a timer of a later second if and only if the heap then has a top due in a later second |
| LocTimerService.RestingTimerIsCalledBack | gps/utils/LocTimer.cpp:446-527 | from every reachable resting state with the timer at the heap's top due, the poll thread's steps and then the message thread's call back the top's client first, and then those of all timers drained, in order |
| LocTimerService.EveryTimerDueIsCalledBack | gps/utils/LocTimer.cpp:446-527 | in that schedule every timer of the heap due in the clock's second or an earlier one is called back, those that had to wait for the top included |
| LocTimerCauses.EarlyCallbackHasOneOfTwoCauses | gps/utils/LocTimer.cpp:360-390 | over every interleaving, a callback for a timer due in a later second than the expire message read has one of two causes: it was that message's first, unchecked pop, or another delegate of its client was popped |
| LocTimerStarts.EarlyCallbackOfARequest | gps/utils/LocTimer.cpp:515-560 | the same against the delay asked for: whoever is called back had started that very timer, and if the delay asked for ends in a later second than the message read, one of the two causes is behind it |
| LocTimerService.MessageThreadEmptiesItsQueue | gps/utils/MsgTask.cpp:76-102 | from every reachable state, with nobody else moving, the message thread comes to rest with an empty queue, the messages it sends itself included |
| LocTimerHandlers.PushMatchesContainer | gps/utils/LocTimer.cpp:310-325 | in every reachable state, the protocol's steps for a push message add up to what the container's handler does |
| LocTimerHandlers.RemoveMatchesContainer | gps/utils/LocTimer.cpp:328-350 | the same for a remove message, after which the delegate is deleted |
| LocTimerHandlers.ExpireMatchesContainer | gps/utils/LocTimer.cpp:355-381 | left to run, an expire message ends, pops what the handler pops, calls back for exactly the live ones in that order, and leaves the same heap and descriptor |
| LocSharedLocks.LockOutlivesItsUsers | gps/utils/LocSharedLock.h:35-52 | over every interleaving, destruction of timers included: the lock is deleted exactly once when its timer has dropped it and no delegate of the timer is left, and not before |
| LocSharedLocks.LockIsThereWhileNeeded | gps/utils/LocTimer.cpp:475-527 | the lock is not deleted before its timer's end, nor while the expire loop is about to stop the timer, whose delegate keeps the lock alive even after the timer's end |
| LocSharedLocks.StopsADestroyedTimerIff | gps/utils/LocTimer.cpp:515-540 | the expire loop, having read a client that exists, stops a destroyed timer if and only if both steps of the destructor come before its next step |
| LocTimerRuns.DestroyedTimerIsStopped | gps/utils/LocTimer.cpp:515-540 | a run in which it is about to stop a destroyed timer |
| LocSharedLocks.RestingServiceLeaksNoLock | gps/utils/LocTimer.cpp:534-540 | when all threads rest, the lock of every destroyed timer has been deleted |
| AgpsTheorems.ListInvariant | gps/loc_api/libloc_api_50001/loc_eng_agps.cpp:258-579 | over every run: Released lists nobody, IDs are unique, a single-subscriber machine never lists two |
| AgpsTheorems.StateInvariant | gps/loc_api/libloc_api_50001/loc_eng_agps.cpp:325-579 | all along a run, Pending and Acquired list an active subscriber and Releasing an inactive one, if and only if dropAllSubscribers is called in Released only |
| AgpsTheorems.SubscribedIsActiveIff | gps/loc_api/libloc_api_50001/loc_eng_agps.cpp:738-748 | after any run, a subscription that is not denied leaves its ID listed as active if and only if it was not listed as inactive |
| AgpsTheorems.ResubscribedIsForgotten | gps/loc_api/libloc_api_50001/loc_eng_agps.cpp:421-497 | a run, with two clients that wait for the close, in which a returning one is told it is granted, is listed as inactive only, and loses the resource |
| AgpsTheorems.SingleSubscriberIsActive | gps/loc_api/libloc_api_50001/loc_eng.cpp:2304-2307 | a machine that enforces a single subscriber lists everybody it does not deny as active |
| AgpsTheorems.SubscriberIsActiveIfNobodyWaits | gps/loc_api/libloc_api_50001/loc_eng_agps.h:290-333 | so does any machine whose subscribers do not wait for the close |
| AgpsTheorems.ReleasingOutlivesUnsubscribe | gps/loc_api/libloc_api_50001/loc_eng_agps.cpp:514-579 | in such runs an unsubscription never takes the machine out of Releasing |
| AgpsTheorems.DropKeepsMannedIff | gps/loc_api/libloc_api_50001/loc_eng_agps.h:242-243 | dropAllSubscribers keeps that guarantee if and only if the machine is in Released |
| AgpsTheorems.DroppingUnmans | gps/loc_api/libloc_api_50001/loc_eng_agps.h:242-243 | a run in which dropAllSubscribers leaves Pending with nobody listed |
| AgpsAccounting.RequestsAlternate | gps/loc_api/libloc_api_50001/loc_eng_agps.cpp:750-801 | over every run: a request is outstanding exactly in Pending and granted exactly in Acquired; requests and releases alternate; the guard never swallows a send |
| AgpsAccounting.OneTerminalNotice | gps/loc_api/libloc_api_50001/loc_eng_agps.cpp:715-736 | over every run, for each entry that joined the list: terminal notices plus drops plus still listed is exactly one |
| AgpsGrants.GrantInvariant | gps/loc_api/libloc_api_50001/loc_eng_agps.cpp:325-579 | over every run: no entry in Pending was granted, every active entry in Acquired was, no active entry in Releasing was |
| AgpsSteps.EveryCallSaysWhatIsDue | gps/loc_api/libloc_api_50001/loc_eng_agps.cpp:258-579 | after any run, the call that follows logs exactly what is due: who is told what (unsubscribed, to the one who asks and does not wait; otherwise the very status the servicer reported), who joins, who is refused, and what is sent to the servicer |
| AgpsSteps.EveryCallListsWhoStays | gps/loc_api/libloc_api_50001/loc_eng_agps.cpp:715-748 | after any run, who is listed after the call that follows, and whether as active |
| AgpsSteps.EveryCallEndsWhereItShould | gps/loc_api/libloc_api_50001/loc_eng_agps.cpp:258-579 | after any run, the state in which the call that follows ends, from the state before and who is then listed |
| AgpsSteps.NoCallRepeatsItself | gps/loc_api/libloc_api_50001/loc_eng_agps.cpp:715-736 | after any run, no call says anything twice, nothing logged is taken back, and a servicer's event comes before what it leads to |
| AgpsStateMachines.AgpsStateMachine.Search | gps/utils/linked_list.c:267-327 | finds the first subscriber concerned |
| AgpsStateMachines.AgpsStateMachine.NotifyDeleting | gps/loc_api/libloc_api_50001/loc_eng_agps.cpp:715-736 | the search-and-remove loop terminates, notifies each one concerned once in list order, and keeps the others in order |
| AgpsStateMachines.AgpsStateMachine.NotifyKeeping | gps/loc_api/libloc_api_50001/loc_eng_agps.cpp:715-736 | without deletion, one walk notifies each one concerned once and changes nothing |
| AgpsStateMachines.AgpsStateMachine.AddSubscriber | gps/loc_api/libloc_api_50001/loc_eng_agps.cpp:738-748 | in place: a copy goes in front unless the ID is listed, even as inactive |
| AgpsStateMachines.AgpsStateMachine.SendRsrcRequest | gps/loc_api/libloc_api_50001/loc_eng_agps.cpp:750-777 | in place: sends only if an active subscriber's presence agrees with the action |
| AgpsStateMachines.AgpsStateMachine.OnRsrcEvent | gps/loc_api/libloc_api_50001/loc_eng_agps.cpp:258-579 | in place: granted, released and denied in each of the four states |
| AgpsStateMachines.AgpsStateMachine.SubscribeRsrc | gps/loc_api/libloc_api_50001/loc_eng_agps.cpp:779-787 | in place: the machine afterwards is one step of the model |
| AgpsStateMachines.AgpsStateMachine.UnsubscribeRsrc | gps/loc_api/libloc_api_50001/loc_eng_agps.cpp:789-801 | in place: one step of the model, and whether the ID was listed |
| AgpsStateMachines.AgpsStateMachine.DropAllSubscribers | gps/loc_api/libloc_api_50001/loc_eng_agps.h:242-243 | in place: frees every listed subscriber, head first, and keeps the state |
| LinkedLists.LinkedList.Add | gps/utils/linked_list.c:110-155 | prepends; next, prev, head and tail stay mutually consistent; a NULL object is refused |
| LinkedLists.LinkedList.Remove | gps/utils/linked_list.c:162-204 | takes the last item; an empty list or a missing place is refused without a change |
| LinkedLists.LinkedList.Flush | gps/utils/linked_list.c:230-260 | empties the list, calling each deallocator once from head to tail |
| LinkedLists.LinkedList.Search | gps/utils/linked_list.c:267-327 | hands out the data of the first item that compares equal, or 0 if none does, cuts out exactly that item on request, and deallocates it only if its data is not handed out; an empty list is refused with nothing written |
| LinkedListModel.NothingDuplicatedOrMissing | gps/utils/linked_list.c:110-327 | over every run each item added is listed, handed out, deallocated or unlinked, as often as it was added |
| LinkedListModel.CallersAreToldTheTruth | gps/utils/linked_list.c:162-327 | over every run, the data given to callers by removals and removing searches is that of the items handed out, in order, and the deallocators called are those of the items deallocated, in order |
| LinkedListModel.SearchResult | gps/utils/linked_list.c:267-327 | what a search leaves, writes and deallocates, from the position of the first match |
| LinkedListModel.DeallocatedHeadFirst | gps/utils/linked_list.c:230-260 | a flush calls the deallocators there are, in the order of the list |
| LinkedListModel.AddAndRemoveMakeAQueue | gps/utils/linked_list.c:110-204 | with add and remove alone, what was handed out and then the list from tail to head is what was added, in order |
| MsgQueueProtocol.FirstInFirstOut | gps/utils/msg_q.c:185-299 | over every interleaving the first messages accepted are gone, each received or flushed once, and the rest are queued in order |
| MsgQueueProtocol.ReceiversAreGivenWhatLeft | gps/utils/msg_q.c:228-269 | over every interleaving, the successful receive calls returned to each receiver the data of the message that left to it, in the order of sending; every other call returned an error and no data, after unblock |
| MsgQueueProtocol.NoReceiverIsForgotten | gps/utils/msg_q.c:228-269 | over every interleaving, each receive call has returned once, or its caller sleeps or has been woken |
| MsgQueueProtocol.NobodySleepsOnAMessage | gps/utils/msg_q.c:228-269 | over every interleaving, sleeping receivers imply that unblock has not been called and that the queue is no longer than the number of woken receivers |
| MsgQueueProtocol.WokenReceiversEmptyTheQueue | gps/utils/msg_q.c:255-262 | while a receiver sleeps, the woken ones alone empty the queue, in whatever order they get the lock |
| MsgQueueProtocol.NothingAcceptedAfterUnblock | gps/utils/msg_q.c:306-336 | after unblock, whatever follows, no send is accepted, nobody sleeps, and at most those already waiting take one message each |
| MsgQueueProtocol.OnlyFlushDeallocates | gps/utils/msg_q.c:276-299 | over every interleaving the queue deallocates exactly what was flushed with a deallocator |
| MsgQueues.MsgQueue.Snd | gps/utils/msg_q.c:185-221 | in place over the linked list: result and content as the protocol says |
| MsgQueues.MsgQueue.Rcv | gps/utils/msg_q.c:248-262 | in place: each time a receiver holds the lock it takes and returns the oldest message, or fails if unblocked, or waits |
| MsgQueues.MsgQueue.Flush | gps/utils/msg_q.c:276-299 | in place: empties the list and calls its deallocators |
| MsgQueues.MsgQueue.Unblock | gps/utils/msg_q.c:306-336 | in place: unblocks once, refuses the second time |
| LocThreads.FreedExactlyOnce | gps/utils/LocThread.cpp:153-173 | under every interleaving the delegate is freed exactly once, after both threads let go, and nobody steps on it after that |
| LocThreads.RunnableDeletedIffSeen | gps/utils/LocThread.cpp:175-202 | the runnable is deleted at most once, never while it may be called, and in the end if and only if the thread's first read saw it |
| LocThreads.OwnershipKeptIff | gps/utils/LocThread.h:70-77 | over all schedules: deletion agrees with what start returned if and only if stop() does not clear mRunnable before the spawned thread has read it and create() does not look after that thread has cleared it |
| LocThreads.CarefulClientKeepsOwnership | gps/utils/LocThread.h:70-77 | if run() returns true until start has returned, and nothing is stopped before a first callback, start returns true and the runnable is deleted once |
| LocThreads.FastThreadLooksFailed | gps/utils/LocThread.cpp:114-119 | a run in which start returns false for a thread that ran and deleted its runnable |
| LocThreads.EarlyStopLeaksRunnable | gps/utils/LocThread.cpp:130-146 | a run in which start returned true and nobody deletes the runnable |
| LocThreads.JoinedMeansSilent | gps/utils/LocThread.cpp:130-146 | once stop returned on a joinable thread the spawned thread is over and no step can follow |
| LocThreads.StopAlwaysClears | gps/utils/LocThread.cpp:130-146 | under every interleaving, once the client has chosen to stop the thread, joinable or not, mRunnable is cleared by the time the parent is done |
| LocThreads.LettingGoClearsNothing | gps/utils/LocThread.cpp:153-173 | a client that lets go of a detached thread never clears mRunnable |
| LocThreads.UnstoppedThreadMakesAllCalls | gps/utils/LocThread.cpp:175-202 | under every interleaving, a thread that nobody stops calls prerun once, then run up to the first false, then postrun once |
| LocThreads.NoThreadMeansFailure | gps/utils/LocThread.cpp:100-119 | without a spawned thread start returns false, nothing is called or deleted, and the delegate is freed |
| LocThreads.ClearedMeansOneMoreCall | gps/utils/LocThread.cpp:186-191 | once mRunnable is cleared, at most the call already under way is made |
| LocThreads.ClearedMeansItEnds | gps/utils/LocThread.cpp:130-146 | once mRunnable is cleared every schedule ends within twenty steps with both threads done: stop returns |
| EscapeEncoder.EncodeInPlace | gps/loc_api/libloc_api_50001/LocEngAdapter.cpp:210-255 | in place: the buffer holds the encoding of the longest prefix that fits, a NUL, and is unchanged behind it |
| EscapeEncoder.FitIsLongest | gps/loc_api/libloc_api_50001/LocEngAdapter.cpp:237-240 | a prefix's encoding fits if and only if it is no longer than that prefix |
| EscapeEncoder.DecodeEncode | gps/loc_api/libloc_api_50001/LocEngAdapter.cpp:206-209 | a percent-decoder (section 2.1 of RFC 3986) undoes the encoding of every string |
| EscapeEncoder.NoSeparatorRemains | gps/loc_api/libloc_api_50001/LocEngAdapter.cpp:206-209 | no raw separator is left in an encoding |
| EscapeEncoder.OutputReadsBack | gps/loc_api/libloc_api_50001/LocEngAdapter.cpp:210-255 | the C string left in the buffer fits, has no separator, and decodes to the longest prefix that fits |
| EscapeEncoder.FindEncoding | gps/loc_api/libloc_api_50001/LocEngAdapter.cpp:216-227 | the table lookup finds the percent-code of exactly the four escaped characters |
| EscapeEncoder.OnlyFourAreEncoded | gps/loc_api/libloc_api_50001/LocEngAdapter.cpp:217-227 | the four codes, and every other character is its own code |
| GsvText.ChunksPartition | gps/loc_api/libloc_api_50001/loc_eng_nmea.cpp:652-712 | as few sentences as hold the list; four satellites in each but the last, one to four in the last; together the list in order |
| GsvText.SentencesRead | gps/loc_api/libloc_api_50001/loc_eng_nmea.cpp:638-712 | reading the sentences back field by field gives the list in order, every number as printed |
| GsvText.HeaderReads | gps/loc_api/libloc_api_50001/loc_eng_nmea.cpp:659-660 | a sentence has four header fields that read back as system, total, number and count, and four more per satellite |
| NmeaText.DecimalReads | gps/loc_api/libloc_api_50001/loc_eng_nmea.cpp:675-678 | a printed number reads back whatever its sign and width, and holds no comma |
| NmeaText.DecimalIsPadded | gps/loc_api/libloc_api_50001/loc_eng_nmea.cpp:675-678 | a printed number is a minus sign if negative, then as few leading zeros as the width asks for |
| GsvSentences.Count | gps/loc_api/libloc_api_50001/loc_eng_nmea.cpp:622-635 | counts the satellites of each system by PRN range |
| GsvSentences.PutFour | gps/loc_api/libloc_api_50001/loc_eng_nmea.cpp:670-708 | takes the next four satellites of the system, or all that are left, and never runs out of room |
| GsvSentences.GenerateSystem | gps/loc_api/libloc_api_50001/loc_eng_nmea.cpp:641-714 | sends exactly the specified sentences, or the blank one |
| GsvSentences.SentencesReport | gps/loc_api/libloc_api_50001/loc_eng_nmea.cpp:638-714 | read field by field, one system's sentences give each satellite once and in order: PRN, elevation, azimuth and SNR to the nearest integer with their widths, the SNR empty exactly when not positive; each has its system's name, the number of sentences, its own number and the number of satellites |
| GsvSentences.GenerateSv | gps/loc_api/libloc_api_50001/loc_eng_nmea.cpp:606-791 | for any satellites: first the sentences that report those with PRN 1 to 32 under $GPGSV, then those that report 65 to 96 under $GLGSV; the 200-byte limit is never reached |
| GsvSentences.EverySentenceFits | gps/loc_api/libloc_api_50001/loc_eng_nmea.cpp:84-98 | every sentence, with the five characters of its checksum and line end and a NUL, fits the 200-byte buffer |
| LocAdapterList.ListRefinesSet | gps/core/LocApiBase.cpp:159-205 | over every run of additions and removals: nobody twice, at most ten, and exactly the members of the bounded set |
| LocAdapterList.OnlyTheLastMoves | gps/core/LocApiBase.cpp:171-205 | a removal moves at most the last adapter, into the place left; all others keep theirs |
| LocAdapterList.EvtMaskIsUnion | gps/core/LocApiBase.cpp:137-144 | an event is in the mask if and only if it is not excluded and some adapter wants it |
| LocAdapterList.NewcomersMaskIsEnoughIff | gps/core/LocApiBase.cpp:164-165 | the mask sent on an addition is the mask of all adapters then present if and only if it holds nothing excluded and everything the others get |
| LocAdapterList.NewcomersMaskCanFallShort | gps/core/LocApiBase.cpp:164-165 | two adapters, or one with an excluded event, for which it is not |
| LocApis.LocApiBase.GetEvtMask | gps/core/LocApiBase.cpp:137-144 | the loop computes that mask |
| LocApis.LocApiBase.AddAdapter | gps/core/LocApiBase.cpp:159-169 | in place: appended unless present or full; no holes; opens with the new adapter's own mask, and when that is the mask of all |
| LocApis.LocApiBase.RemoveAdapter | gps/core/LocApiBase.cpp:171-205 | in place: the last adapter moves into the place of the one removed; no holes; closes exactly when that empties the list, else opens with the mask of the rest |
| LocApis.LocApiBase.MoveLastInto | gps/core/LocApiBase.cpp:177-194 | in place: the shift keeps the prefix hole-free and duplicate-free |

## Left out

- Kernel, pthread and scheduler calls: timerfd, epoll, mutexes, condition variables, atomic operations and thread creation are abstract state changed by single steps.
- Allocation failure, and what a call on a freed client does: allocation succeeds, nobody starts a timer once its destructor has begun, and a stop of a destroyed timer finds nothing to stop. When such a stop happens is `LocSharedLocks.StopsADestroyedTimerIff`.
- A timer's number is never used again for another timer.
- Timer due times in the protocol are unbounded, so it says nothing about an uptime of 2^31 seconds or more; `LocTimerClock.FutureTime` says where the 32-bit field wraps.
- The shared lock is a value in the state of the timer service, since nothing but its steps uses it.
- The difference of two `tv_sec` values in `ranks` is taken without 32-bit wrap-around, which is what makes it a total preorder.
- Protocols with several threads (timer service, message queue waiting, thread delegate) are state machines over values, since a class has no interleaving; the queue's and the container's locked regions are also given as classes.
- In the AGPS machine the subscriber list is a sequence field; the pointer structure is that of `LinkedLists`, whose comparison callbacks have no effects of their own.
- NULL list and queue handles, NULL queue out-pointers, and the two enumerations' different numbers: a method is called on an object, and one error type stands for both.
- Creation and destruction of lists and queues, and `LocThread`'s refusal to start twice.
- AGPS bearer, APN and retry data, BITSubscriber's IPv6 comparison, and mixed subscriber casts: a subscriber is its ID, whether it waits for close, and whether it is inactive.
- DSStateMachine and DSSubscriber: they depend on modem return codes and can stay in Released with a subscriber.
- GSV: the checksum's value, and the float cache kept for the position report. Rounding to int is done once on entry, and a value outside the 32-bit range, for which the C conversion is undefined, is excluded.
- Event masks are the sets of their 32 bits.
- Adapters' own behaviour, the calls passed on to them, and the messages' later handling: `open` and `close` are recorded.
- LocTimerWrapper and the C timer interface, loc_eng_ni, configuration, logging, properties, position sentences, lights and user interface: thin wrappers, scheduling assumptions or finite cases that add no harder property.

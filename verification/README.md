# Verification of three device cores

This Dafny project models three parts of the repository that carry real state, and
proves what they keep over whole runs, together with the small pieces under them
and three smaller protocols beside them.

**The timer service** (`gps/utils`). Client threads start, stop and destroy
timers; a poll thread waits on one kernel timer per container; a message thread
owns the heaps. `TimerSystem.dfy` is the whole service as a labelled step system:
every label is one atomic effect, the poll thread's `expire` is three of them, and
setting the kernel timer is two. Over every sequence of labels,
`TimerLifetime.dfy` proves that no delegate is touched after its deletion,
`TimerWakeup.dfy` that no wake-up is lost, `TimerAccounts.dfy` that starts, stops,
callbacks and lock references balance, `TimerStart.dfy` that every timer is what
its client asked for, `TimerHistory.dfy` what is ever sent to the message thread
about a delegate, and `TimerUpdate.dfy` when that thread makes kernel calls.
`ExpireLoop.dfy` says what one Expire message takes out of a heap, and
`TimerExpiry.dfy` that it does so in every interleaving; `TimerShortfalls.dfy` and
`TimerEarly.dfy` say when a container is armed late, stays armed, or fires early,
and `TimerRest.dfy` that no due timer waits for ever. The heap itself is a pointer
structure (`LocHeap.dfy`) proved against a tree (`HeapTree.dfy`,
`HeapBalance.dfy`); the container and the client objects (`LocTimerContainer.dfy`,
`LocTimer.dfy`) are proved against the steps of the protocol. Under them are the
doubly linked list (`LinkedList.dfy`) and the message queue (`MsgQueue.dfy`).

**The AGPS resource machine** (`gps/loc_api`). `Agps.dfy` is the machine as a
value, with a history of everything that went in and out; `AgpsMachine.dfy` is the
object, with its subscribers as objects on the linked list, and its methods are
proved to make exactly those transitions. `AgpsDiscipline.dfy`, `AgpsLedger.dfy`,
`AgpsNotice.dfy` and `AgpsTold.dfy` prove properties of every history,
`AgpsRetries.dfy`, `AgpsEmergency.dfy` and `AgpsUnsubscribe.dfy` of every history
of the emergency machine.

**The DTB image packer** (`dtbtool`). `DtbTool.dfy` has the sorted chip list and
the chips of a file, `DtbPacker.dfy` how a file is entered and the two passes,
`DtbImage.dfy` the image and an independent reader of it, `DtbScan.dfy` the scan
of a directory, and `DtbServe.dfy` the whole way from the input files to what the
reader finds.

Beside these: network-initiated requests (`NiSession.dfy`, `NiNumber.dfy` and
`NiDelivery.dfy`; the waiting loop of their threads in `NiThread.dfy`; the methods
in `LocEngNi.dfy`), the escaping of user-agent fields (`UriEncoding.dfy`), and the
paging and checksum of NMEA sentences (`NmeaPaging.dfy`, `NmeaChecksum.dfy`).

`dafny verify dfyconfig.toml` checks everything. The proofs are split into small
lemmas so that each stays cheap for the solver.

## Findings

Where the code does not do what one would expect of it, the model keeps the code,
and lemmas say exactly when the expectation holds, or show runs where it fails.

* A timer can fire early, by any number of seconds. Ranks compare whole seconds, and
  the first pop of an Expire message is unconditional:
  `ExpireLoop.EarlyExpiryExactly` and `ExpireLoop.ExpiresTheDueIffTopIsDue` give the
  exact conditions on the heap. Over runs, the top is due as long as the timer that
  the poll thread woke up for stays in the heap (`TimerEarly.TopStaysDue`);
  `TimerEarly.EarlyExpireHasACause` lists everything that can go before an early
  Expire, and `TimerEarly.EarlyAfterRemove`, `EarlyDuringUpdate`, `EarlyAfterEmpty`
  and `EarlyAfterExpire` are runs, one for each cause, that pop a live timer n
  seconds early. What an Expire pops is in every interleaving what the heap and the
  clock at its fetch say (`TimerExpiry.ExpireTakesExactly`), so the conditions on
  the heap hold over runs (`TimerExpiry.NoneIsEarlyExactly`); with a due top a timer
  can still be early by any whole number of milliseconds below a second
  (`TimerExpiry.EarlyWithinSecond`).
* For the same reason a container can be armed later than its earliest deadline: it
  is in time exactly if nothing in the second of its top comes before the top
  (`TimerShortfalls.ArmedInTimeExactly`). It is late by less than a second
  (`TimerWakeup.ArmedWithinOneSecond`), and `TimerShortfalls.ArmsLate` reaches any
  whole number of milliseconds below that.
* The branch of `updateSoonestTime` that leaves epoll and disarms the kernel timer
  is never reached: the callers pass NULL, or have just pushed
  (`TimerWakeup.DisarmBranchIsDead`). So only the poll thread ever disarms: any
  other step that empties a container, or takes place while it is empty, leaves its
  kernel timer as it was (`TimerShortfalls.EmptyContainerStaysArmed`). At rest a
  container whose last timer was stopped is still armed for it, and one whose last
  timer expired is not (`TimerShortfalls.EmptyEitherWay`).
* The heap's pruned search relies on the order:
  `HeapTree.RemoveMissesInUnorderedTree` is a tree without it where the search
  misses data that is there.
* In the base AGPS machine the direct UNSUBSCRIBE answer of the Released state
  cannot happen, because Released implies an empty list. The emergency machine,
  which an engine restart does not touch, is in Released with a subscriber exactly
  when a request made in Released was not answered with success, and none has
  succeeded since (`AgpsEmergency.StrandedExactly`). It answers every unsubscribe
  that finds its subscriber, in whatever state, at once, and leaves the subscriber
  on the list; the subscriber stays active there exactly if it made such a failed
  request itself (`AgpsUnsubscribes.EveryUnsubscribeIsAnswered`).
* After an engine restart a network-initiated request can be given the answer to an
  older one: the restart sets the response flag, and the waiting thread may finish
  only after the next request was admitted. `NiProtocol.AnswersAreTheUsersOwn` and
  `NiProtocol.UncleanRequestTakesOldAnswer` show that this happens exactly to
  requests admitted while that flag stands with an answer other than "no response";
  `NiProtocol.RestartLeavesAnOldAnswer` reaches such a state.
* Without any restart, a user's response can miss the request it was given to: when
  the thread of the request before clears the request number only after the new
  request was admitted, the new one's number is lost. A held request is reached by
  its own number exactly if no thread of its session has cleared since it was
  admitted (`NiNumbers.OwnNumberReachesExactly`); `NiNumbers.AcceptedButNotHeard` is
  a run in which a request that its user accepted ends without a response.
* The comment above the Remove message says that the kernel timer is updated when
  the removed timer is not the prior top; the code updates it when it is, or when
  the heap was empty. The model follows the code.
* `put_checksum` returns one less than the length of the whole sentence with its
  trailer, because it leaves out the dollar sign; and it returns that even when the
  trailer did not fit and was cut short.

## Model

| member | source | states |
|---|---|---|
| HeapTree.PushConserves | gps/utils/LocHeap.cpp:107-124 | a push adds exactly the new timer to the bag of timers held |
| HeapTree.PushTop | gps/utils/LocHeap.cpp:107-111 | the top changes only to a newcomer that outranks it |
| HeapTree.PushKeepsHeap | gps/utils/LocHeap.cpp:101-124 | a push keeps heap order and exact subtree sizes |
| HeapTree.PopConserves | gps/utils/LocHeap.cpp:126-164 | a pop takes out exactly the top |
| HeapTree.PopTop | gps/utils/LocHeap.cpp:134-164 | the next top is the left child's timer if its second is before the right one's, and otherwise the right child's |
| HeapTree.PopKeepsHeap | gps/utils/LocHeap.cpp:134-164 | a pop keeps heap order and exact sizes, although only data moves |
| HeapTree.TopIsMaximal | gps/utils/LocHeap.cpp:135-140 | nothing in an ordered tree outranks its top |
| HeapTree.RemoveFinds | gps/utils/LocHeap.cpp:166-193 | on an ordered tree the pruned search succeeds if and only if the timer is there |
| HeapTree.RemoveKeepsHeap | gps/utils/LocHeap.cpp:170-193 | a removal keeps heap order and exact sizes |
| HeapTree.RemoveKeepsOtherTop | gps/utils/LocHeap.cpp:170-193 | removing another timer leaves the top where it is |
| HeapTree.RemoveIsExact | gps/utils/LocHeap.cpp:166-193 | a removal takes out the given timer if it is present and otherwise changes nothing |
| HeapTree.RemoveMissesInUnorderedTree | gps/utils/LocHeap.cpp:176 | the skipped subtrees are safe only because of the order: a concrete tree where they are not |
| HeapTree.PeekIsBest | gps/utils/LocHeap.cpp:237-243 | peek shows a timer that no other outranks, and nothing exactly on an empty heap |
| HeapTree.DoRefinesBag | gps/utils/LocHeap.cpp:228-267 | each operation is the corresponding step of a bag |
| HeapTree.RunRefinesPriorityQueue | gps/utils/LocHeap.cpp:228-267 | over every run of pushes, pops and removals: a heap with exact sizes that refines a bag and always shows a best element |
| HeapBalance.PushOnlyIsBalanced | gps/utils/LocHeap.cpp:101-124 | after pushes alone every node is balanced, and n timers give height h with 2^(h-1) <= n < 2^h |
| HeapBalance.PushNeverUnbalances | gps/utils/LocHeap.cpp:113-122 | from any tree with exact sizes, a push leaves no node further out of balance than one or than before |
| LocHeapClasses.LocHeapNode.Push | gps/utils/LocHeap.cpp:107-124 | the pointer tree becomes the pushed tree, and owns the new node besides its own |
| LocHeapClasses.LocHeapNode.Pop | gps/utils/LocHeap.cpp:134-164 | the detached leaf carries the old top, and the reference given holds the popped tree |
| LocHeapClasses.LocHeapNode.Remove | gps/utils/LocHeap.cpp:170-193 | the node found carries the given data, and the reference holds the tree without it; otherwise nothing changed |
| LocHeapClasses.LocHeapNode.CheckNodes | gps/utils/LocHeap.cpp:195-220 | the consistency check accepts a tree if and only if it is ordered with exact sizes |
| LocHeapClasses.LocHeap.Push | gps/utils/LocHeap.cpp:228-235 | the wrapper pushes into an empty or a non-empty tree |
| LocHeapClasses.LocHeap.Peek | gps/utils/LocHeap.cpp:237-243 | the top, or nothing |
| LocHeapClasses.LocHeap.Pop | gps/utils/LocHeap.cpp:245-254 | the old top, and the popped tree |
| LocHeapClasses.LocHeap.Remove | gps/utils/LocHeap.cpp:256-267 | the given data if it was found, and the tree without it |
| LinkedLists.FirstMatchIs | gps/utils/linked_list.cpp:293-326 | the scan stops at the first element that matches, or at the end |
| LinkedLists.LinkedList.LinksAreMutual | gps/utils/linked_list.cpp:112-329 | next and prev are inverse, and head and tail are null together |
| LinkedLists.LinkedList.Add | gps/utils/linked_list.cpp:112-157 | the new element is first, the rest keep their order |
| LinkedLists.LinkedList.Remove | gps/utils/linked_list.cpp:164-206 | the last element comes out; an empty list reports an unavailable resource |
| LinkedLists.OwnedSnoc | gps/utils/linked_list.cpp:232-262 | what is freed is the data that came with a dealloc function, in list order |
| LinkedLists.LinkedList.Flush | gps/utils/linked_list.cpp:232-262 | the list is empty, and exactly the data with a dealloc function was freed, in order |
| LinkedLists.LinkedList.Search | gps/utils/linked_list.cpp:269-329 | only the first match is removed, the rest keep their order, and its data is copied out or freed, never both |
| MsgQueueProtocol.DeliveryIsFifo | gps/utils/msg_q.cpp:187-271 | in every interleaving without a flush, received followed by queued equals accepted, in order |
| MsgQueueProtocol.NothingIsLostOrDuplicated | gps/utils/msg_q.cpp:187-299 | with flushes, every accepted message is received, queued or dropped, exactly once |
| MsgQueueProtocol.UnblockShutsTheQueue | gps/utils/msg_q.cpp:308-338 | after an unblock nothing is accepted, and each thread already inside receive gets at most one message |
| MsgQueueProtocol.AcceptedIsSent | gps/utils/msg_q.cpp:187-221 | over every run, what is accepted is exactly what was sent before the first unblock, in order |
| MsgQueueProtocol.QueueIsWhatIsLeft | gps/utils/msg_q.cpp:187-300 | over every run, flushes included, the queue is what was sent without as many of the oldest as have left it |
| MsgQueueProtocol.CallsBalance | gps/utils/msg_q.cpp:230-271 | over every run, who came to receive has a message or is waiting, until the queue is unblocked |
| MsgQueueProtocol.WakeDelivers | gps/utils/msg_q.cpp:258-271 | after every run, a waiting thread that wakes up gets the oldest message that is left, leaves without one after an unblock, and otherwise waits on |
| MsgQueueProtocol.FlushStartsAfresh | gps/utils/msg_q.cpp:278-300 | a flush drops what is left, and from then on what is received and queued is what is sent |
| MsgQueues.OldestIsLast | gps/utils/msg_q.cpp:213-264 | adding at the head and removing at the tail takes the oldest message |
| MsgQueues.MsgQueue.Send | gps/utils/msg_q.cpp:187-221 | the send step, with its error codes |
| MsgQueues.MsgQueue.ReceiveCall | gps/utils/msg_q.cpp:230-257 | the check for an unblocked queue on entry |
| MsgQueues.MsgQueue.ReceiveWake | gps/utils/msg_q.cpp:258-271 | the step after the wait: the oldest message, or the error of an empty list |
| MsgQueues.MsgQueue.Flush | gps/utils/msg_q.cpp:278-300 | everything queued is dropped |
| MsgQueues.MsgQueue.Unblock | gps/utils/msg_q.cpp:308-338 | the first unblock shuts the queue; another reports an unavailable resource |
| TimerLifetime.NoUseAfterDelete | gps/utils/LocTimer.cpp:310-350 | over every run and next step, every delegate whose memory the step touches is allocated; that includes the new top, whose time is read between the two kernel calls of an update |
| TimerLifetime.DeletionIsSafe | gps/utils/LocTimer.cpp:334-346 | at a deletion the delegate is allocated, and neither a heap, a client, the queue nor a running step refers to it |
| TimerLifetime.StoppedIsDeletedSoon | gps/utils/LocTimer.cpp:482-497 | a stopped delegate is never left behind: its Remove is queued or being processed |
| TimerLifetime.PendingIsNotLost | gps/utils/LocTimer.cpp:310-325 | a pending timer is on its way into its heap, in it, or popped and about to expire |
| TimerLifetime.StepKeepsLife | gps/utils/LocTimer.cpp:310-381 | every step of every thread keeps the lifetime invariant: in the queue at most one Push and one later Remove per delegate, and what every object, heap, client and running step refers to is there |
| TimerHistory.OnePushAndOneRemove | gps/utils/LocTimer.cpp:475-501 | over every run, of everything ever sent: one Push for every delegate, one Remove exactly for those that nobody waits for any more, the Push first and both for the same container and time |
| TimerHistory.MessagesAreFifo | gps/utils/LocTimer.cpp:310-381 | over every run the message thread gets what was sent, in the order in which it was sent, each message once |
| TimerWakeup.NoLostWakeup | gps/utils/LocTimer.cpp:281-381 | in every interleaving a non-empty container is polled and armed at exactly its top's time, or an Expire is coming, or the message thread is at work on it |
| TimerWakeup.DueTopWakesThePoll | gps/utils/LocTimer.cpp:446-470 | once the threads are at rest, a due top makes epoll_wait report its container |
| TimerWakeup.DisarmBranchIsDead | gps/utils/LocTimer.cpp:289-294 | the disarming branch is never taken in any run |
| TimerWakeup.FutureTimeIsExact | gps/utils/LocTimer.cpp:545-553 | the deadline is normalised and exactly the given milliseconds from now |
| TimerWakeup.ArmedWithinOneSecond | gps/utils/LocTimer.cpp:503-512 | the armed time is less than a second after any deadline in the heap |
| TimerShortfalls.ArmedInTimeExactly | gps/utils/LocTimer.cpp:503-512 | over every run, an armed container is in time for all that it holds if and only if nothing in its top's second comes before the top |
| TimerShortfalls.ArmsLate | gps/utils/LocTimer.cpp:503-512 | runs at rest where the container is armed late by any whole number of milliseconds below a second |
| TimerShortfalls.EmptyContainerStaysArmed | gps/utils/LocTimer.cpp:281-306 | over every run, a step outside the poll thread that empties a container, or finds it empty, leaves its kernel timer as it was |
| TimerShortfalls.EmptyEitherWay | gps/utils/LocTimer.cpp:334-380 | an empty container at rest: still armed after a stop, disarmed after an expiry |
| TimerShortfalls.PollSends | gps/utils/LocTimer.cpp:377-380 | the three effects of the poll thread: the container is disarmed, leaves epoll, and an Expire for it is sent |
| TimerEarly.TakenOutByMessages | gps/utils/LocTimer.cpp:334-374 | a timer leaves its heap only by its own Remove, or by the pops of an Expire for its container |
| TimerEarly.TopStaysDue | gps/utils/LocTimer.cpp:446-470 | from a wake-up on, whatever else happens, the top is due as long as the timer that was woken for stays in the heap |
| TimerEarly.EarlyExpireHasACause | gps/utils/LocTimer.cpp:360-390 | when the top is not due after a wake-up: the container was empty then, or had an Expire queued, or the message thread was at work on it, or the timer that was woken for has been removed or popped since |
| TimerEarly.PoppedCallsBack | gps/utils/LocTimer.cpp:514-527 | a live timer that has been popped is called back by the next two steps, however early it is |
| TimerEarly.EarlyAfterRemove | gps/utils/LocTimer.cpp:360-390 | a run: the timer that was woken for is stopped meanwhile, and the next one is popped n seconds early |
| TimerEarly.EarlyDuringUpdate | gps/utils/LocTimer.cpp:281-306 | a run: the kernel timer of a removed top runs out before it is set anew, with the same effect |
| TimerEarly.EarlyAfterEmpty | gps/utils/LocTimer.cpp:281-306 | a run: the kernel timer left behind in an empty container runs out, with the same effect |
| TimerEarly.EarlyAfterExpire | gps/utils/LocTimer.cpp:360-390 | a run: a push re-arms a container that already has an Expire on its way, and the second Expire has the same effect |
| TimerExpiry.ExpireTakesExactly | gps/utils/LocTimer.cpp:360-374 | over every run and whatever other threads do meanwhile, an Expire pops exactly what its heap and clock at the fetch say, in that order, and leaves the rest |
| TimerExpiry.NoneIsEarlyExactly | gps/utils/LocTimer.cpp:360-390 | over every run, none of the timers an Expire pops is early exactly if its top is not and no timer of the present second is still to come |
| TimerExpiry.EarlyWithinSecond | gps/utils/LocTimer.cpp:383-390 | runs with a due top that pop another timer early by any whole number of milliseconds below a second |
| TimerRest.RestIsReached | gps/utils/LocTimer.cpp:310-470 | from every run the message and the poll thread come to rest by their own steps |
| TimerRest.ThreadsEndAtRest | gps/utils/LocTimer.cpp:310-470 | in whatever order they take their steps, once neither can go on they are at rest, and that is within a number of steps fixed beforehand |
| TimerRest.DueTimerLeavesTheHeap | gps/utils/LocTimer.cpp:310-470 | from every run, a held timer whose second is over leaves its heap by steps of the two threads alone |
| TimerAccounts.LockIsFreedLast | gps/utils/LocSharedLock.h:48-52 | over every run the lock's count is the living client plus its undeleted delegates, and it is freed exactly when, and only once, none of them is left |
| TimerAccounts.StartsBalance | gps/utils/LocTimer.cpp:514-575 | successful starts are successful stops plus a pending timer; callbacks never exceed the stops made by expiry |
| TimerStarts.TimersComeFromStarts | gps/utils/LocTimer.cpp:231-250 | over every run, every delegate in a heap, a message or a pop comes from a start of its owner, for the alarm clock's container exactly if that start asked for it |
| TimerStarts.ObjectsComeFromStarts | gps/utils/LocTimer.cpp:542-560 | over every run, every delegate that exists is due exactly the milliseconds of its start after it |
| TimerStarts.StartSendsPush | gps/utils/LocTimer.cpp:475-482 | after every run, a start sends one Push for a new delegate, to the container and for the time it asks for, or does nothing if a timer is pending |
| TimerStarts.StopSendsRemove | gps/utils/LocTimer.cpp:484-501 | after every run, a stop sends one Remove for the client's own timer, where it was pushed, or does nothing |
| TimerStarts.DestroyIsAStop | gps/utils/LocTimer.cpp:534-540 | after every run, a destruction sends what a stop sends, and the client is gone |
| TimerStarts.ExpiryCallsTheStarter | gps/utils/LocTimer.cpp:514-527 | over every run, a popped timer calls back the client that started it and nobody else, and one that was stopped calls nobody |
| TimerUpdates.PushArmsExactly | gps/utils/LocTimer.cpp:317-321 | over every run, a Push leads to kernel calls exactly if the container was empty or the new timer's second is before the top's, and for the new timer |
| TimerUpdates.RemoveArmsExactly | gps/utils/LocTimer.cpp:334-343 | over every run, a Remove leads to kernel calls exactly if it takes the top and leaves something, and for the new top |
| TimerUpdates.ScanArmsExactly | gps/utils/LocTimer.cpp:360-374 | over every run, the end of an Expire leads to kernel calls exactly if something is left, and for its top |
| ExpireLoop.ExpireConserves | gps/utils/LocTimer.cpp:367-373 | expired plus remaining timers are the old heap, and the rest is still a heap |
| ExpireLoop.ExpireIsOrdered | gps/utils/LocTimer.cpp:363-369 | timers expire in the order of their seconds, and no due timer stays behind |
| ExpireLoop.ExpiresTheDueIffTopIsDue | gps/utils/LocTimer.cpp:360-374 | exactly the due timers expire if and only if the top is due; otherwise the top alone |
| ExpireLoop.EarlyExpiryExactly | gps/utils/LocTimer.cpp:383-390 | in nanoseconds, when no expiry is early, and by how little one can be once the top is due |
| LocTimerContainers.UpdateRunsToUpdated | gps/utils/LocTimer.cpp:281-306 | the two kernel calls of the protocol add up to what the method does |
| LocTimerContainers.LocTimerContainer.UpdateSoonestTime | gps/utils/LocTimer.cpp:281-306 | what is polled and armed afterwards, for every prior top |
| LocTimerContainers.LocTimerContainer.ProcPush | gps/utils/LocTimer.cpp:317-321 | heap and kernel state after a Push message |
| LocTimerContainers.LocTimerContainer.ProcRemove | gps/utils/LocTimer.cpp:334-343 | heap and kernel state after a Remove message |
| LocTimerContainers.LocTimerContainer.PopIfOutRanks | gps/utils/LocTimer.cpp:383-390 | pops exactly unless now outranks the top |
| LocTimerContainers.LocTimerContainer.ProcExpire | gps/utils/LocTimer.cpp:360-374 | the loop expires the specified timers in the specified order and leaves the specified heap, armed for its top |
| LocTimerContainers.LocTimerContainer.Expire | gps/utils/LocTimer.cpp:377-380 | the poll thread disarms, leaves epoll and sends |
| LocTimers.LocSharedLock.Share | gps/utils/LocSharedLock.h:50 | one more reference |
| LocTimers.LocSharedLock.Drop | gps/utils/LocSharedLock.h:52 | one less, and deletion exactly by the last |
| LocTimers.LocTimerDelegate.constructor | gps/utils/LocTimer.cpp:475-482 | the delegate shares the client's lock and sends its Push |
| LocTimers.LocTimerDelegate.DestroyLocked | gps/utils/LocTimer.cpp:484-501 | client and container are let go, and one Remove is sent if there was a container |
| LocTimers.LocTimer.Start | gps/utils/LocTimer.cpp:542-560 | the objects carry out the protocol's start step; success exactly when no timer was pending |
| LocTimers.LocTimer.Stop | gps/utils/LocTimer.cpp:562-575 | the objects carry out the stop step; success exactly when a timer was pending |
| LocTimers.LocTimer.Destroy | gps/utils/LocTimer.cpp:534-540 | stop and drop make up the destroy step |
| LocTimers.LocTimer.Expire | gps/utils/LocTimer.cpp:514-527 | a popped delegate stops its client and calls it back once; one that was let go does nothing |
| AgpsLedger.MatchedIn | gps/loc_api/libloc_api_50001/loc_eng_agps.cpp:94-105 | the addressed subscribers are exactly those the notification is for, the rest exactly the others |
| AgpsLedger.NoticesAre | gps/loc_api/libloc_api_50001/loc_eng_agps.cpp:715-736 | every addressed subscriber is notified once, in order, and nobody else |
| AgpsMachines.NotifyFirst | gps/loc_api/libloc_api_50001/loc_eng_agps.cpp:715-736 | notifying and deleting the first match and then the rest is notifying and deleting all matches |
| AgpsMachines.AgpsStateMachine.SearchAndRemove | gps/loc_api/libloc_api_50001/loc_eng_agps.cpp:715-736 | the list's search unlinks the first subscriber that is meant and hands it over; the others stay as they were |
| AgpsMachines.AgpsStateMachine.NotifyAndDelete | gps/loc_api/libloc_api_50001/loc_eng_agps.cpp:715-736 | the repeated search-and-remove on the linked list ends, with exactly the addressed subscribers notified and gone |
| AgpsMachines.AgpsStateMachine.NotifyInPlace | gps/loc_api/libloc_api_50001/loc_eng_agps.cpp:69-81 | without deletion one pass notifies exactly the addressed subscribers |
| AgpsMachines.AgpsStateMachine.AddSubscriber | gps/loc_api/libloc_api_50001/loc_eng_agps.cpp:738-748 | an active copy joins at the head unless an equal one is listed, which is not revived |
| AgpsMachines.AgpsStateMachine.SendRsrcRequest | gps/loc_api/libloc_api_50001/loc_eng_agps.cpp:750-777 | the guarded request of the base machine, and the emergency machine's reaction to each answer |
| AgpsMachines.AgpsStateMachine.SubscribeEvent | gps/loc_api/libloc_api_50001/loc_eng_agps.cpp:258-545 | what a subscribe does in each of the four states |
| AgpsMachines.AgpsStateMachine.UnsubscribeEvent | gps/loc_api/libloc_api_50001/loc_eng_agps.cpp:258-579 | what an unsubscribe does in each of the four states; an emergency subscriber that is set inactive is told so at once |
| AgpsMachines.AgpsStateMachine.SetInactive | gps/loc_api/libloc_api_50001/loc_eng_agps.cpp:234-238 | the listed object becomes inactive, and the emergency machine answers its unsubscribe |
| AgpsMachines.AgpsStateMachine.StateEvent | gps/loc_api/libloc_api_50001/loc_eng_agps.cpp:325-579 | what a grant, denial or release does in each of the four states |
| AgpsMachines.AgpsStateMachine.SubscribeRsrc | gps/loc_api/libloc_api_50001/loc_eng_agps.cpp:779-787 | a machine for a single subscriber refuses another |
| AgpsMachines.AgpsStateMachine.UnsubscribeRsrc | gps/loc_api/libloc_api_50001/loc_eng_agps.cpp:789-801 | only a listed subscriber is unsubscribed |
| AgpsMachines.AgpsStateMachine.OnRsrcEvent | gps/loc_api/libloc_api_50001/loc_eng_agps.cpp:913-944 | the emergency machine repeats a release that changed nothing as a denial |
| AgpsMachines.AgpsStateMachine.DropAllSubscribers | gps/loc_api/libloc_api_50001/loc_eng_agps.h:242-245 | an engine restart empties the list and leaves the state; it reaches neither the emergency nor the Wi-Fi machine |
| AgpsDiscipline.DoInStep | gps/loc_api/libloc_api_50001/loc_eng_agps.cpp:258-579 | every call keeps state, list and history in step |
| AgpsDiscipline.ServiceIsAskedInTurn | gps/loc_api/libloc_api_50001/loc_eng_agps.cpp:258-801 | over every run, restarts included: each RELEASE has a REQUEST of its own before it, two REQUESTs have a RELEASE or a DENIED or RELEASED event between them, the send guard never holds anything back, and Released implies an empty list |
| AgpsLedger.EveryDepartureIsNotifiedOnce | gps/loc_api/libloc_api_50001/loc_eng_agps.cpp:325-579 | over every run each subscriber is listed at most once, and every departure goes with exactly one last notification or a drop |
| AgpsLedger.AcquiredMeansGranted | gps/loc_api/libloc_api_50001/loc_eng_agps.cpp:421-510 | in Acquired every active subscriber has been granted the resource, and has not left since (who comes in Acquired is granted it just before it joins) |
| AgpsLedger.StatesAreWanted | gps/loc_api/libloc_api_50001/loc_eng_agps.cpp:325-579 | without restarts Pending and Acquired have an active subscriber, and Releasing an inactive one |
| AgpsNotices.NoticesMeanWhatTheySay | gps/loc_api/libloc_api_50001/loc_eng_agps.cpp:258-579 | at every position of every history: a grant is told only while the resource is granted, a denial only upon a DENIED that ended a request or a release, a release only upon a RELEASED that ended a grant or a release; the service is asked only for what is free; and the state is the one that the history gives, so every other event is ignored |
| AgpsNotices.NobodyLeavesWhileGranted | gps/loc_api/libloc_api_50001/loc_eng_agps.cpp:421-510 | over every run, from a grant until the resource is released nobody leaves but by its own unsubscribe or a restart |
| AgpsTold.EventTellsExactly | gps/loc_api/libloc_api_50001/loc_eng_agps.cpp:325-579 | over every run, by the history: whom a grant, a denial or a release tells, who leaves by it, what is asked of the service, and the next state |
| AgpsTold.SubscribeJoinsExactly | gps/loc_api/libloc_api_50001/loc_eng_agps.cpp:258-801 | over every run: who is refused, that anybody else is listed first from then on, is granted at once exactly if the resource is granted, and nobody else is touched |
| AgpsTold.UnsubscribeLeavesExactly | gps/loc_api/libloc_api_50001/loc_eng_agps.cpp:258-801 | over every run: who waits for the close stays inactive and untold, anybody else is told and leaves, nobody else is touched, and the service is released exactly if nobody active is left |
| AgpsTold.RestartDropsAll | gps/loc_api/libloc_api_50001/loc_eng_agps.h:242-245 | over every run, a restart drops everybody once, in silence, and leaves the state |
| AgpsRetries.RetriesAreBounded | gps/loc_api/libloc_api_50001/loc_eng_agps.cpp:852-911 | over every run of the emergency machine: at most four retries between calls, and at most five busy answers in any stretch between resets |
| AgpsRetries.FifthBusyFallsBack | gps/loc_api/libloc_api_50001/loc_eng_agps.cpp:877-891 | over every run and at every busy answer of its history: a fallback to the ordinary machine follows if and only if it is the fifth since the last reset |
| AgpsRetries.AnswersAreHandled | gps/loc_api/libloc_api_50001/loc_eng_agps.cpp:852-911 | what each answer leaves in the history: a fallback of the first active subscriber exactly for an unsupported, a failed or the fifth busy request |
| AgpsRetries.HandleIsFirstActive | gps/loc_api/libloc_api_50001/loc_eng_agps.cpp:824-836 | the fallback is for the first subscriber that is active |
| AgpsEmergency.CallStrandsExactly | gps/loc_api/libloc_api_50001/loc_eng_agps.cpp:258-305 | from any state, which calls leave the emergency machine in Released with somebody on its list |
| AgpsEmergency.StrandedExactly | gps/loc_api/libloc_api_50001/loc_eng_agps.cpp:852-911 | over every run, that is so exactly when a request made in Released was not answered with success, with no success since; an engine restart changes nothing |
| AgpsEmergency.FoundInReleasedExactly | gps/loc_api/libloc_api_50001/loc_eng_agps.cpp:789-801 | over every run, an unsubscribe finds its subscriber listed in Released exactly if that subscriber made such a request |
| AgpsUnsubscribes.AnsweredFirst | gps/loc_api/libloc_api_50001/loc_eng_agps.cpp:234-238 | in every state an unsubscribe that finds its subscriber is answered before anything else happens |
| AgpsUnsubscribes.EveryUnsubscribeIsAnswered | gps/loc_api/libloc_api_50001/loc_eng_agps.cpp:234-305 | over every run: it is answered at once and stays on the list, active and with no other effect exactly if its own request failed in Released, else inactive; one that finds nobody changes nothing |
| AgpsEmergency.ReleasedGoesToEverybody | gps/loc_api/libloc_api_50001/loc_eng_agps.cpp:913-944 | what a RELEASED does to everybody listed, from each state: Pending and Acquired lose all of them, Releasing the inactive ones, Released none; the base machine ignores it while Pending |
| DtbTools.ChipList.ChipAdd | dtbtool/dtbtool.c:168-216 | a chip is inserted exactly if no equal one is listed, and the list stays well linked and strictly sorted |
| DtbTools.ChipList.InsertBefore | dtbtool/dtbtool.c:187-199 | relinking puts the chip in its place and moves no other |
| DtbTools.FileKeysAreTheProduct | dtbtool/dtbtool.c:456-488 | a file's chips are exactly all pairs of its IDs and boards, led by the first pair |
| DtbTools.HeadFirstOrder | dtbtool/dtbtool.c:465-471 | the first chip leads, the others follow from the last to the second |
| DtbTools.LessMeans | dtbtool/dtbtool.c:180-186 | chips are in the order of the first of chipset, platform, subtype and revision in which they differ |
| DtbTools.GetPairs | dtbtool/dtbtool.c:456-488 | the nested loops list those pairs |
| DtbTools.ChainOf | dtbtool/dtbtool.c:456-488 | the chips of a file: one for each key, in the order in which the source links them, each with the first as its master |
| DtbTools.LinkAfterHead | dtbtool/dtbtool.c:465-471 | every later element is linked in right after the head |
| DtbPackers.DtbPacker.AddFile | dtbtool/dtbtool.c:639-694 | a file that is empty or whose first chip is listed contributes nothing; of any other all chips are listed, and the first is master with its file and padded size; every listed chip's master is listed with its file |
| DtbPackers.DtbPacker.AddAdditional | dtbtool/dtbtool.c:685-693 | a further chip joins unless an equal one is listed |
| DtbPackers.IndexStep | dtbtool/dtbtool.c:743-756 | one index entry: a master met before keeps its offset, a new one gets the next |
| DtbPackers.DtbPacker.WriteIndex | dtbtool/dtbtool.c:726-756 | the first pass writes the table of the layout and ends at its total size |
| DtbPackers.DtbPacker.WriteBlobs | dtbtool/dtbtool.c:763-797 | the second pass succeeds exactly if every master's file still has its padded size, and then writes each once in the order of the index |
| DtbPackers.DtbPacker.ReadBlob | dtbtool/dtbtool.c:774-797 | a file is taken, padded, exactly if it is there with the scanned size |
| DtbPackers.CopyFile | dtbtool/dtbtool.c:776-780 | copying in blocks copies everything |
| DtbPackers.DtbPacker.WriteImage | dtbtool/dtbtool.c:699-810 | the two passes agree: an image comes out exactly if some chip is listed and no listed chip's file has gone or changed its padded size, and it is the specified one; the written and expected sizes never differ |
| DtbPackers.DtbPacker.ImageServesEveryChip | dtbtool/dtbtool.c:720-797 | a reader finds each listed chip in its entry, and at the entry's offset and size its master's file with zeros up to a page end |
| DtbScans.ScanFile | dtbtool/dtbtool.c:639-694 | one file: afterwards the packer's list is what the listing says, with every master's file and padded size |
| DtbScans.Scan | dtbtool/dtbtool.c:607-697 | the loop over the directory builds exactly the listing of its files |
| DtbScans.KeysAreNamed | dtbtool/dtbtool.c:330-488 | the chips of a file are exactly those that it names: in the older version each triple of chipset, platform and revision without a subtype, in the newer each ID with each board; and which one stands for the file |
| DtbScans.ListedMeans | dtbtool/dtbtool.c:639-694 | a chip is listed exactly if some file names it that has data and whose first chip was not yet listed |
| DtbScans.FirstOfferIsServed | dtbtool/dtbtool.c:671-694 | and it is served from the first such file |
| DtbServes.ListingIsServed | dtbtool/dtbtool.c:720-797 | the reader finds exactly the listed chips, strictly sorted, each with the padded file that it is served from; the regions start on pages past the index, and those of different files do not overlap |
| DtbServes.FilesAreStoredOnce | dtbtool/dtbtool.c:743-797 | chips that are served from one file share one region, if no file comes twice |
| DtbServes.PackDtbs | dtbtool/dtbtool.c:570-810 | from input files to reader: an image comes out exactly if something is listed and every file that is served can be read with its size, and it then serves exactly the listing |
| DtbServes.ListedFromFiles | dtbtool/dtbtool.c:671-683 | every listed chip is served from a file of the directory that has content, padded past its end to the end of a page |
| DtbServes.UnchangedFilesRead | dtbtool/dtbtool.c:774-797 | as long as the files are as they were scanned, all that are needed can be read |
| DtbImage.ImageReadsBack | dtbtool/dtbtool.c:720-797 | for every layout the reader gets back the count, every chip, and exactly the stored bytes |
| DtbImage.BlobsAreAlignedAndDisjoint | dtbtool/dtbtool.c:726-756 | offsets are on pages past the index, entries with one master share a region, and regions of different masters do not overlap |
| DtbImage.PaddedEndsOnPage | dtbtool/dtbtool.c:682-683 | a padded size is a whole number of pages |
| DtbImage.MarkReadsBack | dtbtool/dtbtool.c:720-760 | an image begins with its mark and version, and only zeros lie between its entries and its blobs |
| NiProtocol.EveryRequestIsDisposedOfOnce | gps/loc_api/libloc_api_50001/loc_eng_ni.cpp:112-307 | over every run, restarts included: requests that arrived are those rejected, reset, ignored, answered or held, each once |
| NiProtocol.AdmittedRequestsEndOnce | gps/loc_api/libloc_api_50001/loc_eng_ni.cpp:202-268 | an admitted request has at most one fate, none while held, and a thread that can always end it |
| NiProtocol.AdmittedExactly | gps/loc_api/libloc_api_50001/loc_eng_ni.cpp:112-195 | which requests are admitted, by those that are held: an ordinary one does not keep an emergency one out |
| NiProtocol.AnswersAreTheUsersOwn | gps/loc_api/libloc_api_50001/loc_eng_ni.cpp:202-414 | a cleanly admitted request ends in its own user's answer, no response, or an ignore by its user or for an accepted emergency request |
| NiProtocol.CausedMeans | gps/loc_api/libloc_api_50001/loc_eng_ni.cpp:372-414 | an answer said to be given to a request was given at some step of the run, by a response that reached it or by an accepted emergency request |
| NiProtocol.ResponsesCarryTheNumber | gps/loc_api/libloc_api_50001/loc_eng_ni.cpp:385-402 | a response reaches a request only with its number, or with 0 once that was cleared |
| NiProtocol.WithoutRestartAllIsClean | gps/loc_api/libloc_api_50001/loc_eng_ni.cpp:112-268 | without engine restarts every admission is clean |
| NiProtocol.UncleanRequestTakesOldAnswer | gps/loc_api/libloc_api_50001/loc_eng_ni.cpp:202-307 | a request admitted uncleanly, after any run, can at once be given an answer that nobody gave it |
| NiProtocol.RestartLeavesAnOldAnswer | gps/loc_api/libloc_api_50001/loc_eng_ni.cpp:271-307 | a run whose restart leaves a session unclean |
| NiNumbers.OwnNumberReachesExactly | gps/loc_api/libloc_api_50001/loc_eng_ni.cpp:259-260 | over every run, a response with a held request's own number reaches it if and only if no thread of the session has cleared since the admission, and otherwise changes nothing |
| NiNumbers.AcceptedButNotHeard | gps/loc_api/libloc_api_50001/loc_eng_ni.cpp:202-268 | a run without restart in which a request that its user accepted ends with no response |
| NiDeliveries.ResponsesAreDelivered | gps/loc_api/libloc_api_50001/loc_eng_ni.cpp:372-414 | over every run, a response that reaches a request can be taken at once, and still after anything but another response to it, an accepted emergency request, a restart or a timeout; the request then ends with exactly that response |
| NiDeliveries.AcceptedEmergencyIgnoresOther | gps/loc_api/libloc_api_50001/loc_eng_ni.cpp:389-400 | over every run, when an emergency request is accepted, the ordinary one that is held ends ignored |
| NiDeliveries.UnreachedChangesNothing | gps/loc_api/libloc_api_50001/loc_eng_ni.cpp:404-413 | a response that reaches no request changes nothing |
| NiDeliveries.RestartFreesAll | gps/loc_api/libloc_api_50001/loc_eng_ni.cpp:271-307 | a restart frees all that is held without an answer, and lets the waiting threads go |
| NiDeliveries.ThreadsBalance | gps/loc_api/libloc_api_50001/loc_eng_ni.cpp:112-268 | over every run, each admission starts a thread, which waits, is about to clear, or has ended |
| LocEngNis.LocEngNi.RequestHandler | gps/loc_api/libloc_api_50001/loc_eng_ni.cpp:112-195 | which requests are rejected, and what admission sets |
| LocEngNis.LocEngNi.Respond | gps/loc_api/libloc_api_50001/loc_eng_ni.cpp:372-414 | which session a response reaches, and the ignore for an accepted emergency request |
| LocEngNis.LocEngNi.ResetOnEngineRestart | gps/loc_api/libloc_api_50001/loc_eng_ni.cpp:271-307 | held requests are freed and their threads woken |
| LocEngNis.LocEngNi.ThreadFinish | gps/loc_api/libloc_api_50001/loc_eng_ni.cpp:213-257 | the work of a waiting thread up to its unlock |
| LocEngNis.LocEngNi.ThreadClear | gps/loc_api/libloc_api_50001/loc_eng_ni.cpp:259-260 | the thread clears the request ID afterwards |
| NiThreads.ThreadIsARun | gps/loc_api/libloc_api_50001/loc_eng_ni.cpp:202-257 | the waiting loop, with everything other threads do meanwhile, is a run of the protocol, after any run that left the thread waiting |
| NiThreads.ThreadEnds | gps/loc_api/libloc_api_50001/loc_eng_ni.cpp:217-228 | the loop ends with the thread's own wake-up or timeout, and until then the thread waits with the flag down |
| LocEngNis.LocEngNi.ThreadProc | gps/loc_api/libloc_api_50001/loc_eng_ni.cpp:202-260 | the thread's loop does what that run says, and finishes exactly when the flag is up or a wait times out |
| UriEncoding.EncodeRoundTrip | gps/loc_api/libloc_api_50001/LocEngAdapter.cpp:206-251 | percent-decoding (section 2.1 of RFC 3986) undoes the encoding of any string |
| UriEncoding.EncodedIsEscaped | gps/loc_api/libloc_api_50001/LocEngAdapter.cpp:206-220 | no separator is left, and every percent sign starts one of the four codes |
| UriEncoding.FitLength | gps/loc_api/libloc_api_50001/LocEngAdapter.cpp:223-244 | the longest prefix whose encoding fits, with an end mark, into the given size |
| UriEncoding.EncodeInto | gps/loc_api/libloc_api_50001/LocEngAdapter.cpp:222-244 | the loop encodes exactly that prefix and never cuts a code |
| UriEncoding.EncodeInPlace | gps/loc_api/libloc_api_50001/LocEngAdapter.cpp:210-251 | the text is replaced by that encoding and an end mark, and nothing after it changes |
| UriEncoding.EncodedTextReadsBack | gps/loc_api/libloc_api_50001/LocEngAdapter.cpp:206-251 | what is left decodes to exactly that prefix, the whole text if and only if its encoding fits |
| NmeaPaging.PagesCoverTheView | gps/loc_api/libloc_api_50001/loc_eng_nmea.cpp:641-711 | read in order, the numbered sentences show every satellite in view once; none is empty, and only the last is short |
| NmeaPaging.InViewKeepsTo | gps/loc_api/libloc_api_50001/loc_eng_nmea.cpp:622-634 | a constellation's view holds exactly the reported satellites in its range |
| NmeaPaging.CountSvs | gps/loc_api/libloc_api_50001/loc_eng_nmea.cpp:622-634 | the counts are the sizes of the two views |
| NmeaPaging.GenerateSentences | gps/loc_api/libloc_api_50001/loc_eng_nmea.cpp:641-711 | the nested loops produce those pages, or one blank sentence |
| NmeaPaging.GenerateSv | gps/loc_api/libloc_api_50001/loc_eng_nmea.cpp:622-783 | first the GPS sentences, then the GLONASS ones |
| NmeaChecksum.TrailerIsAccepted | gps/loc_api/libloc_api_50001/loc_eng_nmea.cpp:84-98 | a receiver, who takes only the digits 0 to 9 and A to F, accepts every sentence that is given its trailer |
| NmeaChecksum.ChecksumSplits | gps/loc_api/libloc_api_50001/loc_eng_nmea.cpp:90-94 | the checksum of two parts is the exclusive or of theirs |
| NmeaChecksum.OneWrongByteIsNoticed | gps/loc_api/libloc_api_50001/loc_eng_nmea.cpp:90-94 | and rejects it after any change of one byte |
| NmeaChecksum.CutTrailerIsRefused | gps/loc_api/libloc_api_50001/loc_eng_nmea.cpp:96 | and rejects it when the trailer was cut short |
| NmeaChecksum.PutChecksum | gps/loc_api/libloc_api_50001/loc_eng_nmea.cpp:84-98 | the trailer is appended whole exactly if there is room for it, and the returned length leaves out the dollar sign |

## Left out

- Kernel and library calls (timerfd, epoll, mutexes, condition variables, threads, files, directories) are steps on abstract state; allocation, full writes and thread creation are taken to succeed.
- A delegate's identity is its number, and numbers are never used again; reuse of a freed address is not modelled.
- Comparing ranks is a subtraction of machine integers in the source and of unbounded ones here.
- TimerSystem.MsgEffect: an expiring delegate's read of its client and the client's stop are one step, and so is a client's destruction; the callback that follows only counts.
- LocTimers.LocTimer.Expire: the interleaving of that read and stop with a client thread is not modelled.
- The choice between timer and alarm clock, the creation of containers on demand, the C timer interface and thread naming.
- LinkedLists.LinkedList.Add: null handles and a failed allocation are not modelled, because the list object and its element are values that exist.
- MsgQueueProtocol.DeliveryIsFifo: the wait is two labels with anything between them, which allows more interleavings than the mutex does; destroying a queue is not modelled.
- AGPS payloads: subscribers are equal by ID for every kind (the source also compares addresses of some kinds), and APN, bearer, SSID and password are not carried.
- AgpsMachines.AgpsStateMachine.NotifyAndDelete: after the first deletion the source's notification still holds the address of the subscriber that was deleted; the receiver is taken as a value here. Notifying happens inside the list's search there, and right after it here.
- The timer that repeats a busy request, and the adapter calls of the emergency machine, are items of its history.
- The choice of an AGPS machine by type, and Wi-Fi and interface bring-up around it.
- DtbPackers.DtbPacker.WriteImage: 32-bit sums are assumed to stay below 2^32, and the counter of bytes read is not truncated.
- DtbScans.Scan: a file enters as its path, its size and its parsed property lists; reading the directory, and decompiling and parsing the text, are not modelled.
- DtbServes.PackDtbs: keys are taken to fit 32 bits, and the padded files with the index to stay below 2^32 bytes.
- Deleting the output file after a failure, and freeing the chip list.
- NiProtocol.EveryRequestIsDisposedOfOnce: runs start after initialisation, handlers are atomic steps, and the request counter does not wrap; a request that arrives before initialisation is not freed by the source.
- LocEngNis.LocEngNi.ThreadProc: the condition variable, its deadline and spurious wake-ups are what the given list of waits brings.
- NMEA number formatting, its failure returns, position sentences and the cached precision values.
- Camera wrapper, disk encryption, lights, power, settings screens, GPS HAL glue, daemon pipes, configuration parsing and build files.

# Verified models of the telephone server's concurrent core

This project models the self-contained protocols and data structures of the telephone server and
proves what they keep, over every input, call history or interleaving.

| file | models |
|---|---|
| `NtCondition`, `NtCalls`, `NtHistory`, `NtRefinement` | the condition variables of `omnithread/nt.cpp`: a step system with one atomic step per critical section or kernel call, what each call does from beginning to end, its history, and its refinement of an abstract monitor |
| `NtPointers`, `NtWaiterList` | their waiter lists as the code keeps them: the pointers of all condition variables and thread objects under any interleaving, and the list code on the heap |
| `Monitor` | the abstract monitor (also declares thread and condition names) |
| `Clock`, `Timer`, `TimerThread`, `TimerCalls` | deadlines in 32-bit seconds and nanoseconds, the ordered timer set, the timer thread with its clients interleaved over the monitor, and what its calls achieve |
| `DList` | the intrusive doubly linked list shared by the client queues and the activities |
| `ClientQueue`, `DigitTrie`, `TrieIterator`, `Trunk`, `TrunkHistory` | the queues, the 10-way trie DDIs, its parentless iterator, the trunk built from them, and its queues over any history of calls |
| `Transport`, `TransportCalls`, `TransportPair` | two TCP transport ends over FIFO channels with end-of-stream, what each call achieves at both ends, and two TCP objects driven through any schedule |
| `Scheduler`, `ActivityHistory`, `Playing`, `ActivityList` | molecules and activities on values, where every molecule ends up, what a molecule plays over its life, and the activity as code over `DList` |
| `TextStream` | CRLF framing over an arbitrarily chunked stream |
| `Conferences` | cyclic handle allocation with a lockstep map iterator |
| `RingBuffer` | the ring buffer with its forward and reverse iterators |
| `Calendar` | `diffDays` and the day count of `get_time_now` |
| `Mail` | the mailbox file format and its stable sort |
| `Common`, `Arithmetic` | options, sequences without duplicates, removal of one element, digits; 32-bit wrap-around and division |

`dafny verify dfyconfig.toml` checks everything.

## How the models are built

* **Concurrent code** is a deterministic `Step` on a state value with an `Enabled` predicate; a run
  is a sequence of events, each enabled where it occurs, and theorems speak of every run. A critical
  section is one step. Clock readings, thread scheduling, media answers and packet arrival are
  choices made by the events.
* **Code that changes objects in place** is a class with the original's fields and loops. Each
  method is proved against a function on values, and the promises are proved about that function.
* **Exceptions** are results (`None`, `InvalidKey`, a flag); unsigned arithmetic is written out
  modulo 2^32, C division as truncation.

## What the code does not do

Each of these is stated in the model as a lemma or an exact condition; the code is modelled as it is.

* The end that asked for a disconnect ignores its rejection and stays disconnecting while its peer
  is connected (`Transport.RejectionIsIgnored`, and for every reachable state
  `Transport.RejectionOutcome`). Two established ends that have read everything agree if and only
  if the number of disconnects rejected since they connected is even (`Transport.EndsAgree`).
* When the timer thread goes to sleep with the first deadline exactly 2^32 - 1 ms away, the computed
  timeout is the kernel's INFINITE and it sleeps for ever, until an earlier timer is added or the last
  one removed; this is the only way to sleep through a deadline (`TimerThread.SleptThroughExactlyWhen`,
  `TimerThread.SleepIsOkExactlyWhen`; a run that does it: `TimerThread.LongestDelayIsSleptThrough`).
* An activity can hold molecules and run none of them. One event brings that about exactly when it
  is an `add()` to an empty activity whose start fails, or a completion in a disconnect or close that
  leaves any molecule (`Scheduler.WorksUnlessStalled`); it lasts exactly until the last molecule is
  removed (`Scheduler.StalledUntilEmpty`, `Scheduler.WorksExactlyWhen`).
* `DList::addLast` into an empty list leaves the `prev` the link comes with, so a link taken out of
  the middle of another list spoils it (`DoublyLinked.DList.AddLast`, `DoublyLinked.DList.MoveToEmpty`).
* `receive()` leaves a read buffer without its terminating NUL exactly when the buffer has grown since
  the last read and fresh memory holds no NUL in that place (`TextStream.SocketStream.Receive`); it
  grows exactly when a read leaves less than 256 bytes free and no complete line
  (`TextStream.SocketStream.Turn`, `TextStream.RoomAfter`). A first stretch of 1793 bytes without
  CRLF does it (`TextStream.GrownWithoutNul`).
* The get buffer is doubled only once for a line, so a line overruns it exactly when it has more than
  twice the buffer's bytes less two (`TextStream.LineHolds`); as the first line, 4095 bytes
  (`TextStream.LongLineOverruns`). Neither happens while at most 1792 bytes are unterminated wherever
  the stream is cut (`TextStream.FitsExactly`, `TextStream.FitsHolds`, `TextStream.FitsRoom`).
* A molecule restarted after an interruption begins at its first atom, but its position goes on from
  where it was (`Playing.InterruptedResumes`).
* `create()` with a bad character throws after having made the nodes for the digits before it
  (`DigitTrie.DDIs.Create`); `find()` with a bad character may return null instead of throwing
  (`DigitTrie.WalkThrows`).
* `dequeue()` falls back to the root queue only when the address has no node; an address whose node
  exists with an empty queue gets nothing, even when the root queue holds a client. A bad address is
  refused only if its digits begin an enqueued address (`Trunk.DequeueServes`).
* Two timers in a row get the id 1 when the counter wraps (`Timer.IdsRepeatExactly`).
* Conference handle 0 is handed out when the search wraps past the end of the space
  (`Conferences.ZeroIsHandedOut`, `Conferences.HandlesInOrder`).
* `diffDays` across the end of year 0 is one too small (`Calendar.YearZeroIsShort`); the day count of
  `get_time_now` is one too large from 1 March 2100 (`Calendar.NowDaysIsRight`), as its own comment
  says.
* A mailbox sender with a blank, with a newline, or called None does not survive the file
  (`Mail.WriteThenRead`, `Mail.NoneIsLost`).

## Model

| member | source | states |
|---|---|---|
| NtCondition.StepKeeps | omnithread/nt.cpp:178-329 | every step of wait, timedwait, signal, broadcast and the helper's cache keeps the invariant: semaphores, waiter lists, `cond_waiting` flags, cache and mutex agree with each thread's program point |
| NtCondition.SemaphoreLaw | omnithread/nt.cpp:93-158 | over every interleaving a semaphore is 0 or 1, and 1 exactly between being unlinked by a signaller and consuming the token; a wait starts at 0, the second wait after a timeout race never blocks, and a cached dummy is unused with semaphore 0 |
| NtCondition.WaiterLists | omnithread/nt.cpp:183-194 | over every interleaving no object is queued twice or on two lists, and `cond_waiting` is set exactly for the queued ones; the pointers are in NtPointers |
| NtCondition.NoLostWakeup | omnithread/nt.cpp:183-198 | a waiter is queued before its mutex is free for others, so a signal that finds the list empty misses nobody; inside a wait, a thread is queued, holds a token, or has consumed it |
| NtCalls.CallIsKept | omnithread/nt.cpp:178-279 | over every run a thread is inside exactly the call it entered last, with that call's condition variable and its kind, wait or timedwait |
| NtCalls.OnlyTimedWaitsTimeOut | omnithread/nt.cpp:198-270 | a timeout can only happen to, and is only reported by, a timedwait; the wait that the monitor sees has the condition variable and the kind of the call the thread made |
| NtCalls.CallWaits | omnithread/nt.cpp:183-198 | in every reachable state a call that has begun can queue its thread last, without a token, and give up the mutex |
| NtCalls.CallReturns | omnithread/nt.cpp:198-279 | in every reachable state a thread that was signalled, or whose timedwait may time out, can go on by itself to the end of its call once the mutex is free, and reports a timeout exactly when no signaller took it off the list |
| NtCalls.MutexChanges | omnithread/nt.cpp:178-279 | a mutex changes hands only by lock, unlock, and the release and relock of a wait on it |
| NtCalls.SignalWakesOldest | omnithread/nt.cpp:282-304 | in every reachable state a signal takes off the oldest waiter and no other, whose semaphore goes from 0 to 1, and no other list, flag or semaphore changes |
| NtCalls.BroadcastWakesAll | omnithread/nt.cpp:307-329 | in every reachable state a broadcast gives every waiter of that condition variable one token and touches nobody else |
| NtCalls.DummiesComeBack | omnithread/nt.cpp:114-158 | over every run each dummy thread object is either cached or in use, and none is lost |
| NtCalls.DummiesAreReused | omnithread/nt.cpp:114-158 | the number of dummies ever made is the greatest number of foreign threads that were inside calls at the same time |
| NtHistory.TokensAreFifo | omnithread/nt.cpp:282-329 | tickets handed out, less those that timed out, are the woken ones in wake order followed by the queue: tokens go out in enqueue order |
| NtHistory.TokensAreConserved | omnithread/nt.cpp:282-329 | removals by signallers equal consumed tokens plus tokens still outstanding |
| NtHistory.ResultIsTruthful | omnithread/nt.cpp:243-278 | a call returns 0 exactly when the thread removed itself and 1 exactly when a signaller removed it |
| NtRefinement.NtImplementsMonitor | omnithread/nt.cpp:178-329 | every schedule of the code is a run of the monitor that ends in the corresponding monitor state; its waits are those of the calls made, by NtCalls.OnlyTimedWaitsTimeOut |
| NtPointers.StepRefines | omnithread/nt.cpp:178-329 | each critical section, as its assignments to `waiting_head`, `waiting_tail`, `cond_next` and `cond_prev`, is the step of NtCondition on the queues, for all condition variables at once |
| NtPointers.PointersImplementQueues | omnithread/nt.cpp:178-329 | the code on pointers has exactly the schedules of NtCondition, and along each of them all lists spell its queues, so its results are results about the code |
| NtPointers.ChainsAreExact | omnithread/nt.cpp:183-257 | in every reachable state each chain from `waiting_head` by `cond_next` is finite, ends at `waiting_tail`, has `cond_prev` as its exact inverse, and holds exactly the threads flagged as waiting on that condition variable |
| NtPointers.WakeAllRefines | omnithread/nt.cpp:307-329 | the loop of broadcast ends with an empty list, having woken each waiter in order |
| NtWaiterList.OmniCondition.LinkSelf | omnithread/nt.cpp:183-194 | the caller goes to the tail; head, tail, `cond_next` and `cond_prev` again spell the chain, `cond_prev` the exact inverse |
| NtWaiterList.OmniCondition.Unlink | omnithread/nt.cpp:246-255 | unlinking at any position leaves the rest of the chain in order and no semaphore changed |
| NtWaiterList.OmniCondition.UnlinkSelf | omnithread/nt.cpp:243-270 | reports a timeout exactly when still queued, and then leaves; otherwise nothing changes |
| NtWaiterList.OmniCondition.WakeHead | omnithread/nt.cpp:287-299 | the oldest waiter leaves with its flag cleared and one token; all others keep theirs |
| NtWaiterList.OmniCondition.Signal | omnithread/nt.cpp:282-304 | as WakeHead, and nothing when the list is empty |
| NtWaiterList.OmniCondition.Broadcast | omnithread/nt.cpp:307-329 | the list empties, and each former waiter has its flag cleared and exactly one more token |
| Clock.DeadlineIsExact | timer/timer.cpp:9-15 | for any unsigned delay before the clock wraps, the deadline is valid and exactly that many milliseconds away |
| Clock.TimeoutRounds | omnithread/nt.cpp:231-239 | for any two times the timeout is their distance in milliseconds modulo 2^32, rounded down, or up when the nanoseconds borrow a second, and 0 for a time that has passed |
| Clock.SleepEndsNear | omnithread/nt.cpp:231-241 | for any later time the sleep takes that rounded distance if and only if it is below 2^32 - 1 ms, and then ends less than a millisecond early or late |
| Clock.TimeoutIsDistance | omnithread/nt.cpp:231-239 | for whole milliseconds the DWORD timeout, with its wrap-around subtractions, is the distance to the deadline modulo 2^32, or 0 when it has passed |
| Clock.SleepEndsAtDeadline | omnithread/nt.cpp:231-241 | for whole milliseconds the sleep ends exactly at the deadline if and only if the distance is below 2^32 - 1 ms |
| Timer.InsertSorts | timer/timer.cpp:82-86 | insertion keeps the set strictly ordered by deadline, then id |
| Timer.ScanIsExact | timer/timer.cpp:155-165 | under a monotone clock the scan takes only timers expired when looked at, and at its last look nothing left behind had expired |
| Timer.IdsRepeatExactly | timer/timer.cpp:77-80 | two values of the 32-bit counter give the same id exactly when they are 0 and 2^32 - 1, which both give 1 |
| Timer.TimerSet.Add | timer/timer.cpp:73-93 | counter, id with 0 skipped, exact new set, and a signal due exactly when the new timer is first |
| Timer.TimerSet.Remove | timer/timer.cpp:95-110 | true exactly for a valid pending timer, which alone leaves |
| Timer.TimerSet.TakeDue | timer/timer.cpp:155-165 | the loop takes exactly the expired prefix and erases it |
| TimerThread.NoDeadlineSleptThrough | timer/timer.cpp:73-135 | over every interleaving without a delay of 2^32 - 1 ms, a sleeping dispatcher that is not signalled or about to be wakes by the earliest pending deadline, and sleeps for ever only with nothing pending |
| TimerThread.SleptThroughExactlyWhen | timer/timer.cpp:73-135 | for every run, whatever the delays: a sleeping dispatcher that is not signalled or about to be wakes by the earliest pending deadline if and only if each sleep begun exactly 2^32 - 1 ms before the first deadline was followed by the add of an earlier timer or the removal of the last one |
| TimerThread.SleepIsOkExactlyWhen | timer/timer.cpp:125-135 | in every reachable state, going to sleep is right if and only if nothing is pending or the first deadline is not exactly 2^32 - 1 ms away |
| TimerThread.LongestDelayIsSleptThrough | timer/timer.cpp:125-135 | a run in which the excluded delay does put the dispatcher to sleep for ever |
| TimerThread.TimersAreAccountedFor | timer/timer.cpp:73-175 | each added timer is in exactly one of pending, removed and taken; taken ones fire once each, in order, never early; removed ones never fire |
| TimerThread.ScanLeavesNoneExpired | timer/timer.cpp:155-172 | in any reachable state a scan hands over a deadline-ordered batch and leaves nothing that had expired at its last look |
| TimerCalls.AddPends | timer/timer.cpp:73-90 | in every reachable state add makes exactly one more timer pending, its deadline exactly the delay away and its id one that no timer has had, and is to signal exactly when it is the first |
| TimerCalls.AddReturns | timer/timer.cpp:87-92 | add ends with the mutex free and a sleeping dispatcher woken exactly when it was to be |
| TimerCalls.RemoveTakesBack | timer/timer.cpp:95-110 | in every reachable state remove of a pending timer takes it and only it out and counts it as removed; of anything else it changes nothing |
| TimerCalls.RemovedNeverFires | timer/timer.cpp:95-110 | after remove of a pending timer, whatever comes next, on_timer is never called for it |
| TimerCalls.DispatcherDelivers | timer/timer.cpp:112-176 | in every reachable state in which the dispatcher sleeps with a timeout or was woken, its next round is possible and calls on_timer for exactly the timers found expired, in deadline order, and leaves the others pending |
| DoublyLinked.DList.AddFirst | collect/list.cpp:199-209 | one link goes in front; `next` and `prev` stay exact inverses |
| DoublyLinked.DList.AddLast | collect/list.cpp:92-106 | one link goes behind; the list stays well-formed if and only if it was not empty or the link came with a null `prev` |
| DoublyLinked.DList.MoveToEmpty | collect/list.cpp:231-246 | moving a link from behind another one into an empty list leaves that list not well-formed |
| DoublyLinked.DList.AddAfter | include/list.h:170-170 | one link goes behind a given one, and only there |
| DoublyLinked.DList.RemoveFirst | collect/list.cpp:135-149 | the first link leaves, or null and nothing changes |
| DoublyLinked.DList.RemoveAfter | collect/list.cpp:179-189 | exactly the link behind a given one leaves |
| DoublyLinked.DList.Remove | include/list.h:172-173 | exactly the given link leaves, wherever it is |
| ClientQueue.KeepFilters | sequencer/configuration.cpp:157-191 | filtering loses all items of the interface, with the id if one is given, and no other item |
| ClientQueue.KeepAppends | sequencer/configuration.cpp:157-191 | filtering keeps the order: it distributes over concatenation |
| ClientQueue.RemoveMatching | sequencer/configuration.cpp:157-191 | deletion during iteration leaves exactly the filtered queue, in order |
| ClientQueue.Turn | collect/list.cpp:36-47 | the iterator's cached next link survives the deletion of the current one |
| ClientQueue.Enqueue | sequencer/configuration.h:71-77 | the item goes to the back of the queue |
| ClientQueue.Dequeue | sequencer/configuration.cpp:150-155 | the oldest item, if any, leaves |
| ClientQueue.DequeueThenRequeue | sequencer/configuration.h:53-58 | requeuing a dequeued item restores the queue |
| DigitTrie.WalkFinds | sequencer/configuration.cpp:224-246 | for digit keys find succeeds exactly on the keys of the trie and never throws |
| DigitTrie.WalkThrows | sequencer/configuration.cpp:198-246 | find throws exactly when the digits before the first bad character are a key |
| DigitTrie.FoundArePrefixes | sequencer/configuration.cpp:264-293 | after any creates, with good keys or bad, the keys found are the empty one and the digit strings that begin one of them |
| DigitTrie.DDIs.Find | sequencer/configuration.cpp:224-246 | null and the empty key give the root, a key its own node, anything else null or the exception |
| DigitTrie.DDIs.IsSubKey | sequencer/configuration.cpp:248-262 | null: no; empty: whether any other key exists; else whether it is a key, or the exception |
| DigitTrie.DDIs.Graft | sequencer/configuration.h:108-108 | a new child adds one key and disturbs no other node |
| DigitTrie.DDIs.Create | sequencer/configuration.cpp:264-293 | the keys grow by exactly the prefixes of the digits; old nodes stay where they are, new ones have empty queues |
| TrieIterator.WalkVisitsAll | sequencer/configuration.cpp:335-378 | a walk from the root visits every key exactly once, in prefix-first lexicographic order |
| TrieIterator.DDIIterator.Pop | sequencer/configuration.cpp:342-378 | dropping the last digit and finding again from the root yields the parent |
| TrieIterator.DDIIterator.Next | sequencer/configuration.cpp:342-378 | moves to the least key above the current one, the key spelling the path, or reports that there is none; both loops end |
| Trunk.KeysAfter | sequencer/configuration.cpp:108-132 | after any history of calls the keys are those created by the enqueues, and they are closed under prefixes |
| Trunk.DequeueServes | sequencer/configuration.cpp:108-121 | over any history, with good addresses or bad: dequeue takes the first item, if any, of the queue of a digit address that is empty or begins an enqueued one, of the root's for any other; a bad address is refused if its digits begin an enqueued one and is served from the root if not |
| Trunk.WalkRemoves | sequencer/configuration.cpp:87-106 | filtering along a whole walk of the iterator filters every queue once |
| Trunk.Trunk.Enqueue | sequencer/configuration.cpp:123-132 | the item goes to the back of the queue of a good address, the prefixes of its digits become keys, and no other queue changes |
| Trunk.Trunk.Dequeue | sequencer/configuration.cpp:108-121 | the first item, if any, of the queue it serves leaves, and no other queue changes; or the exception |
| Trunk.Trunk.RemoveClient | sequencer/configuration.cpp:87-106 | both overloads leave every queue in the trie filtered and in order, and nothing else changed |
| TrunkHistory.ItemsAreConserved | sequencer/configuration.cpp:87-132 | over every history of calls and at every key: what was enqueued is, each item once, what was served, what removeClient took out and what is queued; and what was served, then what is queued, are in the order of arrival |
| TrunkHistory.FirstInFirstOut | sequencer/configuration.cpp:108-132 | without removeClient, what was served at a key followed by what is queued there is exactly what was enqueued there, in order |
| Transport.NoHalfOpenConnection | tcp/tcp.cpp:77-156 | over every run, with crossing requests, rejects and aborts: as long as one end is connected or disconnecting and the other has left, something it has not read is in flight; so never with both inboxes drained |
| Transport.NothingUnexpected | tcp/tcp.cpp:395-437 | no answer to connect is unexpected, and an established end never runs into end-of-stream |
| Transport.ReadingIsEnough | tcp/tcp.cpp:285-320 | after one end has left, the other becomes idle by reading what is in flight |
| Transport.RejectionIsIgnored | tcp/tcp.cpp:290-320 | a run in which a rejected disconnect leaves the requester disconnecting and its peer connected, with nothing in flight |
| Transport.EndsAgree | tcp/tcp.cpp:77-142 | over every run, two established ends that have read everything are in the same state if and only if an even number of disconnects has been rejected since they connected |
| Transport.NoneRejected | tcp/tcp.cpp:135-142 | in particular they agree as long as nobody rejects |
| Transport.RejectionOutcome | tcp/tcp.cpp:135-142 | in every reachable drained state a rejection changes nothing at the peer that reads it, so the ends agree afterwards if and only if the peer was still connected |
| TransportCalls.AbortEnds | tcp/tcp.cpp:144-156 | in every reachable state abort of a connected end sends an abort and end-of-stream, leaves it idle without a connection, and the peer becomes idle by reading |
| TransportCalls.DisconnectIsConfirmed | tcp/tcp.cpp:77-133 | accepting a disconnect, or disconnecting again, sends a confirm and end-of-stream, leaves the end idle, and the peer becomes idle by reading |
| TransportCalls.DisconnectAsks | tcp/tcp.cpp:77-103 | disconnect of a connected end leaves it waiting for an answer; a peer with no earlier request unread becomes disconnecting by reading, or confirms if it asked itself |
| TransportCalls.RejectRefuses | tcp/tcp.cpp:66-75 | reject leaves the end idle, and the caller is idle once it reads the next message |
| TransportCalls.HangingUpRefuses | tcp/tcp.cpp:77-103 | disconnect instead of accept or reject has the same outcome by closing only |
| TransportCalls.ListeningStops | tcp/tcp.cpp:158-165 | stopping to listen leaves the end idle and makes a connect that is under way fail |
| TransportCalls.AcceptConnects | tcp/tcp.cpp:57-64 | after accept, once the caller reads the answer, both ends are connected and nothing is in flight |
| TransportCalls.ListenListens | tcp/tcp.cpp:28-42 | listen of an idle end makes it listen and changes nothing else |
| TransportCalls.SendSends | tcp/tcp.cpp:177-185 | send puts one packet in flight, which moves neither end |
| TransportCalls.RejectionReturns | tcp/tcp.cpp:135-142 | rejecting a disconnect makes the end connected again and leaves the peer where it would have ended without the rejection |
| TransportCalls.OtherCallsDoNothing | tcp/tcp.cpp:28-185 | in every reachable state a call changes something if and only if the end is in a state that the call is meant for |
| TransportPair.Pair.Perform | tcp/tcp.cpp:57-437 | any call, read or connect on two TCP objects joined by their wires is the step of the protocol, or impossible there and without effect |
| TransportPair.Pair.Drive | tcp/tcp.cpp:57-437 | whatever two clients and the network do, the objects follow a run of the protocol, with no half-open connection and agreement as in EndsAgree |
| Transport.TCP.AcceptCall | tcp/tcp.cpp:57-64 | effect of accept on one end of the protocol, only when connecting |
| Transport.TCP.RejectCall | tcp/tcp.cpp:66-75 | effect of reject on one end, only when connecting |
| Transport.TCP.DisconnectCall | tcp/tcp.cpp:77-103 | effect of disconnect in each of the six states, the exception when calling |
| Transport.TCP.DisconnectAcceptCall | tcp/tcp.cpp:121-133 | effect of accepting a disconnect, only when disconnecting |
| Transport.TCP.DisconnectRejectCall | tcp/tcp.cpp:135-142 | effect of rejecting a disconnect, only when disconnecting |
| Transport.TCP.AbortCall | tcp/tcp.cpp:144-156 | the effect that TransportCalls.AbortEnds describes, only when connected |
| Transport.TCP.ListenCall | tcp/tcp.cpp:28-42 | listening, only when idle |
| Transport.TCP.StopListeningCall | tcp/tcp.cpp:158-165 | idle and closed, only when listening |
| Transport.TCP.SendDataCall | tcp/tcp.cpp:177-185 | a packet goes out, only when connected |
| Transport.TCP.CheckForControlPacket | tcp/tcp.cpp:290-320 | effect of each control packet on an established end |
| Transport.TCP.Receive | tcp/tcp.cpp:237-288 | effect of reading one message or end-of-stream outside the handshakes |
| Transport.TCP.ConnectAnswered | tcp/tcp.cpp:395-437 | the outcome of a connect for each possible answer; fatal exactly for an unexpected one |
| Transport.TCP.ListenAnswered | tcp/tcp.cpp:355-393 | anything but a connect request closes the connection and listens again |
| Scheduler.ListStaysOrdered | sequencer/activ.cpp:379-455 | over every run the list is sorted by non-increasing priority, ties in arrival order, with at most one active molecule |
| Scheduler.StepKeeps | sequencer/activ.cpp:379-551 | add, remove, stop, DTMF and completion each keep order, soundness and the single active molecule |
| Scheduler.StartedIsFirst | sequencer/sequence.cpp:1213-1279 | whatever an event starts is at the head: the oldest of the highest priority present |
| Scheduler.StartDropsFailing | sequencer/activ.cpp:462-494 | start drops exactly the longest prefix of failing molecules and reports each once, in order |
| Scheduler.StartEnds | sequencer/activ.cpp:462-494 | start ends with an empty list and idle, or with an active head and active |
| Scheduler.WorksUnlessStalled | sequencer/activ.cpp:379-551 | an activity that runs one of its molecules, or has none, stays so after an event if and only if the event is not a failing add to an empty activity nor a closing completion that leaves molecules |
| Scheduler.StalledUntilEmpty | sequencer/activ.cpp:437-455 | one that runs none of its molecules does so until, and only until, the last of them is removed; every removal takes one away, nothing else helps |
| Scheduler.WorksExactlyWhen | sequencer/sequence.cpp:1213-1279 | after any run an activity that has molecules is running one if and only if every stall was followed by a moment with none left |
| ActivityHistory.EveryMoleculeInOnePlace | sequencer/activ.cpp:379-494 | over every run each molecule ever added is in exactly one place, once: listed, removed, finished, or reported because its start failed |
| ActivityHistory.FinishedLeaves | sequencer/sequence.cpp:1247-1278 | in every reachable state a molecule that is finished, or whose completion finds the activity stopping, is not in the list afterwards; a completion in a disconnect or close starts nothing and ends idle |
| ActivityHistory.AddWaitsOrInterrupts | sequencer/activ.cpp:379-433 | in every reachable state add starts a molecule alone in the activity; else it waits behind exactly those of the same or a higher priority, the head is marked as stopped exactly when it has a lower priority and allows it, and nothing else changes |
| ActivityHistory.RemoveLeavesOrStops | sequencer/activ.cpp:437-455 | remove marks a playing molecule as stopped if it allows that; any other one leaves, and the others stay as they are |
| ActivityHistory.StopMarksHead | sequencer/activ.cpp:496-513 | stop marks the head as stopped, with the reason, unless it forbids interruption and makes no exception for DTMF; the others stay as they are; idle exactly when its current atom stopped |
| ActivityHistory.DigitStopsHead | sequencer/activ.cpp:535-551 | a digit stops exactly a head with dtmf_stop, even one that forbids interruption |
| ActivityHistory.DigitEndsHead | sequencer/activ.cpp:264-288 | a head with dtmf_stop that is playing when a digit arrives is gone after its next completion |
| Playing.PlaysOnce | sequencer/activ.cpp:264-314 | uninterrupted, a molecule plays its remaining atoms once each in order, is finished exactly with the last, and its position is the time played |
| Playing.LoopsForEver | sequencer/activ.cpp:293-307 | in loop mode it never finishes and plays its atoms round and round |
| ActivityList.Activity.FindPlace | sequencer/activ.cpp:379-433 | the loop finds the place behind all of the same or higher priority |
| ActivityList.Activity.Add | sequencer/activ.cpp:379-433 | the list code refines insertion by priority with interruption of the head |
| ActivityList.Activity.Remove | sequencer/activ.cpp:437-455 | an active molecule is stopped and stays, any other leaves; an empty list means idle |
| ActivityList.Activity.Start | sequencer/activ.cpp:462-494 | the loop ends, and refines dropping and reporting the failing prefix |
| ActivityList.Activity.Stop | sequencer/activ.cpp:496-513 | the head is stopped unless it forbids it; the result and the state say exactly whether its atom stopped at once |
| ActivityList.Activity.Dtmf | sequencer/activ.cpp:535-551 | stops the head exactly when it asked for that |
| ActivityList.Activity.Completed | sequencer/sequence.cpp:1232-1278 | the list code refines the completion that FinishedLeaves and EveryMoleculeInOnePlace are about, and reports exactly the molecules whose start fails |
| TextStream.JoinOfSplit | tcp/text.cpp:74-117 | the lines each with CRLF, then the rest, are the stream again; no line and no rest contains CRLF |
| TextStream.SplitOfJoin | tcp/text.cpp:74-117 | splitting such lines and rest gives them back: the split is unique |
| TextStream.Settled | tcp/text.cpp:74-117 | the lines handed out are always the first lines of the bytes read, and all of them once none is waiting |
| TextStream.ChunkingDoesNotMatter | tcp/text.cpp:130-171 | two connections that read the same bytes in any chunks have handed out the same lines and keep the same rest |
| TextStream.RecvHalts | tcp/socket.cpp:159-169 | reading data leaves the first arrival that is not data where it is; a read that finds none has met it |
| TextStream.HaltDivides | tcp/socket.cpp:159-169 | the bytes before that arrival and those behind it are all the bytes that arrive |
| TextStream.SocketStream.StrStr | tcp/text.cpp:74-83 | the scan for CRLF in the NUL-terminated buffer finds the first one |
| TextStream.FitsHolds | tcp/text.cpp:14-16 | streams with at most 1792 unterminated bytes at any cut never overrun the get buffer |
| TextStream.FitsExactly | tcp/text.cpp:14-16 | the bound on unterminated data, read off the lines, holds if and only if it holds wherever the stream is cut |
| TextStream.LineHolds | tcp/text.cpp:86-102 | a stream overruns the get buffer at its first line exactly when that line has more than twice the buffer's bytes less two; otherwise it depends on the rest and the grown buffer |
| TextStream.LongLineOverruns | tcp/text.cpp:86-102 | a first line of 4095 bytes or more does overrun it |
| TextStream.FitsRoom | tcp/text.cpp:163-167 | with little unterminated data the read buffer never grows, however the stream is chunked |
| TextStream.StretchGrows | tcp/text.cpp:119-167 | a first stretch of 1793 to 2047 bytes without CRLF doubles the read buffer and, when nothing follows, leaves it without its NUL |
| TextStream.GrownWithoutNul | tcp/text.cpp:119-167 | the run that shows it: the call returns, and the object is not fit for another one |
| TextStream.SocketStream.GrowRBuf | tcp/text.cpp:119-128 | twice the size with the same bytes; behind them is what fresh memory held, not the NUL |
| TextStream.SocketStream.MoveLine | tcp/text.cpp:86-110 | the get buffer doubles when the line does not fit; line, newline and NUL reach it, the remainder moves to the front, neither buffer is overrun |
| TextStream.SocketStream.FillGBuf | tcp/text.cpp:74-117 | hands out a line exactly when one is complete, and the account of received bytes stays exact |
| TextStream.SocketStream.ReadMore | tcp/text.cpp:139-154 | each read asks for at least one byte, fits the buffer and keeps the stream as a whole; without data nothing changes |
| TextStream.SocketStream.Receive | tcp/text.cpp:130-171 | hands out the next line of the stream, or nothing when the first arrival that is not data comes before a line is complete: then 0 if it is would-block and -1 if it is a failure or end-of-stream; nothing is lost; the read buffer's new size, and whether it lacks its NUL, exactly, from the buffer and what arrives; with little unterminated data nothing grows and the object stays fit for use |
| TextStream.SocketStream.Turn | tcp/text.cpp:139-167 | one turn of the loop: it ends without a line exactly at the first arrival that is not data, with 0 for would-block and -1 for any other; the read buffer grows exactly when a read completed no line and left less than 256 bytes free |
| TextStream.SocketStream.Poll | sequencer/interface.cpp:155-173 | the client loop hands out the canonical split of the buffer and all bytes before the first arrival that is not data, however segmented, and ends with a negative result, for which the connection is given up, exactly when that arrival is a failure or end-of-stream |
| Conferences.OutOfHandles | sequencer/conference.cpp:147-158 | the cyclic search fails exactly when all N handles are live |
| Conferences.FirstFreeIs | sequencer/conference.cpp:136-170 | the search yields the first free handle in cyclic order |
| Conferences.ZeroIsHandedOut | sequencer/conference.cpp:140-142 | exactly when handle 0 is handed out |
| Conferences.NextHandle | sequencer/conference.cpp:136-170 | whatever is live, create hands out the least free handle behind the last one, at the end of the space from 1 on; only if there is none the least free one before; none exactly when all are live |
| Conferences.HandlesInOrder | sequencer/conference.cpp:136-170 | from an empty map, N - 1 calls hand out 1 to N - 1 in order, the next one 0, and then all are live |
| Conferences.Conferences.Lockstep | sequencer/conference.cpp:149-156 | the map iterator, one handle behind the counter with wrap-around, meets it exactly when that handle is live |
| Conferences.Conferences.Create | sequencer/conference.cpp:136-173 | ends for every history and size; a new conference under the first free handle, never a live one, or the exception with the map unchanged and the counter where the search began |
| Conferences.Conferences.Search | sequencer/conference.cpp:149-158 | the search loop ends at the first free handle, or at the handle it began with exactly when all are live |
| Conferences.Conferences.Close | sequencer/conference.cpp:175-211 | true exactly for a live handle, which alone is freed; its conference is marked as closed |
| RingBuffer.PushedKeepsRecent | include/ringbuffer.h:52-63 | any pushes leave the most recent elements, as many as fit |
| RingBuffer.LastIsMod | include/ringbuffer.h:72-79 | the back position kept by every operation is (front + size - 1) modulo the capacity |
| RingBuffer.RingBuffer.Push | include/ringbuffer.h:60-63 | refines appending and keeping the most recent |
| RingBuffer.RingBuffer.MakeRoom | include/ringbuffer.h:52-58 | as Push, with whatever the place held |
| RingBuffer.RingBuffer.Pop | include/ringbuffer.h:65-70 | drops the oldest element, if any |
| RingBuffer.RingBuffer.BackErase | include/ringbuffer.h:72-79 | drops the n newest elements, or all |
| RingBuffer.RingBuffer.FrontErase | include/ringbuffer.h:81-88 | drops the n oldest elements, or all |
| RingBuffer.RingBuffer.End | include/ringbuffer.h:211-214 | an iterator equals end() after exactly size steps, also when full, where both share a place |
| RingBuffer.RingBuffer.REnd | include/ringbuffer.h:216-219 | the same for the reverse iterator |
| RingBuffer.RingBuffer.Traverse | include/ringbuffer.h:164-179 | forward iteration yields exactly the contents, in order |
| RingBuffer.RingBuffer.TraverseBack | include/ringbuffer.h:189-204 | reverse iteration yields exactly the contents, in reverse |
| Calendar.DiffCountsDays | include/datetime.h:76-83 | diffDays is the number of calendar steps, and one less across the end of year 0 |
| Calendar.DiffIsDistance | include/datetime.h:76-83 | from year 1 on, diffDays is n exactly n days later, its sign is the order of the dates, and it is antisymmetric |
| Calendar.YearZeroIsShort | include/datetime.h:76-83 | a pair of dates for which diffDays is one too small |
| Calendar.NowDaysIsRight | omnithread/nt.cpp:859-865 | the day count since 1970 is right exactly before 1 March 2100, and one too large for the rest of that year |
| Calendar.NowSecondsAreRight | omnithread/nt.cpp:846-868 | before that date the 32-bit seconds do not wrap and are those of the calendar distance |
| Mail.DecimalReads | actor/mail.py:58-70 | every integer time survives print and parse |
| Mail.LinesLookLike | actor/mail.py:36-70 | two written lines, word for word, and the messages they read back as |
| Mail.LineReads | actor/mail.py:36-70 | a written message reads back as itself, and the file continues behind it |
| Mail.BlanksAround | actor/mail.py:51-52 | blanks before and behind a record are ignored |
| Mail.ThreeFields | actor/mail.py:52-52 | a line reads as a message only if its stripped form has exactly two blanks |
| Mail.FileRoundTrip | actor/mail.py:165-192 | a file of messages loads back as the same messages if and only if each can be stored |
| Mail.StopsAtMalformed | actor/mail.py:165-181 | reading stops at the first malformed line: the messages before it are kept, whatever follows |
| Mail.SortedIsStable | actor/mail.py:153-155 | sorting puts newest first and keeps the messages of each time in their order |
| Mail.StableSortIsUnique | actor/mail.py:153-155 | any stable newest-first sort gives this list |
| Mail.AddedAt | actor/mail.py:194-202 | append and sort puts a message behind all that are no older, before the rest |
| Mail.WriteThenRead | actor/mail.py:165-192 | a newest-first mailbox written and read again is the same list if and only if each sender is absent, or free of blanks and newlines and not None |
| Mail.NoneIsLost | actor/mail.py:60-62 | a sender called None reads back as absent |
| Mail.Mailbox.Read | actor/mail.py:165-181 | the sorted messages of the file; on a malformed line those before it, unsorted; without a file nothing changes |
| Mail.Mailbox.Write | actor/mail.py:183-192 | the file holds one line for each message, in order |
| Mail.Mailbox.Add | actor/mail.py:194-202 | the list with the new message, stably sorted, whatever it was; a newest-first one gets it behind those no older; the file reads back as the list exactly when all senders can be stored |

## Left out

- Liveness: wakeups and quiescence are stated as safety invariants; no fairness is assumed.
- omni_thread: priorities, start, join and thread-local data; failures of kernel calls; destroying a condition in use.
- omni_mutex: the critical section inside it; the model has its owner only, and no recursive locking.
- TimerThread: `m_active`, starting and stopping the thread, and the client and data pointers of a timer; fewer than 2^32 adds and a clock that does not wrap or run backwards.
- NtWaiterList.OmniCondition.LinkSelf: single calls on the heap under the list's critical section; their interleaving is in NtPointers, on maps of pointers. A caller is not waiting already.
- DList: dAddBefore, removeBefore, back, setToEnd and addAt, and the Set classes built on it.
- DigitTrie.DDIs.Graft: `children` is a field holding a sequence of ten references, not an array object.
- DDIs::remove, and the destruction of tries and queues.
- Trunk.Trunk.RemoveClient: as DDIIterator.Next, keys of at most 31 characters.
- TrieIterator.DDIIterator.Next: keys have at most 31 characters, the room in `char key[32]`; the key is held as a string, so what the code does beyond that is not modelled.
- ClientQueue: its mutex, and the back pointer of an item to its queue.
- Transport.StepKeeps: infinite handshake timeouts, no network failure, no stopConnecting; a packet is one message, so its bytes, its magic and partial packets are not modelled; a new connection has new channels.
- Transport.TCP.DisconnectCall: disconnectAndWait is not modelled.
- Scheduler.StepKeeps: where setPos leads is the environment's choice, which may fail or pick any atom; Activity::abort is not modelled; completion is reported only for the running molecule.
- ActivityList.Activity.Add: a molecule is a value held by its link, and its atoms are only counted.
- Sequencer: command parsing, replies and connection handling; of `completed` only its effect on the activity is modelled.
- TextStream.SocketStream.Receive: NUL-free streams without a line that overruns the get buffer, grown as it is; what a call on a buffer without its NUL does is undefined in the C++ and not modelled. What fresh memory holds is a parameter. At end of stream the last error is taken to be other than would-block.
- TextStream.SocketStream.FillGBuf: what a line that overruns the get buffer does.
- TextStream.SocketStream.Poll: of `data()` only whether it stops the loop; the istream interface on the get buffer is not modelled.
- Conference: adding and removing channels, its user data, and the deferred deletion of closed conferences.
- RingBuffer.RingBuffer.Push: capacity above zero, and positions whose sums fit the unsigned type; postfix ++, whose return value is a reference to a local, is not modelled.
- Calendar.NowDaysIsRight: years from 1970 on; DateTime's setters, its finer differences and their 32-bit overflow are not modelled.
- Mail.LineReads: the text mode of the file (line ends, end-of-file characters) is taken to be transparent, and the comparison of times not to overflow.
- Mailbox: playing, deleting and stepping through messages.
- Vendor calls (`aculab/`), sockets, registry, logging, Python networking, WAV files, and the other omnithread platforms.

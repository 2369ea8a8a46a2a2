# Concurrency protocols, modelled and proved

This project models the protocols and data structures of a Go repository that teaches concurrency:
distributed locks, causal and total message ordering, a lock-free queue, a lock manager, a partitioned
message log with consumer groups, a work-stealing scheduler, breadth-first search over a graph store,
checkpoint recovery, a compensating saga, a proof-of-work chain and a sliding-window rate limiter.

The modules are built from three parts.

- The critical section behind one mutex, one atomic load or one compare-and-swap is a function on values.
- A class with fields, loops and `modifies` clauses is the code. Each method is proved equal to those
  functions and says, in terms of the fields alone, what it does to them; so the functions cannot drift from
  what the code is for. Where others may act between two sections of one call, the method is verified with an
  `Interfere` step in between.
- Where the property is about interleavings, a state machine over values takes those sections as its steps, in
  any order and by any number of participants. An invariant is proved for every step, then for every state of
  every run by induction on the run; the main results are statements about every state of every run. Lemmas tie
  the two: the code's loops are sequences of machine steps (`CausalOrder`, `TaskScheduler`, `MessageBus`), or
  the machine's steps are the interference the code was verified against (`Redlock`, `LockFreeQueue`,
  `MessageBus`).

`GraphStore`, `Rebalance`, `Saga`, `CheckpointRecovery`, `SlidingWindow` and `LockManager` need no such machine:
their results are about one call, or about every sequence of calls, events or accesses.

Time is an integer that the environment moves forward at will. Networks reorder and duplicate at will.
Handlers, saga steps and hash functions are arbitrary functions. Strings are opaque identifiers.

| module | what it is about |
|---|---|
| `Redlock` | quorum lock: mutual exclusion of the validity windows |
| `FencingLock`, `LeaseManager` | locks with a time to live: one holder at a time, old tokens powerless |
| `CausalBroadcast`, `CausalPass`, `CausalOrder` | vector clocks: the node's loop, what one pass over its pending messages delivers, and causal delivery over all runs |
| `LamportOrder` | Lamport clocks: one canonical total order that extends causality |
| `ReorderBuffer` | sequence numbers: longest prefix in order; what timeouts cost |
| `LockFreeQueue` | enqueue with helping: one acyclic chain, in link order |
| `LockManager` | strict two-phase locking: acyclic conflicts and an equivalent serial execution |
| `MessageBus`, `Rebalance` | offsets, retries, dead letters, round-robin assignment |
| `TaskScheduler` | every task in one place, dependencies first |
| `GraphStore` | shortest paths and bounded traversal |
| `CheckpointRecovery`, `Saga` | exactly-once recovery, all-or-nothing compensation |
| `PowChain` | the chain validates at all times; a tip hash pins its history |
| `SlidingWindow` | the rate bound over the full history |
| `FiniteSets`, `Wrappers` | set and counting facts, and the option type, used above |

Six properties one might expect are false of the code. Each has a counterexample and an exact condition:

- A reorder buffer that skips gaps on timeout can deliver a number twice, and out of order (`RepeatCanHappen`,
  `RepeatIsDeliveredTwice`). Over any run no number comes twice (`NoneTwiceIffNoSkipBack`), and deliveries
  increase (`IncreasingIffNoSkipBack`), exactly when no timer turn was overdue while a number already passed
  still waited.
- What waits in that buffer under a number need not be the latest arrival of it (`WaitingCanBeOlder`). It is
  exactly when that arrival was ahead of the number due (`WaitingIsLatestIffAhead`), and so always without
  timeouts (`WaitingIsLatest`).
- `ShortestPath` stops its walk back at a node whose identifier is the empty string (`BlankBreaksSearch`,
  `SearchBlankStore`). Its answer is shortest when no shortest walk meets that identifier and is not when all do,
  which distances in the store decide beforehand (`BlankOnShortestIff`, `BlankAvoidableIff`). When only some do,
  it is shortest exactly when the walk found does not (`CutIsShortestIffNoBlank`).
- A rebalanced partition may go to a consumer that does not subscribe to the topic (`OwnerNeedNotSubscribe`).
  Owners subscribe exactly when those whose turn comes up do (`OwnersSubscribeIffTurnsDo`), and do so wherever
  the rotation starts exactly when all active consumers subscribe (`OwnersSubscribeIffAllDo`).
- A cancelled mining call drops the transactions it had taken (`CancelLosesTransaction`). Nothing is missing
  exactly when no call was cancelled (`NothingMissingIffNeverCancelled`).
- One pass over the pending causal messages can leave a ready one behind, which is not looked at again before
  another delivery (`OnePassCanLeaveReady`). It leaves none exactly when some messages of the list, taken in list
  order, can be delivered one after the other and get as far as any order of delivery does
  (`OnePassSufficesIff`). In a list without copies that is exactly when no deliverable message stands before a
  deliverable one it depends on (`OnePassSufficesIffCausesFirst`).

## Model

| member | source | states |
|---|---|---|
| `Redlock.Cluster.constructor` | solutions/challenge09_solution.go:209-224 | all nodes start without entries |
| `Redlock.Cluster.LockSingleNode` | solutions/challenge09_solution.go:227-244 | succeeds iff no unexpired entry stands in the way, and then this node alone carries the caller's entry with the current time |
| `Redlock.Cluster.UnlockSingleNode` | solutions/challenge09_solution.go:247-256 | succeeds iff the entry carries the caller's value; nobody else's entry is ever removed |
| `Redlock.Cluster.LockAll` | solutions/challenge09_solution.go:264-269 | under arbitrary interference every counted node still holds the caller's entry until start plus ttl; undisturbed, the count is exactly the number of free nodes |
| `Redlock.Cluster.UnlockAll` | solutions/challenge09_solution.go:280-283 | whatever others do, no node is left with the caller's entry; undisturbed, nothing else is touched |
| `Redlock.Cluster.AcquireRedlock` | solutions/challenge09_solution.go:259-290 | success comes with a positive validity and more than half of the nodes holding the entry until drift past the window's end; failure leaves nothing behind; undisturbed, it succeeds iff more than half of the nodes are free and ttl exceeds drift |
| `Redlock.QuorumIsLeastMajority` | solutions/challenge09_solution.go:221 | a size reaches the quorum iff it is more than half of the nodes, and iff any two sets of nodes of that size have a node in common |
| `Redlock.FreeCounts` | solutions/challenge09_solution.go:227-244 | the nodes an undisturbed sweep locks are as many as have no entry or an expired one |
| `Redlock.WindowIffMajority` | solutions/challenge09_solution.go:271-278 | a call that has tried every node gets its window, of exactly ttl less drift from its start, iff it locked more than half of them and time is left |
| `Redlock.Cluster.ReleaseRedlock` | solutions/challenge09_solution.go:293-297 | afterwards no node holds the caller's entry |
| `Redlock.RelyKeepsHolders` | solutions/challenge09_solution.go:227-256 | what others may do cannot take away an unexpired entry |
| `Redlock.LockKeepsHolders` | solutions/challenge09_solution.go:265-269 | an own attempt keeps all earlier successes of the sweep and adds its own |
| `Redlock.RoundTripKeepsFree` | solutions/challenge09_solution.go:264-283 | locking and giving up again leaves as many nodes free as before |
| `Redlock.OthersRespectRely` | solutions/challenge09_solution.go:227-297 | every step of every other client is interference the client loops were proved against |
| `Redlock.OthersRespectRelyThroughout` | solutions/challenge09_solution.go:227-297 | so is all that others do between any two moments of a run |
| `Redlock.StepKeepsInv` | solutions/challenge09_solution.go:259-297 | each section of any client keeps what every call in progress relies on |
| `Redlock.RunKeepsInv` | solutions/challenge09_solution.go:259-297 | so does every run |
| `Redlock.WindowHasQuorum` | solutions/challenge09_solution.go:271-278 | inside its validity window a client holds entries on more than half of the nodes that outlast the window by the drift |
| `Redlock.MutualExclusion` | solutions/challenge09_solution.go:259-297 | for any number of nodes and clients and any interleaving, two clients with different values are never both inside their validity windows for one resource |
| `Redlock.AloneGetsWindow` | solutions/challenge09_solution.go:259-278 | the windows are handed out: for any number of nodes, a call alone in the cluster reaches its own in one sweep |
| `Redlock.FinishedCallLeavesNothing` | solutions/challenge09_solution.go:280-297 | a released or failed call has no entry on any node, then and at every later moment of the run |
| `FencingLock.DistributedLock.Acquire` | solutions/challenge09_solution.go:75-105 | succeeds iff nothing is there, the lock there has run out, or it is the caller's own; then the entry carries caller, time and time to live; a renewal keeps the token, anything else gets the next one |
| `FencingLock.DistributedLock.Release` | solutions/challenge09_solution.go:108-126 | removes the entry iff holder and token match |
| `FencingLock.DistributedLock.Extend` | solutions/challenge09_solution.go:129-141 | restarts the time to live iff holder and token match, expired or not |
| `FencingLock.DistributedLock.Cleanup` | solutions/challenge09_solution.go:57-67 | exactly the entries past their time to live are gone, the others untouched |
| `FencingLock.StepKeepsInv` | solutions/challenge09_solution.go:51-141 | every step keeps tokens distinct and given out, and every unexpired promise backed by the table |
| `FencingLock.RunKeepsInv` | solutions/challenge09_solution.go:51-141 | so does every run |
| `FencingLock.OneHolderAtATime` | solutions/challenge09_solution.go:75-141 | at every moment of every run at most one grant of a resource is unexpired and not given back |
| `FencingLock.AcquiresIffExpiredOrOwn` | solutions/challenge09_solution.go:75-105 | in any state, an acquisition gives its caller the resource for its time to live iff the lock there has run out or is its own; else nothing changes |
| `FencingLock.FreshTokensGrow` | solutions/challenge09_solution.go:95-104 | a grant that is not a renewal carries a larger token than every grant of any earlier moment on any resource, released ones included |
| `FencingLock.SupersededIsPowerless` | solutions/challenge09_solution.go:108-141 | a token no longer on its resource never extends or releases it again, in any continuation |
| `LeaseManager.Manager.AcquireLease` | solutions/challenge09_solution.go:353-383 | refused iff another holder's lease is current; success hands out the manager's own record, renewed or new with the next identifier |
| `LeaseManager.Manager.RenewLease` | solutions/challenge09_solution.go:386-403 | succeeds iff identifier and version match, for the manager's own record and for a copy alike; both then show the same lease |
| `LeaseManager.Manager.ReleaseLease` | solutions/challenge09_solution.go:406-421 | removes the lease iff the identifier matches |
| `LeaseManager.Manager.Cleanup` | solutions/challenge09_solution.go:431-441 | exactly the leases past their expiry are gone |
| `LeaseManager.StepKeepsInv` | solutions/challenge09_solution.go:353-446 | every step keeps identifiers distinct and given out, and unexpired promises backed |
| `LeaseManager.RunKeepsInv` | solutions/challenge09_solution.go:353-446 | so does every run |
| `LeaseManager.OneLeaseAtATime` | solutions/challenge09_solution.go:353-421 | at every moment of every run at most one lease of a resource is unexpired and not released |
| `LeaseManager.AcquiresIffExpiredOrOwn` | solutions/challenge09_solution.go:353-383 | in any state, an acquisition gives its caller the resource for the duration iff the lease there has run out or is its own; else nothing changes |
| `LeaseManager.SupersededIsPowerless` | solutions/challenge09_solution.go:386-421 | an identifier that has left its resource never renews or releases again, with whatever version, aliased record or not |
| `LeaseManager.RenewsAtMostOnce` | solutions/challenge09_solution.go:395-400 | over a whole run one identifier and version renew at most once |
| `CausalBroadcast.Node.constructor` | solutions/challenge10_solution.go:103-111 | all clock entries zero, nothing pending or delivered |
| `CausalBroadcast.Node.SendMessage` | solutions/challenge10_solution.go:114-129 | the message carries the raised clock, and is never ready at its own sender |
| `CausalBroadcast.Node.IsCausallyReady` | solutions/challenge10_solution.go:79-100 | true iff the message is the sender's next one and everything else it knows of is known here |
| `CausalBroadcast.Node.DeliverNow` | solutions/challenge10_solution.go:149-156 | the clock becomes the pointwise maximum and the message is appended to the delivered list |
| `CausalBroadcast.Node.ProcessMessage` | solutions/challenge10_solution.go:132-195 | stops on the stop message, else refines the receive function: deliver and rescan the pending list once, or hold back |
| `CausalBroadcast.MergeStep` | solutions/challenge10_solution.go:150-154 | merging entry by entry in any order gives the pointwise maximum |
| `CausalBroadcast.ReceivedConserves` | solutions/challenge10_solution.go:132-187 | no message is lost or duplicated between pending and delivered, deliveries are only appended, clocks only grow |
| `CausalPass.PassIsGreedy` | solutions/challenge10_solution.go:161-180 | one pass gets at least as far as any choice from the list delivered in list order |
| `CausalPass.NothingBeatsIt` | solutions/challenge10_solution.go:161-180 | a pass that leaves nothing ready has got as far as any order of delivery can |
| `CausalPass.OnePassSufficesIff` | solutions/challenge10_solution.go:132-187 | receiving leaves nothing ready iff, when the message is delivered, the pending list can be delivered in list order as far as in any order, and otherwise iff nothing was ready before |
| `CausalPass.OnePassSufficesIffCausesFirst` | solutions/challenge10_solution.go:161-180 | in a list without copies, iff no deliverable message stands before a deliverable one it depends on |
| `CausalPass.OnePassCanLeaveReady` | solutions/challenge10_solution.go:161-180 | three messages arriving in reverse order leave one ready and pending |
| `CausalOrder.DrainIsRescan` | solutions/challenge10_solution.go:161-180 | the single steps of the rescan compose to the rescan of the loop |
| `CausalOrder.LoopTakesMachineSteps` | solutions/challenge10_solution.go:132-187 | one iteration of the receive loop is a sequence of machine steps |
| `CausalOrder.MergeReady` | solutions/challenge10_solution.go:79-100 | merging a ready message raises its sender's entry by one and changes no other |
| `CausalOrder.EventKeepsHistory` | solutions/challenge10_solution.go:79-187 | every send and delivery keeps the history consistent: clocks grow, numbers are gapless, causes are delivered |
| `CausalOrder.StepKeepsInv` | solutions/challenge10_solution.go:79-219 | every step of any node, with any arrivals, keeps the invariant |
| `CausalOrder.RunKeepsInv` | solutions/challenge10_solution.go:79-219 | so does every run |
| `CausalOrder.CauseHasSmallerClock` | solutions/challenge10_solution.go:114-156 | happened-before implies the vector clocks are ordered pointwise |
| `CausalOrder.CausalDelivery` | solutions/challenge10_solution.go:79-187 | in every run with arbitrary reordering and duplication, whoever delivered the effect delivered the cause earlier, unless it sent the cause itself |
| `CausalOrder.NoDuplicateDelivery` | solutions/challenge10_solution.go:79-187 | no node delivers a message twice |
| `CausalOrder.ClockCountsDeliveries` | solutions/challenge10_solution.go:79-187 | an entry for another node counts the deliveries from it, which are its messages 1, 2, 3, ... in order |
| `CausalOrder.EarliestIsReady` | solutions/challenge10_solution.go:79-129 | the earliest sent message a node has not delivered passes its readiness test |
| `CausalOrder.SomePendingIsReady` | solutions/challenge10_solution.go:79-129 | once everything sent has arrived, an idle node that lacks a delivery has a message among its pending ones that passes the readiness test |
| `LamportOrder.Process.Send` | solutions/challenge10_solution.go:275-295 | the message carries a timestamp larger than any before at this process |
| `LamportOrder.Process.Receive` | solutions/challenge10_solution.go:298-317 | the clock becomes the least value above both its old value and the timestamp |
| `LamportOrder.GetTotalOrder` | solutions/challenge10_solution.go:320-344 | for each message of the lists exactly one by that sender with that timestamp, strictly sorted by timestamp and then sender, nothing else |
| `LamportOrder.Sort` | solutions/challenge10_solution.go:335-341 | a sorted permutation |
| `LamportOrder.SortedIsUnique` | solutions/challenge10_solution.go:335-341 | two strictly sorted lists of the same messages are equal |
| `LamportOrder.OrderIsCanonical` | solutions/challenge10_solution.go:320-344 | the order depends on which messages were collected, not on how often or in what order |
| `LamportOrder.RunKeepsInv` | solutions/challenge10_solution.go:275-317 | clocks climb along every process in every run, concurrent compare-and-swap receives included |
| `LamportOrder.ChainClimbs` | solutions/challenge10_solution.go:275-317 | along every causal chain the clocks strictly grow |
| `LamportOrder.TotalOrderIsCanonical` | solutions/challenge10_solution.go:320-344 | in every run, collections of the same messages yield the same list, each message once |
| `LamportOrder.TotalOrderExtendsCausality` | solutions/challenge10_solution.go:275-344 | a message that happened before another stands before it in the total order |
| `LamportOrder.ClockBoundsChains` | solutions/challenge10_solution.go:275-317 | in every run, no chain of causes that ends with an event has more events than its clock says |
| `LamportOrder.ClockIsReached` | solutions/challenge10_solution.go:275-317 | and some chain has as many: under any interleaving of swaps a Lamport clock is the length of the longest chain of causes |
| `ReorderBuffer.OrderedBuffer.AddMessage` | solutions/challenge10_solution.go:422-472 | the message due is put on the channel, and after it the buffered messages that follow on without a gap, as they came; a later one waits in place of an earlier copy; an older one changes nothing; the key's history grows by this arrival and other keys are untouched |
| `ReorderBuffer.AddDelivers` | solutions/challenge10_solution.go:437-471 | the same of one partition, for any state of it |
| `ReorderBuffer.OrderedBuffer.CheckTimeouts` | solutions/challenge10_solution.go:475-530 | for every key: more than 500 ms after the last delivery the least waiting message goes on the channel and the count goes on behind it; of more than 100 then waiting those 50 or more ahead stay; every partition's history grows by one timer turn |
| `ReorderBuffer.TimerTimesOut` | solutions/challenge10_solution.go:485-521 | the same of one partition, for any state of it |
| `ReorderBuffer.AddIsExact` | solutions/challenge10_solution.go:422-472 | an arrival keeps "delivered 1..k, pending exactly the later arrivals" |
| `ReorderBuffer.DeliversLongestPrefix` | solutions/challenge10_solution.go:422-472 | after any arrivals without timeouts, exactly 1..k were delivered in order, k+1 is the least missing number, and the later ones wait |
| `ReorderBuffer.DeliveredCame` | solutions/challenge10_solution.go:422-521 | in any run, with timeouts, repeats and drops, every message delivered or waiting is one that arrived, content included |
| `ReorderBuffer.WaitingIsLastKept` | solutions/challenge10_solution.go:422-521 | in any run, what waits under a number is the last arrival of it that was ahead of the number due |
| `ReorderBuffer.WaitingIsLatestIffAhead` | solutions/challenge10_solution.go:422-521 | so it is the latest arrival of that number iff that one was ahead of the number due |
| `ReorderBuffer.WaitingIsLatest` | solutions/challenge10_solution.go:422-472 | without timeouts it always is |
| `ReorderBuffer.WaitingCanBeOlder` | solutions/challenge10_solution.go:440-509 | a concrete run in which an older copy waits and the latest one was delivered |
| `ReorderBuffer.ArrivalStaysAhead` | solutions/challenge10_solution.go:422-472 | no arrival ever breaks the increasing order of deliveries; it leaves a passed number waiting iff one waited before, or it repeats a waiting number that is due |
| `ReorderBuffer.TurnBreaksIffStale` | solutions/challenge10_solution.go:485-522 | a timer turn breaks the order iff it is overdue while a passed number still waits; skips and overflow drops are otherwise harmless |
| `ReorderBuffer.RepeatIsDeliveredTwice` | solutions/challenge10_solution.go:440-509 | such a repeat is delivered a second time at the next overdue timer turn |
| `ReorderBuffer.RepeatCanHappen` | solutions/challenge10_solution.go:440-509 | a concrete run that reaches such a repeat |
| `ReorderBuffer.IncreasingIffNoSkipBack` | solutions/challenge10_solution.go:422-522 | over any run with reordering, duplicates, skips and drops, deliveries strictly increase iff no timer turn was overdue while a passed number still waited |
| `ReorderBuffer.NoneTwiceIffNoSkipBack` | solutions/challenge10_solution.go:422-522 | over any run no number is delivered twice iff no timer turn was overdue while a passed number still waited |
| `ReorderBuffer.RunKeepsSent` | solutions/challenge10_solution.go:422-522 | in every run a passed number that still waits has been delivered already |
| `ReorderBuffer.NothingStaleWithoutRepeats` | solutions/challenge10_solution.go:422-522 | a passed number waits only in runs in which some arrival repeated a waiting number that was due |
| `ReorderBuffer.ClimbsWhenNumbersDistinct` | solutions/challenge10_solution.go:422-522 | in particular deliveries strictly increase when no number arrives twice |
| `ReorderBuffer.ChannelInOrder` | solutions/challenge10_solution.go:422-472 | the shared channel, read per key, carries exactly the longest prefix |
| `ReorderBuffer.ChannelCarriesArrivals` | solutions/challenge10_solution.go:422-521 | every message on the shared channel for a key, or waiting for it, arrived for that key as it is |
| `ReorderBuffer.ChannelClimbs` | solutions/challenge10_solution.go:422-522 | the shared channel, read per key, strictly increases if no number of that key came twice |
| `ReorderBuffer.ChannelClimbsIffNoSkipBack` | solutions/challenge10_solution.go:422-530 | the shared channel, read per key, strictly increases, and carries no number twice, iff that key's timer never skipped back |
| `LockFreeQueue.Cell.CompareAndSwap` | solutions/solution08_performance.go:105 | replaces the link iff it is the expected one, and says so |
| `LockFreeQueue.Queue.constructor` | solutions/solution08_performance.go:93-96 | an empty queue: head and tail at the sentinel |
| `LockFreeQueue.Queue.TryLink` | solutions/solution08_performance.go:104-105 | links behind the observed cell iff that is still the last one, keeping the chain acyclic |
| `LockFreeQueue.Queue.Turn` | solutions/solution08_performance.go:101-112 | under interference between any two steps, one turn places the node and sees the tail reach it, or others have linked or moved the tail meanwhile |
| `LockFreeQueue.Queue.Enqueue` | solutions/solution08_performance.go:98-114 | under interference that links finitely often it terminates with its node in the chain behind all that was there before, and the tail at or past it; with no other links the value is appended last and the tail is at the end |
| `LockFreeQueue.RunIsInterference` | solutions/solution08_performance.go:98-114 | all that any enqueues do between two moments of a run is interference the code was verified against: the chain only grows at its end and the tail only moves on |
| `LockFreeQueue.LinkAtEnd` | solutions/solution08_performance.go:104-107 | a successful link happens at the end of the chain, with the tail there |
| `LockFreeQueue.TailMoves` | solutions/solution08_performance.go:106-111 | helping and swinging move the tail forward along the chain or not at all |
| `LockFreeQueue.RunKeepsInv` | solutions/solution08_performance.go:98-114 | the chain invariant holds in every interleaving of any number of enqueuers |
| `LockFreeQueue.ListIsUnique` | solutions/solution08_performance.go:83-91 | the heap determines the list seen from the head |
| `LockFreeQueue.ChainShowsLinks` | solutions/solution08_performance.go:98-114 | following the pointers shows the value of each linked enqueue once, in the order of the successful links |
| `LockFreeQueue.TailLagsAtMostOne` | solutions/solution08_performance.go:98-114 | the tail is the last or second-to-last node, and every returned enqueue is in the chain |
| `LockFreeQueue.RealTimeOrder` | solutions/solution08_performance.go:98-114 | an enqueue that returned before another began stands before it |
| `LockFreeQueue.RetriesAreBounded` | solutions/solution08_performance.go:100-113 | from any moment before it began, an enqueue retries at most twice per link since then, plus once for a lagging tail |
| `LockManager.Manager.AcquireLock` | challenges/challenge31_distributed_transaction.go:385-413 | granted iff no other transaction holds a conflicting lock; conflicting locks never coexist |
| `LockManager.Manager.ReleaseLocks` | challenges/challenge31_distributed_transaction.go:416-432 | the transaction covers nothing afterwards, everyone else's locks stay as they were |
| `LockManager.TablesStayCompatible` | challenges/challenge31_distributed_transaction.go:385-432 | at no point of a history do two transactions hold conflicting locks |
| `LockManager.ReleaseBetween` | challenges/challenge31_distributed_transaction.go:385-432 | between two conflicting accesses the first transaction has released |
| `LockManager.ConflictsFollowRank` | challenges/challenge31_distributed_transaction.go:385-432 | conflicts point from earlier to later releases |
| `LockManager.ConflictGraphIsAcyclic` | challenges/challenge31_distributed_transaction.go:385-432 | no path in the conflict graph of a strict two-phase history returns to its start |
| `LockManager.InsertPreservesMeaning` | challenges/challenge31_distributed_transaction.go:385-432 | moving an access past non-conflicting ones changes neither reads nor the final state |
| `LockManager.Serializable` | challenges/challenge31_distributed_transaction.go:385-432 | the history equals a serial execution: same accesses, same program orders, one transaction at a time, same values read, same final state |
| `MessageBus.SelectPartition` | solutions/solution18_message_bus.go:160-178 | the index is always one of the partitions of the topic |
| `MessageBus.SameKeySamePartition` | solutions/solution18_message_bus.go:160-178 | one non-empty key goes to one partition of a topic, that of its hash, whatever the clock; without a key the clock alone decides |
| `MessageBus.Bus.CreateTopic` | solutions/solution18_message_bus.go:93-117 | succeeds iff the name is new, with that many empty partitions |
| `MessageBus.Bus.Send` | solutions/solution18_message_bus.go:119-158 | unknown topic and zero partitions are the only failures; otherwise the key's partition is its old log and one more message, with this key, value, topic and partition and the next offset, and every other log is unchanged |
| `MessageBus.Bus.ConsumeMessage` | solutions/solution18_message_bus.go:542-566 | whatever others do meanwhile, the message ends up handled if one of three attempts succeeds and dead-lettered otherwise; undisturbed, the offset is committed past it iff it was handled |
| `MessageBus.Bus.ConsumePartition` | solutions/solution18_message_bus.go:510-569 | under any sends and other consumers meanwhile, everything that was in the partition is accounted for to the group afterwards; undisturbed, the refused messages are dead-lettered in order and the offset is past the last accepted one |
| `MessageBus.RefusedInOrder` | solutions/solution18_message_bus.go:541-566 | the messages dead-lettered are exactly those no attempt succeeded on, in offset order |
| `MessageBus.OffsetPastLast` | solutions/solution18_message_bus.go:541-551 | the offset ends past the last message some attempt succeeded on, or stays if there is none |
| `MessageBus.RunIsInterference` | solutions/solution18_message_bus.go:119-604 | all that senders and consumers do between two moments of a run is interference the consumer's code was verified against |
| `MessageBus.BatchTakesMachineSteps` | solutions/solution18_message_bus.go:541-566 | working through a batch is a sequence of machine steps with the outcome the code's loop has |
| `MessageBus.FromIsSuffix` | solutions/solution18_message_bus.go:531-539 | the messages from an offset on are a suffix of the log |
| `MessageBus.RunKeepsInv` | solutions/solution18_message_bus.go:119-604 | accounting holds in every interleaving of sends and any number of consumers of one partition |
| `MessageBus.OffsetsAreIndices` | solutions/solution18_message_bus.go:119-158 | message i of every partition has offset i, always |
| `MessageBus.StoredWasSent` | solutions/solution18_message_bus.go:119-158 | in every run, what stands in a log at an offset was sent there, with that key and value, when the log was that long |
| `MessageBus.SentStays` | solutions/solution18_message_bus.go:119-158 | and what was sent stands there with its key, value and offset ever after |
| `MessageBus.CommittedMeansAccounted` | solutions/solution18_message_bus.go:510-604 | every offset below a group's committed one was handled without error for it, or is in the dead-letter queue on its behalf |
| `MessageBus.WorkedInOrder` | solutions/solution18_message_bus.go:541-566 | a consumer never works on a message before all earlier ones are accounted for |
| `Rebalance.ConsumerGroup.Join` | solutions/solution18_message_bus.go:212-238 | the consumer is recorded as active with its topics |
| `Rebalance.ConsumerGroup.Rebalance` | solutions/solution18_message_bus.go:240-305 | with no active consumer nothing but the generation changes; else exactly the existing non-empty subscribed topics are assigned, each partition to the active consumers in rotation; the rotation goes on from one topic to the next, by one turn for each partition and each listing of the topic |
| `Rebalance.SharesAreBalanced` | solutions/solution18_message_bus.go:286-301 | every active consumer owns the floor or the ceiling of its share of a topic, repeated entries in the collected list notwithstanding |
| `Rebalance.OwnersAreActive` | solutions/solution18_message_bus.go:286-301 | each partition has exactly one owner, and it is active |
| `Rebalance.OwnersSubscribeIffAllDo` | solutions/solution18_message_bus.go:286-301 | for any number of partitions, owners list the topic under every start of the rotation iff every active consumer lists it |
| `Rebalance.OwnersSubscribeIffTurnsDo` | solutions/solution18_message_bus.go:286-301 | in one assignment, every owner lists the topic iff the consumers whose turn comes up do |
| `Rebalance.OwnersSubscribeWhenPlenty` | solutions/solution18_message_bus.go:286-301 | with at least as many partitions as consumers, in one assignment, iff every active consumer does |
| `Rebalance.OwnerNeedNotSubscribe` | solutions/solution18_message_bus.go:212-305 | two consumers join and the rebalance gives one of them a partition of a topic it did not ask for |
| `TaskScheduler.Scheduler.SubmitTask` | challenges/challenge28_task_scheduler.go:188-211 | the submitted one waits last, its dependencies on record if it has any |
| `TaskScheduler.SubmitIsAStep` | challenges/challenge28_task_scheduler.go:188-211 | submitting is a step of the machine: the task waits last in the global queue, its dependencies on record if it has any |
| `TaskScheduler.Scheduler.DependenciesMet` | challenges/challenge28_task_scheduler.go:279-292 | true iff every recorded dependency has completed |
| `TaskScheduler.Scheduler.AvailableWorkers` | challenges/challenge28_task_scheduler.go:264-272 | exactly the idle workers, in order |
| `TaskScheduler.Scheduler.ScheduleTasks` | challenges/challenge28_task_scheduler.go:227-262 | the k-th idle worker gets the task that was k-th in the queue and is busy, if its dependencies are complete; if not, the task stays queued and the worker idle; all other workers are untouched and the tasks not reached wait first; no task is lost or doubled |
| `TaskScheduler.TurnHandsOut` | challenges/challenge28_task_scheduler.go:227-262 | the same for any list of distinct workers and any queues |
| `TaskScheduler.TurnIsSafe` | challenges/challenge28_task_scheduler.go:227-262 | for any list of workers and any queues no task is lost, doubled or handed out before its dependencies completed |
| `TaskScheduler.TurnTakesMachineSteps` | challenges/challenge28_task_scheduler.go:227-262 | a scheduling turn is a sequence of dispatches to the workers on offer and of putting tasks back |
| `TaskScheduler.StealTakesMachineSteps` | challenges/challenge28_task_scheduler.go:322-340 | a steal is taking half of the victim's queue in hand and then giving it to the thief |
| `TaskScheduler.ProcessTakesMachineSteps` | challenges/challenge28_task_scheduler.go:357-408 | processing is taking the front of the worker's queue and then finishing it |
| `TaskScheduler.Scheduler.ProcessTask` | challenges/challenge28_task_scheduler.go:357-408 | runs the front of the worker's own queue and nothing else; only success completes it |
| `TaskScheduler.Scheduler.FindVictim` | challenges/challenge28_task_scheduler.go:306-320 | the first other worker with the longest queue |
| `TaskScheduler.Scheduler.BalanceWork` | challenges/challenge28_task_scheduler.go:294-343 | idle workers in turn take the older half of the longest other queue; as a whole tasks only change hands |
| `TaskScheduler.StealKeepsAll` | challenges/challenge28_task_scheduler.go:322-340 | a steal loses and doubles no task |
| `TaskScheduler.MoveKeepsPartition` | challenges/challenge28_task_scheduler.go:227-416 | moving tasks between places keeps each task in exactly one place |
| `TaskScheduler.RunKeepsInv` | challenges/challenge28_task_scheduler.go:188-416 | the invariant holds in every interleaving of submitting, scheduling, stealing and running |
| `TaskScheduler.ExactlyOnePlace` | challenges/challenge28_task_scheduler.go:188-416 | every submitted task is in exactly one place, once: waiting, with a worker, mid-steal, executing or finished |
| `TaskScheduler.NothingRunsTwice` | challenges/challenge28_task_scheduler.go:294-416 | no task is started twice |
| `TaskScheduler.DependenciesFirst` | challenges/challenge28_task_scheduler.go:279-292 | every dependency of a started task was started before it and has completed |
| `TaskScheduler.CyclesNeverStart` | challenges/challenge28_task_scheduler.go:279-292 | tasks on a dependency cycle never start |
| `GraphStore.GraphDatabase.CreateNode` | challenges/challenge21_graph_database.go:88-110 | succeeds iff the identifier is new |
| `GraphStore.GraphDatabase.CreateEdge` | challenges/challenge21_graph_database.go:113-146 | succeeds iff both ends are stored; the edge sets of both ends stay in step with the edge table |
| `GraphStore.GraphDatabase.ShortestPath` | challenges/challenge21_graph_database.go:306-348 | nil iff no directed path exists; with non-empty identifiers a path with the fewest edges; in general a shortest walk cut after its last empty identifier, hence shortest if no shortest walk meets one and not if all do |
| `GraphStore.GraphDatabase.Restore` | challenges/challenge21_graph_database.go:318-326 | walking the parents back terminates and yields what follows the last empty identifier of the route |
| `GraphStore.GraphDatabase.TraverseBFS` | challenges/challenge21_graph_database.go:149-201 | exactly the nodes at distance below the depth limit, each once, nearer ones first |
| `GraphStore.BallHoldsPaths` | challenges/challenge21_graph_database.go:149-201 | the ball of radius k holds the end of every path of k edges |
| `GraphStore.BallHasPath` | challenges/challenge21_graph_database.go:149-201 | everything in the ball of radius k is the end of such a path |
| `GraphStore.MeetsQueue` | challenges/challenge21_graph_database.go:306-348 | every path from the source is explored up to some node in the queue |
| `GraphStore.FrontIsShortest` | challenges/challenge21_graph_database.go:306-348 | the route recorded for the front of the queue has the fewest edges |
| `GraphStore.NothingMore` | challenges/challenge21_graph_database.go:306-348 | an empty queue means no path leads to an unvisited node |
| `GraphStore.LevelComplete` | challenges/challenge21_graph_database.go:163-198 | a finished level has visited exactly the next ball |
| `GraphStore.CutIsShortestIffNoBlank` | challenges/challenge21_graph_database.go:318-326 | a shortest walk cut that way is still shortest iff no identifier on it is empty |
| `GraphStore.AfterBlankIs` | challenges/challenge21_graph_database.go:318-326 | what the walk back restores is the whole part of the walk behind its last empty identifier |
| `GraphStore.BlankBreaksSearch` | challenges/challenge21_graph_database.go:318-326 | a store whose only shortest walk is cut to something that is not a path at all |
| `GraphStore.SearchBlankStore` | challenges/challenge21_graph_database.go:306-348 | that store, built and searched, gets this answer |
| `GraphStore.BlankOnShortestIff` | challenges/challenge21_graph_database.go:306-348 | some shortest walk meets the empty identifier iff the distances to it and from it add up to the whole distance |
| `GraphStore.BlankAvoidableIff` | challenges/challenge21_graph_database.go:306-348 | some shortest walk avoids it iff the store without it has a walk as short |
| `CheckpointRecovery.Manager.ProcessEvent` | solutions/challenge16_solution.go:339-363 | a new identifier with a number raises exactly its own window's sum by it; one without a number, or a known one, changes no sum; identifier and offset are noted; no checkpoint ever made changes |
| `CheckpointRecovery.WindowSums` | solutions/challenge16_solution.go:339-363 | over any stream with any repetitions, a window holds what it held and the data of each new identifier in it once, and exists iff it did or some such identifier has a number |
| `CheckpointRecovery.Manager.CreateCheckpoint` | solutions/challenge16_solution.go:366-398 | a fresh deep copy, kept among the last few |
| `CheckpointRecovery.Manager.RecoverFromCheckpoint` | solutions/challenge16_solution.go:401-421 | from any checkpoint: the current tally is a fresh copy of it, and one this manager made brings back the past it stands for |
| `CheckpointRecovery.StepsCommute` | solutions/challenge16_solution.go:339-363 | events with different identifiers can be swapped |
| `CheckpointRecovery.SameTallyIffSameIds` | solutions/challenge16_solution.go:339-363 | two streams give the same sums and marks iff they carry the same identifiers, in whatever order and number |
| `CheckpointRecovery.RecoveryIsExactlyOnce` | solutions/challenge16_solution.go:339-421 | checkpoint, crash, recover and replay equals an uninterrupted run iff the replay supplies every lost identifier and none never seen |
| `CheckpointRecovery.CrashAndRecover` | solutions/challenge16_solution.go:339-421 | the same on the code: checkpoint, process, recover and replay from any state equals never having crashed, iff the replay supplies every lost identifier and none never seen |
| `CheckpointRecovery.ManagersAgreeIffSameIds` | solutions/challenge16_solution.go:339-421 | two managers with a common starting point, each with any history of recoveries, agree iff they have seen the same identifiers |
| `Saga.Manager.ExecuteStep` | solutions/challenge14_solution.go:61-98 | succeeds iff already on record or one of the allowed attempts succeeds; takes effect at most once |
| `Saga.Manager.CompensateFrom` | solutions/challenge14_solution.go:114-135 | in reverse order, exactly the executed uncompensated steps are undone, or logged when that fails |
| `Saga.LeftoverNames` | solutions/challenge14_solution.go:118-130 | the names logged are exactly those of executed steps left uncompensated |
| `Saga.Manager.ExecuteSaga` | solutions/challenge14_solution.go:101-148 | stops at the first step that fails; success applied every unrecorded step once in order; failure leaves exactly the logged steps uncompensated, and a fresh saga whose compensations succeed leaves the world as it was |
| `Saga.NoSkipsIffDistinct` | solutions/challenge14_solution.go:65-71 | no step is passed over iff the idempotent steps' identifiers are new and distinct |
| `Saga.UnwindsTo` | solutions/challenge14_solution.go:101-135 | when only the compensations of the first steps fail, the world is as it was after those steps |
| `Saga.FreshLeavesNoTrace` | solutions/challenge14_solution.go:101-135 | unwinding a fresh saga without a failed compensation restores the world |
| `PowChain.Blockchain.constructor` | solutions/solution20_blockchain_consensus.go:53-71 | one first block, difficulty four, nothing to mine, and the chain validates |
| `PowChain.Blockchain.IsValidHash` | solutions/solution20_blockchain_consensus.go:85-91 | the panic on a hash shorter than the difficulty, else true iff the hash begins with as many zeros as the difficulty |
| `PowChain.Blockchain.Search` | solutions/solution20_blockchain_consensus.go:118-141 | finds the least solving nonce, iff there is one among the attempts made |
| `PowChain.Blockchain.MineBlock` | solutions/solution20_blockchain_consensus.go:93-142 | refused while mining or with nothing to mine; else one block goes on the chain iff the search succeeds before it is cancelled; it has the next index, the timestamp, the whole mempool, the tip's hash and the first nonce that solves it, and its own hash; the chain still validates, and exactly what others submitted meanwhile waits |
| `PowChain.WinsMeans` | solutions/solution20_blockchain_consensus.go:73-91 | a nonce is accepted iff the hash of the five fields, that nonce among them, has the leading zeros |
| `PowChain.Blockchain.AddTransaction` | solutions/solution20_blockchain_consensus.go:144-148 | the transaction waits last |
| `PowChain.Blockchain.ValidateChain` | solutions/solution20_blockchain_consensus.go:150-175 | true iff every block after the first hashes right, links to its predecessor and carries the work |
| `PowChain.ValidMeans` | solutions/solution20_blockchain_consensus.go:150-175 | for any chain, that is the stored hash, the link and the leading zeros of each block after the first |
| `PowChain.StepKeepsInv` | solutions/solution20_blockchain_consensus.go:93-148 | every step of any number of callers keeps chain, flag and transaction accounts in order |
| `PowChain.RunKeepsInv` | solutions/solution20_blockchain_consensus.go:93-148 | so does every run |
| `PowChain.ChainStaysValid` | solutions/solution20_blockchain_consensus.go:93-175 | at every moment of every run, cancelled calls included, the validator accepts the chain and block k has index k |
| `PowChain.OneMinerAtATime` | solutions/solution20_blockchain_consensus.go:94-98 | at most one caller is between raising and lowering the flag |
| `PowChain.TransactionsAreConserved` | solutions/solution20_blockchain_consensus.go:100-148 | between mining calls every submitted transaction is in the mempool, in the chain, or was dropped by a cancelled call, as often as it was submitted |
| `PowChain.ConfirmedAtMostOnce` | solutions/solution20_blockchain_consensus.go:93-148 | a transaction submitted once occurs at most once across mempool, block in progress and chain |
| `PowChain.NothingMissingIffNeverCancelled` | solutions/solution20_blockchain_consensus.go:100-148 | between mining calls mempool and chain together hold every submitted transaction, as often as submitted, iff no call so far was cancelled |
| `PowChain.CancelLosesTransaction` | solutions/solution20_blockchain_consensus.go:115-123 | a concrete run after which a submitted transaction is neither waiting nor in the chain |
| `PowChain.TipPinsHistory` | solutions/solution20_blockchain_consensus.go:73-175 | two valid chains with one tip hash agree on every hashed field, counted from the end, or two of their own blocks at one distance from the end, no farther than the one compared, collide |
| `PowChain.RewriteIsNoticed` | solutions/solution20_blockchain_consensus.go:150-175 | a block put in place of one below the tip goes unnoticed iff it has the same hash and link, so that different content collides with the very content it replaces |
| `SlidingWindow.Limiter.constructor` | solutions/solution04_rate_limiter.go:159-164 | nothing admitted yet |
| `SlidingWindow.Limiter.Allow` | solutions/solution04_rate_limiter.go:166-188 | admits iff fewer than the rate of all past admissions lie in the window ending now, although older ones are forgotten |
| `SlidingWindow.CountIs` | solutions/solution04_rate_limiter.go:166-188 | the window is open at its beginning and closed at its end |
| `SlidingWindow.Limiter.WaitForSlot` | solutions/solution04_rate_limiter.go:190-194 | under competition no slot is wasted: a caller that failed after sleeping a window saw at least `rate` others admitted since it began; with nobody competing and a positive rate it ends within a window; with a rate of zero or less it never does |
| `SlidingWindow.PruneTracks` | solutions/solution04_rate_limiter.go:173-180 | the pruned list counts every window still of interest like the full history |
| `SlidingWindow.AdmitKeepsSmooth` | solutions/solution04_rate_limiter.go:182-186 | an admission keeps the bound on every interval of one window's length |
| `SlidingWindow.RateIsKept` | solutions/solution04_rate_limiter.go:166-188 | over any calls with monotone time, no interval (t, t+window] holds more than the rate of admissions |

## Left out

- Printing, demo drivers, tickers, and the programs outside `challenges/` and `solutions/`: input, output and user interface.
- PBFT and Raft in solutions/solution20_blockchain_consensus.go: the network between nodes is a stub, so no cluster-wide claim is decided by the code.
- `DetectCycle`, properties, indexes and weights of the graph store; edges are identified by source, target and type.
- Data races of the graph store: its operations are modelled one at a time.
- GraphStore.GraphDatabase.CreateEdge: not stated for an edge from a stored node to itself, on which the code would lock one mutex twice and never return.
- Capacity of the delivery channels, and blocking on them.
- Process identifiers of the Lamport clock are numbers in the sort order of the names.
- The orchestrated saga, execution logs and retry delays; re-running a compensated saga is modelled only as far as the history of identifiers goes.
- `Transaction.Read`, `Write` and `Commit`, timestamps on locks and the wait graph: they do not take part in the lock manager's decisions, so the locking discipline is a hypothesis about histories.
- `CommitTransaction`, health checks, replication, and `ConsumeWithRetry` around the partition loop of the message bus.
- The scheduler's metrics, priorities, generated identifiers for tasks without one, and worker shutdown.
- FencingLock.DistributedLock.Extend: modelled as an exclusive section; the code takes the lock for reading, so two extensions by one holder may race on timestamp and time to live.
- PowChain.Blockchain.Search: termination of the nonce search without cancellation; the context is done after some number of attempts, which is a parameter.
- SlidingWindow.Limiter.WaitForSlot: the number of attempts is a parameter, where the code tries without end.
- CheckpointRecovery.Manager.RecoverFromCheckpoint: the processed-event counter and offset bookkeeping beyond the copied offset.
- Hash functions (SHA-256, FNV), floating point amounts and 64-bit wrap-around of counters and times.
- The token bucket, ticker and worker-pool limiters of solutions/solution04_rate_limiter.go.

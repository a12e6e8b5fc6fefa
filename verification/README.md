# ZAF: the runtime's protocols, modelled and proved

ZAF is an actor runtime. Its hard part is a handful of hand-written protocols, and each of them is a
group of modules here.

- **Delivery queue and wake-up.** `Words`, `RingSlots`, `RingGrowth` and `DeliveryQueue` are the
  single-writer single-reader ring over wrapping 32-bit indices, as an object with growth, drains and the
  flag `may_have_message`. `WakeUp`, `WakeUpInvariant`, `WakeUpTheorems` and `Stranding` are the same ring
  cut into single accesses, with any number of senders, one receiving actor, its list of active queues and
  its Consumption messages, in every interleaving; `WakeUpProgress` is how they go on from any moment.
  `ConsumeActor` is the reader's code over the same state.
- **Net gates.** `NetGate`, `NetGateChannel`, `NetGateLookup`, `NetGateSteps`, `NetGateTheorems` and
  `NetGateProgress` are any number of machines whose gates ping each other over a lossy network, hold messages
  back until a pong, and look actors up by name; `NetGateRuns` ties the gates' records to what was done in a
  run, and `NetGateActor` is one gate as an object. `Bytes`, `Frames`, `NetSender`, `NetSenderRuns` and
  `SenderActor` are the actors that batch, flush and parse what machines send each other.
- **Requests.** `Requests`, `RequestProofs` and `RequestTheorems` are one actor whose handlers wait for
  responses in `on_reply`, to any depth, with an explicit stack of handlers. `RequestRuns` is what a piece of
  user code comes to, as a function of the state and of the messages to come; `RequestPlays` says what playing
  user code on the machine means, frame by frame, and that the function is what is played. `RequestActor` is
  the nested loops and calls of the code, which compute that function and whose moments are reachable states
  of the machine.
- **Groups and executors.** `ActorGroup` is the waiting for all actors to be done. `Executor` and
  `ExecutorActor` are an executor's loop over vectors it shrinks while it runs; `LoadRebalance` chooses who
  passes an actor on, and `Migration`, `MigrationTheorems`, `MigrationRuns`, `MigrationTermination` and
  `MigrationStranding` are several executors that count their rounds, are asked to pass actors on by that
  choice, and end.
- **Wire format.** `Wire`, `WireTheorems` and `Serializer` are the recursive encoder and decoder, the length
  of a message body filled in afterwards, and the bytes of a message to another machine; `WireLayout` is the
  same format read as positions in a buffer.

Objects that the runtime updates in place are classes whose methods are tied to functions on values; what
the protocols promise is then proved about those functions, about every reachable state, or about every run.
Threads are state machines whose steps are single loads, stores, exchanges or handled messages. A socket is
a first-in first-out channel, or one that may lose, repeat and reorder where pings travel. Handlers of one
statement have contracts of the same kind; the table lists the theorems and the members with loops.

## What the code does that one might not expect

- `pop_some` with two arguments passes `max_empty_read` as the budget of a drain (line 268 of
  `swsr_delivery_queue.hpp`), not `max_messages_read`. Both are 100 by default. The model takes the budget as
  a parameter.
- A reader may go to sleep on a non-empty queue of another sender. This can happen exactly if the budget of a
  drain is smaller than the capacity (`Stranding.NoLostWakeUpExactly`); the defaults, 100 and 2^15, are such a
  pair. Its queue to itself is safe with any positive budget.
- Growth under `Resize` moves the wrapped prefix. This is right exactly if bit `cap` of `read_idx` is 0
  (`RingGrowth.FaithfulExactlyWhenAligned`); otherwise the oldest items are no longer found,
  which happens at every capacity (`RingGrowth.EveryCapacityMisplaces`).
- A reply handler's `deactivate` is undone when `on_reply` had to wait and the actor was active
  (`RequestTheorems.DeactivationLastsExactly`).
- The condition on which `await_all_actors_done` waits has a second half that nobody notifies: the waiter can
  miss it exactly while somebody is alive who is not detached (`ActorGroup.UnnotifiedExactly`).
- Two external Terminations can stop a sender with messages in its buffer (`NetSender.StopsDrainedExactly`).
  Those that come through a delivery queue are followed by a flush; it is their delayed copies, which go through
  the plain mailbox, that meet there.
- An actor whose `start` deactivates it is neither stopped nor deleted nor counted down, so its group is never
  done; the same happens to an actor transferred to an executor that `terminate` has already stopped, and to one
  spawned after that (`MigrationStranding.TerminationFinishesExactly` says exactly when nobody is left).
- Lengths of contents and bodies are cast to 32 bits, so both are read back only below 2^32 bytes
  (`Frames.FrameRoundTripExactly`, `WireTheorems.RoundTripExactly`).

## Model

| member | source | states |
|---|---|---|
| WakeUpTheorems.NoLostWakeUp | core/zaf/swsr_delivery_queue.hpp:215-264 | In every interleaving, if one drain can take a full queue, then whenever a sender is not inside the end of a push, the reader sleeps on its queue and no notification is in flight, everything published has been handled |
| WakeUpTheorems.OwnQueueNeverStrands | core/zaf/swsr_delivery_queue.hpp:249-264 | The actor's queue to itself, written only while its own handlers run, never loses a wake-up if a drain takes anything at all, whatever its capacity |
| WakeUpTheorems.BlockedWriterIsAttended | core/zaf/swsr_delivery_queue.hpp:155-171 | With any positive budget, a sender blocked in `push` by a full queue has the reader's attention or a notification on its way to it, in every interleaving |
| Stranding.NoLostWakeUpExactly | core/zaf/swsr_delivery_queue.hpp:249-269 | For each sender the promise holds in all reachable states if and only if the budget is at least the capacity; for the actor itself, if and only if the budget is positive |
| Stranding.StrandingRun | core/zaf/swsr_delivery_queue.hpp:249-264 | For every budget below the capacity and every sender other than the actor itself, a run that ends with the excess of a full queue left and nobody about to wake the reader |
| Stranding.ZeroBudgetRun | core/zaf/swsr_delivery_queue.hpp:230-241 | With a budget of zero, a run that leaves a message in any queue, the actor's own included |
| Stranding.BlockedIsAttendedExactly | core/zaf/swsr_delivery_queue.hpp:155-264 | For every sender this holds in all reachable states if and only if the budget is positive |
| WakeUpProgress.CanBeDeliveredExactly | core/zaf/swsr_delivery_queue.hpp:215-264 | From every reachable state all that a sender has published can be handled without anything new being sent, if and only if the budget is at least the capacity, or positive for the actor itself |
| WakeUpProgress.CanBeDelivered | core/src/actor_behavior_x.cpp:41-112 | The continuation: the reader finishes its visits, pushes under way end, mail is read, and consumptions follow until the queue is empty |
| Stranding.DefaultsStrand | core/zaf/swsr_delivery_queue.hpp:59-61 | With a capacity of 2^15 and a budget of 100 there is a reachable state where everything sleeps and 32668 messages are left |
| WakeUpTheorems.SleepLeavesTheExcess | core/zaf/swsr_delivery_queue.hpp:249-264 | The step that takes a queue off the list leaves exactly max(0, backlog - budget) of the items in the snapshot of its final drain |
| WakeUpTheorems.FlagCountsTokens | core/zaf/swsr_delivery_queue.hpp:101-112 | `may_have_message` is true exactly when one token exists: a writer about to notify, a notification in flight, or a listed queue not yet past the store of false; there are never two |
| WakeUpTheorems.OneConsumptionOutstanding | core/src/actor_behavior_x.cpp:13-19 | No queue is listed twice, and between two handlers exactly one Consumption is outstanding if the list is not empty and none otherwise |
| WakeUpTheorems.NotificationFindsItsQueue | core/src/actor_behavior_x.cpp:68-74 | A notification finds its queue registered and not listed, so the lookup cannot fail |
| WakeUpTheorems.FirstInFirstOut | core/zaf/swsr_delivery_queue.hpp:155-206 | Handled, then the slots between the wrapping indices, is what was published, in order, never beyond the capacity, in every interleaving |
| WakeUpTheorems.GivenIsHandled | core/zaf/swsr_delivery_queue.hpp:155-206 | In every run: handled, then in the slots, then in the sender's hand, is what the sender was given to push, in order |
| WakeUpTheorems.StepKeepsInv | core/src/actor_behavior_x.cpp:41-112 | Every step of every sender and of the reader keeps the invariant of the whole system |
| ConsumeActor.ActorBehaviorX.HandleConsumption | core/src/actor_behavior_x.cpp:13-19 | With the senders acting between any two accesses, a run of the step machine leads from the state before to the state after; every listed queue had exactly one turn despite the swap-removes, no other queue was touched, exactly those that stored false in this consumption are no longer listed, and the next Consumption is sent exactly if some are |
| ConsumeActor.ActorBehaviorX.ConsumeSwsrRecvQueues | core/src/actor_behavior_x.cpp:76-112 | The loop over the list it takes entries out of: the same for the turns and the list |
| ConsumeActor.ActorBehaviorX.VisitQueue | core/zaf/swsr_delivery_queue.hpp:249-264 | One turn: the queue goes to sleep only at the last allowed empty read in a row, and then its count starts again; a read that finds nothing is counted, one that finds something starts the count again; no other queue is touched |
| ConsumeActor.ActorBehaviorX.PopSome | core/zaf/swsr_delivery_queue.hpp:230-241 | The drain stops at the snapshot or the budget, appends as many items to the handled ones as it counts, and touches no other queue |
| ConsumeActor.ActorBehaviorX.NotifySwsrQueue | core/src/actor_behavior_x.cpp:68-74 | A notification always finds a known queue that is not listed, lists it last, and one Consumption is then outstanding |
| RingSlots.StaleWriterIsSafe | core/zaf/swsr_delivery_queue.hpp:155-191 | A writer that saw room through any older value of `read_idx` overwrites no slot the reader may still read |
| RingSlots.FullTest | core/zaf/swsr_delivery_queue.hpp:119-121 | The comparison of wrapping indices is true exactly when the ring holds `cap` items, for every capacity up to 2^31 |
| RingSlots.WindowIsTheRest | core/zaf/swsr_delivery_queue.hpp:129-131 | The items between the wrapped indices are the part of the log not popped yet, and their number is the wrapped difference |
| RingGrowth.GrowthKeeps | core/zaf/swsr_delivery_queue.hpp:172-178 | With bit `cap` of `read_idx` 0, moving the wrapped prefix keeps every item where the larger mask looks for it |
| RingGrowth.GrowthMisplaces | core/zaf/swsr_delivery_queue.hpp:172-178 | With the bit 1, the oldest cap - (read_idx mod cap) items are replaced by blanks and the others are kept |
| RingGrowth.OtherHalfKeeps | core/zaf/swsr_delivery_queue.hpp:172-178 | With the bit 1, copying the other half would keep every item |
| RingGrowth.FaithfulExactlyWhenAligned | core/zaf/swsr_delivery_queue.hpp:155-206 | A run of pushes and pops under Resize behaves as a FIFO at every point if and only if each of its growths happens while the bit is 0 |
| RingGrowth.EveryCapacityMisplaces | core/zaf/swsr_delivery_queue.hpp:155-206 | For every capacity 2^k below 2^31 a run of a fresh ring that is not FIFO: as many items as the capacity pass through, then one more than the capacity is pushed |
| DeliveryQueue.SwsrDeliveryQueue.Grow | core/zaf/swsr_delivery_queue.hpp:172-178 | Growth in place gives the contents back, or those with the oldest blanked, depending on the bit |
| DeliveryQueue.SwsrDeliveryQueue.Push | core/zaf/swsr_delivery_queue.hpp:155-191 | Refused exactly if full under Giveup, and then nothing changes; otherwise the item is appended to the contents, or to the misplaced ones after a bad growth |
| DeliveryQueue.SwsrDeliveryQueue.PopOne | core/zaf/swsr_delivery_queue.hpp:195-206 | The first item is handled, then its slot given back; what its handler sent is queued at the end |
| DeliveryQueue.SwsrDeliveryQueue.PopSome | core/zaf/swsr_delivery_queue.hpp:230-241 | Exactly the prefix allowed by snapshot, budget and stop flag is handled, even when handlers push and the ring grows; the rest and what was sent remain, in order |
| DeliveryQueue.SwsrDeliveryQueue.PopSomeOrSleep | core/zaf/swsr_delivery_queue.hpp:249-264 | The reader sleeps at the last allowed empty read in a row, with the flag stored false first; otherwise the allowed prefix was handled and the count starts again |
| NetGateTheorems.ReliableOrderedChannel | core/zaf/net_gate.hpp:105-121 | Handled, then on the wire, then held back, is the log of sends in order; nothing is held back after a pong; the request for the data connection is logged once and first |
| NetGateTheorems.ReceiverKnowsSender | core/src/net_gate.cpp:278-292 | If a peer ponged or anything is in flight to it, both gates have a record of each other |
| NetGateTheorems.NoGateFails | core/src/net_gate.cpp:207-292 | In no run does a handler look up a missing connection or a missing list of askers |
| NetGateTheorems.HandshakeGoesOn | core/src/net_gate.cpp:347-353 | Until the pong there is exactly one retry timer, and a ping of the peer can always be delivered |
| NetGateRuns.TimerEnds | core/src/net_gate.cpp:347-353 | A retry timer that fires pings and is set again until the pong, and is not set again after it |
| NetGateTheorems.LookupIsOneToken | core/src/net_gate.cpp:242-277 | Somebody waits for a name of a peer exactly when there is one token for it: request under way, queued at the peer, or reply under way |
| NetGateTheorems.EveryAskerAnsweredOnce | core/src/net_gate.cpp:242-277 | The answered followed by the waiting are all who asked, in order |
| NetGateTheorems.QuietMeansAnswered | core/src/net_gate.cpp:223-277 | Once the name is registered and nothing is under way, everybody was answered, whatever came first |
| NetGateProgress.EverybodyCanBeAnswered | core/src/net_gate.cpp:223-292 | From every reachable state there is a continuation that answers everybody who asked a live peer for a name registered there |
| NetGateProgress.WaitingGoesOn | core/src/net_gate.cpp:242-292 | As long as somebody waits for such a name, either the request or the reply is under way, and on its way the next message can be delivered, or it is held back and the ping it waits for can arrive |
| NetGateTheorems.ReplyFindsItsAskers | core/src/net_gate.cpp:264-277 | The next reply of a peer finds a non-empty list of askers |
| NetGateTheorems.AnswersAreTrue | core/src/net_gate.cpp:223-277 | Every answer names an actor that was registered under that name at that peer |
| NetGateRuns.RegistryIsLast | core/src/net_gate.cpp:223-240 | In every run the registry of a gate holds, under each name, the actor registered there last, and none if none was |
| NetGateRuns.AnsweredWithLast | core/src/net_gate.cpp:251-263 | A lookup that reaches a gate is answered at once with the actor registered last, and kept, last in the queue, if there is none |
| NetGateRuns.RegistrationAnswers | core/src/net_gate.cpp:223-240 | A registration sends its actor to everybody queued, once for each time it is queued, and empties the queue |
| NetGateRuns.ReplyTellsItsActor | core/src/net_gate.cpp:264-277 | A reply tells everybody who waits the actor it carries |
| NetGateRuns.EveryAskerOnce | core/src/net_gate.cpp:242-277 | In every run the answered followed by the waiting are the askers of the run, in order |
| NetGateRuns.FirstAsksForThePort | core/src/net_gate.cpp:367-394 | Two gates are connected exactly if something had one connect to the other, and its first message asks for a data connection to the port given then |
| NetGateActor.NetGateActor.ActorLookupReq | core/src/net_gate.cpp:242-250 | Only the first of several askers sends a request |
| NetGateActor.NetGateActor.ActorRegistration | core/src/net_gate.cpp:223-240 | The loop replies to every queued requester in order and empties the queue |
| NetGateActor.NetGateActor.RemoteActorLookupRep | core/src/net_gate.cpp:264-277 | The loop answers all askers and removes the entry |
| NetGateActor.NetGateActor.ReceivePong | core/src/net_gate.cpp:355-366 | The loop sends what was held back, in order, and only for the first pong |
| NetSender.StopsOnlyWhenDrained | core/src/net_gate.cpp:105-165 | With one external Termination a sender stops only with nothing pending and an empty buffer |
| NetSender.TwoTerminationsLose | core/src/net_gate.cpp:105-145 | With two or more, all of them handled inside a consumption and its flush, there is a run that stops with a message in the buffer |
| NetSender.StopsDrainedExactly | core/src/net_gate.cpp:105-165 | A sender always stops drained if and only if at most one external Termination is sent |
| NetSender.EndToEnd | core/src/net_gate.cpp:27-63 | What the receiver parsed from all batches, then the buffered, then the pending, is the log of forwarded messages in order; the counter is the number of whole frames in the buffer |
| NetSenderRuns.FlushesAll | core/src/net_gate.cpp:152-169 | In every run of fewer than 2^32 messages, the end of a consumption and the handler of FlushBuffer put exactly what is buffered on the wire, as one batch, and leave nothing |
| NetSenderRuns.StopsFlushedInConsumption | core/src/net_gate.cpp:121-169 | However many Terminations are sent, a sender that one of them deactivates during a consumption stops with nothing buffered; if it was connected, everything forwarded is on the wire |
| NetSenderRuns.ForwardedArrives | core/src/net_gate.cpp:27-63 | In every run of fewer than 2^32 messages, what the receiver parsed, then what is buffered, then what is held back, is what was forwarded, in order |
| NetSenderRuns.NeverWraps | core/src/net_gate.cpp:143-150 | The count of a batch wraps only in runs of 2^32 messages or more |
| NetSenderRuns.AsksToFlushExactly | core/src/net_gate.cpp:143-150 | A message makes the sender ask itself for a flush exactly if it finds the buffer empty |
| SenderActor.SenderActor.HandleDataConnReq | core/src/net_gate.cpp:105-120 | The loop buffers what was held back, in order |
| Frames.FrameRoundTripExactly | core/zaf/message_bytes.hpp:21-43 | A frame followed by anything is parsed back if and only if its content is shorter than 2^32 bytes |
| Frames.BatchRoundTrip | core/src/net_gate.cpp:27-63 | A batch of frames is parsed into those frames and what follows them |
| Frames.Receiver.ReceiveOnceFromNet | core/src/net_gate.cpp:27-63 | The parsing loop gives the frames of the batch, or fails where it would read past its end |
| Bytes.LeRoundTrip | core/zaf/serializer.hpp:19-22 | Reading a number back from its low bytes gives the number if it fits |
| RequestTheorems.NothingLostOrReordered | core/src/actor_behavior.cpp:417-460 | Started, then stashed, then in the mailbox, is the sequence of arrivals, at any depth of waiting, even while the front of the stash is being handled |
| RequestTheorems.QuietMeansAllStarted | core/zaf/actor_behavior.tpp:98-103 | Back in the actor's own loop with nothing to read, every arrival was started and nobody waits |
| RequestTheorems.RoutedToItsOwnHandler | core/src/actor_behavior.cpp:386-460 | A reply handler gets the response to its own request and gets it once |
| RequestTheorems.IgnoredOnlyWhenDestroyed | core/src/actor_behavior.cpp:491-503 | A response is ignored only if its request handler was destroyed |
| RequestTheorems.AwaitedIsNeverDropped | core/src/actor_behavior.cpp:417-460 | The awaited response is neither stored nor ignored, and once given it is in the mailbox exactly once |
| RequestTheorems.OneUnreceivedWait | core/src/actor_behavior.cpp:417-460 | Of all the waits on the stack only the innermost can lack its response |
| RequestTheorems.OnReplyFindsItsEntry | core/src/actor_behavior.cpp:421-426 | A live request handler finds its entry, and in it nothing but its own response |
| RequestTheorems.WaitEndsWithItsResponse | core/src/actor_behavior.cpp:430-457 | A wait ends only after its response was handled, and leaves the actor as active as it was |
| RequestTheorems.DeactivationLastsExactly | core/src/actor_behavior.cpp:430-456 | Deactivating in a reply handler lasts if and only if the reply had been stored before, or the actor was not active then |
| RequestActor.ActorBehavior.OnReplyTo | core/src/actor_behavior.cpp:417-460 | `on_reply`, with handlers that call it again, computes `RunOnReply` and plays the code: the handler's steps are executed in a frame of its own; the response of this request was not handled before and, when it returns, is the first one handled since; nothing was started, what came in meanwhile is at the end of the stash in order, and handlers on the stack and waits are as before. It fails to return only if a wait gets no message any more or a request handler is missing |
| RequestActor.ActorBehavior.Wait | core/src/actor_behavior.cpp:428-457 | The receive loop of a wait computes `RunWait`: begun active, it handles its own response first, and the actor is then exactly as active as it was before the wait |
| RequestActor.ActorBehavior.ReceiveOnceWaiting | core/src/actor_behavior.cpp:432-452 | One turn of a wait computes `WaitTurn`: the message taken is the awaited response, whose handler runs, another response, which is stored or ignored, or an ordinary message, which goes to the end of the stash |
| RequestActor.ActorBehavior.ReceiveLoop | core/src/actor_behavior.cpp:173-178 | The actor's own loop computes `RunLoop` and plays the code of each message it starts; when it ends, what was started and stashed before, followed by what was taken from the incoming, is what is started and stashed now, nobody waits, and every handled response went to its own request once |
| RequestActor.ActorBehavior.ReceiveOnce | core/zaf/actor_behavior.tpp:98-103 | One turn of it computes `LoopTurn`: the front of the stash goes first and is popped after its handler, which may wait, returned; otherwise the next message is taken |
| RequestRuns.OnReplyProgress | core/src/actor_behavior.cpp:417-460 | For every state, all messages to come and every handler, nested to any depth: nothing is started, exactly the messages taken are recorded, the ordinary ones are stashed in order, and the first response handled is the one asked for |
| RequestRuns.WaitProgress | core/src/actor_behavior.cpp:428-457 | The same for the wait, which leaves the actor exactly as active as it was |
| RequestRuns.RunLoopInOrder | core/zaf/actor_behavior.tpp:98-103 | When the actor's own loop ends, started followed by stashed is what it was followed by the ordinary messages taken, whatever the handlers wait for |
| RequestPlays.StepsPlay | core/src/actor_behavior.cpp:417-460 | For user code nested to any depth: a run of the stack machine leads to the result in which the code of every frame is executed step by step and to the last, each awaited handler's in a frame of its own; activating, deactivating, requesting and dropping are the machine's own actions; and if the code did not return, the step it stands before is one for a missing request handler, or it waits for nothing |
| RequestPlays.OnReplyPlay | core/src/actor_behavior.cpp:417-460 | The same for `on_reply`: the handler runs when the response is there, stored or awaited, and completely before the code after it |
| RequestPlays.LoopPlay | core/zaf/actor_behavior.tpp:98-103 | The same for the actor's own loop: the code of each message it starts runs in a frame of its own, completely before the next message |
| RequestTheorems.HistoriesOfRun | core/src/actor_behavior.cpp:173-178 | In every run the arrivals are what came in, the started are the messages whose handlers were entered, and the handled responses those whose handlers were entered, in order |
| RequestTheorems.LoopEndsByDeactivating | core/src/actor_behavior.cpp:173-178 | However active the actor was before, its loop does not end unless user code in it deactivates; waiting for replies in between does not end it |
| RequestTheorems.DeactivationUndone | core/src/actor_behavior.cpp:430-456 | From every moment of active user code with an empty mailbox a run leads to a reply handler whose deactivation is undone |
| ActorGroup.NoLostAliveNotification | core/src/actor_group.cpp:20-54 | A waiter blocked although alive equals detached has a thread that will notify it, in every interleaving |
| ActorGroup.NoLostAllNotification | core/src/actor_group.cpp:4-54 | The same for the wait for zero |
| ActorGroup.PromiseIsKept | core/src/actor_group.cpp:36-54 | Such a thread, left alone, wakes the waiter |
| ActorGroup.AllPromiseIsKept | core/src/actor_group.cpp:44-54 | The same for the wait for zero |
| ActorGroup.ReturnsOnlyAfterZero | core/src/actor_group.cpp:4-18 | Every run at whose end `await_all_actors_done` has returned has a moment at which it loaded the counter while no actor was alive |
| ActorGroup.FlushesOnlyAfterEqual | core/src/actor_group.cpp:20-29 | In every run each arrival at the terminators is by a test that loaded the detached counter equal to the alive counter it had loaded before, both moments given as steps of the run |
| ActorGroup.TestsExactly | core/src/actor_group.cpp:11-29 | In every run what a test leads to, flushing, waiting, or looking again, depends exactly on whether its two loads agree |
| ActorGroup.ReturnsExactlyWhenAllDone | core/src/actor_group.cpp:4-29 | From every reachable state, with nobody updating a counter any more, the waiter can come to its return by its own steps and those of threads about to notify if and only if nobody is alive |
| ActorGroup.NotifiesExactly | core/src/actor_group.cpp:35-54 | A thread goes on to notify exactly if what its update left equals what it loads of the other counter, or left nobody alive |
| ActorGroup.CountersOfRun | core/src/actor_group.cpp:31-58 | The counters are the ups and downs of the run |
| ActorGroup.BecomesTrueExactly | core/src/actor_group.cpp:11-16 | While the waiter stays blocked its condition becomes true exactly by a new actor or by one that is no longer detached, and neither notifies |
| ActorGroup.TrueOnlyByOthers | core/src/actor_group.cpp:11-16 | If neither happened since the waiter's load, its condition is still false, so no notification is missing |
| ActorGroup.UnnotifiedExactly | core/src/actor_group.cpp:4-58 | With these counters the waiter can be blocked, its condition true and no thread about to notify it if and only if somebody is alive who is not detached |
| Executor.RoundRunsEachReadyOnce | core/src/actor_engine.cpp:169-197 | In a round each actor that was ready at the poll and is still hosted after the executor's own command runs exactly once and nobody else runs; it is finished exactly if it ran and did not stay; the vectors stay aligned and without repeats |
| Executor.SweepRuns | core/src/actor_engine.cpp:169-197 | From any index on, the loop with its swap-removes runs exactly the ready entries and finishes exactly those that do not stay |
| Executor.SweepAligned | core/src/actor_engine.cpp:182-195 | Every actor stays beside its own handlers and its own poll item |
| Executor.CommandKeepsReady | core/src/actor_engine.cpp:113-154 | NewActor, Rebalance and ActorTransfer in the middle of a round neither make a hosted actor ready nor take its readiness away |
| Executor.CommandAligned | core/src/actor_engine.cpp:113-154 | They keep the vectors aligned, and an actor sent away carries its own handlers |
| ExecutorActor.ExecutorActor.HandleRebalance | core/src/actor_engine.cpp:122-137 | One hosted actor, with its handlers, leaves all three vectors and is sent; nothing if none is hosted |
| ExecutorActor.ExecutorActor.RunEntry | core/src/actor_engine.cpp:170-196 | One iteration: run if ready, and swap-remove without skipping the entry moved in |
| ExecutorActor.ExecutorActor.RunRound | core/src/actor_engine.cpp:169-197 | The loop over the changing vectors is the round described above |
| ExecutorActor.ExecutorActor.Stop | core/src/actor_engine.cpp:213-222 | Everybody still hosted is finished, in order |
| MigrationTheorems.ExactlyOnePlace | core/src/actor_engine.cpp:113-222 | In every run of any number of executors every spawned actor is in exactly one place once: on its way to an executor, hosted, dropped or finished; and its own handlers are with it |
| MigrationTheorems.HostedDistinct | core/src/actor_engine.cpp:113-222 | No executor hosts an actor twice, and no command brings one it already hosts |
| MigrationTheorems.EveryRoundIsExact | core/src/actor_engine.cpp:160-197 | In every run, whatever the other executors do meanwhile, a round that is through has run each actor that was ready at the poll and still hosted after the command exactly once and nobody else, and has finished exactly those of them that did not stay |
| MigrationRuns.RoundFromThePoll | core/src/actor_engine.cpp:160-197 | In every run: an actor that was hosted and whose socket had something at the poll, and that is still hosted after the command, runs exactly once in the round, and nobody else runs, whatever the other executors do |
| MigrationRuns.CountsAreRounds | core/src/actor_engine.cpp:202-212 | In every run the counts are the rounds made since the last rebalancing |
| MigrationRuns.BalancesByRounds | core/src/actor_engine.cpp:77-106 | In every run a rebalancing happens only when some executor made a whole period of rounds since the last one, and asks exactly those whose rounds are too far behind those of their mirror executor, and nobody else gets mail |
| MigrationRuns.DeactivatedExactly | core/src/actor_engine.cpp:113-154 | An executor is deactivated by a Termination, or by the start of a new actor that throws, and by no other step |
| MigrationRuns.EverybodyCanGo | core/src/actor_engine.cpp:122-137 | For each hosted actor there is a random number that gives it away, with its own handlers |
| MigrationTheorems.DoneExactlyWhenAllFinished | core/src/actor_engine.cpp:7-12 | The group's counter is zero if and only if every spawned actor was finished |
| MigrationTheorems.LostKeepsGroupAlive | core/src/actor_engine.cpp:115-121 | Once an actor was dropped, or is on its way to an executor that stopped, the counter never reaches zero again in any run |
| MigrationTermination.StoppedDoneExactly | core/src/actor_engine.cpp:52-60 | When all executors have stopped the counter is zero if and only if nobody was dropped and no mailbox holds a command that carries an actor |
| MigrationTermination.AllCanStop | core/src/actor_engine.cpp:52-60 | From every reachable state in which every executor was told to end, the executors alone can all come to their end; nobody is left if the caller saw to what the next row says |
| MigrationStranding.TerminationFinishesExactly | core/src/actor_engine.cpp:7-12 | Ending all executors finishes everybody in every run if and only if there is no executor, or every start leaves its actor active, everything is spawned before its executor is told to end, and balancing is off or there is one executor |
| MigrationStranding.TransferStranded | core/src/actor_engine.cpp:77-106 | For every number of executors from two on and every positive period and every limit of balancing, a run of the load balancer's own choices that ends with all executors stopped and the counter above zero, even if every start leaves its actor active and everything is spawned first |
| MigrationStranding.DroppedForever | core/src/actor_engine.cpp:115-121 | For every number of executors, a run in which an actor is dropped by its start and all stop with the counter at one |
| MigrationStranding.SpawnedTooLate | core/src/actor_engine.cpp:7-12 | The same for an actor spawned on an executor that was told to end |
| Migration.StepInv | core/src/actor_engine.cpp:77-222 | Every step of every executor, spawn, rebalancing and Termination conserves all actors |
| LoadRebalance.LoadBalancer.Rebalance | core/src/actor_engine.cpp:77-106 | The loop with its early break asks for exactly the pairs that looking at all of them would; the counts used are reset and the other record is used from now on |
| LoadRebalance.LoadBalancer.FindPairs | core/src/actor_engine.cpp:83-99 | The loop over the pairs from outside inwards, with its break, asks for exactly the mirror pairs whose counts are too far apart |
| LoadRebalance.RatioMonotone | core/src/actor_engine.cpp:89 | The ratio of an inner pair is not larger than that of an outer one |
| LoadRebalance.NothingFurtherIn | core/src/actor_engine.cpp:90-98 | Behind a pair that is close enough no pair is too far apart |
| LoadRebalance.WantedExactly | core/src/actor_engine.cpp:83-99 | A pair is asked for if and only if it is one of the mirror pairs and reaches the limit |
| LoadRebalance.WantedIsTooFar | core/src/actor_engine.cpp:83-99 | In terms of the counts alone: one executor is asked to give to another if and only if they stand at mirror places of the order and the difference of their counts is at least the limit times the slower count plus 0.000001 |
| LoadRebalance.EachInOnePair | core/src/actor_engine.cpp:83-99 | Every executor is in at most one pair, on one side |
| WireTheorems.RoundTripExactly | core/zaf/serialization.hpp:21-291 | For every value of every type, decoding its encoding followed by anything gives the value, its bodies as bytes, and what followed, if and only if no body in it reaches 2^32 bytes |
| WireTheorems.RoundTrip | core/zaf/serialization.hpp:121-245 | The direction that recurses over plain values, strings, containers, pairs, tuples, optionals, owned pointers and bodies |
| WireTheorems.ArrivedNoRepeats | core/zaf/serialization.hpp:139-157 | Sets and maps lose no item when they are filled again |
| WireTheorems.BodyRoundTrip | core/zaf/message_body.hpp:209-222 | A body is read as its code, its hash and the bytes of its content |
| WireTheorems.ContentRoundTrip | core/zaf/message_body.hpp:140-159 | From the bytes that arrived a handler's arguments are decoded at its types, with nothing left over |
| WireTheorems.MessageArrivesExactly | core/zaf/message_bytes.hpp:21-43 | The frame of a message is parsed and its content decodes to the arguments if and only if the content is shorter than 2^32 bytes |
| WireTheorems.Reserialise | core/src/message_body.cpp:50-59 | What was received serialises to the bytes it came as, whatever its size |
| WireTheorems.EncodingTellsApart | core/zaf/serialization.hpp:21-291 | Two values have the same encoding if and only if the same value arrives |
| WireLayout.EncodingLayout | core/zaf/serialization.hpp:21-291 | Which byte of an encoding stands where, for every value: lengths in eight bytes, lowest first, parts one after the other, one byte in front of what may be missing, and code, hash and four bytes of length in front of the content of a body |
| WireLayout.FrameLayout | core/zaf/message_bytes.hpp:21-43 | The header of a message field by field: sender, receiver, code, hash, four bytes of length, and the content behind it |
| Serializer.Serializer.WriteBytes | core/src/serializer.cpp:13-24 | Writing inside the buffer overwrites, then extends; every other byte is as before |
| Serializer.Serializer.Serialize | core/zaf/serialization.hpp:21-291 | The buffer gains exactly the encoding, earlier bytes are unchanged, and the position is the end again |
| Serializer.Serializer.SerializeItems | core/zaf/serialization.hpp:121-131 | The loop over a container |
| Serializer.Serializer.SerializeBody | core/src/message_body.cpp:88-97 | Filling the length in afterwards leaves code, hash, 32-bit length and content, at every depth of nesting |
| Serializer.Serializer.SerializeReceived | core/src/message_body.cpp:50-59 | A received body, whose length is known first, gives the same bytes |
| Serializer.PatchedLength | core/src/message_body.cpp:91-96 | Overwriting the zero is the same as having written the length first |
| Serializer.Overwrite | core/src/serializer.cpp:13-24 | Byte by byte: the written ones where they belong, the old ones elsewhere |
| Serializer.Deserializer.Deserialize | core/zaf/serialization.hpp:29-291 | The walk over the buffer gives what the decoder gives and stops where it stops |
| Serializer.Deserializer.Fill | core/zaf/serialization.hpp:139-157 | The loop that fills a container |
| Serializer.Deserializer.DeserializeBody | core/zaf/message_body.hpp:209-222 | Code, hash, length, bytes |
| Serializer.MakeMessageBytes | core/zaf/message_bytes.hpp:21-43 | The header made in two parts is the frame's header, and the content the encoded arguments |

## Left out

- Memory orders: single accesses are sequentially consistent here; acquire, release and relaxed are not told apart.
- Death of a sender (`is_writing_by_sender` and the erasing of its queue), and deactivation in the middle of a consumption: erasing a queue races with a late notification.
- WakeUpTheorems.OwnQueueNeverStrands: the actor's queue to itself waits when it is full instead of growing; growth is in `RingGrowth` and `DeliveryQueue`. A push of the actor to itself may be interrupted by its reading, which allows more interleavings than there are.
- DeliveryQueue.SwsrDeliveryQueue.Grow: a full ring of 2^31 slots, whose doubling overflows, is excluded.
- DeliveryQueue.SwsrDeliveryQueue.Push: waiting for room under Blocking needs the other thread and is in `WakeUp`; doubling a capacity of 2^31, which overflows, is excluded; items moved to the upper half are treated as copied.
- DeliveryQueue.SwsrDeliveryQueue.PopOne: what the handler sends keeps the ring below 2^31 items.
- DeliveryQueue.SwsrDeliveryQueue.PopSome: what handlers send is bounded so that the ring stays below 2^31 items; contents are stated for runs without a bad growth.
- RequestTheorems.NothingLostOrReordered: handlers block only through `on_reply`; plain `receive` and `receive_once` inside a handler, timeouts, exceptions and extra poll callbacks are not modelled.
- RequestTheorems.RoutedToItsOwnHandler: request numbers are unbounded, not 32 bits, and each request is answered at most once.
- RequestActor.ActorBehavior.OnReplyTo: user code is a list of steps that does not depend on what a reply says (in `RequestTheorems` it is free); what happens after it uses a request handler that is not there, which throws, is not modelled.
- NetGateTheorems.ReliableOrderedChannel: Termination of a gate, retrieving an actor by its address, and a gate's stash between two socket messages are not modelled; the receiver's port is a parameter of the handler that waits for it.
- NetSender.StopsOnlyWhenDrained: nothing is claimed once the 32-bit count of one batch has wrapped.
- NetSender.EndToEnd: the same, and contents are shorter than 2^32 bytes.
- NetSenderRuns.StopsFlushedInConsumption: runs of 2^32 messages or more, in which the count of a batch may wrap, are not covered.
- Delayed messages: there is no clock; a delayed message of an actor to itself is sent at some later time.
- Sockets, ports, routing ids, polling, interrupted calls, threads and their names.
- ActorGroup.ReturnsOnlyAfterZero: the scoped actor that runs terminators counts as one more updating thread; detached never exceeds alive.
- Executor.RoundRunsEachReadyOnce: running an actor has one of three outcomes (stays, leaves, throws); a command is one message of the executor's mailbox; the random choice is a parameter.
- MigrationTheorems.ExactlyOnePlace: which executor a new actor is sent to is free; a rebalancing may come later than the round that makes it due; the two records of rounds are one, which does not change during a rebalancing.
- LoadRebalance.LoadBalancer.Rebalance: doubles are reals, sorting is taken by its result, and the counts do not change during it.
- WireTheorems.RoundTripExactly: unordered containers are the sequence of their items as they are iterated; decoding is into an empty target (decoding into a container in use appends to it); equality of keys is equality of their bytes; a set of pointers takes in every decoded item, since its address is new.
- `CountPointer`: not part of this model. A type's hash is an opaque number. Reading past the end of a buffer, which is undefined, is None.
- Handler tables, type traits, printing and error texts.

# SimVisionSDK: a model of the capture-to-publish data path

SimVisionSDK simulates a stereo camera. A capture thread builds frames for three channel groups (2D images,
3D data, sensors) and pushes them into three lock-free single-producer single-consumer queues; a publisher
thread empties the queues and sends each frame as one multipart message; admin workers change who is
subscribed to what over HTTPS and flush stale frames. This project models that path in Dafny and proves what
it promises over all inputs, all schedules and all histories.

`dafny verify dfyconfig.toml` checks everything.

| file | what it holds |
|---|---|
| `Types.dfy`, `Json.dfy`, `Text.dfy` | data types, groups, frames; JSON values; string search and number reading |
| `Counter64.dfy` | wrapping 64-bit counters and the slot a counter picks |
| `RingMachine.dfy`, `RingWrap.dfy`, `OverlappingPops.dfy` | the ring buffer under release/acquire memory, step by step; what happens when its counters wrap, and when two pops overlap |
| `FrameQueue.dfy`, `DataPipeline.dfy` | the queue and the pipeline as objects, updated in place |
| `PipelineMachine.dfy`, `QueueBridge.dfy` | capture loop, queues, mutex, flag, condition variable and publisher as one state machine, and its relation to the ring |
| `Channels.dfy`, `Interleaving.dfy` | subscription sets and the reference counts that cache them |
| `Commands.dfy`, `StaleFlush.dfy`, `History.dfy` | sessions, commands, the flush of stale frames, invariants over whole histories, and what the requests alone say about the state |
| `Documented.dfy` | commands, data types, groups and replies by their documented words |
| `Prerequisites.dfy`, `SplitSteps.dfy` | what the documentation asks of callers; commands and ticks that other threads interrupt |
| `ImageProbe.dfy`, `StereoPairs.dfy`, `LoadedPictures.dfy`, `RoundRobin.dfy` | image formats and the JPEG scan, directory pairing, what documented file names load, round-robin cursor |
| `CaptureEngine.dfy`, `FramePayloads.dfy`, `Multipart.dfy`, `DataPublisher.dfy`, `EndToEnd.dfy` | building frames, what stands in them and in their messages, message framing, the publisher's counters, and the way from a capture tick to a subscriber |
| `AdminServer.dfy`, `RequestText.dfy` | HTTP request assembly from arbitrary chunks; whole requests as a client writes them |
| `Parameters.dfy`, `Settings.dfy` | parameter validation and persistence; what values the service's own parameters can have |

## How the concurrent parts are modelled

- **Ring buffer.** Each load, slot access, store and counter increment of `try_push` and `try_pop` is one
  step of `RingMachine`. A counter is the history of its stores. An acquire load may return any store that is
  not older than one the same thread has read before, and it brings along every slot access that happened
  before that store. A slot access that is not ordered after all earlier accesses to the slot is a data race;
  every run is shown to be free of them. Each side is one thread: it reads its own counter's newest value.
  For the consumer side this is a hypothesis. `pop_all`, `drain` and `drain_group` run on different threads,
  and the model takes each of their pops to happen before the next one begins. That is more than not
  overlapping in time: without a lock or other synchronisation between those threads, the relaxed load of
  the tail could return an older value. The code provides neither (`src/api/CommandHandler.cpp:180`,
  `src/api/CommandHandler.cpp:213` and `src/main.cpp:221-222` drain while `src/data/DataPublisher.cpp:125` may
  pop). `OverlappingPops` treats any number of consumers on a ring of any capacity, with loads that are always
  up to date: after a load, whatever follows without further overlap is first in, first out exactly when no
  other pop was under way at that load (`OverlappingPops.OrderKeptWithoutOverlap`). In one schedule with two
  consumers the frames themselves change places (`OverlappingPops.OverlapReorders`).
- **Pipeline.** In `PipelineMachine` a single push or pop of a queue is atomic, and a drain may remove a frame
  between any two steps. `QueueBridge` relates the two machines: each step of the ring that shows is the
  pipeline's queue step and is enabled there, taking the mutex lets the ring's consumer hear of the released
  pushes, and no other step of either machine disturbs the relation. Two effects of relaxed memory are kept: a push may be
  refused on a stale view even if there is room, and the consumer may find a queue empty unless the push is
  ordered before it by the mutex. Waits may time out or wake up for no reason at any moment.
- **Commands.** In `Commands` and `StaleFlush` one command, one group's part of a capture tick and one pop are
  atomic. The check-then-act sequences of `src/api/CommandHandler.cpp:191-198` and
  `src/capture/CaptureEngine.cpp:189-192` are not atomic in the code. `SplitSteps` takes them apart and says
  when the invariants survive.
- **Inputs.** Timestamps, the bytes of synthesised payloads, the chunk size of every TLS read, the refusal of
  any message part by a socket, file contents and directory listings are arbitrary inputs. JSON is taken to
  survive being written and read.

## Where the code and its documentation or its intent part

For each promise below a theorem says exactly when the code keeps it, in both directions; where a concrete
failing case has a lemma of its own, that is named too.

- *Queue capacity.* The slot is the wrapped counter modulo the capacity. No queued frame is ever overwritten
  exactly when the capacity divides 2^64 (`RingWrap.OverwriteFreeCapacities`,
  `RingWrap.OverwritesAtTheWrap`); the default 8 does.
- *Flush of silent groups.* `thread_dataflow.md:103-114` promises that every stop, disconnect or deactivation
  drains a group that goes inactive. Stop and disconnect only drain when nobody is subscribed to anything any
  more, so the promise fails for some queued frame exactly when the request takes away all that keeps some
  group active while something else stays subscribed (`StaleFlush.SilencedGroupsFlushed`). A new subscriber
  can then be served a frame that was captured for an earlier one (`StaleFlush.OldFrameReachesNewSubscriber`).
- *Sessions.* `commands.md:18-19`, `commands.md:25-29` and `commands.md:35-36` ask for `connect` before every
  other command. Only `start_capture` and `disconnect` check it (`Prerequisites.SessionsChecked`).
  `Prerequisites.PrerequisiteKept` says for every command when the request of a client that is not connected
  leaves the service as it was: queries always do, a stop takes away no subscription of a connected client
  (`StaleFlush.StopWithoutSession`), while activation, deactivation and `set_parameter` take full effect
  (`Prerequisites.StrangersSwitchChannels`).
- *Group names.* `commands.md:74` promises group names for the channel commands too. The code refuses them, so
  the promised effect is there exactly when it was there before (`Prerequisites.GroupNamesNotExpanded`,
  `Prerequisites.Visual2DNotForced`). Start and stop expand them in `data_types` only
  (`Prerequisites.SingleFieldIsExact`).
- *Interrupted ticks and starts.* The capture loop tests a group and pushes later, and a start tests the session
  and subscribes later. The flush and session invariants hold all along exactly when no frame is pushed into a
  free queue after its group and every subscriber are gone, and no client is subscribed after its session has
  ended (`SplitSteps.InvariantsSurvive`). Both can happen (`SplitSteps.LatePush`,
  `SplitSteps.LateSubscription`).
- *Partial messages.* A part refused in the middle of a message leaves parts on the wire that announce more,
  and the next complete message is glued to them (`Multipart.MessagesGlued`). Subscribers recover the sent
  messages exactly when none is sent completely after a partial one (`Multipart.SentMessagesRecovered`), and
  nothing is left open besides exactly when refusals happen at the header only
  (`Multipart.FramingRoundTrip`).
- *Request body.* The body is cut to its announced length only when something was read after the header, and
  the length is searched in everything read so far. `AdminServerModule.ChunkingShows` says for every request
  when the assembled body depends on how the request was cut into reads, `AdminServerModule.TrailingBytes` when
  bytes behind the announced body stay out of it.
- *Header limit.* The size is tested after the search. Every cutting delivers a header exactly up to 65537
  bytes (`AdminServerModule.HeaderLimit`), some cutting exactly up to 67584 (`AdminServerModule.HeaderReach`).
- *Stereo length.* The length of the left image is cast to 32 bits (`CaptureEngineModule.StereoRoundTrip`).
- *Image description.* (`data.md:105-116` describes left and right parts; the code publishes one part `stereo_image`.) An image whose probed width is not positive loses its description in the header
  (`EndToEnd.EngineFrameArrives`); a raw image file can be of that kind (`EndToEnd.RawWidthDecides`).
- *Directory order.* For some contents of the files the loaded pairs depend on the directory order exactly
  when two different files claim one side of one index (`StereoPairs.PairsDoNotDependOnOrder`).
- *Round robin.* The cursor wraps at 2^64; the rotation stays fair across the wrap exactly when the number of
  pairs divides 2^64 (`RoundRobin.FairPairCounts`).
- *Changed configuration.* A saved value is restored exactly when the new registration accepts it or has it as
  its default (`Parameters.RestoredValues`).

## Model

| member | source | states |
|---|---|---|
| Counter64.DistanceIsExact | src/data/SPSCQueue.cpp:19 | the unsigned difference of the wrapped counters is the true number of queued frames after any number of wrap-arounds |
| Counter64.WrapSafeCapacities | src/data/SPSCQueue.cpp:23 | positions that can be queued together always get different slots if and only if the capacity divides 2^64 |
| RingMachine.FillIsOrdered | src/data/SPSCQueue.cpp:18-23 | when the producer may write, its slot holds no live frame and every earlier access to it happens before the write, however old the loaded tail is |
| RingMachine.TakeIsOrdered | src/data/SPSCQueue.cpp:31-34 | when the consumer may move a frame out, every earlier access to the slot happens before it and no later frame lies there |
| RingMachine.StepKeeps | src/data/SPSCQueue.cpp:16-37 | every atomic step of either thread keeps the invariant on counters, knowledge, slot accesses, data and statistics |
| RingMachine.EveryRunIsSafe | src/data/SPSCQueue.cpp:16-37 | over every interleaving with every legal stale load: no data race, 0 <= head - tail <= capacity on the wrapped words, the k-th pop returns the k-th pushed frame, the slot being written is never live |
| RingMachine.StepRefinesFifo | src/data/SPSCQueue.cpp:16-37 | the store of head is a push, the store of tail a pop of the oldest frame of a bounded queue and no other step shows; on an up-to-date load full and empty are decided exactly |
| RingMachine.HeardOfIsNotMissed | src/data/DataPipeline.cpp:21-44 | once the mutex has ordered a push before the consumer, no later pop finds the queue empty before that frame and all older ones are popped |
| RingMachine.InitialHolds | src/data/SPSCQueue.cpp:11-14 | a queue with empty slots and zero counters starts in the invariant |
| RingWrap.OverwritesAtTheWrap | src/data/SPSCQueue.cpp:17-24 | for every capacity that does not divide 2^64 there is a schedule that ends right before a queued frame is overwritten |
| RingWrap.OverwriteFreeCapacities | src/data/SPSCQueue.cpp:16-27 | no schedule ever overwrites a queued frame if and only if the capacity divides 2^64 |
| OverlappingPops.OrderlyKeeps | src/data/SPSCQueue.cpp:16-37 | for every capacity and any number of consumers: as long as no pop begins while another is under way, the finished pops have returned the first frames pushed, in order |
| OverlappingPops.OrderKeptWithoutOverlap | src/data/SPSCQueue.cpp:29-37 | in every state reached that way and at every load: all continuations without further overlap stay first in, first out if and only if no other pop is under way at that load |
| OverlappingPops.OverlapReorders | src/data/SPSCQueue.cpp:29-37 | in a concrete schedule at capacity two, in which two pops overlap and every step sees the latest values, the third frame leaves before the second |
| FrameQueue.ChannelFrameQueue.constructor | src/data/SPSCQueue.cpp:11-14 | a capacity below one becomes one; the queue starts empty with every slot null |
| FrameQueue.ChannelFrameQueue.TryPush | src/data/SPSCQueue.cpp:16-27 | for any counters and capacity: which slot is written, which counter and which statistic move; on a queue that holds its frames this appends the frame unless the queue is full and drops the newest otherwise, and the queue goes on holding its frames short of an unsafe wrap |
| FrameQueue.PushHolds | src/data/SPSCQueue.cpp:23-24 | writing the slot of the head counter and moving it on appends a frame to what slots and counters hold, and disturbs no queued frame |
| FrameQueue.PopHolds | src/data/SPSCQueue.cpp:33-35 | the slot of the tail counter holds the oldest frame, and nulling it and moving the tail on removes exactly that |
| FrameQueue.ChannelFrameQueue.TryPop | src/data/SPSCQueue.cpp:29-37 | for any counters and capacity: which slot is moved out and nulled, and how the counter moves; on a queue that holds its frames this returns and removes the oldest one, and changes nothing when the queue is empty |
| FrameQueue.ChannelFrameQueue.Empty | src/data/SPSCQueue.cpp:39-41 | equal counter words mean an empty queue and nothing else |
| FrameQueue.ChannelFrameQueue.Full | src/data/SPSCQueue.cpp:43-45 | true exactly when capacity frames are queued |
| FrameQueue.ChannelFrameQueue.Size | src/data/SPSCQueue.cpp:49-53 | the number of queued frames, in a quiescent state |
| FrameQueue.ChannelFrameQueue.ResetStats | src/data/SPSCQueue.cpp:63-66 | clears both statistics and leaves the frames alone |
| FrameQueue.ChannelFrameQueue.Clear | src/data/SPSCQueue.cpp:68-72 | ends with equal counters and unchanged statistics for any counters; a queue that holds its frames ends empty with every slot null |
| FrameQueue.CellsDiffer | src/data/SPSCQueue.cpp:23 | within one window of capacity positions every position has a slot of its own |
| DataPipelineModule.DataPipeline.Push | src/data/DataPipeline.cpp:14-27 | the frame goes to the queue of its group only, if there is room; the other two queues are not touched; the flag is raised even when the frame is dropped |
| DataPipelineModule.DataPipeline.PopInto | src/data/DataPipeline.cpp:33 | one queue is emptied and its frames are appended to the vector in order |
| DataPipelineModule.DataPipeline.PopAll | src/data/DataPipeline.cpp:29-48 | returns everything queued, group by group and oldest first; the flag is lowered exactly when nothing was found |
| DataPipelineModule.DataPipeline.DrainGroup | src/data/DataPipeline.cpp:56-63 | empties one queue and leaves the others and the flag alone |
| DataPipelineModule.DataPipeline.Drain | src/data/DataPipeline.cpp:50-54 | empties all three queues and leaves the flag alone |
| DataPipelineModule.DataPipeline.Sizes | src/data/DataPipeline.cpp:73-75 | the number of frames in each queue, in a quiescent state |
| PipelineMachine.RunKeeps | src/data/DataPipeline.cpp:14-63 | every schedule of capture, publisher and drain steps keeps the wake-up, conservation and order invariants |
| PipelineMachine.WakeupKept | src/data/DataPipeline.cpp:21-42 | every step keeps the wake-up invariant: which queues were seen empty since the flag went down, including the early return that does not clear it |
| PipelineMachine.NoLostWakeup | src/data/DataPipeline.cpp:14-48 | whenever the publisher sleeps while any queue holds a frame, the capture thread is inside the push that will wake it, and with the flag down it has not stored the flag yet |
| PipelineMachine.FinishPushWakes | src/data/DataPipeline.cpp:21-25 | finishing that push is always possible and does wake the publisher |
| PipelineMachine.ConservedKept | src/data/DataPipeline.cpp:14-63 | no step loses, duplicates or reorders a frame |
| PipelineMachine.EveryFrameAccountedFor | src/data/DataPipeline.cpp:14-63 | per group over whole runs: accepted frames, in order, are those removed followed by those queued; what pop_all removed is what the publisher got; attempts are accepted plus dropped |
| QueueBridge.StoreHeadAccepts | src/data/SPSCQueue.cpp:24 | the ring's store of head is the pipeline's accepted push: there is room, and the queue gains that frame |
| QueueBridge.FullLoadRefuses | src/data/SPSCQueue.cpp:18-22 | a load of tail that finds the ring full, however old, is a refused push |
| QueueBridge.StoreTailRemoves | src/data/SPSCQueue.cpp:33-36 | the ring's store of tail takes the first frame of the queue, for the publisher or a drain |
| QueueBridge.EmptyLoadSeesEmpty | src/data/SPSCQueue.cpp:31-32 | a load of head that finds the ring empty is one the pipeline's scan allows |
| QueueBridge.LockHears | src/data/DataPipeline.cpp:38-40 | taking the mutex orders the released pushes before the consumer, in both machines |
| QueueBridge.OtherRingSteps | src/data/SPSCQueue.cpp:16-37 | no other step of the ring shows in the pipeline |
| QueueBridge.OtherPipelineSteps | src/data/DataPipeline.cpp:14-48 | no other step of the pipeline touches the ring |
| PipelineMachine.PublishedInOrder | src/capture/CaptureEngine.cpp:179-196 | each group reaches the publisher with strictly increasing frame_index, whatever is dropped or drained |
| PipelineMachine.PairIdsIdentifyTicks | src/capture/CaptureEngine.cpp:60-69 | two frames sent with one pair_id, at whatever places, belong to different groups and carry one timestamp; so no (group, pair_id) is sent twice |
| PipelineMachine.BatchInGroupOrder | src/data/DataPipeline.cpp:33-46 | over every schedule, what one call of pop_all gathers stands group by group: 2D, 3D, sensors |
| PipelineMachine.FlagMeansPush | src/data/DataPipeline.cpp:21-41 | over every schedule the flag is up exactly if it was stored since it was last cleared; once that push has given the mutex back, its unlock too lies after the last clearing |
| Channels.GainAgrees | src/data/ChannelManager.cpp:18-23 | adding a type to a client's set and counting one up keeps every count true |
| Channels.LossAgrees | src/data/ChannelManager.cpp:32-37 | the greater-than-zero guard of the count-down never fails, and counting down keeps every count true |
| Channels.CountPositive | src/data/ChannelManager.cpp:73 | a count is positive exactly when some client holds the type |
| Channels.ChannelManager.StartCapture | src/data/ChannelManager.cpp:15-24 | the client's set grows by the requested types, repeats included, and every cached count equals the number of holders |
| Channels.ChannelManager.StopCapture | src/data/ChannelManager.cpp:26-39 | the client's set loses the requested types, an unknown client changes nothing, and the counts stay true |
| Channels.ChannelManager.DisconnectClient | src/data/ChannelManager.cpp:41-53 | the client is forgotten and the counts stay true; reports whether it was known |
| Channels.ChannelManager.ActivateChannel | src/data/ChannelManager.cpp:55-60 | forces the type, touches no subscription, reports whether that is new |
| Channels.ChannelManager.DeactivateChannel | src/data/ChannelManager.cpp:62-67 | lifts the force flag, touches no subscription, reports whether it was set |
| Channels.ChannelManager.IsActive | src/data/ChannelManager.cpp:69-74 | read from the counts, true exactly when the type is forced or some client holds it |
| Channels.ChannelManager.IsGroupActive | src/data/ChannelManager.cpp:76-81 | true exactly when some member of the group is active |
| Channels.ChannelManager.HasSubscriber | src/data/ChannelManager.cpp:111-117 | read from the counts, true exactly when some client's set is non-empty |
| Channels.ChannelManager.SubscriberCount | src/data/ChannelManager.cpp:100-104 | the number of clients whose set contains the type, zero for a type without an entry |
| Channels.ChannelManager.StatusJson | src/data/ChannelManager.cpp:126-143 | one entry for each type that ever got a state, with its true count, activity and force flag, and the number of clients |
| Interleaving.OwnOpsDecide | src/data/ChannelManager.cpp:15-53 | a client's subscriptions depend on its own requests only |
| Interleaving.InterleavingsAgree | src/data/ChannelManager.cpp:15-53 | two interleavings of the same per-client streams end in the same sets, state entries and counts |
| Interleaving.LeavingStopsEverything | src/data/ChannelManager.cpp:41-53 | disconnecting leaves the same counts and activity as stopping every type |
| Commands.ExpandItemsMeaning | src/api/CommandHandler.cpp:73-98 | a type is in the expansion exactly when some element names it or its group in any letter case |
| Commands.ExpandTypes | src/api/CommandHandler.cpp:73-98 | the loops compute that expansion, with its fall-back to the single field |
| Documented.RequestMeans | src/api/CommandHandler.cpp:73-98 | a start or stop request asks for a type exactly if some element of the list, at any position, is its documented name or its group's in any letter case; without a list, if the single field is its name |
| Documented.StartSubscribesExactly | src/api/CommandHandler.cpp:190-204 | start_capture gives a connected client exactly the types its request asks for on top of its own, and nobody else any |
| Documented.StopUnsubscribesExactly | src/api/CommandHandler.cpp:206-221 | stop_capture takes exactly the types asked for from the client, and none from anybody else |
| Documented.NamedTypeMeans | src/api/CommandHandler.cpp:225 | which type the single field of a channel command names, in any letter case, and when reading it throws |
| Documented.ForcesExactly | src/api/CommandHandler.cpp:223-252 | activate_channel forces and deactivate_channel releases exactly the type named |
| Documented.CommandNames | src/api/CommandHandler.cpp:143-155 | the thirteen documented command names |
| Documented.UnknownCommand | src/api/CommandHandler.cpp:156 | any other name is refused and changes nothing |
| Documented.SessionReplies | src/api/CommandHandler.cpp:154-188 | the replies of connect, disconnect, init and dispose |
| Documented.CaptureReplies | src/api/CommandHandler.cpp:190-221 | which code start and stop answer, and that a success lists exactly the types asked for |
| Documented.ChannelReplies | src/api/CommandHandler.cpp:223-252 | when a channel command succeeds, is refused or throws, and the type its success names |
| Documented.ChannelsListed | src/api/CommandHandler.cpp:292-308 | the nine types in table order, each with its true activity and count |
| Documented.StatusReported | src/api/CommandHandler.cpp:254-290 | the counts, channel states and queue lengths in a status reply are the true ones |
| Documented.ParametersReported | src/api/CommandHandler.cpp:310-333 | list_parameters reports every parameter, get_parameter the one named or an error |
| Documented.SetThenGet | src/api/CommandHandler.cpp:320-363 | a parameter that was set is read back; a request without success changes nothing, and no other parameter is touched |
| Documented.SetSucceeds | src/api/CommandHandler.cpp:335-363 | a readable value is stored exactly if the parameter is writable, of its kind, and its limits or options allow it |
| Documented.RefusalTexts | src/common/Parameter.cpp:50-72 | what a refused value is told |
| Commands.SessionManager.Connect | src/api/SessionManager.cpp:11-14 | the client is in the set afterwards; reports whether it was new |
| Commands.SessionManager.Disconnect | src/api/SessionManager.cpp:16-19 | the client is gone afterwards; reports whether it was there |
| Commands.CommandHandler.CmdConnect | src/api/CommandHandler.cpp:159-171 | a second connect is answered AlreadyInit and changes nothing |
| Commands.CommandHandler.CmdDisconnect | src/api/CommandHandler.cpp:173-188 | session and subscriptions end together; the queues are emptied when nobody is subscribed any more |
| Commands.CommandHandler.CmdStartCapture | src/api/CommandHandler.cpp:190-204 | refused without a session or without a valid type, otherwise subscribes the client |
| Commands.CommandHandler.CmdStopCapture | src/api/CommandHandler.cpp:206-221 | unsubscribes without asking for a session; the queues are emptied when nobody is subscribed any more |
| Commands.CommandHandler.CmdActivateChannel | src/api/CommandHandler.cpp:223-235 | a missing or unknown type is refused, a type field that is no string throws, otherwise the type is forced |
| Commands.CommandHandler.CmdDeactivateChannel | src/api/CommandHandler.cpp:237-252 | lifts the force flag and empties the queue of the type's group if that group is inactive now |
| Commands.CommandHandler.CmdCheckStatus | src/api/CommandHandler.cpp:254-290 | reports sessions, clients, channel states and queue lengths, and changes nothing |
| Commands.CommandHandler.CmdListChannels | src/api/CommandHandler.cpp:292-308 | every type in table order with its activity and true count |
| Commands.CommandHandler.CmdListParameters | src/api/CommandHandler.cpp:310-318 | exactly the registered parameters |
| Commands.CommandHandler.CmdGetParameter | src/api/CommandHandler.cpp:320-333 | the parameter named, an error without a name or for an unknown one, and a thrown accessor for a name that is no string |
| Commands.CommandHandler.CmdSetParameter | src/api/CommandHandler.cpp:335-363 | the value is read in the parameter's type and stored exactly when it passes every check; each failure has its own reply |
| Commands.CommandHandler.HandleRequest | src/api/CommandHandler.cpp:141-157 | for every command name, sessions, subscriptions, queues and parameters change exactly as the value-level command says, with its reply |
| Commands.NamesDispatchExactly | src/api/CommandHandler.cpp:141-157 | each command answers to its one name and to nothing else |
| StaleFlush.RequestKeeps | src/api/CommandHandler.cpp:141-252 | every command keeps the flush invariant and the invariant that subscriptions belong to sessions |
| StaleFlush.EveryHistoryIsFlushed | src/api/CommandHandler.cpp:173-252 | after every history of commands, ticks and pops: some type has a subscriber or every inactive group has an empty queue; every subscription entry belongs to a session, so clients never outnumber sessions |
| StaleFlush.StopWithoutSession | src/api/CommandHandler.cpp:206-211 | after every history, a stop from an unconnected client changes no subscription |
| StaleFlush.DeactivationIsLocal | src/data/ChannelManager.cpp:62-67 | lifting a force flag changes the activity of no other group |
| StaleFlush.SilencedGroupsFlushed | thread_dataflow.md:101-115 | whatever the capture loop can have queued, a request leaves no stale frame if and only if it does not take away all that keeps some group active while something else stays subscribed |
| StaleFlush.OldFrameReachesNewSubscriber | src/api/CommandHandler.cpp:206-221 | a concrete history in which a stopped group keeps its frame queued and a new client subscribes to it |
| History.RequestsDecide | src/api/CommandHandler.cpp:159-252 | after every history: a client is connected exactly if it connected and has not disconnected since; it holds a type exactly if it asked for it while connected and has neither stopped it nor left since; a type is forced exactly if it was activated and not deactivated since |
| History.ActivityDecided | src/data/ChannelManager.cpp:69-74 | after every history, a type is produced exactly if it is forced or some client is subscribed to it, both read off the requests alone |
| History.ParametersEvolve | src/api/CommandHandler.cpp:335-363 | after every history the parameters are those some sequence of validated changes leaves, so each is as registered but for an accepted value of its type |
| Prerequisites.SessionsChecked | commands.md:14-36 | the documented prerequisite is enforced for start_capture and disconnect and for no other command that has it |
| Prerequisites.PrerequisiteKept | commands.md:14-36 | for every command and every state: the request of a client that is not connected changes nothing if and only if what it asks for is so already or it is a query |
| Prerequisites.StrangersSwitchChannels | src/api/CommandHandler.cpp:223-252 | a concrete history without any session in which one client starts the production of a type and another ends it and has its queued frame thrown away |
| Prerequisites.GroupNamesNotExpanded | commands.md:72-80 | a group name is refused by both channel commands, and the promised effect is there if and only if it was there before |
| Prerequisites.Visual2DNotForced | commands.md:78 | activating visual_2d on a fresh service forces none of its types |
| Prerequisites.SingleFieldIsExact | src/api/CommandHandler.cpp:75-80 | the field data_type of start and stop names one type in exact spelling and no group |
| SplitSteps.HalvesMakeTheTick | src/capture/CaptureEngine.cpp:189-192 | test and push with nothing in between are the whole part of the tick |
| SplitSteps.HalvesMakeTheStart | src/api/CommandHandler.cpp:190-198 | a start is refused at its session test or goes through both halves, which with nothing in between are the whole command |
| SplitSteps.MomentKeepsExactly | src/api/CommandHandler.cpp:190-198 | one step of an interrupted tick or start keeps the flush and session invariants if and only if what was tested still holds as far as it matters |
| SplitSteps.InvariantsSurvive | src/capture/CaptureEngine.cpp:188-194 | over every history of such halves and whole commands the invariants hold all along if and only if no push and no subscription comes too late |
| SplitSteps.LateSubscription | src/api/CommandHandler.cpp:190-198 | a client whose session ends between test and subscription leaves a type produced with nobody connected |
| SplitSteps.LatePush | src/capture/CaptureEngine.cpp:189-192 | a frame pushed after the last subscriber left stays queued in an inactive group |
| Text.StoUlReadsDecimal | src/api/AdminServer.cpp:95 | the number reader inverts decimal notation, after any spaces and leading zeros and before any non-digit |
| Text.StoUlMeaning | src/api/AdminServer.cpp:95 | any number behind blanks and a sign: one of 2^64 or more throws, a minus sign negates modulo 2^64 |
| Text.StoUlThrows | src/datasource/SimDataSource.cpp:185-189 | without a digit behind blanks and sign reading throws |
| Text.LowerSpells | src/api/CommandHandler.cpp:28-32 | lower-casing gives a word exactly if the text spells it in some mixture of letter cases |
| ImageProbe.ScanJpeg | src/datasource/SimDataSource.cpp:84-115 | the scan stays inside the buffer, terminates, and finds the first complete frame header its steps lead to |
| ImageProbe.ProbeImage | src/datasource/SimDataSource.cpp:68-156 | format, size and channels for every buffer, by signature and fall-back |
| ImageProbe.FormatBySignature | src/datasource/SimDataSource.cpp:74-155 | the first bytes decide the format, in the order of the code; TIFF and everything unknown take the configured size and channels |
| ImageProbe.SkipsSegments | src/datasource/SimDataSource.cpp:88-107 | the scan steps over any list of length-carrying segments, whatever their payload holds |
| ImageProbe.JpegIsMeasured | src/datasource/SimDataSource.cpp:84-100 | SOI, any segments, any stray bytes but 0xFF, then a SOF0 or SOF2 header and anything after it: exactly the encoded height, width and component count are reported |
| ImageProbe.NoHeaderNoSize | src/datasource/SimDataSource.cpp:109-114 | segments without SOF0 or SOF2, followed by scan data without such a marker pair: the configured size and channels are reported |
| ImageProbe.PngIsMeasured | src/datasource/SimDataSource.cpp:117-135 | the encoded sides of a PNG file are reported if and only if both are below 2^31; channels and layout are those of its colour type |
| ImageProbe.RawIsMeasured | src/datasource/SimDataSource.cpp:74-82 | the same for the raw test format |
| StereoPairs.NamesAreUnderstood | src/datasource/SimDataSource.cpp:174-190 | a file named camera, underscore, number and image extension is filed under its number, leading zeros or not, on the side its first letter tells |
| StereoPairs.BuildIndex | src/datasource/SimDataSource.cpp:172-194 | the loop over the directory files every usable entry under its index and side |
| StereoPairs.PathsClaimed | src/datasource/SimDataSource.cpp:191-193 | a side of an index ends up with the path of some listed file that claims it, and empty if and only if none does |
| StereoPairs.OrderDoesNotMatter | src/datasource/SimDataSource.cpp:172-194 | every order of the listing gives the same index if and only if no two different files claim one side of one index |
| StereoPairs.MakePairs | src/datasource/SimDataSource.cpp:196-222 | one pair for each index with a file, strictly ascending, a lone side mirrored onto the other |
| StereoPairs.PairsUnique | src/datasource/SimDataSource.cpp:196-222 | that description determines the pair list |
| StereoPairs.Load | src/datasource/SimDataSource.cpp:172-227 | the whole load meets that description |
| LoadedPictures.PicturesOnTheirSides | src/datasource/SimDataSource.cpp:190-217 | in any directory without conflicting files, the file whose camera starts with L in either case is the left picture of its index and the R file the right one, each described by its own bytes |
| LoadedPictures.TwoFilesOnePair | src/datasource/SimDataSource.cpp:172-222 | two such files, in either order, load as exactly one pair |
| LoadedPictures.LoneFile | src/datasource/SimDataSource.cpp:202-217 | a lone file of either side is shown on both; a camera of another letter loads nothing |
| LoadedPictures.NoImageNoEntry | src/datasource/SimDataSource.cpp:174-177 | directories and files without an image extension are passed over |
| LoadedPictures.NoNumberNoEntry | src/datasource/SimDataSource.cpp:178-189 | files without an underscore or without a number behind the last one are passed over |
| StereoPairs.LoadIsDeterministic | src/datasource/SimDataSource.cpp:172-222 | two scans of one unambiguous directory load the same pairs in the same order |
| StereoPairs.PairsDoNotDependOnOrder | src/datasource/SimDataSource.cpp:172-222 | all scans of a directory load the same pairs, whatever the files hold, if and only if no two different files claim one side of one index |
| RoundRobin.SimDataSource.NextStereo | src/datasource/SimDataSource.cpp:238-248 | returns the pair at the cursor modulo the number of pairs and moves the cursor by one; without pairs nothing moves |
| RoundRobin.SimDataSource.Take | src/datasource/SimDataSource.cpp:238-248 | the k-th of several calls in a row returns the pair of turn k |
| RoundRobin.RoundsAreFair | src/datasource/SimDataSource.cpp:244 | any m*n calls in a row return each of the n pairs exactly m times, below the wrap or when n divides 2^64 |
| RoundRobin.FairPairCounts | src/datasource/SimDataSource.cpp:244 | the rotation is fair from every cursor position, the wrap included, if and only if n divides 2^64 |
| CaptureEngineModule.WriteStereo | src/capture/CaptureEngine.cpp:96-105 | the buffer holds the little-endian length, the left bytes and the right bytes |
| CaptureEngineModule.StereoRoundTrip | src/capture/CaptureEngine.cpp:96-105 | decoding the length and slicing gives both images back if and only if the left one is shorter than 2^32 bytes |
| CaptureEngineModule.StereoPayloadInjective | src/capture/CaptureEngine.cpp:96-105 | below that limit no two pairs of images share a payload |
| CaptureEngineModule.BundlesServeActiveTypes | src/capture/CaptureEngine.cpp:90-175 | a type has a payload in the frame exactly when it is a member, active and has data, and never two different ones |
| CaptureEngineModule.FrameIdentity | src/capture/CaptureEngine.cpp:63-69 | the frame carries the tick's index as frame_index and pair_id and the tick's timestamp, and is empty for an inactive group |
| FramePayloads.FrameShows | src/capture/CaptureEngine.cpp:90-175 | a frame holds one payload for each active member that has data, in the documented order, with exactly the bytes its source gave, its own id and format; the stereo payload carries both pictures and their descriptions |
| FramePayloads.ThoseMeaning | src/capture/CaptureEngine.cpp:90-91 | none of those members is left out, none comes twice, and the order is kept |
| FramePayloads.MessageShows | src/data/DataPublisher.cpp:144-206 | the message lists and carries these payloads in that order, with their sizes, formats and image descriptions |
| CaptureEngineModule.CaptureEngine.MakeBundle | src/capture/CaptureEngine.cpp:90-175 | one type's payload; only an active stereo type with loaded pairs moves the source's cursor |
| CaptureEngineModule.CaptureEngine.BuildFrame | src/capture/CaptureEngine.cpp:60-177 | builds the frame of its specification and moves the cursor once at most |
| CaptureEngineModule.CaptureEngine.TickGroup | src/capture/CaptureEngine.cpp:188-194 | pushes the group's frame only if the group is active and the frame carries something; the other queues are not touched |
| CaptureEngineModule.CaptureEngine.Tick | src/capture/CaptureEngine.cpp:182-197 | the three groups in order with one timestamp and one index, one move of the stereo cursor at most, then the index moves on by one |
| CaptureEngineModule.TickIsGroupwise | src/capture/CaptureEngine.cpp:188-194 | after a tick each queue is the old one plus its own frame of this tick, if it has data and room, no matter what the other groups did |
| Multipart.SentMessagesRecovered | src/data/DataPublisher.cpp:184-206 | splitting the accepted parts where MORE is clear recovers exactly the sent messages if and only if none was sent completely after one refused in the middle |
| Multipart.FramingRoundTrip | src/data/DataPublisher.cpp:184-206 | it recovers them and leaves nothing open if and only if every refusal hit a header |
| Multipart.MessagesGlued | src/data/DataPublisher.cpp:194-206 | a frame with payloads refused after its header and then sent reaches subscribers as one message with two headers |
| Multipart.SplitLosesNothing | src/data/DataPublisher.cpp:184-206 | splitting neither loses nor reorders a part, whatever was refused |
| Multipart.MessageConsistent | src/data/DataPublisher.cpp:160-181 | the header lists the payloads that follow it, in order, with their lengths |
| Multipart.BundleRoundTrip | src/data/DataPublisher.cpp:162-179 | a payload's description is recovered from the header if and only if it fits the published form |
| Multipart.MessageCarriesFrame | src/data/DataPublisher.cpp:144-215 | a message of describable payloads carries the frame sent, with the publisher's id filled in, and no other |
| DataPublisherModule.DataPublisher.SendParts | src/data/DataPublisher.cpp:144-206 | the parts reach the socket in message order up to the first refusal |
| DataPublisherModule.DataPublisher.SendMultipart | src/data/DataPublisher.cpp:144-215 | exactly one counter moves, and the counters stay equal to the complete and incomplete attempts |
| DataPublisherModule.DataPublisher.SendGroup | src/data/DataPublisher.cpp:133-142 | one frame goes to the socket of its group only; without sockets it is ignored and nothing changes |
| DataPublisherModule.DataPublisher.PublishBatch | src/data/DataPublisher.cpp:122-131 | every group attempts exactly its frames of the batch, in their order, or nothing without sockets |
| DataPublisherModule.CountsCover | src/data/DataPublisher.cpp:188-214 | complete plus incomplete attempts are all attempts, and the complete ones are the messages sent |
| EndToEnd.LoadedPairsAreProbed | src/datasource/SimDataSource.cpp:68-156 | every loaded pair names a channel layout and has no negative channel count |
| EndToEnd.EngineFrameArrives | src/data/DataPublisher.cpp:162-180 | the published message carries the captured frame if and only if the left picture in it, if any, has a positive width |
| EndToEnd.RawWidthDecides | src/datasource/SimDataSource.cpp:172-222 | a directory with one raw image under any documented name is scanned to one pair, and its frame arrives if and only if the encoded width is neither zero nor 2^31 or more |
| EndToEnd.PicturesArrive | src/capture/CaptureEngine.cpp:96-105 | the first payload of a 2D message gives both pictures of the pair back if and only if the left one is shorter than 2^32 bytes |
| EndToEnd.SubscribersSeeOrder | src/data/DataPublisher.cpp:122-215 | for every schedule and every pattern of refusals in which no message is completed after a partial one: a subscriber of one group splits out whole messages of that group with strictly increasing frame_index and no pair_id twice |
| AdminServerModule.ReadUntilHeaders | src/api/AdminServer.cpp:40-54 | reads as long as the specification of the header phase says, for every chunk sizing |
| AdminServerModule.ReadBody | src/api/AdminServer.cpp:56-69 | appends exactly the missing bytes or all there are; chunk sizes do not show |
| AdminServerModule.HeaderLimit | src/api/AdminServer.cpp:46-47 | every chunking delivers the header if and only if it has at most 65537 bytes |
| AdminServerModule.HeaderReach | src/api/AdminServer.cpp:40-54 | some chunking delivers the header if and only if it has at most 64 KiB and one read more |
| AdminServerModule.HeadDecides | src/api/AdminServer.cpp:84-99 | however much of the body came along with the header, the same header end and length are read |
| AdminServerModule.FieldAnnounces | src/api/AdminServer.cpp:87-99 | a Content-Length field in any letter case with spaces before its decimal digits announces its number |
| AdminServerModule.AssembledBody | src/api/AdminServer.cpp:272-288 | for every chunking, the body is the announced bytes, or all that came with the header if that is more |
| AdminServerModule.BodyIndependentOfChunks | src/api/AdminServer.cpp:272-288 | a request whose body has the announced length is assembled exactly, however it is cut into reads |
| AdminServerModule.ChunkingShows | src/api/AdminServer.cpp:272-288 | for every request: the outcome is the same for all chunkings if and only if no chunking delivers the header, or all do and the length found in the header covers whatever can come along with it |
| AdminServerModule.TrailingBytes | src/api/AdminServer.cpp:283-288 | bytes after the announced body stay out under every chunking if and only if there are none or the body fills the last header read |
| AdminServerModule.RequestLineIndependent | src/api/AdminServer.cpp:74-83 | method and path read from the buffer are those of the whole request |
| AdminServerModule.RequestLineRoundTrip | src/api/AdminServer.cpp:74-83 | method and path of a request line are recovered for every method, path, query and version, and the query is dropped |
| AdminServerModule.ShortRequestLine | src/api/AdminServer.cpp:76-81 | without a second blank the path is the root, without a first one the method is empty too |
| RequestText.BodyHandedOn | src/api/AdminServer.cpp:71-100 | for every request line, other header lines, spelling of the name Content-Length and body below 2^64 bytes: under every chunking exactly that body is assembled |
| RequestText.RequestHandedOn | src/api/AdminServer.cpp:272-288 | the same together with method and path |
| RequestText.NoLengthFound | src/api/AdminServer.cpp:90-99 | where the name is not mentioned the length is zero |
| AdminServerModule.HandleConnection | src/api/AdminServer.cpp:272-288 | method, path and body handed on are those of the specification; nothing is handed on when the header never came |
| Parameters.ParameterManager.RegisterParameter | src/common/Parameter.cpp:36-39 | files the parameter under its name |
| Parameters.ParameterManager.SetValue | src/common/Parameter.cpp:41-77 | the value is stored exactly when no check fails; unknown name, read-only, wrong type, a number below min or above max and a missing option are each reported in exactly their case |
| Parameters.AcceptsMeaning | src/common/Parameter.cpp:20-33 | what passes the checks, case by case |
| Parameters.ParameterManager.Get | src/common/Parameter.cpp:79-85 | the parameter of that name, if there is one |
| Parameters.ParameterManager.All | src/common/Parameter.cpp:87-93 | every parameter once |
| Parameters.ChangesEvolve | src/common/Parameter.cpp:41-77 | after any changes only values differ, each keeps its type and is the registered one or an accepted one |
| Parameters.RegisterParameters | src/main.cpp:43-92 | the fifteen parameters of the service, with the configured frame rate as default |
| Parameters.StandardRegistered | src/main.cpp:43-92 | each is filed under its own name and starts at its default |
| Parameters.LoadCameraSetting | src/main.cpp:106-131 | applies the items in order; an unreadable value ends the loading |
| Parameters.SaveCameraSetting | src/main.cpp:133-144 | one entry for each parameter, with its value |
| Parameters.SavedValues | src/main.cpp:97-104 | whole numbers, other numbers and options are saved as JSON values of their kind |
| Parameters.LoadsEach | src/main.cpp:113-126 | loading a saved file decides each parameter on its own, whatever the order of the items |
| Parameters.AccessorReads | src/main.cpp:118-123 | what each kind of parameter makes of each kind of JSON value |
| Parameters.UnreadableEndsLoading | src/main.cpp:113-130 | nothing behind an item that cannot be read has any effect |
| Parameters.RestoredValues | src/main.cpp:106-131 | under a changed configuration a saved value comes back if and only if the new registration accepts it or has it as its default |
| Parameters.PersistenceRoundTrip | src/main.cpp:106-144 | after any changes, saving and loading onto the same registration restores every parameter, read-only ones and defaults outside their limits included |
| Parameters.StaysValid | src/common/Parameter.cpp:41-77 | whatever file was loaded and whatever was set, each value has its type and is the default or within its limits |
| Parameters.LimitsHold | src/common/Parameter.cpp:25-33 | whatever was loaded and set, a value that is not its default lies between min and max, or among the options |
| Settings.NumbersStayWithin | src/main.cpp:67-91 | over every life of the service each numeric parameter is at its default or within its documented limits, and exactly the numbers within them can be set |
| Settings.OptionsStayWithin | src/main.cpp:68-86 | the same for the parameters with options |
| Settings.IlluminanceStays | src/main.cpp:84 | the read-only parameter never changes |
| Settings.OnlyThreeReopen | src/main.cpp:66-91 | which parameters need the camera to be opened again |
| Parameters.RestartKeepsSettings | src/main.cpp:43-144 | one whole life of the service, from registration through loading and changes to saving, is reproduced by the next one |

## Left out

- RingMachine.EveryRunIsSafe: capacities that do not divide 2^64 are covered up to 2^64 steps, and the pops of different threads are taken to be ordered by synchronisation.
- OverlappingPops.OrderKeptWithoutOverlap: counters do not wrap there, and every load sees the latest value.
- SplitSteps.InvariantsSurvive: the four calls inside a disconnect, and test and drain inside a stop or deactivation, stay one step.
- FrameQueue.ChannelFrameQueue.Size: not claimed while another thread moves a counter, because the two loads are not one step.
- DataPipelineModule.DataPipeline.Sizes: the same.
- PipelineMachine.PublishedInOrder: up to 2^64 ticks, because frame_index wraps there.
- PipelineMachine.PairIdsIdentifyTicks: up to 2^64 ticks, for the same reason.
- PipelineMachine.EveryFrameAccountedFor: pushes are counted as accepted or dropped in the same step in which they are attempted.
- Channels.ChannelManager.SubscriberCount: the count is an unbounded integer; the 32-bit `int` of the code is not modelled.
- Commands.CommandHandler.CmdCheckStatus: the statistics of publisher, pipeline and capture engine in the reply, and the number of loaded pairs.
- Parameters.LoadCameraSetting: a floating-point number outside the 64-bit range for an integer parameter is undefined in C++; the model clamps it, as the aarch64 target of the service does.
- StereoPairs.Load: an empty or missing directory name, which loads nothing, is not modelled.
- ZeroMQ itself: real high-water marks, payload release callbacks, `publish_shutdown` and the use of one socket from several threads.
- Sockets, TLS handshakes, accept and worker threads, and the start and stop of every thread.
- Blocking and retrying inside a TLS read: a read delivers at least one byte until the stream ends.
- The synthetic generators (depth, point cloud, sensors): their bytes are inputs.
- Time: pacing, time-outs and timestamps, including the publish timestamps in the header.
- Command-name normalisation and its alias table, `client_id` lookup in the body, and the rendering of replies as JSON text.
- JPEG fill bytes, standalone markers before the frame header and other SOF variants, which the scan does not implement.
- Configuration files and logging.

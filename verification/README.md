# A model of the realtime lighting engine

Dafny proofs about the parts of the engine where the behaviour is hardest to see from the code: the GUI
wire protocol, the filter scheduler and its dataflow, the thread pool and the parallel compilation of
scenes, the event storage, the sequencer, the cue filter, the beat tracker and the state registry.

Verify everything with `dafny verify dfyconfig.toml`, or one component by naming its files and those it
imports.

| files | component |
|---|---|
| Varint, WireProtocol, ClientBuffers, ClientHandler | framing, chunked streams and the resumable message parser |
| Scheduling, Dataflow, SceneCompilation, SceneSchedules | scheduling, linking and evaluating filters; compiling all scenes, and what the number of processors means for it |
| Threadpool, ThreadReuse, StaleThreadIds, FinishingOrders | the pool as a protocol of atomic steps; thread ids that are used again, and when that matters; the orders in which it can finish its tasks |
| EventStorage | the double buffer, its ongoing events and the interleavings of producers and consumer |
| Interpolation, Keyframes, SequencerChannel, ChannelRuns, FilterSequencer, SequencerRuns | keyframe queues, arbitration, transitions, runs of a channel and of the filter |
| CueParser, CueListParser, CueText | the cue list text and the flat tables it fills; that texts are read as they are written |
| CuePlayback, CueTiming, CueRuns, CueTimeline, FilterCue | the playback machine, its times, its runs, what it shows, and the filter object |
| BeatTracker, BeatLiveness, BeatTempo, BeatTracking, EmptyTempo | timers and scores, what is bound to happen, tempo measurement, the tracker object, distributions that run empty |
| StateRegistry | the flat state map |
| Collections | facts about sequences and multisets |

Parts of the engine that change state in place are classes and methods with loops. Each method is proved
against a specification function on values, and the properties are lemmas about these functions: over
every byte stream, every interleaving, or every run.

Doubles are real numbers. Integer widths are written out where they matter: the 32-bit accumulators of
the varint reader, the signed read limit, the 64-bit worker counter, the 16-bit cue index, unsigned
positions in the cue parser and the saturation of `atol`. Clocks, sound, the outcome of a try-lock, the
order of a hash map, the ids of threads and the choice of the next thread are parameters, so the results
hold for all of them.

## Where the code and its intention differ

- Types and lengths of 2^31 or more make the varint reader overflow signed products, which has no defined
  result (`WireProtocol.DefinedStreamingRoundTrip`). Where products wrap around, types come through, but a
  payload of 2^31 bytes or more is lost, as its length becomes a negative read limit
  (`WireProtocol.RoundTrip`).
- A type or length whose five bytes all announce another one leaves the handler waiting for an end that it may
  not read: no later message is handled (`WireProtocol.EndlessHeaderStalls`).
- The logarithm that sizes a record is a double: from 2^49 bytes on it can fall a byte short
  (`Varint.LengthFallsShort`).
- `Skip(0)` on an input buffer that has not handed out anything uses a record that does not exist
  (`ClientBuffers.ClientInputBuffer.Skip`).
- The cleanup of the pool means to drop the threads it has joined, but a joined thread has no id any more,
  so nothing is removed (`Threadpool.HandlesAreKept`), and the handles pile up.
- `join` leaves the ids of stopped threads behind. When a task is enqueued later, a new worker may get such
  an id, and `enque` then waits for that worker. This can happen exactly when a `join` comes between two
  tasks (`StaleThreadIds.UnfinishedIsWaitedForIff`).
- `run_cue` lets an index equal to the number of cues through, although there is no such cue
  (`CuePlayback.RunCueKeepsValid`).
- Resuming decides whether the cue is finished from the unscaled time (`CueTiming.ResumeKeepsPlace`). At
  half speed it can restart a cue that is not finished (`CueTiming.UnfinishedCueIsRestarted`), at double
  speed go on with one that is (`CueTiming.FinishedCueGoesOn`).
- When the speed returns from zero or below to exactly the value it had before, the change goes unnoticed
  and playback does not start again (`CueTiming.SpeedReturns`). When it returns to any other value, a filter
  that had been stopped starts to play by itself (`CueTiming.StoppedFilterStarts`).
- An ease leaves the range of start and target exactly when the elapsed share of its duration leaves
  [-1, 1] for EASE_IN or [0, 2] for EASE_OUT (`Keyframes.OvershootsUnlessTame`). Start times are scaled but
  elapsed times are not, so this happens in running frames (`Keyframes.EaseOvershootsAtSpeedTwo`).
- After its last frame a sequencer transition is dropped without another request: the channel keeps the value
  of the update before, which need not be the target (`ChannelRuns.LastFrameEnds`). An EDGE switches 40 ms
  early for that reason (`Keyframes.EdgeSwitches`).
- A channel update loops forever exactly when the scaled time is negative and some queue has not started
  (`SequencerChannel.UpdateEndsIff`); queues that have started go on as usual.
- A scene without an id takes its place in the list as its id, which may be the id of another scene: then
  one of them is lost (`SceneCompilation.NamelessSceneIsLost`). None of all the orders of
  finishing loses one exactly when the ids are different and either all have one or none is below the number
  of scenes (`SceneCompilation.NothingIsEverLostIff`). With a processor for all scenes but one the pool can
  take any of these orders (`SceneSchedules.ManyProcessorsLoseIff`); with fewer it can take those of
  `FinishingOrders.FinishesInIff`, down to that of the templates (`SceneSchedules.NoProcessorsLoseIff`).
- A transition without keyframes is listed as running although it runs nowhere, until some transition
  ends in some channel or the scene is switched on (`FilterSequencer.CycleExactIff`).
- Setting a tempo cancels a predicted beat (`BeatLiveness.PredictionIsAnswered`) and does not change the beat
  period (`BeatTracker.Restart`); a tempo of zero or less would be doubled forever
  (`BeatTracker.FoldingNeedsPositive`).
- A distribution over tempi that has become empty stays empty, whatever is heard, and means a beat every 65
  frames until a tempo is set or fixed (`EmptyTempo.EmptyForGood`, `EmptyTempo.SettingFillsIt`). A flat signal
  empties it (`EmptyTempo.FlatFindsNothing`).
- Scene ids of 2^63 and more come out of an export as 2^63 - 1 (`StateRegistry.DecodeEncode`).

## Model

| member | source | states |
|---|---|---|
| `Varint.Encode` | src/io/client_output_buffer.cpp:39-54 | a varint is never empty; every byte but the last carries the continuation bit, the last does not |
| `Varint.EncodedStandsFor` | src/io/client_output_buffer.cpp:39-54 | the low seven bits of the bytes, the first ones least significant, are the number |
| `Varint.ReadTakesPrefix` | src/io/client_input_buffer.cpp:84-109 | a read consumes a prefix of the input and one unit of limit per byte; it stops unfinished only when the limit or the input is used up |
| `Varint.ReadResumes` | src/io/client_input_buffer.cpp:84-109 | cutting the input anywhere and resuming with the kept number and multiplier gives what one uncut read gives |
| `Varint.AccumulatorStep` | src/io/client_input_buffer.cpp:92-98 | one continuation byte moves the low seven bits into the 32-bit sum and leaves the rest at the next weight, wrap-around included |
| `Varint.ReadEncoded` | src/io/client_input_buffer.cpp:84-109 | the reader gives back an encoded number modulo 2^32 from any state of its accumulators, leaves the bytes behind it unread and has its multiplier reset |
| `Varint.LengthOfVarintIsExactIff` | src/io/client_handler.cpp:125-127 | with a logarithm that rounds but keeps the order and the powers of two, the formula reserves as many bytes as `WriteVarint32` writes exactly when the logarithm has not been rounded down to that of a shorter number; otherwise one byte too few |
| `Varint.LengthOfVarintIsExact` | src/io/client_handler.cpp:125-127 | so a logarithm as precise as that of a double makes the formula exact for all numbers below 2^49 |
| `Varint.LengthFallsShort` | src/io/client_handler.cpp:125-127 | a double rounds the logarithm of 2^49 + 1, and 2^49 gets 7 bytes where 8 are written |
| `Varint.EncodedOverflows` | src/io/client_input_buffer.cpp:92-102 | reading an encoded number stays within signed 32-bit products exactly below 2^31 |
| `Varint.OverflowsResumes` | src/io/client_input_buffer.cpp:84-109 | a read that is cut and resumed meets the products an uncut read meets |
| `Varint.FiveBytes` | src/io/client_handler.cpp:45-52 | the limit of five bytes admits exactly the numbers below 2^35, so every 32-bit number |
| `Varint.ReadStallsIff` | src/io/client_input_buffer.cpp:84-109 | a read uses up its limit without an end exactly when every byte it may take says that another one follows |
| `WireProtocol.ParseResumes` | src/io/client_handler.cpp:37-79 | for every byte stream, well-formed or not, and every cut, handling two portions one after the other gives the state, the unread bytes and the callbacks of handling them at once |
| `WireProtocol.ParseIsIdempotent` | src/io/client_handler.cpp:37-79 | a handler run leaves nothing to do: running again without new bytes changes nothing and calls nothing back |
| `WireProtocol.ParseChunksIsParse` | src/io/client_handler.cpp:115-119 | the data callback, once per chunk, has the effect of one run over all bytes |
| `WireProtocol.ParseOneFrame` | src/io/client_handler.cpp:37-79 | one frame at the front of the stream makes one callback with the part of the payload a signed limit allows, whatever follows |
| `WireProtocol.SmallFrame` | src/io/client_handler.cpp:85-113 | the record begins with the type and the length, in this order, and the payload follows |
| `WireProtocol.RoundTrip` | src/io/client_handler.cpp:37-113 | with products that wrap around at 32 bits and types and lengths below 2^32, parsing what was framed gives back the messages once each, in order and complete, exactly when every payload is shorter than 2^31 bytes; then the handler is idle and nothing is unread |
| `WireProtocol.StreamingRoundTrip` | src/io/client_handler.cpp:37-119 | the same for every cut of the stream into chunks |
| `WireProtocol.DefinedRoundTrip` | src/io/client_handler.cpp:37-113 | no signed product overflows exactly when all types and lengths are below 2^31, and then the messages come back; this does not depend on wrapping |
| `WireProtocol.DefinedStreamingRoundTrip` | src/io/client_handler.cpp:37-119 | the same for every cut of the stream into chunks, with the handler idle and nothing unread |
| `WireProtocol.ParseOverflowsResumes` | src/io/client_handler.cpp:37-79 | cutting a byte stream makes no difference to whether a product overflows |
| `WireProtocol.DeliveredIsPrefix` | src/io/client_handler.cpp:37-119 | at every moment of a stream the callbacks made are a prefix of the messages sent |
| `WireProtocol.DeliveredWithoutDelay` | src/io/client_handler.cpp:37-119 | every message whose frame has arrived has been called back, whatever bytes follow |
| `WireProtocol.StalledForGood` | src/io/client_handler.cpp:37-62 | a handler that may take no byte for a header it has not finished takes none of what comes later, in whatever chunks, and calls nothing back |
| `WireProtocol.HeaderStallsIff` | src/io/client_handler.cpp:37-62 | a type or a length leaves the handler so exactly when none of the bytes it may take ends it |
| `WireProtocol.EndlessHeaderStalls` | src/io/client_handler.cpp:37-79 | after any framed messages, five bytes that each announce another one stall the handler for good: the messages before are delivered, nothing after is, whatever the chunks |
| `ClientBuffers.ClientInputBuffer.AppendData` | src/io/client_input_buffer.cpp:111-120 | appends a chunk to the unread bytes; limit and varint state stay |
| `ClientBuffers.ClientInputBuffer.UpdateLimit` | src/io/client_input_buffer.cpp:122-124 | sets the limit a reader sees; the unread bytes stay |
| `ClientBuffers.ClientInputBuffer.GetStreamSize` | src/io/client_input_buffer.cpp:126-128 | the stream size is the number of unread bytes |
| `ClientBuffers.ClientInputBuffer.Next` | src/io/client_input_buffer.cpp:17-48 | hands out a prefix of the unread bytes, never beyond the limit, takes the same share of the limit, and fails exactly when limit or stream is used up |
| `ClientBuffers.ClientInputBuffer.BackUp` | src/io/client_input_buffer.cpp:51-61 | gives back exactly the last bytes handed out and their share of the limit |
| `ClientBuffers.ClientInputBuffer.Skip` | src/io/client_input_buffer.cpp:63-74 | drops the given number of bytes, or all that limit and stream allow, and tells which; skipping nothing before any record was fetched uses a record that does not exist, and nothing else does |
| `ClientBuffers.ClientInputBuffer.ReadVarint32` | src/io/client_input_buffer.cpp:84-109 | reading through the chunk queue computes the flat varint reader on the unread bytes, suspended state included |
| `ClientBuffers.ClientInputBuffer.ReadBytes` | src/io/client_input_buffer.cpp:89-103 | the loop over one record reads its bytes in the same way and gives back what follows the end of the varint |
| `ClientBuffers.ClientOutputBuffer.Next` | src/io/client_output_buffer.cpp:14-24 | hands out all the free space, once |
| `ClientBuffers.ClientOutputBuffer.BackUp` | src/io/client_output_buffer.cpp:27-32 | gives space back |
| `ClientBuffers.ClientOutputBuffer.WriteVarint32` | src/io/client_output_buffer.cpp:39-54 | appends the encoded number, and succeeds exactly when there is room; otherwise what it has written is a prefix of it |
| `ClientHandling.ClientHandler.ParseMessageCb` | src/io/client_handler.cpp:62-72 | reads the stream to its end: the callback gets the unread bytes up to the limit, and exactly those are consumed |
| `ClientHandling.ClientHandler.HandleMessages` | src/io/client_handler.cpp:37-79 | the recursive three-state handler over the chunk queue refines the flat parser; it terminates on unread bytes and state |
| `ClientHandling.ClientHandler.IncomingData` | src/io/client_handler.cpp:115-119 | one callback of the connection is one step of the flat parser on old and new bytes |
| `ClientHandling.Receive` | src/io/client_handler.cpp:37-119 | a handler fed any chunks of framed messages has called back exactly these messages and ends idle with nothing unread |
| `ClientHandling.WriteParts` | src/io/client_handler.cpp:85-113 | type, size and body end up in the buffer as the frame of the message exactly when the buffer is large enough |
| `ClientHandling.SizeOfFrame` | src/io/client_handler.cpp:85-88 | the computed size is that of the frame, or a byte short for a length whose logarithm was rounded down |
| `ClientHandling.WriteMessage` | src/io/client_handler.cpp:85-113 | below 2^49 bytes the record sent is the frame of the message with no byte to spare; a length the formula falls short for sends nothing |
| `Scheduling.FilterIdOf` | src/executioners/scene_factory.cpp:586-589 | the id in front of the first colon: free of colons, a prefix of the channel id, followed by a colon unless it is all |
| `Scheduling.PrefixScheduled` | src/executioners/scene_factory.cpp:576-634 | following any valid order, either all filters met are placed or some missing filter has all it needs |
| `Scheduling.SomeMissingIsClear` | src/executioners/scene_factory.cpp:576-634 | as long as any valid order of all filters exists, a round can place a filter |
| `Scheduling.BlockedMeansNoOrder` | src/executioners/scene_factory.cpp:608-628 | when every missing filter is blocked, no valid order exists |
| `Scheduling.ScheduleRound` | src/executioners/scene_factory.cpp:581-607 | one rotation of the worklist with its shrinking bound: it visits filters from the front until no more are left than it has visited, takes exactly those that are clear when their turn comes, keeps the others in order, and if it places none it has found all of them blocked |
| `Scheduling.VisitOne` | src/executioners/scene_factory.cpp:583-606 | one visit: the front filter is placed exactly if all it needs has been resolved before, and goes to the end otherwise |
| `Scheduling.RunRounds` | src/executioners/scene_factory.cpp:580-633 | each round goes on where the last one ended; the boundaries are the numbers of filters placed after each round |
| `Scheduling.ScheduleFilters` | src/executioners/scene_factory.cpp:576-634 | succeeds exactly when a dependency-respecting order exists; the result is such an order, found in these rounds, whose boundaries strictly increase up to the filter count, and the index finds the last filter of every id; on failure all missing filters are blocked |
| `Dataflow.InputMappingConnects` | src/executioners/scene_factory.cpp:636-662 | a mapping is refused exactly when some link asks for a channel unknown in every type; otherwise exactly the input channels that some link offers a channel of the type for are found, each with the channel of the last such link |
| `Dataflow.ConstructChannelInputMapping` | src/executioners/scene_factory.cpp:636-662 | the loop computes that mapping |
| `Dataflow.OwnsItsOutputs` | src/executioners/scene_factory.cpp:664-672 | a filter owns exactly its outputs, each under its own name behind the id of the filter |
| `Dataflow.LinkedReads` | src/executioners/scene_factory.cpp:636-672 | under the name of an input channel a linked filter finds what the channel at the other end of its last link holds |
| `Dataflow.ConnectFilters` | src/executioners/scene_factory.cpp:664-672 | succeeds exactly when every filter finds its channels among those registered so far, and then each filter is linked to them |
| `Dataflow.DependencyIsRegistered` | src/executioners/scene_factory.cpp:664-672 | in a scheduled scene a dependency is registered when it is needed, and belongs to an earlier filter |
| `Dataflow.LinkedAgainstAll` | src/executioners/scene_factory.cpp:664-672 | in a scheduled scene a filter is linked as if all outputs were known already |
| `Dataflow.CycleSolves` | src/executioners/scene.hpp:47-57 | after one pass every filter's outputs and state are its update applied to the final values of its inputs, and nothing else has changed |
| `Dataflow.SolutionIsUnique` | src/executioners/scene.hpp:47-57 | the dataflow equations of a scheduled scene have one solution only |
| `Dataflow.OrderDoesNotMatter` | src/executioners/scene.hpp:47-57 | two usable orders of the same filters compute the same cells and states |
| `Dataflow.OrderNeverMatters` | src/executioners/scene.hpp:47-57 | the same over any number of cycles |
| `Dataflow.ScheduledFeeds` | src/executioners/scene_factory.cpp:664-683 | scheduling and linking give filters that read from earlier ones only |
| `Dataflow.ScheduleDoesNotMatter` | src/executioners/scene_factory.cpp:576-672 | any two schedules of a scene compute the same in every cycle |
| `Dataflow.LinkabilityDoesNotMatter` | src/executioners/scene_factory.cpp:636-672 | whether linking succeeds does not depend on the schedule |
| `Dataflow.ComputeFilter` | src/executioners/scene_factory.cpp:674-686 | compiling fails to schedule exactly when no valid order exists; a compiled scene is a valid order with its links, increasing boundaries and an index that finds every id; for different ids without colons it succeeds exactly when some valid order links, and the scene is ready to run |
| `Dataflow.Scene.InvokeFilters` | src/executioners/scene.hpp:47-57 | the loop over the filters is one cycle and solves the dataflow equations of all of them |
| `SceneCompilation.TaskKeepsIndexed` | src/executioners/scene_factory.cpp:719-732 | the locked part of a task keeps the table: the scenes in order of completion, every id finding the last of them registered under it, ids of their own or not |
| `SceneCompilation.TableIsIndexed` | src/executioners/scene_factory.cpp:719-732 | the table an order of finishing leaves holds the compiled scenes in this order, and the flag tells whether all compiled |
| `SceneCompilation.AllFoundIffDistinctKeys` | src/executioners/scene_factory.cpp:719-725 | for one order of finishing, every compiled scene is found under its id, or its index if it has none, exactly when no two of these are the same |
| `SceneCompilation.NeverCollideIff` | src/executioners/scene_factory.cpp:719-725 | this holds for every order exactly when the ids are different and either every template has one or none lies below the number of scenes |
| `SceneCompilation.NothingIsEverLostIff` | src/executioners/scene_factory.cpp:695-742 | no scene is ever pushed out of the index, in all orders of finishing there are, exactly when the templates that compile never collide in this sense |
| `SceneCompilation.KeptNeverCollide` | src/executioners/scene_factory.cpp:695-742 | templates that never collide do so neither when some of them fail to compile, so this can be told before |
| `SceneCompilation.NamelessSceneIsLost` | src/executioners/scene_factory.cpp:719-725 | a scene without an id and one with id 0: finished in this order the first is lost, the other way round both are found |
| `SceneCompilation.DistinctKeysFind` | src/executioners/scene_factory.cpp:695-742 | when no two keys are the same each id finds the scene compiled from the template with that id |
| `FinishingOrders.OnlyFeasible` | src/executioners/threadpool.cpp:14-46 | in every run of the pool that enqueues tasks and joins, each is finished once, and with m of them done none beyond number m + `cpu_count` is the next |
| `FinishingOrders.EveryFeasible` | src/executioners/threadpool.cpp:14-46 | each of these orders has a schedule |
| `FinishingOrders.FinishesInIff` | src/executioners/threadpool.cpp:14-46 | so these are exactly the orders in which the pool can finish its tasks |
| `SceneSchedules.NoRunLosesIff` | src/executioners/scene_factory.cpp:695-742 | no run of the pool loses a scene exactly when none of these orders does |
| `SceneSchedules.ManyProcessorsLoseIff` | src/executioners/scene_factory.cpp:695-742 | with a processor for all scenes but one, no run loses a scene exactly when the templates that compile never collide |
| `SceneSchedules.NoProcessorsLoseIff` | src/executioners/scene_factory.cpp:695-742 | with a processor count of 0 the scenes are finished in the order of their templates, and nothing is lost exactly when no two of their keys are the same in that order |
| `SceneCompilation.PoolCompletes` | src/executioners/threadpool.cpp:14-46 | a pool run that enqueues one task per template and joins has completed each of them once |
| `SceneCompilation.PopulateSceneVector` | src/executioners/scene_factory.cpp:695-742 | for every schedule of the pool the table is that of an order of finishing and the flag is true exactly when there are templates and all compiled; if the compiled templates never collide no scene is lost and each id finds its own; if all have ids no other id is known |
| `Threadpool.StepKeepsInv` | src/executioners/threadpool.cpp:14-64 | every atomic step of a worker or the owner keeps conservation of tasks, the (possibly wrapped) counter of live workers, and the tracking of handles |
| `Threadpool.EveryRun` | src/executioners/threadpool.cpp:14-64 | in every interleaving enqueued tasks are queued, in hand or completed, as multisets; at most `cpu_count` workers are live; when `join` has returned, each task has run exactly once and no worker is left |
| `ThreadReuse.StepKeepsSafe` | src/executioners/threadpool.cpp:27-64 | until the first `join` every id noted as stopped is still taken and noted once, and no running worker has a noted id, whatever free ids new threads get |
| `ThreadReuse.CleanupWaitsForFinished` | src/executioners/threadpool.cpp:48-64 | without workers, or unless a `join` comes between two tasks, a cleanup only waits for workers that have left their loop, also when ids of joined threads are used again |
| `StaleThreadIds.AllQuietly` | src/executioners/threadpool.cpp:14-64 | for every list of calls there is a schedule in which all workers exit before each next call, and after any task an id stays noted |
| `StaleThreadIds.NewWorkerIsWaitedFor` | src/executioners/threadpool.cpp:27-64 | after a `join` the id of a joined worker is free but still noted: a worker that gets it is waited for by the call that has started it, before its first task |
| `StaleThreadIds.UnfinishedIsWaitedForIff` | src/executioners/threadpool.cpp:14-64 | for every list of calls, a cleanup can come to wait for an unfinished worker exactly when the pool has workers at all and a `join` comes between two tasks |
| `Threadpool.HandlesAreKept` | src/executioners/threadpool.cpp:55-63 | in every run the list holds the handles of all workers ever spawned: what a cleanup has joined has lost its id and is not removed |
| `Threadpool.RemovesNothing` | src/executioners/threadpool.cpp:59-63 | removing by id removes no handle that has been joined |
| `Threadpool.SomeStepIsEnabled` | src/executioners/threadpool.cpp:14-64 | no deadlock: inside of a call the owner or some worker can go on |
| `Threadpool.StepDecreases` | src/executioners/threadpool.cpp:14-64 | every step inside of a call brings the pool closer to rest, whoever takes it |
| `Threadpool.CallsReturn` | src/executioners/threadpool.cpp:14-64 | so the length of any schedule without new calls is bounded: every `enque` and `join` returns |
| `Threadpool.JoinReturns` | src/executioners/threadpool.cpp:14-25 | a `join` that can go no further has returned, with every task completed exactly once |
| `EventStorage.TrackAllFits` | src/events/event_storage.cpp:73-88 | going through the new events keeps the map of ongoing events equal to the senders whose latest START or RELEASE in the whole history is a START |
| `EventStorage.LastStartGoesOn` | src/events/event_storage.cpp:73-88 | after its last START a sender goes on with the arguments of that event, under an id of its own |
| `EventStorage.GoesOnUntouched` | src/events/event_storage.cpp:73-88 | a sender without START or RELEASE goes on as it was |
| `EventStorage.OngoingInOrder` | src/events/event_storage.cpp:90-93 | walking the ordered map lists every ongoing event once, by ascending sender |
| `EventStorage.Storage.RegisterEventSource` | src/events/event_storage.cpp:96-106 | source ids are given out one after the other, and refused exactly when they no longer fit 32 bits |
| `EventStorage.Storage.InsertEvent` | src/events/event_storage.cpp:34-48 | accepts exactly events of registered sources for which the try-lock succeeds, appends them to the write storage, and leaves the read storage alone |
| `EventStorage.Storage.TrackOngoing` | src/events/event_storage.cpp:73-88 | the loop over the arrived events computes the new map and event counter |
| `EventStorage.Storage.SwapBuffers` | src/events/event_storage.cpp:66-94 | the read storage is what was written since the last swap, followed by one ONGOING event for each sender that goes on, and the write storage is empty |
| `EventStorage.StepKeepsInv` | src/events/event_storage.cpp:34-94 | every atomic step of producers and consumer keeps the account of accepted events |
| `EventStorage.EveryRun` | src/events/event_storage.cpp:34-94 | in every interleaving the accepted events are those handed to the cycles in order of insertion, then those waiting: each is read in exactly one cycle, followed by one ONGOING event per lasting sender |
| `EventStorage.AcceptedInRun` | src/events/event_storage.cpp:34-64 | in every interleaving exactly the insertions tried by registered sources while the mutex was free are accepted, in their order |
| `Keyframes.LinearIsProportional` | src/filters/sequencer/keyframe.hpp:35-56 | LINEAR leaves the start value, reaches the target at the end of its duration, and has gone the elapsed share of the way in between |
| `Keyframes.EdgeSwitches` | src/filters/sequencer/keyframe.hpp:35-64 | EDGE switches from start value to target 40 ms before the end of its duration |
| `Keyframes.EaseInIsSquare` | src/filters/sequencer/keyframe.hpp:35-76 | EASE_IN has gone the square of the elapsed share |
| `Keyframes.EaseOutIsSquare` | src/filters/sequencer/keyframe.hpp:35-80 | EASE_OUT has the square of the remaining share still to go |
| `Keyframes.IntegralCutsOff` | src/filters/sequencer/keyframe.hpp:35-42 | integer channels get the same without its fraction |
| `Keyframes.StartsNow` | src/filters/sequencer/channel.hpp:79-90 | a queue that has not started starts with its front frame at the scaled time |
| `Keyframes.GoesOn` | src/filters/sequencer/channel.hpp:91-99 | a frame goes on for its duration, 40 ms at least |
| `Keyframes.MovesOn` | src/filters/sequencer/channel.hpp:91-99 | then the next frame starts, at the time and the value of that moment |
| `Keyframes.PointInUnit` | src/filters/sequencer/keyframe.hpp:52-82 | the interleave point is between 0 and 1 exactly when the frame is tame: always for LINEAR and EDGE, for EASE_IN with an elapsed share of the duration in [-1, 1], for EASE_OUT in [0, 2] |
| `Keyframes.StaysBetweenIffTame` | src/filters/sequencer/keyframe.hpp:35-82 | a frame asks for values within every range of start and target exactly when it is tame |
| `Keyframes.OvershootsUnlessTame` | src/filters/sequencer/keyframe.hpp:35-82 | for given start and target the request leaves their range exactly when they differ and the frame is not tame |
| `Keyframes.Settle` | src/filters/sequencer/channel.hpp:79-99 | bringing a queue up to date ends with the queue used up or its front frame running |
| `Keyframes.LoopEndsIff` | src/filters/sequencer/channel.hpp:79-99 | the loop over a queue ends exactly when the scaled time is not negative, or the queue has started or is used up |
| `Keyframes.TurnsSettle` | src/filters/sequencer/channel.hpp:79-99 | and then its turns reach the settled queue |
| `Keyframes.NegativeTimeLoopsForever` | src/filters/sequencer/channel.hpp:79-99 | with negative scaled time a queue that has not started never does, however often the loop turns |
| `Keyframes.SettleWithin` | src/filters/sequencer/channel.hpp:79-99 | a queue brought up to date keeps start value and targets in range |
| `Keyframes.UpdateWithin` | src/filters/sequencer/keyframe.hpp:35-82 | what a running frame asks for lies between the range of its start value and its target |
| `Keyframes.EaseOvershootsAtSpeedTwo` | src/filters/sequencer/keyframe.hpp:52-82 | such a share does occur in a running frame: at speed 2 an EASE_IN frame from 0 to 100 asks for 1600 |
| `SequencerChannel.ArbitratedValue` | src/filters/sequencer/channel.hpp:146-224 | MIN takes the least, MAX the largest of the requests, AVERAGE their mean, of integers without its fraction |
| `SequencerChannel.ArbitrationIgnoresOrder` | src/filters/sequencer/channel.hpp:145-224 | the value for AVERAGE, MIN or MAX is determined and does not depend on the order of the requests |
| `SequencerChannel.ArbitratedBetween` | src/filters/sequencer/channel.hpp:145-224 | the arbitrated value lies in every range that holds all requests |
| `SequencerChannel.UpdateStaysWithin` | src/filters/sequencer/channel.hpp:68-109 | an update of queues that start and end in a range gives the channel a value in that range |
| `SequencerChannel.WalkOrderIsIrrelevant` | src/filters/sequencer/channel.hpp:68-109 | the order in which the hash map is walked through makes no difference |
| `SequencerChannel.BringUpToDate` | src/filters/sequencer/channel.hpp:79-99 | the loop over one queue computes its settled form |
| `SequencerChannel.UpdateEndsIff` | src/filters/sequencer/channel.hpp:78-99 | an update of the channel ends exactly when the loops over all its queues do |
| `SequencerChannel.SettleQueues` | src/filters/sequencer/channel.hpp:74-100 | the walk over all queues, in any order, settles each, collects the requests of the running ones and the ids of the used-up ones |
| `SequencerChannel.WalkFollows` | src/filters/sequencer/channel.hpp:68-109 | a finished walk with an arbitrated value is an update of the channel |
| `SequencerChannel.Channel.InsertKeyframes` | src/filters/sequencer/channel.hpp:115-126 | starts a transition at the current value unless it runs and may not be reset; all other transitions stay |
| `SequencerChannel.Channel.Clear` | src/filters/sequencer/channel.hpp:134-139 | drops all transitions, and returns to the default if so configured |
| `SequencerChannel.Channel.ApplyUpdate` | src/filters/sequencer/channel.hpp:68-109 | no used-up queue stays in the map; the result is true exactly when a queue was removed; the value is the arbitrated one |
| `SequencerChannel.Channel.PerformUpdateArbiting` | src/filters/sequencer/channel.hpp:145-224 | computes the average, least or largest request, or the current value without requests |
| `SequencerChannel.Average` | src/filters/sequencer/channel.hpp:150-163 | integers are summed up and divided once, doubles divided one by one; both meet the average |
| `ChannelRuns.StepKeepsWithin` | src/filters/sequencer/channel.hpp:68-139 | inserting, clearing and updating keep every range that holds the default and all targets |
| `ChannelRuns.FirstFramePlays` | src/filters/sequencer/channel.hpp:68-112 | in a channel with one transition, from its first update on and for its duration, the first frame gives at every update what it asks for after the time since, from the value at its start |
| `ChannelRuns.NextFramePlays` | src/filters/sequencer/channel.hpp:91-99 | then the next frame starts from the value the channel has |
| `ChannelRuns.LastFrameEnds` | src/filters/sequencer/channel.hpp:79-112 | after the last frame the transition is gone and the channel keeps its value |
| `ChannelRuns.EveryRun` | src/filters/sequencer/channel.hpp:68-224 | in every run of updates that end, for any number of overlapping transitions, the channel stays in every range that holds default and targets: LINEAR and EDGE at any speeds, negative ones included, eases of at least 40 ms at speed one |
| `FilterSequencer.StartsAfresh` | src/filters/sequencer/filter_sequencer.cpp:176-195 | a transition that may start enters all of its channels, each with its own frames and from its own value, and the summary under its name; nothing else changes |
| `FilterSequencer.StartedIff` | src/filters/sequencer/filter_sequencer.cpp:197-206 | a transition starts in a cycle exactly when one of its triggers has the sender of one of the events |
| `FilterSequencer.OneStarted` | src/filters/sequencer/filter_sequencer.cpp:200-206 | one trigger starts its transition once for an event of its sender, and not at all for another |
| `FilterSequencer.StartedInOrderOfEvents` | src/filters/sequencer/filter_sequencer.cpp:200-206 | transitions start in the order of the events |
| `FilterSequencer.StartedInOrderOfTriggers` | src/filters/sequencer/filter_sequencer.cpp:200-206 | and for one event in the order of its triggers |
| `FilterSequencer.StartKeepsComplete` | src/filters/sequencer/filter_sequencer.cpp:176-195 | starting a transition keeps every running transition in the summary |
| `FilterSequencer.StartKeepsExactIff` | src/filters/sequencer/filter_sequencer.cpp:176-195 | an exact summary, which lists the ids with a queue in some channel and no others, stays exact exactly when the transition has frames or is listed already |
| `FilterSequencer.StartAllKeepsExactIff` | src/filters/sequencer/filter_sequencer.cpp:197-206 | the same for all transitions of a cycle, each with an id of its own |
| `FilterSequencer.AllOrNone` | src/filters/sequencer/filter_sequencer.cpp:176-195 | a transition that may not be restarted enters all of its channels afresh, or, when the summary lists it, none |
| `FilterSequencer.ApplyMakesExactIff` | src/filters/sequencer/filter_sequencer.cpp:197-228 | after updating the channels and collecting the summary is exact exactly when it was before or something ended in some channel |
| `FilterSequencer.CycleExactIff` | src/filters/sequencer/filter_sequencer.cpp:197-228 | a cycle keeps an exact summary exactly when all transitions that start have frames or were running, or something ended |
| `FilterSequencer.EveryRun` | src/filters/sequencer/filter_sequencer.cpp:176-245 | in every run of cycles that end and activations the summary lists all transitions that run, and no others as long as only transitions with frames start |
| `FilterSequencer.NegativeCycleEndsIff` | src/filters/sequencer/filter_sequencer.cpp:197-224 | with negative scaled time a cycle ends exactly when the queues end as they are and none of its transitions enters a channel |
| `FilterSequencer.FilterSequencer.EnqueueTransition` | src/filters/sequencer/filter_sequencer.cpp:176-195 | enters the transition in its channels and the summary, unless it runs and may not be restarted |
| `FilterSequencer.FilterSequencer.InsertIntoChannels` | src/filters/sequencer/filter_sequencer.cpp:180-190 | the loops over the channels start it in each affected one and leave the others alone |
| `FilterSequencer.FilterSequencer.HandleEvents` | src/filters/sequencer/filter_sequencer.cpp:197-215 | the transitions of all events of the cycle start in the order of the multimap |
| `FilterSequencer.FilterSequencer.ApplyUpdates` | src/filters/sequencer/filter_sequencer.cpp:216-224 | updates queues and values of all channels and tells whether some transition ended in some channel |
| `FilterSequencer.FilterSequencer.Update` | src/filters/sequencer/filter_sequencer.cpp:197-228 | one cycle is starting, updating and collecting; the summary stays exact if all transitions have frames, and every channel takes the value its remaining transitions ask for; without a trigger for one of the events nothing starts |
| `FilterSequencer.FilterSequencer.SceneActivated` | src/filters/sequencer/filter_sequencer.cpp:230-245 | all queues and the summary are empty afterwards, and the channels configured so are back at their defaults |
| `FilterSequencer.FilterSequencer.ComputeTransitionActive` | src/filters/sequencer/filter_sequencer.cpp:283-305 | true exactly when the id has a queue in some channel |
| `FilterSequencer.FilterSequencer.PerformTransitionGc` | src/filters/sequencer/filter_sequencer.cpp:273-281 | drops exactly the ids that no longer run |
| `SequencerRuns.UpdateFollows` | src/filters/sequencer/filter_sequencer.cpp:197-228 | what `Update` promises is one step of the filter seen as channels, summary and values |
| `SequencerRuns.StepKeepsWithin` | src/filters/sequencer/filter_sequencer.cpp:176-245 | a cycle or an activation keeps every channel and all its targets in range |
| `SequencerRuns.EveryRun` | src/filters/sequencer/filter_sequencer.cpp:176-245 | in every run of the filter, whatever the events start, no channel leaves a range that holds its default and all targets; the summary lists all that runs, and nothing else as long as only transitions with frames start |
| `CueText.FrameReads` | src/filters/filter_cue.cpp:149-204 | a value is read as written: its number, brought into the range of an integer channel, or its three numbers for a colour, and the curve its word names |
| `CueText.StampReads` | src/filters/filter_cue.cpp:206-227 | a stamp is read as written: its time in seconds as milliseconds, and one value for each channel in their order |
| `CueText.CueReads` | src/filters/filter_cue.cpp:229-274 | a cue is read as written: its stamps, and the handling that the first two words behind them name |
| `CueText.ListReads` | src/filters/filter_cue.cpp:126-274 | a cue list is read as written, and refused exactly when a number or word in it cannot be read or a stamp has not one value for each channel |
| `CueParser.Find` | src/filters/filter_cue.cpp:126-147 | the first place of a character from a position on, or none |
| `CueParser.PartsSplit` | src/filters/filter_cue.cpp:126-147 | the parts handed out are free of the separator, lie within the range, and joined again give the range |
| `CueParser.ParseRow` | src/filters/filter_cue.cpp:149-204 | a readable row has one value for each channel and as many parts as channels |
| `CueParser.FlatTable` | src/filters/filter_cue.cpp:149-204 | the flat table of a type has as many frames as rows times channels of that type |
| `CueParser.FrameAt` | src/filters/filter_cue.cpp:461-517 | the flat index of row and channel finds the value given for that channel at that time stamp |
| `CueListParser.HandleChannelFrame` | src/filters/filter_cue.cpp:149-204 | pushes the value to the table of the channel's type, and fails exactly for one channel too many or an unreadable value |
| `CueListParser.HandleRow` | src/filters/filter_cue.cpp:206-227 | succeeds exactly for readable rows, and then extends each table by the values of its type |
| `CueListParser.HandleTimestamp` | src/filters/filter_cue.cpp:206-227 | a readable time stamp with a complete row is added to the cue; an empty part is skipped; anything else fails |
| `CueListParser.HandleTimestamps` | src/filters/filter_cue.cpp:206-227 | the time stamps of a cue fill its tables, row after row |
| `CueListParser.HandleCueConf` | src/filters/filter_cue.cpp:229-248 | sets end or restart handling, ignores what follows the second configuration, and fails for unknown words |
| `CueListParser.HandleCue` | src/filters/filter_cue.cpp:250-274 | a cue is read exactly when its time stamps and configurations can be read, and holds what they say |
| `CueListParser.ParseCueList` | src/filters/filter_cue.cpp:573-580 | succeeds exactly for texts that stand for a list of cues, and then every cue holds what its text says |
| `CueListParser.AllComplete` | src/filters/filter_cue.cpp:126-274 | for any text: after success every cue has time stamps times channels frames for each type |
| `CueListParser.TableAt` | src/filters/filter_cue.cpp:126-274 | the frame at the flat index of time stamp and channel is the value the text has there |
| `CuePlayback.ProceedKeepsValid` | src/filters/filter_cue.cpp:461-517 | moving on to the next frame, cue or stop keeps every access in bounds |
| `CuePlayback.EndKeepsValid` | src/filters/filter_cue.cpp:410-459 | so does the end of a cue, which plays on exactly when it says so |
| `CuePlayback.CalcValuesKeepsValid` | src/filters/filter_cue.cpp:461-517 | a playing update keeps the filter at a frame that exists and its outputs in shape |
| `CuePlayback.PlayKeepsValid` | src/filters/filter_cue.cpp:617-666 | so do play commands |
| `CuePlayback.RunCueKeepsValid` | src/filters/filter_cue.cpp:689-713 | `run_cue` keeps the filter within its cue list exactly when the index is not the number of cues, which passes the test |
| `CuePlayback.UpdateKeepsValid` | src/filters/filter_cue.cpp:776-812 | so does every cycle, at any clock and speed |
| `CuePlayback.SceneActivatedKeepsValid` | src/filters/filter_cue.cpp:860-865 | so does starting the default cue |
| `CueTiming.UpdateKeepsTimed` | src/filters/filter_cue.cpp:776-812 | every cycle with a clock that does not go back keeps the order of the remembered times |
| `CueTiming.PlayKeepsTimed` | src/filters/filter_cue.cpp:617-666 | so do play commands |
| `CueTiming.RunCueKeepsTimed` | src/filters/filter_cue.cpp:689-713 | so does `run_cue` with an index other than the number of cues |
| `CueTiming.RelTimeInUnit` | src/filters/filter_cue.cpp:461-517 | the relative time an update interpolates with lies between 0 and 1 exactly when the update jumps over no keyframe |
| `CueTiming.RescaleKeepsPlace` | src/filters/filter_cue.cpp:800-810 | a new positive speed keeps the elapsed time stamps and the relative time |
| `CueTiming.PausedUpdatesKeepPlace` | src/filters/filter_cue.cpp:776-812 | so does any number of updates during a pause, with any clock and any positive speeds |
| `CueTiming.ResumeKeepsPlace` | src/filters/filter_cue.cpp:617-666 | resuming keeps cue, keyframe and elapsed time exactly when the unscaled time of the pause lies before the last time stamp, or when the cue was paused at its start and is itself the one that is played next |
| `CueTiming.UnfinishedCueIsRestarted` | src/filters/filter_cue.cpp:638-654 | at half speed a cue of length 10 paused at 7.5 is started again |
| `CueTiming.FinishedCueGoesOn` | src/filters/filter_cue.cpp:638-654 | at double speed a cue of length 10 paused at 14 goes on from there |
| `CueTiming.PauseKeepsPlace` | src/filters/filter_cue.cpp:667-682 | pausing keeps the place |
| `CueTiming.PauseAndResume` | src/filters/filter_cue.cpp:617-681 | pausing, any updates at any positive speeds, and resuming an unfinished cue restore the relative time |
| `CueTiming.SpeedReturns` | src/filters/filter_cue.cpp:794-811 | after a speed of zero or less, in whatever state the filter is, a positive one starts the playback exactly when it differs from the speed before; when it does not, play commands stay without effect |
| `CueTiming.StoppedFilterStarts` | src/filters/filter_cue.cpp:794-811 | a stopped filter then starts by itself, at the beginning of the next cue asked for or of the first one |
| `CueRuns.ParsedCuesArePlayable` | src/filters/filter_cue.cpp:573-580 | whatever text the parser accepts, its cues are complete for the playback exactly when each has a time stamp |
| `CueRuns.StepKeepsValid` | src/filters/filter_cue.cpp:615-812 | a command, activation or cycle leaves the filter within its tables exactly when it is not `run_cue` with the number of cues |
| `CueRuns.EveryRunInBounds` | src/filters/filter_cue.cpp:410-812 | whatever the clock, the speeds and the commands, every state of a run is within the tables exactly when no `run_cue` of the run names the number of cues |
| `CueRuns.ValueWithin` | src/filters/filter_cue.cpp:277-335 | an interpolated 8-bit, 16-bit or float value lies between start value and keyframe, rounding included |
| `CueRuns.TransitionWithin` | src/filters/filter_cue.cpp:461-517 | an interpolated frame stays within the ranges of its channels |
| `CueRuns.StepKeepsRanged` | src/filters/filter_cue.cpp:615-812 | every command, speed change, activation and cycle keeps all values in range |
| `CueRuns.EveryRun` | src/filters/filter_cue.cpp:410-812 | in every run with increasing time stamps, a clock that does not go back and no jump over a keyframe, every output stays in the range of the keyframes and starting values |
| `CueRuns.PlayingUpdateInterpolates` | src/filters/filter_cue.cpp:461-517 | an update that goes on playing has interpolated |
| `CueRuns.EndsAtKeyframe` | src/filters/filter_cue.cpp:337-353 | when playing ends, the outputs are those of the last keyframe, or stay as they are if nothing was interpolated since they were last held |
| `CueRuns.HoldsLastKeyframe` | src/filters/filter_cue.cpp:337-466 | a cue that interpolated once and ends in a hold or at the end of the list leaves every output exactly at its last keyframe, over pauses and speed changes, speeds of zero and below included |
| `CueTimeline.TransitionMoves` | src/filters/filter_cue.cpp:277-335 | how far a value has come at each relative time: EDGE not at all before 1, LINEAR that share, EASE_IN its square, EASE_OUT all but the square of the rest, SIGMOIDAL what its curve says |
| `CueTimeline.TransitionRounds` | src/filters/filter_cue.cpp:317-325 | 8-bit and 16-bit channels take the nearest whole number, halves away from zero |
| `CueTimeline.TransitionEnds` | src/filters/filter_cue.cpp:277-335 | a transition leaves its start value at relative time 0 and comes to its keyframe at 1 |
| `CueTimeline.OutputsMove` | src/filters/filter_cue.cpp:492-517 | each output is on its way from its own last value to its own keyframe |
| `CueTimeline.PlayingUpdateShows` | src/filters/filter_cue.cpp:461-517 | a playing update that jumps over no keyframe and is not at the end shows the place in the cue: on the way from keyframe to keyframe, as far as the stamps say |
| `CueTimeline.FollowsTimeline` | src/filters/filter_cue.cpp:461-812 | so in every run within a cue, over any updates, pauses and speed changes, the outputs are a function of the elapsed time in stamps |
| `CueTimeline.PlayBegins` | src/filters/filter_cue.cpp:616-666 | from a stop, play starts the cue asked for with `next_cue`, or the first one, from what is shown |
| `CueTimeline.PlayAgain` | src/filters/filter_cue.cpp:627-665 | play starts a playing cue again if it is configured so, and otherwise only sets what happens at its end |
| `CueTimeline.PlayAfterPause` | src/filters/filter_cue.cpp:638-665 | after a pause, play takes an unfinished cue up and starts the one after a finished cue |
| `CueTimeline.RunCueBegins` | src/filters/filter_cue.cpp:689-713 | `run_cue` starts the cue it names |
| `CueTimeline.ActivationBegins` | src/filters/filter_cue.cpp:860-865 | activation starts the default cue, or the last one if there is none with that index |
| `CueTimeline.CueEnds` | src/filters/filter_cue.cpp:410-459 | at its end a cue holds, the list stops, or the cue asked for, the same, the next or the first one begins at the last keyframe |
| `CueTimeline.NoSpeedPauses` | src/filters/filter_cue.cpp:794-799 | a speed of zero or below pauses the playback where it stands |
| `FilterCue.CopyRow` | src/filters/filter_cue.cpp:376-396 | copies the row of a frame, channel by channel |
| `FilterCue.CalcTransitions` | src/filters/filter_cue.cpp:277-335 | interpolates every channel of a type |
| `FilterCue.FilterCue.HoldValues` | src/filters/filter_cue.cpp:337-353 | the held values are the outputs |
| `FilterCue.FilterCue.KeepLastValues` | src/filters/filter_cue.cpp:355-374 | takes the outputs as start of the next transition |
| `FilterCue.FilterCue.TakeLastValuesFromCuelist` | src/filters/filter_cue.cpp:376-396 | takes the keyframe just passed as start of the next transition |
| `FilterCue.FilterCue.StartCue` | src/filters/filter_cue.cpp:398-408 | starts a cue at its beginning, at an index that exists |
| `FilterCue.FilterCue.HandleLastFrame` | src/filters/filter_cue.cpp:410-459 | ends a cue as its end handling says |
| `FilterCue.FilterCue.ProceedToFrame` | src/filters/filter_cue.cpp:461-490 | moves on to the frame that is due |
| `FilterCue.FilterCue.CalcAllValues` | src/filters/filter_cue.cpp:461-517 | one playing update |
| `FilterCue.FilterCue.SetRunMode` | src/filters/filter_cue.cpp:616-688 | play, play to the end of the cue, pause and stop, with the answer to the sender |
| `FilterCue.FilterCue.SetRunCue` | src/filters/filter_cue.cpp:689-713 | `run_cue`, its answer, and when it throws |
| `FilterCue.FilterCue.ChooseNextCue` | src/filters/filter_cue.cpp:714-734 | `next_cue` and its answer |
| `FilterCue.FilterCue.Activate` | src/filters/filter_cue.cpp:860-865 | starts the default cue |
| `FilterCue.FilterCue.FollowSpeed` | src/filters/filter_cue.cpp:794-811 | reacts to the speed of the cycle |
| `FilterCue.FilterCue.Cycle` | src/filters/filter_cue.cpp:776-812 | one cycle of the filter object is one step of the playback functions and keeps it valid |
| `BeatTracker.BeatPeriodIsNearest` | src/sound/BTrack.cpp:435 | the beat period of an index is the number of frames that comes closest to a beat at 2 * index + 80 beats a minute |
| `BeatTracker.MaxWeightedIs` | src/sound/BTrack.cpp:727-737 | the largest weighted score of a window is at least each of them, and one of them or 0 |
| `BeatTracker.FutureContinues` | src/sound/BTrack.cpp:673-681 | every synthesised score is the largest weighted score between two beat periods and half a beat period before it |
| `BeatTracker.PredictionIsMostExpected` | src/sound/BTrack.cpp:635-704 | the predicted frame is the first one with the largest weighted future score |
| `BeatTracker.TickMeans` | src/sound/BTrack.cpp:220-253 | a due prediction sets the timers to the beat as predicted and to the next prediction half a beat period later; a due beat takes the measured period |
| `BeatTracker.RestartMeans` | src/sound/BTrack.cpp:304-311 | setting a tempo counts as a beat now and puts the next prediction half a beat period later |
| `BeatTracker.CircularBuffer.At` | src/sound/CircularBuffer.hpp:45-49 | the i-th sample, oldest first |
| `BeatTracker.CircularBuffer.Set` | src/sound/CircularBuffer.hpp:45-49 | overwrites the i-th sample, oldest first |
| `BeatTracker.CircularBuffer.AddSampleToEnd` | src/sound/CircularBuffer.hpp:52-56 | drops the oldest sample and appends the new one |
| `BeatTracker.CircularBuffer.Resize` | src/sound/CircularBuffer.hpp:59-64 | zeros of the new size |
| `BeatTracker.RotatedAdd` | src/sound/CircularBuffer.hpp:52-56 | overwriting the cell at the write index and moving the index on is dropping the first and appending, wrap-around included |
| `BeatTracker.HalfIsRound` | src/sound/BTrack.cpp:617-620 | the rounded half of a beat period in whole numbers |
| `BeatTracker.BeatPeriodInRange` | src/sound/BTrack.cpp:435 | for each of the 41 tempi the beat period is between 32 and 65 |
| `BeatTracker.FoldTempo` | src/sound/BTrack.cpp:260-270 | a positive tempo is halved or doubled until it lies between 80 and 160; one that lies there stays; the index is in range |
| `BeatTracker.FoldIsUnique` | src/sound/BTrack.cpp:260-270 | a tempo has one folded tempo and one index only |
| `BeatTracker.FoldingNeedsPositive` | src/sound/BTrack.cpp:260-270 | no halving or doubling brings a tempo of zero or below into the range |
| `BeatTracker.MaxWeightedSigns` | src/sound/BTrack.cpp:722-744 | the largest weighted score is not negative, and positive as soon as one score in the window is |
| `BeatTracker.FutureReachesLatest` | src/sound/BTrack.cpp:663-681 | after half a beat period the shifted window reaches the latest score, so a positive latest score gives a positive future score |
| `BeatTracker.SomethingIsExpected` | src/sound/BTrack.cpp:683-700 | so a positive latest score makes some frame of the next beat period expected |
| `BeatTracker.CalculateMaxWeighted` | src/sound/BTrack.cpp:722-744 | the loop over a window, which lies within the computed scores |
| `BeatTracker.ExtendScores` | src/sound/BTrack.cpp:663-681 | the synthesised scores, each from the window shifted along; every window ends before the score it serves |
| `BeatTracker.PredictBeat` | src/sound/BTrack.cpp:635-704 | with a positive latest score the predicted place is the first of the most expected frames and lies within one beat period |
| `BeatTracker.TickKeepsConsistent` | src/sound/BTrack.cpp:220-253 | every frame keeps the timers in step with what was predicted and output |
| `BeatTracker.RestartKeepsConsistent` | src/sound/BTrack.cpp:306-310 | so does setting a tempo |
| `BeatTracker.EveryRun` | src/sound/BTrack.cpp:220-311 | in every run, from the start or any consistent state and whatever is heard, the beat period stays in [32, 65], and predictions and beats alternate unless a tempo is set in between |
| `BeatTracker.BeatsAreSpaced` | src/sound/BTrack.cpp:220-253 | each beat follows its prediction within 64 frames and the beat or tempo setting before it after 16 to 97 frames |
| `BeatLiveness.PredictionIsAnswered` | src/sound/BTrack.cpp:220-311 | a prediction is answered by a beat exactly when no tempo is set before the beat is due, and then after the frames its timer says and within 64 of being made |
| `BeatLiveness.BeatComes` | src/sound/BTrack.cpp:220-253 | from any state a beat comes within the time to the next prediction and 64 frames more |
| `BeatLiveness.EveryLongRunBeats` | src/sound/BTrack.cpp:220-253 | in every run any 97 frames without a tempo being set bring a beat |
| `BeatTempo.ThresholdIs` | src/sound/BTrack.cpp:442-480 | a sample is left with its excess over the mean of the samples from the eighth before it to the sixth after it, or of those there are near the ends |
| `BeatTempo.CombRowIs` | src/sound/BTrack.cpp:482-501 | a row is the weight of its lag times the sum of the means around the lag and its double, triple and quadruple |
| `BeatTempo.LagIsNearest` | src/sound/BTrack.cpp:390-395 | the lag of a tempo is the number of frames that comes closest to a beat at that tempo |
| `BeatTempo.ObservationIs` | src/sound/BTrack.cpp:390-395 | a tempo is observed in the rows of its own lag and of the lag of twice the tempo |
| `BeatTempo.LikelihoodIs` | src/sound/BTrack.cpp:404-417 | a likelihood is the largest, over all tempi before, of their weight times that of the transition times the observation |
| `BeatTempo.AdaptiveThreshold` | src/sound/BTrack.cpp:442-480 | in place: each sample less the mean of its window, cut off at zero, the windows shortened at both ends |
| `BeatTempo.FirstPassStaysInside` | src/sound/BTrack.cpp:450-458 | the first pass stays within a signal exactly from eight samples on |
| `BeatTempo.ThresholdScales` | src/sound/BTrack.cpp:442-480 | the threshold follows the loudness |
| `BeatTempo.ConstantVanishes` | src/sound/BTrack.cpp:442-480 | a constant signal is all threshold |
| `BeatTempo.Multiples` | src/sound/BTrack.cpp:488-496 | the correlations a tooth of the comb reads exist |
| `BeatTempo.CalculateCombFilterBank` | src/sound/BTrack.cpp:483-498 | the four nested loops give the weight of a lag times the sum of the means of its four teeth |
| `BeatTempo.LagsInRange` | src/sound/BTrack.cpp:390-395 | both filter rows read for a tempo exist |
| `BeatTempo.NormalisedIsDistribution` | src/sound/BTrack.cpp:605-614 | non-negative likelihoods become a distribution in the same order, or stay all zero |
| `BeatTempo.CalculateBestWay` | src/sound/BTrack.cpp:404-417 | the loop over the previous tempi finds the largest way to a tempo |
| `BeatTempo.CalculateTempo` | src/sound/BTrack.cpp:389-438 | the new beat period belongs to the first most likely tempo, which always exists, and lies between 32 and 65 |
| `BeatTempo.LoudnessIsIrrelevant` | src/sound/BTrack.cpp:388-435 | filter rows that are all the same number of times as large lead to the same tempo |
| `BeatTracking.NextScoreIs` | src/sound/BTrack.cpp:617-632 | one part of a score is the onset, nine parts the largest weighted score between two beat periods and half a beat period ago |
| `BeatTracking.PeriodOfTempoIsNearest` | src/sound/BTrack.cpp:277 | the beat period of a set tempo comes closest to it too, so setting the tempo of an index and measuring it give one beat period |
| `BeatTracking.PulsesAre` | src/sound/BTrack.cpp:279-302 | both buffers hold a pulse now and in every beat period before |
| `BeatTracking.NextScoreIsPositive` | src/sound/BTrack.cpp:617-632 | the score of a frame is positive whatever was heard before |
| `BeatTracking.PeriodOfTempoInRange` | src/sound/BTrack.cpp:277 | the beat period of a set tempo is between 32 and 65 |
| `BeatTracking.BTrack.constructor` | src/sound/BTrack.cpp:76-173 | the tracker starts with empty scores, an onset in every 43rd place, a beat period of 43 and consistent timers |
| `BeatTracking.BTrack.UpdateCumulativeScore` | src/sound/BTrack.cpp:617-632 | drops the oldest score and appends the one mixed from the window and the sample |
| `BeatTracking.BTrack.Predict` | src/sound/BTrack.cpp:635-704 | with a positive latest score sets both timers from the most expected frame |
| `BeatTracking.BTrack.MeasureTempo` | src/sound/BTrack.cpp:373-439 | the chain of threshold, comb filter and most likely tempo, from the fixed distribution if the tempo is fixed |
| `BeatTracking.BTrack.ProcessOnsetDetectionFunctionSample` | src/sound/BTrack.cpp:220-253 | one frame moves buffers and timers as the timing model says, so every due prediction finds a beat; a beat is reported exactly when its timer is zero |
| `BeatTracking.BTrack.SetTempo` | src/sound/BTrack.cpp:256-311 | both buffers hold pulses ending now, a beat period of the folded tempo apart, the distribution is all at its index, the timers restart, the beat period stays |
| `BeatTracking.BTrack.ChooseTempo` | src/sound/BTrack.cpp:258-277 | the distribution is all at the index of the folded tempo, and the beat period of that tempo is in range |
| `BeatTracking.BTrack.FixTempo` | src/sound/BTrack.cpp:314-337 | the fixed distribution is all at the index of the folded tempo |
| `EmptyTempo.EmptyForGood` | src/sound/BTrack.cpp:397-433 | after any measurements the distribution over tempi is empty exactly when it was before or one of them has found nothing: nothing heard later fills it again |
| `EmptyTempo.EmptyIsSlowest` | src/sound/BTrack.cpp:404-435 | an empty distribution means the first index, so a beat period of 65 frames |
| `EmptyTempo.SettingFillsIt` | src/sound/BTrack.cpp:256-337 | setting or fixing a tempo fills it again, and the next measurement keeps it so exactly when it finds something |
| `EmptyTempo.FlatFindsNothing` | src/sound/BTrack.cpp:373-395 | onsets that are flat after resampling leave nothing to find |
| `StateRegistry.ReadsBack` | src/executioners/state_registry.cpp:14-16 | the decimal text of a number reads back as that number |
| `StateRegistry.DecimalDigits` | src/executioners/state_registry.cpp:14-16 | the text of a number has its decimal digits, the most significant one first |
| `StateRegistry.SeparatorAfterNumber` | src/executioners/state_registry.cpp:51-60 | the first separator of a flat key is the one behind the scene id, whatever the key text holds |
| `StateRegistry.EncodeIsInjective` | src/executioners/state_registry.cpp:14-16 | different pairs of scene and key have different flat keys |
| `StateRegistry.DecodeEncode` | src/executioners/state_registry.cpp:51-65 | decoding gives back the key always, and the scene id exactly when it is below 2^63 |
| `StateRegistry.LastEntryWins` | src/executioners/state_registry.cpp:37-49 | of several states for a key the last one counts, and other keys keep theirs |
| `StateRegistry.ExportRebuilds` | src/executioners/state_registry.cpp:37-69 | an export taken back by an empty registry, in any order, rebuilds it exactly when every scene id is below 2^63 |
| `StateRegistry.Registry.SetOfScene` | src/executioners/state_registry.cpp:14-16 | sets one pair and no other |
| `StateRegistry.Registry.GetOfScene` | src/executioners/state_registry.cpp:29-35 | finds exactly the value last set for the pair |
| `StateRegistry.Registry.Export` | src/executioners/state_registry.cpp:50-66 | lists every pair once, decoded, with its value |
| `StateRegistry.Registry.UpdateStatesFromMessage` | src/executioners/state_registry.cpp:37-69 | a message with states sets them, later entries winning; an empty one gets all states |

## Left out

- WireProtocol.RoundTrip: payloads are byte sequences; the message classes of the protobuf library and the choice of a callback by type are not part of this model.
- ClientBuffers.ClientInputBuffer.Next: chunks and stream sizes are unbounded, and the byte counter (`ByteCount`) is not modelled: it drifts when the limit trims a chunk.
- ClientBuffers.ClientInputBuffer.ReadVarint32: products of signed integers wrap around at 32 bits, also where the language defines no result; `Varint.Overflows` tells where that is.
- ClientBuffers.ClientInputBuffer.Skip: counts are not negative, as the stream interface of the protobuf library has it.
- Dataflow.ComputeFilter: a filter is an arbitrary deterministic update of its own cells; which filter types exist, how much memory they need and how they read their configuration is not modelled. Two filters with the same id share their cells in the model.
- SceneCompilation.PopulateSceneVector: the messages collected for the user and the default DMX values of a scene are not modelled; indices are unbounded.
- Threadpool.EveryRun: tasks terminate and do not throw; at most 2^64 - 1 workers are live.
- The operations of `locked_queue` appear as the atomic steps of the pool, not as a class of their own.
- EventStorage.Storage.SwapBuffers: the history of accepted events is a ghost parameter; the audio and MIDI event sources and the notification of the GUIs are not modelled.
- Keyframes.PointInUnit: the SIGMOIDAL curve of the sequencer and colour channels are left out.
- Keyframes.InterleavePoint: a duration of zero is allowed for EDGE only; the other curves divide by it, and the doubles that come out are infinite or not numbers.
- FilterSequencer.FilterSequencer.Update: the ids of transitions are given; how configuration text becomes transitions is not modelled.
- CueListParser.HandleCue: the cue being read is handed from step to step instead of living in the list of cues.
- CueText.ListReads: texts in which a word or number holds a separator, a stamp has no values or a number channel is given a colour are left to `CueListParser.ParseCueList`, which covers every text.
- CueParser.ParseRow: `std::stoi` and `std::stod` are arbitrary partial functions.
- CueRuns.EveryRun: colour channels are parsed but not played back; the sigmoidal curve is any function that maps the unit interval into itself; cues have at least one time stamp.
- CuePlayback.UpdateKeepsValid: the position is not restored from the state registry when a scene is switched on, and nothing is pushed to the GUI.
- CuePlayback.RunCueKeepsValid: the filter state is not followed beyond the exception an index equal to the number of cues causes.
- BeatTracking.BTrack.MeasureTempo: resampling and autocorrelation are arbitrary functions, the Gaussian and Rayleigh windows arbitrary weights (positive where positivity matters); the hop size is 512, and the onset detection function is an input.
- EmptyTempo.FlatFindsNothing: the autocorrelation, an arbitrary function otherwise, is taken to give nothing for nothing here; whether the resampler makes a silence flat is not part of this model.
- BeatTempo.AdaptiveThreshold: signals of fewer than eight samples, for which the first pass leaves its array, are excluded; the engine uses 128 and 512.
- StateRegistry.Registry.UpdateStatesFromMessage: the message class is a map and a list; the width of its scene id field is not part of this model.
- Sockets, serial and Art-Net output, audio input, the parsing of XML and protobuf, logging: they belong to the operating system or to libraries.
- Lua filters, whose behaviour lives in user scripts; the control desk, which is user interface; conversion, constant and colour filters, each a single formula without state.

# Jiboia: a verified model of the accumulator, the pipeline and its shutdown

Jiboia moves data from HTTP into object storage. A handler calls `Enqueue` on the first stage of a flow; an
accumulator packs payloads into blocks and hands them to an uploader; the uploader turns each block into a work unit
for one of several workers; a worker sends the unit to all storages in parallel. This project models these pieces in
Dafny and proves what they promise over whole runs. `dafny verify dfyconfig.toml` checks all of it.

Three layers:

* **Packing.** `Packing` is the accumulator's rule on values: payloads wait in a pending group, leave joined by a
  separator, and payloads of at least the limit pass straight through. `PackingOptimality`, `PackingReference`,
  `Splitting` and `TimedPacking` prove what complete runs of it produce. `BySize` and `ByTimeAndSize` are the two
  accumulators as classes over byte arrays, proved against these functions, with the reused slice of buffered chunks
  and the copy loop of `flush` in `Chunks` and the uploader's queue and the circuit breaker in `Downstream`.
* **The concurrent pipeline.** `ShutdownGate` is one input queue with its read/write lock, its `shuttingDown` flag and
  its channel, with any number of callers. `Pipeline` is a whole flow, built from two such gates, the goroutines, the
  workers and the run group. A run is any list of attempted steps of any of the goroutines; a step that is not enabled
  changes nothing, so the results hold of all interleavings. `PipelineSafety` proves that a graceful shutdown loses
  nothing, `PipelineProgress` that it can always be completed, and `PipelineTimeouts` what the timer costs.
  `GateService`, `PipelineService` and `PipelineParallel` say what can be counted on meanwhile: which calls succeed,
  that a flow delivers without being stopped, and that no goroutine waits for another unless the code makes it.
* **Delivery.** `FanOut` is a worker's parallel upload with its error channel. `Delivery` puts it into the pipeline:
  each worker's compression and every goroutine of its fan-out are interleaved with all other steps, while the world
  may fail anything. `DeliveryResults` says what is then in the storages and when nothing is lost all the way,
  `FanOutParallel` and `DeliveryService` that uploads go on side by side and that serving alone gets data stored.
* **A smaller piece.** `DecompressionLimit` and `ReadAll` are the ingestion route's token channel and its growing read
  buffer.

What the model takes from outside: a circuit breaker either refuses a call or makes it once and returns its error; the
run group interrupts actors one at a time in registration order, and every `Run` has started before its `Done` is
read; storages, queues and decompressors return; bytes are numbers from 0 to 255, integers are unbounded, and times
are integers with 0 for Go's zero time.

Where the code and its documentation disagree, the model follows the code:

* `config_example.yaml:136-138` says that pending data is flushed once its *oldest* item is too old. The field
  `oldestDataTime` is overwritten by every buffered payload, so a tick looks at the *newest* one.
  `TimedPacking.OldestMayOverstay` gives the exact condition under which an over-age payload stays, and
  `TimedPacking.OverstayInstance` an instance.
* `README.md:45` says that no data is lost on SIGTERM. Every accepted payload does reach `work` exactly once
  (`PipelineSafety.NothingIsLost`), but a unit whose compression or upload then fails is logged and dropped
  (`pkg/worker/worker.go:100-113`). `DeliveryResults.NoLossIff` gives the exact condition under which everything
  accepted is in every storage, `DeliveryResults.PayloadIsStoredIff` the same for one payload and one storage, and
  `DeliveryResults.AcceptedYetLost` runs that lose an accepted payload.

`Room(c, n)` below is `n * (limit - |separator|)`, and `SeparatorBytes(c, n)` is `n` times the separator's length.

## Model

| member | source | states |
|---|---|---|
| Packing.BufferLenIsBlockLen | pkg/accumulator/accumulator_by_size.go:192-203 | the accumulator's running length, one separator per chunk and one taken off at the end, is the joined block's length, and minus a separator when nothing is buffered |
| Packing.AppendKeepsInv | pkg/accumulator/accumulator_by_size.go:135-165 | every append, timeouts in between or not, keeps every sent group a single payload or within the limit, and what is pending non-empty and below the limit |
| Packing.AppendKeepsPayloads | pkg/accumulator/accumulator_by_size.go:135-190 | one append neither loses, duplicates nor reorders a payload; empty payloads leave no trace |
| Packing.RunInv | pkg/accumulator/accumulator_by_size.go:107-165 | after any payloads: the size discipline holds, and sent groups followed by pending payloads are exactly the non-empty payloads, in order |
| Packing.PackIsSplit | pkg/accumulator/accumulator_by_size.go:228-243 | the blocks of a complete run cut the non-empty payloads, in order, into single payloads and joins within the limit |
| Packing.SizeDiscipline | pkg/accumulator/accumulator_by_size.go:135-203 | in every reachable state the pending length is the buffer length and below the limit (minus a separator when empty), and every sent block is non-empty and within the limit or one unchanged payload |
| Packing.BytesConserved | pkg/accumulator/accumulator_by_size.go:144-190 | after any calls, bytes out plus bytes pending equal bytes in plus a separator per payload minus one per group formed; likewise after shutdown |
| PackingOptimality.AppendIsGreedy | pkg/accumulator/accumulator_by_size.go:145-164 | early flushes and pass-through included, one append is exactly: join the last group if the payload fits, else open a new group |
| PackingOptimality.GreedyStaysAhead | pkg/accumulator/accumulator_by_size.go:135-165 | no feasible split of the payloads has fewer groups, and one with as many has a last group at least as long |
| PackingOptimality.PackIsOptimal | pkg/accumulator/accumulator_by_size.go:135-165 | for any payloads, a complete run hands over the minimum number of blocks over all order-preserving feasible splits of the non-empty payloads |
| PackingOptimality.NeighboursExceedLimit | pkg/accumulator/accumulator_by_size.go:153-158 | a block, a separator and the first payload of the next block together exceed the limit |
| PackingOptimality.BlocksAreDense | pkg/accumulator/accumulator_by_size.go:145-164 | m blocks satisfy (m - 1) * (limit - separator length) < 2 * bytes emitted |
| PackingReference.AppendIsAssembleStep | pkg/app/app_test.go:570-599 | one append does to the chunk list what one round of the one-string reference does to its buffer and result |
| PackingReference.PackRefinesAssembleResult | pkg/app/app_test.go:567-606 | for any payloads, the blocks of a complete run equal, in order, the reference's result on the non-empty payloads |
| Splitting.IndexFrom | pkg/app/app_several_pipes_test.go:135 | the position found is a separator, and none starts before it |
| Splitting.SplitUndoesJoin | pkg/accumulator/accumulator_by_size.go:167-188 | cutting a block at leftmost separators gives back its payloads if and only if each payload followed by a separator has its first separator at its end and the last one contains none |
| Splitting.SplitUndoesRun | pkg/app/app_several_pipes_test.go:134-147 | over a complete run, cutting all blocks gives back the accepted payloads if and only if every group is clean in that sense |
| Splitting.OneByteSeparatorIsClean | pkg/app/app_several_pipes_test.go:134-147 | a one-byte separator absent from a payload always makes it clean |
| Splitting.CleanPayloadsRoundTrip | pkg/app/app_several_pipes_test.go:134-147 | payloads that are clean one by one come back from any complete run, in order |
| TimedPacking.Segments | pkg/accumulator/accumulator_by_time_n_size.go:113-174 | a timed run is a series of untimed runs, cut at the timeouts that sent something |
| TimedPacking.TwoRuns | pkg/accumulator/accumulator_by_time_n_size.go:130-134 | packing in two runs costs at most one block over packing in one |
| TimedPacking.TimeoutCost | pkg/accumulator/accumulator_by_time_n_size.go:122-174 | with k timeouts that sent something, a timed run has at least as many blocks as packing by size and at most k more; with none, the same blocks |
| TimedPacking.StampIsNewest | pkg/accumulator/accumulator_by_time_n_size.go:168-200 | the clock field is the arrival time of the newest pending payload, and zero when nothing is pending |
| TimedPacking.TimerInvariant | pkg/accumulator/accumulator_by_time_n_size.go:153-200 | with non-zero clock readings, the clock field is zero exactly when the buffer is empty |
| TimedPacking.TickFlushesWhenNewestIsDue | pkg/accumulator/accumulator_by_time_n_size.go:130-134 | a tick sends what is pending exactly when the newest pending payload is as old as the time limit, and otherwise changes nothing |
| TimedPacking.AfterTick | pkg/accumulator/accumulator_by_time_n_size.go:130-134 | after a tick, nothing is pending or the newest pending payload is younger than the time limit |
| TimedPacking.OldestMayOverstay | config_example.yaml:136-142 | the documented bound on the oldest payload fails exactly when a newer pending payload is younger than the time limit |
| TimedPacking.OverstayInstance | pkg/accumulator/accumulator_by_time_n_size.go:169 | for every positive time limit, and every separator more than two bytes shorter than the size limit (so that two one-byte payloads fit below it), a run whose first payload is as old as the time limit at a tick and stays pending |
| Chunks.Slice.Add | pkg/accumulator/accumulator_by_size.go:160 | the chunk joins the slice in place, or in a larger backing array when the old one is full, and no byte array is written |
| Chunks.Copy | pkg/accumulator/accumulator_by_size.go:179-183 | a copy writes as many bytes as fit, where they belong, and nothing else |
| Chunks.CurrentBufferLen | pkg/accumulator/accumulator_by_size.go:192-203 | the loop computes the length of the block the chunks would make, or minus a separator |
| Chunks.Merge | pkg/accumulator/accumulator_by_size.go:167-185 | the copy loop fills a new array, to its last byte, with the chunks joined by the separator, and writes no existing array |
| Downstream.NonBlockingUploader.Enqueue | pkg/uploader/uploader.go:56-74 | accepts exactly when not shutting down and there is room or a waiting receiver; a failed call changes nothing that was handed over |
| Downstream.EnqueueOnNext | pkg/accumulator/accumulator_by_size.go:205-221 | after any finite series of refusals and full queues, exactly one copy of the block is accepted, after everything accepted before |
| BySizeAccumulator.BySize.Append | pkg/accumulator/accumulator_by_size.go:135-165 | the new state is the packing rule's, the uploader has accepted exactly the blocks of the groups, and no byte array, sent before or not, is written |
| BySizeAccumulator.BySize.Flush | pkg/accumulator/accumulator_by_size.go:167-190 | the pending payloads leave as one joined block, handed over once |
| BySizeAccumulator.BySize.Enqueue | pkg/accumulator/accumulator_by_size.go:87-105 | accepts exactly when not shutting down and not full, and otherwise leaves the queue alone |
| BySizeAccumulator.BySize.Shutdown | pkg/accumulator/accumulator_by_size.go:228-249 | what was appended and what was still queued has left as exactly the blocks of a complete run, and nothing is pending |
| ByTimeAndSizeAccumulator.ByTimeAndSize.Append | pkg/accumulator/accumulator_by_time_n_size.go:145-174 | the new state, clock field included, is the timed packing rule's |
| ByTimeAndSizeAccumulator.ByTimeAndSize.HandleTick | pkg/accumulator/accumulator_by_time_n_size.go:130-134 | the state stays the one its arrivals and ticks lead to |
| ByTimeAndSizeAccumulator.ByTimeAndSize.Shutdown | pkg/accumulator/accumulator_by_time_n_size.go:238-253 | the blocks accepted are those of the complete timed run |
| ShutdownGate.RunKeepsInv | pkg/uploader/uploader.go:56-138 | every run keeps lock, flag and channel in agreement (a caller past the check holds the shutdown up) and accepted calls and successful returns the same set, each once |
| ShutdownGate.EnqueueAgainstShutdown | pkg/accumulator/accumulator_by_size.go:87-105 | in every interleaving: no send on the closed channel, a nil return means queued exactly once, an error leaves no trace, and receives are in acceptance order |
| ShutdownGate.NothingAcceptedAfterLock | pkg/uploader/uploader.go:120-138 | from the moment the write lock is taken nothing more is accepted, so an emptied queue means that everything accepted was received |
| GateService.ErrorHasCause | pkg/accumulator/accumulator_by_size.go:88-102 | in every run, a call that fails took a step of its own, at some time, with `shuttingDown` set or the queue full |
| GateService.CallIsAnswered | pkg/uploader/uploader.go:56-74 | whatever the other callers and the owner are at, a caller with the read lock gets through by its own steps and succeeds exactly if nothing is shutting down and there is room |
| GateService.CallReturns | pkg/accumulator/accumulator_by_size.go:87-105 | a whole call of `Enqueue`, begun while no writer has or wants the lock, changes only its own record and returns nil exactly if the queue is open and has room, and after the unlock an error |
| GateService.ClosedCallFails | pkg/accumulator/accumulator_by_size.go:87-92 | a call begun after the shutdown's unlock returns an error at once, without touching the queue |
| GateService.LateCallReturns | pkg/accumulator/accumulator_by_size.go:87-91 | a caller who comes while a writer has or wants the lock waits until calls under way and owner have gone on, and then gets an error |
| GateService.OwnerIsNotStarved | pkg/accumulator/accumulator_by_size.go:245-249 | once the write lock is asked for, the calls under way only have to go on by themselves for the owner to get to its unlock, and no call is added before |
| GateService.OwnerGoesOn | pkg/accumulator/accumulator_by_size.go:228-249 | whatever the callers are at, the owner receives, asks for the lock and closes the channel without waiting for them |
| PipelineSafety.StepKeepsInv | pkg/app/app.go:121-154 | every step of every goroutine of a flow keeps the whole invariant: stages, lock discipline, data in order, work units |
| PipelineSafety.KeepsStages | pkg/app/app.go:121-154 | every step keeps the order of shutdown: a stage stops only after the stage before it is done |
| PipelineSafety.TryKeepsUpData | pkg/accumulator/accumulator_by_size.go:205-217 | every step of the retry loop keeps the blocks, in order, either accepted by the uploader or still to be delivered, never both |
| PipelineSafety.WorkerKeepsWorks | pkg/worker/worker.go:77-87 | every worker step keeps each received unit with one worker or worked on once |
| PipelineSafety.ReturnsAreTruthful | pkg/accumulator/accumulator_by_size.go:87-105 | in every run of a flow, nil returns are exactly the recorded payloads and neither stage sends on its closed channel |
| PipelineSafety.UploaderOutlivesAccumulator | pkg/app/app.go:125-141 | the accumulator, until it is done, never finds the uploader shutting down |
| PipelineSafety.NothingIsLost | pkg/app/app.go:121-154 | once the run group is done: all queues and buffers are empty, the accepted payloads are in order exactly the members of the groups whose blocks are the work units, and each unit was passed to `work` exactly once |
| PipelineSafety.UnitsAreOptimal | pkg/app/app.go:230-298 | without a timer, the work units are the fewest blocks any feasible split of the accepted payloads could make |
| PipelineRoundTrip.UnitsGiveBackPayloads | pkg/app/app_several_pipes_test.go:134-147 | with or without a timer, cutting the work units gives back the accepted payloads when each is clean |
| PipelineProgress.StepDescends | pkg/app/app.go:121-154 | every step that is not a new call, a failed try or an idle tick lowers one natural number |
| PipelineProgress.SomethingAdvances | pkg/app/app.go:121-154 | no deadlock: every unfinished state has an enabled step that lowers it |
| PipelineProgress.WorkNeverGrows | pkg/app/app.go:121-154 | without new calls, no step adds to the work left |
| PipelineProgress.FullQueueDrains | pkg/accumulator/accumulator_by_size.go:212-217 | whenever a send fails on a full queue, another step is enabled that reduces the work left, so the retry loop never spins in vain |
| PipelineProgress.ShutdownCanFinish | pkg/app/app.go:91-95 | from every reachable state, if callers stop coming, finitely many steps complete the shutdown, with nothing lost |
| PipelineProgress.ProgressIsBounded | pkg/accumulator/accumulator_by_size.go:212-217 | without new calls, a run makes at most as many steps of progress as the measure plus three per failed try |
| PipelineService.ServingAdvances | pkg/accumulator/accumulator_by_size.go:113-119 | before an interrupt, as long as anything is on its way, some step lowers the measure that is neither a new call nor one of the run group |
| PipelineService.ServingDelivers | pkg/accumulator/accumulator_by_time_n_size.go:113-134 | from every reachable state before an interrupt, the flow's own steps empty all queues and hands: every accepted payload is in a work unit, each worked on once, but for those pending without a timer, which are what packing by size keeps |
| PipelineService.AccumulatorGoesOn | pkg/accumulator/accumulator_by_time_n_size.go:122-134 | the accumulator receives and its timer sends whatever callers, uploader and workers are at |
| PipelineService.UploaderGoesOn | pkg/uploader/uploader.go:84-113 | the uploader receives whenever its queue has something, and hands on whenever fewer units wait than there are workers |
| PipelineService.WorkerGoesOn | pkg/worker/worker.go:77-87 | each worker without a unit takes the next one from the shared channel when it tries, and each worker with one ends it, whatever the other workers are at |
| PipelineService.InterruptIsHeeded | pkg/app/app.go:121-154 | accumulator, uploader and workers heed their interrupt with their queues as they are |
| PipelineService.TryEnds | pkg/accumulator/accumulator_by_size.go:205-217 | one try comes to its end by itself: the block is accepted exactly if the uploader's queue has room, and else is still the first to hand over |
| PipelineService.HandOffEnds | pkg/uploader/uploader.go:64-71 | with the uploader waiting in a receive, a try puts the block straight into its hand, for every queue capacity |
| PipelineParallel.EnqueueReturns | pkg/accumulator/accumulator_by_size.go:87-105 | a whole call of `Enqueue` on a flow, whatever all goroutines are at, returns nil exactly if the accumulator's queue is open and has room |
| PipelineParallel.AllWorkersBusy | pkg/app/app.go:282-288 | for every configuration there is a run from the start after which every worker has a unit of its own in hand |
| PipelineTimeouts.FlowSegments | pkg/accumulator/accumulator_by_time_n_size.go:113-174 | in every run of a flow, what the accumulator received is a series of separately packed stretches, one more than there were timeouts that sent something |
| PipelineTimeouts.TimeoutsCostUnits | pkg/accumulator/accumulator_by_time_n_size.go:122-174 | with k timeouts that sent something, a finished run has at least as many work units as packing the accepted payloads by size and at most k more; with none, the same units |
| FanOut.ReportNeverBlocks | pkg/worker/worker.go:117-147 | a goroutine with an error to report always finds room in the error channel, and the channel open |
| FanOut.NoDeadlock | pkg/worker/worker.go:116-163 | until it has returned, some step can be taken |
| FanOut.StepDescends | pkg/worker/worker.go:116-163 | every step leaves less to do, so the call always returns |
| FanOut.FanOutResult | pkg/worker/worker.go:116-163 | in every interleaving: one upload per storage, one message per queue exactly for a successful upload and with its result, one error per failed pair, and nil exactly when all succeeded |
| FanOutParallel.AllUploadAtOnce | pkg/worker/worker.go:120-122 | for every work unit there is a run after which all its uploads are under way at once |
| FanOutParallel.GoesOn | pkg/worker/worker.go:120-131 | in every state of the fan-out the loop starts its next goroutine, and an upload under way ends with one call of its storage, whatever the other goroutines are at |
| FanOutParallel.PairGoesAlone | pkg/worker/worker.go:122-147 | from every state of the fan-out, a goroutine that uploads gets to its end by its own steps alone, and changes only its own storage, queue and error |
| FanOutParallel.AnyOrder | pkg/worker/worker.go:120-149 | uploads that are under way may end in any order |
| Delivery.FlowRun | pkg/worker/worker.go:77-113 | with compression and fan-outs interleaved, the flow still makes a run of `Pipeline`, so that all its results carry over |
| Delivery.StepKeepsInv | pkg/worker/worker.go:96-163 | every step of every worker's fan-out, and of the flow, keeps in agreement what each storage has, what each queue was told and where each unit is |
| Delivery.SendKeepsCounts | pkg/worker/worker.go:120-147 | one step of one fan-out adds to the storage and queue of its own pair, for its own unit, and nowhere else |
| DeliveryResults.NeverTwice | pkg/worker/worker.go:120-147 | wherever a run stands, no storage has a unit twice, no queue is told of one twice, and a queue is only told of a unit its storage has |
| DeliveryResults.StoredExactlyOnce | pkg/worker/worker.go:96-163 | in every finished run, whatever failed, a storage has a unit, compressed, exactly once if its compression and this upload succeed and else not at all, its queue was called exactly as often, and there is nothing else |
| DeliveryResults.PayloadIsStoredIff | pkg/worker/worker.go:96-163 | after a shutdown an accepted payload is in a storage if and only if the unit it is a member of compresses and that storage accepts it |
| DeliveryResults.NoLossIff | README.md:45 | the documented promise, down to the storages: all accepted payloads are in every storage if and only if no unit fails to compress and no storage refuses one |
| DeliveryResults.AcceptedYetLost | pkg/worker/worker.go:100-113 | for every configuration and payload, if the world does not take it to a storage, there is a run in which `Enqueue` returns nil, the shutdown completes and that storage stays empty |
| DeliveryResults.StorageGivesBackPayloads | pkg/app/app_several_pipes_test.go:126-147 | if nothing fails, reading any storage back unit by unit, decompressing and cutting gives the accepted payloads, in order, when each is clean |
| DeliveryResults.ShutdownDelivers | pkg/app/app.go:91-95 | whatever fails outside, from every reachable state finitely many steps complete the shutdown, all fan-outs included |
| DeliveryService.ServingStores | pkg/worker/worker.go:77-163 | from every reachable state before an interrupt, the goroutines' own steps get every work unit into each storage, exactly once where nothing fails, without any shutdown |
| DeliveryService.UploadEnds | pkg/worker/worker.go:122-131 | an upload under way ends, and leaves the unit in its storage if that accepts it, whatever other workers and storages are at |
| DeliveryService.AllUploadsAtOnce | pkg/app/app.go:282-288 | for every configuration there is a run after which every worker uploads its own unit to all storages at once |
| DecompressionLimit.NewSemaphore | pkg/adapters/httpin/ingest_routes.go:37-46 | the channel starts with as many tokens as the limit, or closed when there is none |
| DecompressionLimit.LimitHolds | pkg/adapters/httpin/ingest_routes.go:97-102 | tokens in the channel and held are always the limit, at most that many requests decompress at once, giving back never waits, and without a limit nobody waits or sends on the closed channel |
| DecompressionLimit.FinishedHasDecompressed | pkg/adapters/httpin/ingest_routes.go:98-102 | in every run, a request past its decompression was decompressing before, with a token exactly if there is a limit |
| DecompressionLimit.WaitsIffAllHeld | pkg/adapters/httpin/ingest_routes.go:98-99 | a request that tries to take a token is left waiting exactly if there is a limit and that many requests hold one, and otherwise decompresses |
| DecompressionLimit.DecompressingEnds | pkg/adapters/httpin/ingest_routes.go:99-102 | a request that decompresses ends by its own steps and gives its token back |
| DecompressionLimit.LimitIsAttained | pkg/adapters/httpin/ingest_routes.go:38-46 | as many requests as the limit, and without a limit any number, can decompress at once |
| DecompressionLimit.WaitingIsNotStuck | pkg/adapters/httpin/ingest_routes.go:97-102 | a waiting request can take a token, or some holder can go on |
| ReadAll.LocalReadAll | pkg/adapters/httpin/ingest_routes.go:195-213 | for every reader, piece sizes, initial size and growth: terminates with exactly the bytes delivered, and an error only if the reader ended with one |

## Left out

- Storages, external queues, HTTP server, middlewares, tracing, logging and metrics: outside calls, represented by whether they succeed.
- Compression and decompression formats: compressing a unit is a function that may fail, different for every unit.
- Object names: the entries of a storage are told apart by work unit, and two units are assumed never to get the same path.
- The message to a queue: the upload's result is followed, not the compression type and time added to it.
- The uploader, the workers, the fan-out goroutines and the ingestion semaphore are modelled as steps on values rather than as classes: their behaviour is in the interleaving, and the model does not capture aliasing of the work unit's data, which the worker overwrites in place.
- The loops of `addFlowActorToRunGroup` and `createFlows` that register and build actors: the model starts with the order and the channel capacities they set up.
- Flows without an accumulator: `ShutdownGate` covers the uploader's `Enqueue` for any callers, the pipeline has an accumulator.
- Several flows: the run group stops them one after the other, and they share nothing.
- A worker's receive of nil from the closed channel while its context is not cancelled: it changes nothing.
- Wall-clock time: the sleep between retries, the five seconds of the API's shutdown and the saturation of Go's time difference.
- Splitting with an empty separator: Go's split then cuts between characters.
- Configuration parsing, defaults and file paths.

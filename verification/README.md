# Modbus collection gateway: a verified model

The gateway polls Modbus devices and passes the values on to Kafka and to browsers. This project models its six
stateful parts in Dafny and proves what they promise. `dafny verify dfyconfig.toml` checks everything.

- **Reading** (`Points`, `Reordering`, `Planner`, `PlanOptimality`, `ReadPlan`, `PlanOrders`, `Bits`, `Wire`, `Decoder`,
  `Collector`, `ScanRefinement`, `CompletedScans`, `Writes`, `WriteBack`, `WriteScan`). Points are validated, grouped,
  sorted and merged greedily into batch reads in wrapping 16-bit arithmetic; each point is then cut out of a reply by
  offset, byte order, shift and mask. The main results: a scan through the merged chunks reports what reading every point
  on its own would (`ScanRefinement.ScanRefinesSingleReads`). The greedy plan needs the least possible number of requests
  over all partitions of the points if and only if no point but the last in the order used ends at 65535
  (`PlanOptimality.PlanIsMinimal`); it does so in every order the sort may leave if and only if each point ending there
  starts after all others (`PlanOrders.EveryOrderIsMinimal`). And a write is what the next scan reports on the points that
  are exactly the register written, and in general on no others (`WriteScan.WriteThenScan`,
  `WriteBack.UnsignedReadBack`).
- **Publishing** (`MessageQueue`, `QueueRuns`, `ValueEquality`, `Coordinator`, `ChangeStream`, `MessageLog`, `EndToEnd`).
  A drop-oldest ring with a wake token, and a coordinator that sends changes or rate-limited full snapshots. Over every
  interleaving nothing is lost unaccounted and no wake-up is lost (`QueueRuns.EveryRun`), every message says exactly what
  its scan and the policy in force say (`MessageLog.LoggedIsDescribed`), and overlaying the change messages on the
  baseline scan gives back the device (`EndToEnd.ChangesReconstructDevice`).
- **Lifecycle** (`Store`, `DeviceStore`, `Lifecycle`, `LifecycleSafety`, `LifecycleReads`, `LifecycleOutcome`,
  `LifecycleCompletion`, `SnapshotReads`). The versioned store as atomic transactions, and a step machine for Start, Stop,
  Restart, StartEnabled and StopAll over it, with runner goroutines, cancellation and other clients editing in between.
  At most one collection per device, sound staleness detection, also when edits come between the two reads of a
  snapshot, clean hand-over, a restart that picks up every earlier edit, and calls that end as they should: none is
  aborted without a failure, and undisturbed ones do what they are for (`LifecycleCompletion.CallsComplete`).
- **Reconnection** (`Backoff`, `Reconnect`, `ReconnectOutcome`, `ReconnectPause`, `ReconnectClose`). The reconnection loop
  and its circuit breaker, first as one goroutine runs it, then under every interleaving of callers, probes,
  cancellation and closing: what a call leaves, exactly when scans stay paused, and exactly when a stopped connection
  stays closed.
- **CSV** (`Decimal`, `PointCsv`, `CsvMessages`, `CsvRoundTrip`). Import and export undo each other exactly on the lists
  that can be exported at all; padding is ignored and every message is exact.
- **Realtime hub** (`Realtime`, in `Hub.dfy`, and `HubRuns`). The two-way subscription index, as objects and over every
  interleaving with publications under way.

Code that changes fields or buffers is a class or a method with loops, proved against a specification on values; the
concurrent parts are state machines with one step per atomic operation, lock-protected region, store transaction or
store read, and "every run" means every list of such steps. A step that cannot happen leaves the state alone.

Where the code does not do what its messages or comments say, the model follows the code and a lemma says exactly when
the promise holds:

- The planner's `chunkEndAddr+1` wraps at address 65535, and a plan can then use more requests than needed.
  `PlanOrders.EveryOrderIsMinimal` and `PlanOrders.SomeOrderIsMinimal` give the exact conditions on the points,
  `ReadPlan.WrapWastesARequest` two accepted points with a wasted request, and `PlanOrders.TieDecides` two for which the
  unstable sort decides.
- The validator says that only holding registers and coils can be writeable, but returns before that check for
  bit-addressed types: `Points.WriteableTypes`, `Points.WriteableDiscreteInputAccepted`.
- WriteTag sends one whole register whatever the type and bit field of the point, so most points do not read a write
  back: `WriteBack.UnsignedReadBack` and `WriteBack.SignedReadBack` say exactly which do, for every type and byte order;
  `WriteBack.BitFieldLosesWrite` and `WriteBack.WideNumberLosesWrite` are two accepted points that lose one.
- Scans get no client while a reconnection is trying, unless a heartbeat probe was dialling when it began:
  `ReconnectPause.ScansPause` is that exact condition, and `ReconnectPause.PauseCanBreak` gives a run that breaks the pause
  for every number of attempts. A probe past its dial still publishes the online state, but without a client
  (`ReconnectPause.StateStaysReconnecting`).
- Stopping a device cancels its context and closes its connection without waiting for reconnections and probes. Whoever
  has left its wait to dial, and a first dial not yet made, open the connection again afterwards:
  `ReconnectClose.StaysClosed` is the exact condition, `ReconnectClose.ReopensAfterStop` and
  `ReconnectClose.ReopensAtStart` are such runs.
- Snapshot reads the device row before it looks at what is loaded. `SnapshotReads.FlagIsWrongExactly` says when its flag
  is out of date by then, `SnapshotReads.LoadCanBeOvertaken` gives such a run.
- A value that stays NaN is sent again with every change message: `ChangeStream.UnchangedIsResent`.

## Model

| member | source | states |
|---|---|---|
| Points.ValidExactly | internal/config/point_config.go:59-122 | the validator reports no error exactly on the points meeting one closed condition on the fields |
| Points.ValidPoint | internal/config/point_config.go:87-117 | an accepted point lies in the address space and its field inside its own registers |
| Points.WriteableTypes | internal/config/point_config.go:78-86 | among accepted writeable points the promised types hold exactly when the point is not a discrete input |
| Points.WriteableDiscreteInputAccepted | internal/config/point_config.go:78-120 | a concrete writeable discrete input that is accepted |
| Points.TrimSpaceFixpoint | internal/config/point_config.go:61 | trimming gives trimmed text and leaves exactly the trimmed texts alone |
| Points.TrimSpaceIs | internal/config/point_config.go:61 | trimming takes away exactly the white space around a text |
| Points.ValidatorMessages | internal/config/point_config.go:59-122 | for each message of the validator, exactly when it is given |
| Planner.MergeTest | internal/config/point_config.go:393-394 | for a chunk within the limit the uint16 merge test equals the exact one, except that a chunk at 65535 never merges |
| Planner.MergeOrCut | internal/config/point_config.go:393-404 | the test decides exactly the cut condition of the greedy plan |
| Planner.SegmentCovers | internal/config/point_config.go:394-398 | a merged run reads no address that no point asked for |
| Planner.SegmentIsChunk | internal/config/point_config.go:400-406 | closing a run gives a chunk within the limit, with every point wholly inside |
| Planner.PlanGroup | internal/config/point_config.go:385-407 | the loop in uint16 arithmetic places every point once, in order, whatever the points; when none wraps past the last address the chunks are well formed and start exactly at the greedy cuts |
| PlanOptimality.GreedyIsSplit | internal/config/point_config.go:385-407 | the plan is one of the partitions into gap-free blocks within the limit |
| PlanOptimality.FirstsApart | internal/config/point_config.go:394-404 | the first points of two chunks share a block in no partition |
| PlanOptimality.GreedyIsLeast | internal/config/point_config.go:375-408 | no partition has fewer blocks when only the last point reaches 65535 |
| PlanOptimality.ShorterSplit | internal/config/point_config.go:394 | when an earlier point reaches 65535, a partition with fewer blocks exists |
| PlanOptimality.PlanIsMinimal | internal/config/point_config.go:375-408 | the number of requests is minimal if and only if only the last point in the order used may reach 65535 |
| PlanOptimality.TopConditions | internal/config/point_config.go:376 | on the unsorted points: what makes every sorted order meet that condition, and what an order that meets it implies |
| PlanOrders.EveryOrderIsMinimal | internal/config/point_config.go:375-408 | the plan is minimal in every order the sort may leave if and only if each point ending at 65535 starts after all others |
| PlanOrders.SomeOrderIsMinimal | internal/config/point_config.go:375-408 | it is minimal in some order if and only if at most one point ends at 65535 and none starts after it |
| PlanOrders.TieDecides | internal/config/point_config.go:376 | two points at one address for which the order left by the sort decides |
| ReadPlan.SortByAddress | internal/config/point_config.go:376 | some permutation sorted by address; the order of equal addresses stays open |
| ReadPlan.GroupByType | internal/config/point_config.go:365-369 | groups exactly the points of each register type, in order |
| ReadPlan.OptimizeChunks | internal/config/point_config.go:364-422 | for any points: one plan for each register type present, with exactly its points, sorted; when no point wraps past the last address also well-formed chunks, and minimality with its exact condition on the order used and conditions on the points given |
| ReadPlan.WrapWastesARequest | internal/config/point_config.go:393-394 | two accepted points for which the plan is not minimal |
| Bits.ExtractIsDivMod | internal/collector/collector.go:343-345 | shift and 64-bit mask give floor(raw / 2^offset) mod 2^length, also for length 64 |
| Wire.PackedBit | internal/collector/collector.go:296-306 | coil j of a packed byte is its bit j (sections 6.1 and 6.2 of the MODBUS Application Protocol Specification) |
| Wire.BitOfReply | internal/collector/collector.go:298-306 | coil 8 i + j of a reply is bit j of byte i |
| Wire.RegistersOfReply | internal/collector/collector.go:309-317 | a point's bytes inside a batch reply are the reply to a request for that point alone (sections 6.3 and 6.4) |
| Wire.LargestRequest | internal/config/point_config.go:366-371 | the planner's limits are the largest quantities a device accepts (sections 6.1 to 6.4) |
| Wire.RequestAccepted | internal/config/point_config.go:385-407 | a device accepts every well-formed chunk |
| Decoder.ApplyGlobalByteOrder | internal/collector/collector.go:392-439 | the in-place buffer loops compute the byte permutation |
| Decoder.ReorderTwice | internal/collector/collector.go:392-439 | reordering twice restores the bytes exactly for known orders, untouched lengths and zero data; the program's validation admits only the known orders |
| Decoder.FourByteOrders | internal/collector/collector.go:381-391 | the number two registers form under every byte order, bytes and words placed as the comment says |
| Decoder.EightByteOrders | internal/collector/collector.go:415-433 | on eight bytes the word and byte swaps work on each half alone, so CDAB does not reverse the four words; only the full reversal swaps the halves |
| Decoder.RegisterSliceExact | internal/collector/collector.go:309-317 | on a complete reply the uint16 bounds check passes and the slice is the point's own |
| Decoder.SkippedExactly | internal/collector/collector.go:300-317 | a point is skipped if and only if the reply ends before its last byte; otherwise its own bytes alone decide its value |
| Decoder.BatchDecodesLikeSingle | internal/collector/collector.go:289-379 | a point decoded from its chunk's reply has the value of reading it alone; neither skip is taken |
| Decoder.DecodeIsExact | internal/collector/collector.go:317-376 | the value denotes the field inside the bytes read, signed only at full width |
| Decoder.SignedDenotes | internal/collector/collector.go:351-365 | the signed conversion keeps the residue and lands in the two's-complement range |
| Decoder.DenotesUnique | internal/collector/collector.go:347-375 | a register number denotes one value only |
| Decoder.EncodeDecode | internal/collector/collector.go:317-376 | a representable value encoded with the same byte order decodes to itself |
| Bits.BigEndianRoundTrip | internal/collector/collector.go:320-329 | big-endian reading undoes big-endian writing |
| Collector.FailureEndsScan | internal/collector/collector.go:270-276 | after a failed read the rest of the scan adds nothing |
| Collector.ScanCompletes | internal/collector/collector.go:243-284 | a scan completes if and only if every read was answered |
| Collector.FailedScan | internal/collector/collector.go:270-276 | the first failed read ends the scan with exactly the updates of the chunks answered before |
| Collector.Collector.UpdateValue | internal/collector/collector.go:198-207 | one update reaches the data model, the subscribers and the scan in progress |
| Collector.Collector.ParseAndUpdate | internal/collector/collector.go:289-379 | the loop applies the updates of the chunk's points in order |
| Collector.Collector.ScanOnce | internal/collector/collector.go:243-284 | applies exactly the scan's updates; hands over a result only after all reads succeeded, and starts a reconnection exactly when one failed |
| ScanRefinement.VisitsAllPoints | internal/collector/collector.go:250-251 | every map iteration order meets exactly the configured points |
| ScanRefinement.ScanReportsReadings | internal/collector/collector.go:243-284 | with conforming replies the scan's updates are the single readings, one per point |
| ScanRefinement.ScanRefinesSingleReads | internal/collector/collector.go:243-379 | for accepted points with unique tags: one value per tag, that of reading the point alone, for every plan and order |
| ScanRefinement.PlanIsReadable | internal/collector/collector.go:255-264 | every planned chunk has a conforming reply |
| Writes.FindPoint | internal/collector/collector.go:444-455 | returns a planned point with the tag, or says that there is none |
| Writes.FindableTags | internal/collector/collector.go:444-455 | every configured tag is found through the chunks, and it is the configured point |
| Writes.WriteTag | internal/collector/collector.go:459-508 | each refusal and each request, in the order of the checks |
| Writes.ActionExactly | internal/collector/collector.go:470-508 | exactly which values are refused and why, and the address and number an accepted one sends |
| WriteBack.TwoRegisterBytes | internal/collector/collector.go:317-329 | the number two registers form under each byte order |
| WriteBack.WriteThenRead | internal/collector/collector.go:473-502 | an accepted write of a matching value is what reading the point reports next, for every byte order |
| WriteBack.UnsignedReadBack | internal/collector/collector.go:474-494 | for every accepted holding register and byte order: all numbers written are read back, whatever the other registers hold, if and only if the point is the whole register written |
| WriteBack.SignedReadBack | internal/collector/collector.go:480-485 | all signed numbers written are read back if and only if the point is a whole Int16 register |
| WriteBack.CoilReadBack | internal/collector/collector.go:495-504 | every coil reads back every Bool |
| WriteBack.BitFieldLosesWrite | internal/collector/collector.go:474-478 | an accepted writeable bit-field point that reads 0 after 256 was written |
| WriteBack.WideNumberLosesWrite | internal/collector/collector.go:474-478 | an accepted writeable 32-bit point that reads at least 65536 after 1 was written |
| WriteScan.AcceptedTarget | internal/collector/collector.go:459-471 | a request is sent only for a configured, writeable point with the tag while the device is online |
| WriteScan.ConfiguredTagIsFound | internal/collector/collector.go:460-463 | exactly the tags nobody configured are not found |
| WriteScan.WriteThenScan | internal/collector/collector.go:243-508 | after a request was sent, a completed scan of the otherwise undisturbed device reports the written value for a matching point, and every point not containing the address as before |
| WriteBack.WriteFrame | internal/collector/collector.go:473-502 | points of another type or not containing the written address keep their value |
| MessageQueue.SlotIsMod | internal/kafkapub/queue.go:35-38 | the ring index with its modulus is the wrapped slot |
| MessageQueue.MessageRing.constructor | internal/kafkapub/queue.go:19-24 | an empty queue of capacity at least one |
| MessageQueue.MessageRing.PushMessage | internal/kafkapub/queue.go:26-47 | the array ring performs the drop-oldest push of the simple queue |
| MessageQueue.MessageRing.TryNext | internal/kafkapub/queue.go:51-60 | takes the oldest message, or changes nothing |
| MessageQueue.MessageRing.TryWake | internal/kafkapub/queue.go:61-65 | consumes the token if there is one |
| MessageQueue.MessageRing.StopAccepting | internal/kafkapub/queue.go:69-73 | later pushes are refused, queued messages stay |
| MessageQueue.MessageRing.DiscardAll | internal/kafkapub/queue.go:75-82 | empties the queue and nothing else |
| QueueRuns.StepKeeps | internal/kafkapub/queue.go:26-82 | every step keeps the accounts and the wake-up promise |
| QueueRuns.EveryRun | internal/kafkapub/queue.go:19-84 | contents are a suffix of the accepted messages, deliveries an in-order subsequence, accepted = delivered + dropped + discarded + queued, no wake-up lost |
| QueueRuns.LosslessRun | internal/kafkapub/queue.go:26-67 | without drops and discards, deliveries followed by the queue are the accepted messages |
| QueueRuns.ConsumerProceeds | internal/kafkapub/manager.go:146-163 | in every reachable state a waiting message reaches the single consumer |
| QueueRuns.EveryPass | internal/kafkapub/queue.go:49-67 | every pass of the consumer takes the oldest message or parks it; a parked one goes on exactly when there is a token, and uses it up |
| QueueRuns.DropsWhenFull | internal/kafkapub/queue.go:26-47 | in every run an accepted push drops the oldest message if and only if as many wait as were asked for, and sets the wake token |
| QueueRuns.NothingDroppedWithin | internal/kafkapub/queue.go:19-47 | no message is dropped while no more were accepted than the queue was asked to hold |
| QueueRuns.StoppedAcceptsNothing | internal/kafkapub/queue.go:26-73 | in every continuation of a stopped queue nothing more is accepted or dropped |
| QueueRuns.DiscardAndCancel | internal/kafkapub/queue.go:49-82 | discarding empties the queue and delivers nothing; a cancelled consumer takes nothing more |
| ValueEquality.SamePartialEquivalence | internal/kafkapub/coordinator.go:119 | the comparison is symmetric and transitive, and reflexive except on NaN |
| ValueEquality.SameExactly | internal/kafkapub/coordinator.go:119 | numbers of whatever kinds count as the same if and only if they are finite and equal or the same infinity |
| ValueEquality.IntegersDiffer | internal/kafkapub/coordinator.go:119 | different integers always differ |
| ValueEquality.PatternsDiffer | internal/kafkapub/coordinator.go:119 | two patterns of one float width are the same if and only if neither is NaN and they are equal or both zero |
| ValueEquality.NotANumber | internal/kafkapub/coordinator.go:119 | a NaN differs from itself |
| ValueEquality.SignedZero | internal/kafkapub/coordinator.go:119 | the two zeros are equal though their patterns differ |
| Coordinator.MergeScan | internal/kafkapub/coordinator.go:117-123 | the comparison loop gives the merged values and exactly the differing entries, for every iteration order |
| Coordinator.KafkaCoordinator.constructor | internal/kafkapub/coordinator.go:55-67 | no policies, no states, enabled, empty queue |
| Coordinator.KafkaCoordinator.ApplyDeviceConfig | internal/kafkapub/coordinator.go:70-78 | installs the policy and resets exactly the incompatible states |
| Coordinator.KafkaCoordinator.ResetDevice | internal/kafkapub/coordinator.go:81-85 | removes one device's state and nothing else |
| Coordinator.KafkaCoordinator.SetEnabledFlag | internal/kafkapub/coordinator.go:182-185 | changes admission only |
| Coordinator.KafkaCoordinator.Submit | internal/kafkapub/coordinator.go:88-108 | the whole new state after a submitted scan, admitted or not |
| Coordinator.KafkaCoordinator.SubmitChanges | internal/kafkapub/coordinator.go:110-127 | baseline first, then changes against the last values; a message only when something differs |
| Coordinator.KafkaCoordinator.SubmitFull | internal/kafkapub/coordinator.go:129-139 | emits only when due and not empty |
| Coordinator.KafkaCoordinator.EnqueueMessage | internal/kafkapub/coordinator.go:141-162 | pushes the message; warns on a drop at most once a minute |
| ChangeStream.SubmitIsCoordinator | internal/kafkapub/coordinator.go:88-162 | the run model takes the coordinator's own step |
| ChangeStream.QueueEventsAreSteps | internal/kafkapub/coordinator.go:171-189 | consumer, discard and stop events are the queue's own steps and touch nothing else |
| ChangeStream.SameDifferences | internal/kafkapub/coordinator.go:117-123 | the consumer's reconstruction and the coordinator's values see the same differences and stay alike |
| ChangeStream.ChangesAreMinimal | internal/kafkapub/coordinator.go:117-126 | any updates that bring the held values up to the scan contain the whole change message, repeated NaNs apart |
| ChangeStream.UnchangedIsResent | internal/kafkapub/coordinator.go:119 | an unchanged value is sent again if and only if it is NaN |
| ChangeStream.RunsAreFaithful | internal/kafkapub/coordinator.go:70-127 | in every run, baseline plus logged changes equals the overlay of all admitted scans |
| ChangeStream.ReplayIsFaithful | internal/kafkapub/coordinator.go:110-127 | the same for what was delivered and is still queued, while nothing was dropped or discarded |
| ChangeStream.CompleteScans | internal/collector/collector.go:281-283 | the overlay of complete scans is the last one |
| ChangeStream.FullRate | internal/kafkapub/coordinator.go:129-139 | in every run, n full messages since a reset span at least (n - 1) intervals |
| ChangeStream.FullEmits | internal/kafkapub/coordinator.go:129-139 | an admitted non-empty scan emits exactly when first or due |
| ChangeStream.WarningRate | internal/kafkapub/coordinator.go:155-161 | overflow warnings are a minute apart, over all devices |
| MessageLog.ChangesAreMoves | internal/kafkapub/coordinator.go:110-127 | a change message has exactly the scanned values that are new or have moved, integers, Bools and floats alike |
| MessageLog.LoggedIsDescribed | internal/kafkapub/coordinator.go:88-154 | in every run each accepted message was sent by one admitted scan, to the topic configured then, with the device and time of that scan, the kind of the policy, and exactly its changes or its current values |
| MessageLog.NotAdmittedIsIgnored | internal/kafkapub/coordinator.go:88-97 | a scan of a disabled or unconfigured device changes nothing |
| MessageLog.ChangeEmits | internal/kafkapub/coordinator.go:110-127 | in change mode a message is sent if and only if there is a baseline and a value is new or has moved; the scan is remembered either way |
| MessageLog.ConfigureResets | internal/kafkapub/coordinator.go:70-78 | what is remembered of a device survives a new policy if and only if it stays enabled with the same topic and mode; other devices are untouched |
| MessageLog.FirstScanAfterReset | internal/kafkapub/coordinator.go:98-139 | the first scan after a reset is the baseline in change mode and is sent in full mode |
| MessageLog.ResetForgets | internal/kafkapub/coordinator.go:81-85 | a reset forgets exactly one device |
| MessageLog.OverflowWarns | internal/kafkapub/coordinator.go:155-161 | a push that drops a message warns if and only if no warning was given within the last minute |
| CompletedScans.CompletedScanReports | internal/collector/runtime.go:99-109 | a completed scan hands over exactly the configured tags with each point's own value |
| EndToEnd.ChangesReconstructDevice | internal/kafkapub/coordinator.go:110-127 | baseline plus delivered plus queued changes has every configured tag with the value its point had at the last admitted scan |
| Store.CommandKeepsConsistent | internal/store/database.go:67-97 | every transaction keeps names unique, tags unique per device, points owned and ids fresh |
| Store.OthersUntouched | internal/store/point.go:35-223 | a transaction leaves every other device's row and points alone |
| Store.RowAfter | internal/store/point.go:225-231 | the whole device row after any command on it: a successful configuration command raises the version by exactly one, and only the fields it is about move |
| Store.CreateAndDelete | internal/store/device.go:25-107 | a created device is new, at version 1 and without points; a deleted one takes its points along |
| Store.RefusedExactlyOnConflict | internal/store/database.go:66-93 | a command on something that exists is refused exactly when it would repeat a name or a tag of a device |
| Store.RefusedExactly | internal/store/device.go:77-107 | every command: exactly when it is refused as not found, and exactly when as a conflict |
| Store.CommandTracksVersion | internal/store/device.go:77-98 | versions never fall, and an unmoved version means an unmoved configuration |
| Store.ReplacedPoints | internal/store/point.go:200-223 | a replaced device has exactly the listed points, each under a new id |
| Store.EditsTakeEffect | internal/store/point.go:35-197 | what each single edit does to the points of its device |
| Store.DeletePointsSucceeds | internal/store/point.go:165-197 | a bulk delete succeeds exactly for non-empty lists of distinct ids that the device owns |
| DeviceStore.ConfigStore.BumpAndCommit | internal/store/point.go:225-231 | raises the version and commits, or rolls back |
| DeviceStore.ConfigStore.InsertPoint | internal/store/database.go:81-94 | the row is inserted exactly when the device exists and the tag is free |
| DeviceStore.ConfigStore.CreateDevice | internal/store/device.go:25-47 | performs the transaction as a whole or leaves no trace |
| DeviceStore.ConfigStore.UpdateDevice | internal/store/device.go:77-86 | likewise |
| DeviceStore.ConfigStore.SetDeviceEnabled | internal/store/device.go:89-98 | likewise, the update alone; the read that follows is a step of its own |
| DeviceStore.ConfigStore.DeleteDevice | internal/store/device.go:101-107 | likewise, with the cascade to the points |
| DeviceStore.ConfigStore.CreatePoint | internal/store/point.go:36-58 | likewise |
| DeviceStore.ConfigStore.UpdatePoint | internal/store/point.go:118-139 | likewise |
| DeviceStore.ConfigStore.DeletePoint | internal/store/point.go:142-162 | likewise |
| DeviceStore.ConfigStore.DeletePoints | internal/store/point.go:165-197 | likewise, and the count returned |
| DeviceStore.ConfigStore.ReplacePoints | internal/store/point.go:200-223 | the row-by-row loop with its rollback is one atomic replacement |
| DeviceStore.NextInsert | internal/store/point.go:210-215 | inserted one by one, the unique index refuses exactly the lists with a repeated tag |
| Lifecycle.StepKeeps | internal/runtime/manager.go:86-296 | every step of an operation, a runner or another client keeps the invariant |
| Lifecycle.EveryRun | internal/runtime/manager.go:86-296 | the invariant holds in every reachable state, whatever the database held at start |
| Lifecycle.OpStaysOk | internal/runtime/manager.go:128-296 | an operation under way stays sound whatever the others do in between |
| LifecycleSafety.AtMostOneCollector | internal/runtime/manager.go:141-193 | at most one goroutine is inside Run, it is the one in the entry, and the guard before clearing never fails |
| LifecycleSafety.StalenessIsSound | internal/runtime/manager.go:298-318 | no pending flag means the loaded configuration is the stored one; the flag is up exactly when the stored version moved past the loaded one |
| SnapshotReads.DownMeansLoaded | internal/runtime/manager.go:298-318 | whatever happens between the two reads, a flag that is down means that the loaded connection is that of the row read and the loaded points were stored at some moment from the first read to the second |
| SnapshotReads.FlagIsWrongExactly | internal/runtime/manager.go:298-318 | the flag misses a pending change, or reports one that is not pending, exactly when the version moved between the reads and the loaded version is the older or the newer one |
| SnapshotReads.LoadCanBeOvertaken | internal/runtime/manager.go:128-193 | a run in which the flag is down although the loaded points are not those of the row read |
| SnapshotReads.RunTracks | internal/store/device.go:77-107 | over any stretch of a run a version never goes back, and stays only when connection and points stay |
| LifecycleSafety.HandOver | internal/runtime/manager.go:215-254 | from a successful stopLocked until the lock is released no runner is installed, every Run has returned, no baseline is left |
| LifecycleSafety.BaselineStaysHome | internal/collector/runtime.go:62-97 | a change baseline always belongs to the installed runner, and none exists where one is about to be installed |
| LifecycleSafety.LaunchTakesEarlierEdits | internal/runtime/manager.go:240-254 | a launch makes a new runner, with a version at least as new as at the call; a Restart that neither fails nor is refused launches one |
| LifecycleReads.LaunchReadsStored | internal/runtime/manager.go:128-193 | the launched runner works with the device row stored at some moment after the call and the points stored then or later |
| LifecycleSafety.RestartIsCurrent | internal/runtime/manager.go:128-254 | without edits after the call the launched runner works with the stored configuration and nothing is pending |
| LifecycleSafety.StopGetsThrough | internal/runtime/manager.go:215-237 | a waiting stop is through after at most four steps of the runner it cancelled: it then starts the next runner, is done, or reports the failed close |
| LifecycleCompletion.CallsComplete | internal/runtime/manager.go:128-296 | from every reachable state with a free lock a call whose steps succeed ends with its purpose: Restart with a new runner and the stored configuration, Start with one running, Stop with none |
| LifecycleOutcome.AbortedForAReason | internal/runtime/manager.go:128-296 | in every run a call ends aborted only if something failed in one of its own steps |
| LifecycleOutcome.FlagIsStored | internal/runtime/manager.go:128-254 | in every run a Start or Restart that is not refused or aborted has stored the flag up, and a Stop has stored it down |
| LifecycleOutcome.OnlyStopsEndRunners | internal/runtime/manager.go:215-296 | in every run a runner goes on collecting until a Stop, StopAll or Restart cancels it |
| LifecycleOutcome.BaselineLasts | internal/collector/runtime.go:62-97 | in every run what a runner submitted stays the baseline as long as it collects and the device is not reconfigured, which removes it |
| LifecycleOutcome.RefusedAtTheCall | internal/runtime/manager.go:86-277 | in every run a call is busy if and only if another holds the lock when it is made, and StartEnabled skips exactly the devices not enabled then |
| Backoff.TotalDelay | internal/collector/collector.go:82-97 | the delays before n attempts sum to 2^n - 1, from n = 5 on to 31 + 30 (n - 5) |
| Backoff.TenFailures | internal/collector/collector.go:44-46 | the ten attempts configured take 181 seconds |
| Backoff.DelaysNeverShrink | internal/collector/collector.go:94-97 | delays never decrease and stay within 30 seconds |
| Backoff.RunIsBounded | internal/collector/collector.go:85-116 | a finished run is bounded in attempts and in time, with the exact sum when it trips |
| Backoff.ConnManager.Connect | internal/collector/collector.go:49-64 | a failed dial leaves an unconnected handler and the old client |
| Backoff.ConnManager.Close | internal/collector/collector.go:120-130 | no client and no handler afterwards |
| Backoff.ConnManager.ReconnectWithBackoff | internal/collector/collector.go:68-117 | refused without effect while another runs; otherwise ends at the first attempt that is cancelled or succeeds, or trips after all failed, with the fields left accordingly |
| Backoff.ConnManager.HeartbeatProbe | internal/collector/collector.go:133-155 | tries once a tick until cancelled, no longer offline, or online again |
| Reconnect.StepKeeps | internal/collector/collector.go:68-155 | every step of callers, probes and others keeps the invariant |
| Reconnect.AtMostOneReconnects | internal/collector/collector.go:69-72 | at most one goroutine is between the compare-and-swap and the reset, and the flag says so |
| Reconnect.EveryCallIsBounded | internal/collector/collector.go:85-116 | in every interleaving attempts and delays are bounded, and a call ends recovered, tripped with its probe started, or cancelled |
| ReconnectPause.OnlyLateProbesDisturb | internal/collector/collector.go:145-151 | whatever tripped before, the state leaves reconnecting during a loop only for online, by a probe in mid-attempt when the loop was entered |
| ReconnectPause.StateStaysReconnecting | internal/collector/collector.go:74-116 | the published state stays reconnecting to the end of the loop, in every continuation, if and only if no probe was in mid-attempt when it was entered |
| ReconnectPause.ScansPause | internal/collector/collector.go:158-166 | no client is handed out until the caller's own dial succeeds, in every continuation, if and only if no probe was dialling when the loop was entered |
| ReconnectPause.PauseCanBreak | internal/collector/collector.go:133-166 | for every number of attempts, a run in which a probe makes the client usable in the middle of the loop |
| ReconnectOutcome.AloneEndsAsOneCall | internal/collector/collector.go:68-117 | while only one caller moves, its call ends with the fields ConnManager.ReconnectWithBackoff leaves at each exit, the flag given up and a probe started exactly when it trips |
| ReconnectOutcome.RefusedChangesNothing | internal/collector/collector.go:69-71 | a call is refused if and only if the flag is up, and then changes nothing |
| ReconnectOutcome.PublishedState | internal/collector/collector.go:85-113 | publishing a recovery makes the client usable if and only if there is one; tripping takes the device offline |
| ReconnectOutcome.RecoveredIsUsable | internal/collector/collector.go:109-113 | in every interleaving a recovered call hands out a client again unless the manager was closed after its dial |
| ReconnectOutcome.ProbeOutcome | internal/collector/collector.go:133-155 | a probe alone goes on until it has brought the device back with its client, or is cancelled and has changed nothing |
| ReconnectOutcome.ProbeGivesUp | internal/collector/collector.go:142-144 | a probe that finds the state changed gives up and changes nothing |
| ReconnectOutcome.ProbeRecovers | internal/collector/collector.go:145-151 | an undisturbed probe whose dial succeeds makes a client usable |
| ReconnectOutcome.ProbeRetriesOrEnds | internal/collector/collector.go:138-152 | a failed dial sends the probe back to its ticker, a cancelled context ends it, and neither changes anything else |
| ReconnectOutcome.FirstDial | internal/collector/runtime.go:76 | after the first dial a client is handed out if and only if it succeeded |
| ReconnectClose.StaysClosed | internal/collector/collector.go:100-155 | once cancelled and closed, the connection stays closed in every continuation whose selects take the context, if and only if nobody has left its wait to dial and the first dial has been made |
| ReconnectClose.StoppedStaysClosed | internal/runtime/manager.go:226-232 | the same from any state: after Cancel and Close the connection is closed, and stays so under that condition on the state before |
| ReconnectClose.LateWinnersReopen | internal/collector/collector.go:100-151 | a timer or tick that wins the select against the cancelled context opens the connection with the next step |
| ReconnectClose.ReopensAfterStop | internal/runtime/manager.go:226-232 | a run in which a reconnection opens the connection after Cancel and Close |
| ReconnectClose.ReopensAtStart | internal/collector/runtime.go:62-97 | a run in which the first dial opens the connection after Cancel and Close |
| Reconnect.OwnStepDescends | internal/collector/collector.go:85-116 | each own step lowers a rank that is zero exactly outside the critical section |
| Reconnect.EveryCallEnds | internal/collector/collector.go:85-116 | a call ends within 4 maxRetries + 6 own steps, whatever the others do |
| Decimal.PrintedIsCanonical | internal/pointcsv/csv.go:125 | of all texts with a value the printed one is that without leading zeros |
| Decimal.UintRoundTrip | internal/pointcsv/csv.go:78-83 | reading undoes printing for every 16-bit number; printing undoes reading exactly on canonical texts |
| Decimal.IntRoundTrip | internal/pointcsv/csv.go:84-101 | Atoi undoes Itoa for every 64-bit integer |
| Decimal.UsualNotation | internal/pointcsv/csv.go:78-101 | the notation is the usual decimal one |
| PointCsv.Parse | internal/pointcsv/csv.go:19-68 | accepts exactly the importable documents and returns their points; otherwise the complete list of numbered messages |
| PointCsv.NoErrorsMeansImportable | internal/pointcsv/csv.go:35-60 | no message at all if and only if every row has eight valid columns and no tag repeats |
| PointCsv.SeenRepeats | internal/pointcsv/csv.go:48-51 | the seen set reports exactly the tags of earlier accepted rows |
| PointCsv.CleanHasTag | internal/pointcsv/csv.go:102-104 | a record without messages is a valid point with a tag |
| CsvMessages.PaddingIgnored | internal/pointcsv/csv.go:26-31 | white space around fields and a byte-order mark change neither acceptance, points nor messages |
| CsvMessages.PaddedField | internal/pointcsv/csv.go:71-101 | a field with white space around it, or behind a byte-order mark, is such a case |
| CsvMessages.AcceptedHeaders | internal/pointcsv/csv.go:26-31 | exactly the headers accepted: the eight names in order, up to white space and one byte-order mark |
| CsvMessages.MessagesNameTheirRow | internal/pointcsv/csv.go:36-59 | every message names the row it is about, and every message of every row is there |
| CsvMessages.RowMessages | internal/pointcsv/csv.go:44-51 | exactly which messages a row gets |
| CsvRoundTrip.PointOrder | internal/pointcsv/csv.go:112-120 | the comparison is asymmetric and ties only on equal tags |
| CsvRoundTrip.PointTransitive | internal/pointcsv/csv.go:112-120 | the comparison orders consistently |
| CsvRoundTrip.OneOrder | internal/pointcsv/csv.go:111-120 | points with unique tags have one canonical order |
| CsvRoundTrip.Lexicographic | internal/pointcsv/csv.go:113-118 | texts are compared lexicographically |
| CsvRoundTrip.ExportAscends | internal/pointcsv/csv.go:111-119 | register types in alphabetical order, ascending addresses within one type, ascending tags at one address |
| CsvRoundTrip.SortForExport | internal/pointcsv/csv.go:111-120 | a sorted permutation of the points |
| CsvRoundTrip.Write | internal/pointcsv/csv.go:109-135 | the header and one record for each point in canonical order |
| CsvRoundTrip.ColumnsFollowHeader | internal/pointcsv/csv.go:125 | every column of a written record holds what its header says |
| CsvRoundTrip.RecordRoundTrip | internal/pointcsv/csv.go:70-107 | reading a written record gives the point back if and only if it is valid and its description trimmed |
| CsvRoundTrip.RoundTrip | internal/pointcsv/csv.go:19-135 | import of an export gives the points in canonical order if and only if the list is non-empty, valid, uniquely tagged and trimmed |
| CsvRoundTrip.ImportsAreExportable | internal/pointcsv/csv.go:19-68 | whatever was imported survives every later export and import |
| CsvRoundTrip.ExportIsStable | internal/pointcsv/csv.go:109-135 | exporting what was imported from an export writes the same records |
| CsvRoundTrip.HeaderReads | internal/pointcsv/csv.go:137-147 | the written header is accepted |
| CsvRoundTrip.NamesRoundTrip | internal/pointcsv/csv.go:71-76 | type names, known or not, survive reading and writing |
| Realtime.JoinKeepsAgreement | internal/realtime/hub.go:87-96 | joining keys on both sides keeps everybody in agreement and within the limit |
| Realtime.LeaveKeepsAgreement | internal/realtime/hub.go:101-130 | leaving keys on both sides keeps everybody in agreement |
| Realtime.LeaveUndoesJoin | internal/realtime/hub.go:59-114 | unsubscribing restores the index if and only if none of the keys was subscribed before |
| Realtime.CleanTags | internal/realtime/hub.go:63-75 | finds an empty tag or returns the distinct trimmed tags |
| Realtime.Subscription.CountNew | internal/realtime/hub.go:78-83 | counts exactly the keys not held yet |
| Realtime.Hub.constructor | internal/realtime/hub.go:40-42 | an empty index |
| Realtime.Hub.Subscribe | internal/realtime/hub.go:45-50 | a new consumer with a buffer of at least one |
| Realtime.Subscription.Set | internal/realtime/hub.go:59-98 | when it fails and why; a failed Set changes nothing, a successful one adds exactly the wanted keys on both sides |
| Realtime.Subscription.Remove | internal/realtime/hub.go:101-114 | removes exactly the named keys on both sides, leaving no empty set |
| Realtime.Subscription.Close | internal/realtime/hub.go:117-130 | the first call removes every key on both sides, later calls do nothing |
| Realtime.Hub.Publish | internal/realtime/hub.go:133-148 | without other operations in between: offers the event to the subscribers of exactly that key; a full one is closed, all others are untouched |
| HubRuns.StepKeeps | internal/realtime/hub.go:45-148 | every step of every operation, one offer at a time, keeps the index in agreement and the deliveries accounted |
| HubRuns.EveryRun | internal/realtime/hub.go:45-148 | the two sides agree, within the limit, in every reachable state |
| HubRuns.SetAndRemove | internal/realtime/hub.go:59-114 | a Set is carried out exactly for a positive device, tags that are not empty and a number of keys within the limit, and then adds exactly the named keys; Remove takes exactly those away |
| HubRuns.SubscribeOpens | internal/realtime/hub.go:45-50 | a new consumer is open, without keys, with the buffer asked for, at least one |
| HubRuns.ReceiveMakesRoom | internal/realtime/hub.go:133-148 | in every run receiving takes one event and makes room for another |
| HubRuns.PublishReachesSubscribers | internal/realtime/hub.go:133-148 | in every interleaving an event reaches only those subscribed to exactly its key when the publication began, at most once each, and in the end each has got it or is closed |
| HubRuns.RemovedStillGets | internal/realtime/hub.go:101-148 | a subscriber that removes the key after the targets were taken still gets the event |

## Left out

- HTTP handlers, the WebSocket loop, logging, TOML loading, backup and the Windows service: input, output and plumbing.
- The Kafka producer, TLS and connection switching; only the single consumer of the queue is used. Nothing is claimed about messages still queued at shutdown.
- SQL, SQLite, migrations and per-device Kafka settings rows; time stamps of rows; `config_version` is unbounded.
- `encoding/csv` quoting, line endings and read errors in the middle of a file; documents are lists of records of strings.
- The legacy CSV loader of internal/config/point_config.go:154-352, which the program does not use.
- Floating-point values stay raw bit patterns, except in the comparison of values; JSON encoding is not part of this model.
- Time stamps of collected values, and the clock except as a parameter of a submitted scan; `onDrop` is taken to be set.
- `sort.Slice` on points is any sort by address; the order of equal addresses is left open.
- The coordinator's per-device state is a value in a map; the code shares it by reference, always under its own lock.
- The displayed `state` string and `lastError` of a device: late status events may overwrite them. `Values` of a snapshot likewise.
- ReadPlan.OptimizeChunks: for points that wrap past address 65535, which the validator refuses, it says only that none is lost or doubled; the quantities of their requests are not described.
- Collector.Collector.ScanOnce: takes chunks planned from accepted points, so its branch for unknown register types, which only logs and goes on, does not occur.
- Decoder.DecodeIsExact: speaks of accepted points; a negative bit offset, which the validator refuses, would make the code panic.
- Byte orders outside ABCD, DCBA, CDAB and BADC: internal/service/device.go:155 and internal/config/device_config.go:137 refuse them. The decoder would zero 4- and 8-byte values; the model keeps that, and the results hold for it.
- LifecycleSafety.StalenessIsSound: speaks of the two reads of Snapshot made together; `SnapshotReads` takes them apart.
- Lifecycle.EveryRun: follows one device; other devices appear as store commands and share no lock with it. Points loaded by a runner are compared as a set of rows.
- ChangeStream.FullRate: assumes a clock that never returns the zero time and intervals of at most 86400 seconds, as internal/kafkapub/config.go:87 demands.
- Backoff.ConnManager.HeartbeatProbe: is given the finite list of ticks that happen while it runs.
- Realtime.Hub.Publish: runs without other operations between taking the targets and the last offer; `HubRuns` takes the offers one by one.
- A closed subscription that calls Set again re-enters the index; the code allows it and so does the model.
- `ConnManager` dials are single outcomes; the TCP handler itself, its address and its timeout are not part of this model.

# NovitaBox: verified model

NovitaBox runs sandboxes. This project states and proves, in Dafny, what its most delicate
parts are for: the wire codec and output hub inside a sandbox (boxd), the sandbox store and
lifecycle (boxlet), slot and address arithmetic shared with the proxy (boxproxy), the
template build protocol (boxapi), the two file protocols that must survive failing system
calls, and the jailer's path translation (boxshim). `dafny verify dfyconfig.toml` checks
everything.

## How the model is laid out

Code that works step by step is a class or method with the source's own branches and loops,
proved equal to a specification function; what the source promises is then proved about that
function, for all inputs, all runs and all failures. An external call that may fail takes a
boolean of its own, so "any call may fail" is a quantifier over those booleans. Go's integer
widths are explicit, text is bytes where bytes matter, and a byte slice is shorter than 2^63.

| part | files |
|---|---|
| machine types, sequence facts | `Machine.dfy`, `Seqs.dfy`, `Subsequences.dfy` |
| codec | `Varint.dfy`, `Wire.dfy`, `ProcessConfig.dfy`, `StartRequest.dfy`, `Base64.dfy`, `Events.dfy`, `WireFormat.dfy` (the bytes spelled out), `Envelope.dfy` |
| output hub | `HubModel.dfy` (state machine and histories), `OutputHub.dfy` (channels, arrays, the reader's buffer) |
| file protocols | `Disk.dfy`, `SnapshotCommit.dfy`, `TemplateRootfs.dfy` |
| addresses and slots | `Network.dfy`, `NetworkSpec.dfy`, `Slots.dfy`, `BuildSlot.dfy` |
| store | `Store.dfy` (tables and calls), `StoreRuns.dfy` (whole runs) |
| lifecycle | `World.dfy`, `Lifecycle.dfy` (handlers as functions), `Boxlet.dfy` (handlers as code), `Orphans.dfy`, `CreateUndo.dfy`, `NetworkInvariant.dfy`, `LifecycleRuns.dfy`, `HandlerEffects.dfy` (mounts and log entries of each handler), `BoxletLog.dfy` |
| template builds | `BuildProtocol.dfy` (interleavings), `BuildApi.dfy` (the handler's code) |
| jailer | `FilePaths.dfy`, `Jailer.dfy`, `JailerPaths.dfy` |

## Where the code does less than it seems to promise

Each of these has a lemma with a concrete input, and an exact condition proved for all inputs.

- A first snapshot whose snapfile cannot be installed next to an old snapfile leaves a mixed
  pair, and with no old memfile the new one stays (`SnapshotCommit.NeverTornIff`,
  `FailedCommitRestoresIff`, `FirstMemfileCanBeMixed`).
- If the rollback cannot rename an old file back, the cleanup deletes its last copy
  (`SnapshotCommit.CleanupKeepsOldMemIff`, `CleanupKeepsOldSnapIff`, `OldMemfileCanBeLost`).
- A failed activation rename makes `withWritableTemplateRootfs` remove the template it means
  to protect (`TemplateRootfs.OriginalSurvivesIff`, `OneFailedRenameLosesOriginal`).
- A framed request whose payload ends in white space is not unframed
  (`Envelope.UnframesIffNoTrailingSpace`, `LineIsNotUnframed`).
- A create request that names its own host access address is configured with it, but the proxy
  dials the slot's address (`NetworkSpecs.DialedIsConfiguredIff`, `ExplicitAddressIsNotDialed`),
  and the prepared network belongs to no record with its slot (`LifecycleRuns.NamedAddressLeaksIff`).
- A create request that names its own namespace leaves it without a record of its slot
  (`LifecycleRuns.CreateTidyIff`, `ForeignNamespaceLeaks`, `ForeignNamespaceCanStay`).
- A namespace that cannot be deleted is forgotten, as the cleanup ignores its commands: a stop,
  a pause, or a create, start or resume that fails gives up the slot and leaves the network
  (`LifecycleRuns.ActionTidyIff`, `StartTidyIff`, `ResumeTidyIff`, `CreateTidyIff`,
  `StopCanLeaveNetwork`).
- Kill leaves the host network behind when the sandbox directory cannot be removed
  (`LifecycleRuns.KillTidyIff`, `KillCanLeaveNetwork`).
- A create that placed its overlaybd rootfs elsewhere and fails late leaves the mount, as the
  deferred undo looks at the default place only (`CreateUndo.FailedCreateLeavesNothingIff`,
  `MountCanStay`).
- The transition log of a reused id is in general no path (`StoreRuns.LogIsPathIff`,
  `ReusedIdBreaksPath`; `BoxletLog.LifecycleLog` for the handlers).
- Two drives with one target in the jail: the first one's path leads to the second one's file
  (`JailerPaths.SpecFilesPreservedIff`, `SharedTargetMisleads`).

States and slots in the store are never affected by any of this
(`LifecycleRuns.EveryRunKeepsRows`).

## Model

| member | source | states |
|---|---|---|
| `Varint.DecodeEncode` | internal/boxd/server/process.go:1558-1568 | reading any uint64 back from its varint stops exactly at its end, whatever bytes follow |
| `Varint.DecodeFromExtends` | internal/boxd/server/process.go:1507-1513 | a varint that was read does not depend on the bytes after it |
| `Varint.DecodeFromExact` | internal/boxd/server/process.go:1507-1513 | reading needs no byte beyond those it reports as used |
| `Varint.EncodeIsShortest` | internal/boxd/server/process.go:1564-1568 | no accepted varint for a value is shorter than the emitted one |
| `WireFormat.VarintLayout` | internal/boxd/server/process.go:1564-1568 | a varint's seven-bit groups, least significant first, make up the number, and the top bit is set on all bytes but the last |
| `Wire.WalkProtoFields` | internal/boxd/server/process.go:1507-1545 | the walker's loop, for any callback and any bytes, does what the field-by-field reading says: same callbacks, same order, same error; it ends because every round consumes bytes |
| `Wire.ReadEncodedField` | internal/boxd/server/process.go:1507-1562 | one emitted field is read back whole, with its exact size, whatever follows |
| `Wire.ParseEncodedFields` | internal/boxd/server/process.go:1507-1568 | walking the concatenated encodings of any list of fields reports exactly that list and succeeds |
| `Wire.WalkEncodedFields` | internal/boxd/server/process.go:1507-1568 | so any callback sees exactly those fields in that order, up to its own first failure |
| `Wire.ParseConcat` | internal/boxd/server/process.go:1507-1545 | if a prefix reads fully, the whole reads as the prefix's fields and then the rest's, with the rest's error |
| `Wire.WalkConcat` | internal/boxd/server/process.go:1507-1545 | walking a ++ b is walking a and then b from the state a left |
| `Wire.ParseIsChunked` | internal/boxd/server/process.go:1507-1545 | on every byte string the rounds cut off consecutive chunks of at least two bytes, each value is the tail of its own chunk, nothing is skipped or read twice, and an error is the error of the first unread bytes |
| `Wire.EncodeFieldsConcat` | internal/boxd/server/process.go:1551-1562 | appending encodings is encoding the appended list |
| `WireFormat.FieldOnWire` | internal/boxd/server/process.go:1551-1562 | a field with a number below 16 starts with the byte 8n+2 and its length, or with 8n before a number |
| `ProcessConfig.MarshalProtoProcessConfig` | internal/boxd/server/process.go:1261-1279 | the appending loops emit, for whichever order the map is visited in, the encoding of the config's fields in that order |
| `ProcessConfig.UnmarshalProtoProcessConfig` | internal/boxd/server/process.go:1416-1455 | the decoder folds the callback over the payload and turns an empty environment into nil, on success and on failure |
| `ProcessConfig.ConfigRoundTrip` | internal/boxd/server/process.go:1261-1279 | for every config and every map order, decoding what was emitted gives the config back: cmd, all args, env, presence and value of cwd; an empty env comes back absent |
| `ProcessConfig.FeedEnvs` | internal/boxd/server/process.go:1416-1455 | any visiting order of the environment rebuilds the same map |
| `WireFormat.ConfigOnWire` | internal/boxd/server/process.go:1261-1279 | byte by byte, for every config: cmd under key 0x0A, each argument under 0x12, each pair of the environment under 0x1A with key and value under 0x0A and 0x12, cwd under 0x22 |
| `StartRequest.UnmarshalProtoStartRequest` | internal/boxd/server/process.go:1325-1349 | the start request decoder is the fold of its callback, nested config and pty included |
| `StartRequest.StartRequestRoundTrip` | internal/boxd/server/process.go:1325-1349 | a start request as a client encodes it is recovered: config, optional pty with optional size, tag and stdin flag, for every env order |
| `StartRequest.UnmarshalSentPty` | internal/boxd/server/process.go:1457-1479 | a pty with or without a size survives; both dimensions keep their 32 bits |
| `WireFormat.RequestOnWire` | internal/boxd/server/process.go:1325-1349 | byte by byte, what the recovered start request was sent as: config 0x0A, terminal 0x12 with columns before rows, tag 0x1A, stdin flag 0x20 |
| `Base64.RoundTrip` | internal/boxd/server/process.go:908-918 | standard padded base64 (section 4 of RFC 4648) decodes back to the same bytes for every length |
| `Base64.EncodeEmpty` | internal/boxd/server/process.go:1296-1310 | encoded text is empty only for no bytes, which is what the event encoder tests |
| `Base64.EncodeIsBase64` | internal/boxd/server/process.go:908-918 | each three bytes become the four base-64 digits of their 24-bit number as letters of the standard's alphabet, with '=' for digits that would carry no bit |
| `Base64.SymbolIsLetter` | internal/boxd/server/process.go:908-918 | the symbol of each value is that letter of the 64-character alphabet |
| `Events.XorAllOnes` | internal/boxd/server/process.go:1570-1572 | on 32 bits, exclusive-or with all ones is subtraction from 2^32 - 1, so the zigzag form used here is the shift-and-xor one |
| `Events.ZigZagIsBijective` | internal/boxd/server/process.go:1570-1572 | zigzag and its inverse undo each other on every int32 and every uint32, and it is 2v or -2v-1 |
| `Events.MarshalProtoEndEvent` | internal/boxd/server/process.go:1312-1323 | the end event is emitted as its four fields, empty status and absent error left out |
| `Events.EndEventRoundTrip` | internal/boxd/server/process.go:1312-1323 | a client recovers every exit code, flag, status and optional error |
| `WireFormat.EndEventOnWire` | internal/boxd/server/process.go:1312-1323 | byte by byte: zigzag exit code under 0x08, exited under 0x10, status under 0x1A, error under 0x22 |
| `Events.OutputRoundTrip` | internal/boxd/server/process.go:1296-1310 | every non-empty output chunk passes base64 and the event encoder unchanged, on its own stream's field and no other; an empty one is not sent |
| `WireFormat.OutputOnWire` | internal/boxd/server/process.go:1296-1310 | byte by byte: standard output under 0x0A, standard error under 0x12, the terminal under 0x1A, and no byte for an empty chunk |
| `Envelope.PutGetUint32` | internal/boxd/server/process.go:1188-1197 | the big-endian length is read back |
| `Envelope.PutIsBigEndian` | internal/boxd/server/process.go:1188-1197 | the most significant byte of the length comes first |
| `Envelope.SplitWriteAll` | internal/boxd/server/process.go:1188-1197 | a concatenation of envelopes is cut back into exactly those envelopes |
| `Envelope.SplitIsUnique` | internal/boxd/server/process.go:1188-1197 | two lists of envelopes with the same bytes are the same list |
| `Envelope.TrimRight` | internal/boxd/server/process.go:1133-1133 | trimming stops at a non-space and changes nothing without trailing white space |
| `Envelope.TrimmedOfSpaces` | internal/boxd/server/process.go:1133-1133 | what trimming takes off is nothing but space characters on either side, and none is left at either end |
| `Envelope.UnframesIffNoTrailingSpace` | internal/boxd/server/process.go:1128-1147 | a flag-0 or flag-1 envelope with a payload is unframed to it exactly when the payload does not end in white space |
| `Envelope.LineIsNotUnframed` | internal/boxd/server/process.go:1128-1147 | a concrete framed request ending in a newline that is not unframed |
| `Envelope.UnframeFirst` | internal/boxd/server/process.go:1134-1139 | bytes after a whole envelope are ignored |
| `Envelope.UnframedIsKept` | internal/boxd/server/process.go:1134-1142 | a body too short for a header, or with another first byte, is kept as it is, and an empty one becomes {} |
| `HubModel.RunOk` | internal/boxd/server/process.go:160-227 | in every run of publish, subscribe, cancel, close and receive the hub's bookkeeping invariant holds |
| `HubModel.DeliveryHistory` | internal/boxd/server/process.go:160-207 | in every run what a subscriber received plus what is buffered is its replay and then a subsequence of what was published while it was subscribed; delivered and missed add up, and with none missed everything is there |
| `HubModel.MissedOnlyWhenFull` | internal/boxd/server/process.go:173-179 | an output is missed by a subscriber exactly when its buffer of 64 is full, and is otherwise appended |
| `HubModel.PendingHistory` | internal/boxd/server/process.go:160-207 | pending is the last at most 64 outputs since the hub last had a subscriber, is empty while it has one, and no output is replayed to two subscribers |
| `HubModel.NothingAfterClose` | internal/boxd/server/process.go:160-227 | a closed hub stays closed without subscribers, changes nobody's deliveries, and gives a late subscriber the pending outputs and nothing else |
| `HubModel.CancelIsFinal` | internal/boxd/server/process.go:199-206 | whatever follows a cancel, its channel is never subscribed again and its deliveries never grow; no other channel changes |
| `HubModel.CloseIsFinal` | internal/boxd/server/process.go:216-227 | a close closes the hub and keeps the pending outputs, and whatever follows, no channel of before is subscribed again or gets more |
| `HubModel.NextSubscriberGetsPending` | internal/boxd/server/process.go:160-197 | what is published while everybody has left is what the next subscriber finds in its buffer, the last 64 of it after what was pending |
| `HubModel.SubscribeJoins` | internal/boxd/server/process.go:182-207 | subscribing adds one channel, subscribed unless the hub is closed, with the pending outputs in it, and empties pending |
| `HubModel.PublishIsRecorded` | internal/boxd/server/process.go:160-180 | an open hub records what is published, a closed one does not |
| `HubModel.ReceiveTakesOldest` | internal/boxd/server/process.go:182-207 | receiving takes the oldest output out of one buffer and leaves the others |
| `OutputHub.Channel.Send` | internal/boxd/server/process.go:182-194 | sending needs an open channel with room; every call site has both, so it never panics or blocks |
| `OutputHub.Channel.CloseChannel` | internal/boxd/server/process.go:216-227 | closing needs an open channel; every call site has one, so no channel is closed twice |
| `OutputHub.Clone` | internal/boxd/server/process.go:209-214 | a clone is a fresh array with the same bytes |
| `OutputHub.Hub.Publish` | internal/boxd/server/process.go:160-180 | publish takes the model's publish step, pending or fan-out, with payloads in arrays of their own |
| `OutputHub.Hub.OfferTo` | internal/boxd/server/process.go:173-179 | the select appends a clone when there is room and drops it otherwise |
| `OutputHub.Hub.Subscribe` | internal/boxd/server/process.go:182-207 | subscribe takes the model's step: replay into a fresh channel, as many as were pending, then register, or close it on a closed hub, where the cancel function does nothing |
| `OutputHub.Hub.Replay` | internal/boxd/server/process.go:182-194 | the replay loop puts clones of all pending outputs, in order, into a channel with room for them |
| `OutputHub.Hub.Cancel` | internal/boxd/server/process.go:199-206 | after a cancel, the first or a later one, its channel is closed and not registered, everybody else stays, and the model has taken its cancel step |
| `OutputHub.Hub.Close` | internal/boxd/server/process.go:216-227 | after a close the hub is closed, nobody is registered and every channel handed out is closed, each once; pending is as it was and the model has taken its close step |
| `OutputHub.Hub.Receive` | internal/boxd/server/process.go:182-207 | a receiver gets the oldest buffered output with the bytes it was published with, and it is gone from the buffer |
| `OutputHub.Perform` | internal/boxd/server/process.go:160-227 | whoever else uses the hub takes the model's steps and writes to no reader's buffer |
| `OutputHub.ReadLoop` | internal/boxd/server/process.go:760-783 | a reader that reuses one buffer publishes each piece as it was when read, whatever the others do between two reads |
| `SnapshotCommit.DerivedPathsDistinct` | internal/boxshim/runtime/firecracker.go:255-279 | when the six derived names differ, in terms of the two target names only |
| `SnapshotCommit.AtomicSnapshotPaths.Prepare` | internal/boxshim/runtime/firecracker.go:255-279 | stale temporaries are removed, nothing else; it fails exactly when a removal fails |
| `SnapshotCommit.AtomicSnapshotPaths.MoveFileIfExists` | internal/boxshim/runtime/firecracker.go:330-341 | the move does what its specification says, an absent file being no error |
| `SnapshotCommit.AtomicSnapshotPaths.RollbackAtomicMove` | internal/boxshim/runtime/firecracker.go:343-349 | one rollback step, ignoring its failures |
| `SnapshotCommit.AtomicSnapshotPaths.Commit` | internal/boxshim/runtime/firecracker.go:281-318 | the commit passes through exactly the specified disks, for every set of failing calls, and records success |
| `SnapshotCommit.AtomicSnapshotPaths.Cleanup` | internal/boxshim/runtime/firecracker.go:320-328 | the cleanup removes the temporaries and, unless committed, the backups |
| `SnapshotCommit.CommitOutcome` | internal/boxshim/runtime/firecracker.go:281-349 | for every disk and every set of failing calls: when the commit succeeds, what is at the two targets afterwards, that nothing outside the six names changes, and that on every disk on the way each old file exists at its target or its backup or both new ones are in place |
| `SnapshotCommit.CommitSucceeds` | internal/boxshim/runtime/firecracker.go:281-318 | success leaves exactly the new contents at both targets |
| `SnapshotCommit.CommitRollsBack` | internal/boxshim/runtime/firecracker.go:281-349 | after a failed install the rollback leaves the stated files at both targets |
| `SnapshotCommit.NeverTornIff` | internal/boxshim/runtime/firecracker.go:281-349 | no disk on the way, rollback included, holds one old and one new file, except exactly when the second install fails, the old snapfile returns, and the new memfile stays (no old one, or both calls that would remove it fail) |
| `SnapshotCommit.NeverTornUnlessRollbackFails` | internal/boxshim/runtime/firecracker.go:281-349 | with an old memfile, a pair is never torn unless two rollback calls fail |
| `SnapshotCommit.FirstMemfileCanBeMixed` | internal/boxshim/runtime/firecracker.go:311-317 | a named disk without an old memfile and one failing rename: the new memfile ends beside the old snapfile |
| `SnapshotCommit.FailedCommitRestoresIff` | internal/boxshim/runtime/firecracker.go:281-328 | a failed commit and its cleanup restore the disk but for the temporaries, exactly unless a memfile that did not exist before was installed |
| `SnapshotCommit.CleanupKeepsOldMemIff` | internal/boxshim/runtime/firecracker.go:281-328 | in every failing commit and for every failing cleanup, the old memfile is back at its target exactly if it had not been moved, or the rollback's rename worked, or an equal new one could not be removed |
| `SnapshotCommit.CleanupKeepsOldSnapIff` | internal/boxshim/runtime/firecracker.go:281-328 | the same for the old snapfile, which is moved only once both backups worked |
| `SnapshotCommit.OldMemfileCanBeLost` | internal/boxshim/runtime/firecracker.go:281-328 | a named disk and two failing renames: after the cleanup only the old snapfile is left |
| `TemplateRootfs.WithWritableTemplateRootfs` | internal/boxlet/server/services.go:2781-2825 | the function passes through exactly the specified disks and makes exactly the specified calls of the callback, for every outcome of it and every failing call |
| `TemplateRootfs.RestoreTemplateRootfs` | internal/boxlet/server/services.go:2827-2835 | the restore removes the working file and renames the backup back |
| `TemplateRootfs.UndoOnReturn` | internal/boxlet/server/services.go:2799-2805 | the deferred block, on every path that did not restore |
| `TemplateRootfs.ExportSeesCopyIff` | internal/boxlet/server/services.go:2781-2825 | the callback is called exactly in the runs whose earlier steps all work, once, with the root path, on a disk that has the original both there and at the backup, no work file, and all else as before; and exactly when the run succeeds |
| `TemplateRootfs.OriginalSurvivesIff` | internal/boxlet/server/services.go:2781-2835 | exactly which runs end with the original at its path, for every callback that changed the file |
| `TemplateRootfs.RestoredDespiteOneFault` | internal/boxlet/server/services.go:2781-2835 | once the copy is active, no callback outcome and no single failing restore call costs the original or leaves a backup or work file |
| `TemplateRootfs.OneFailedRenameLosesOriginal` | internal/boxlet/server/services.go:2799-2816 | a failed activation rename makes the deferred block remove the template |
| `Network.AcceptedPrefixes` | internal/boxlet/server/network.go:94-107 | MaxSlots accepts exactly host prefixes /1 to /31 with veth prefixes /1 to /30, and its answer is the smaller of the two capacities |
| `Network.SlotAddresses` | internal/boxlet/server/network.go:360-432 | the slots 1 to MaxSlots are exactly those whose every address exists; none leaves its prefix or wraps around 2^32, and each pair is one aligned /31 (section 2.1 of RFC 3021) |
| `Network.SlotsAreDisjoint` | internal/boxlet/server/network.go:360-432 | distinct slots share no host access address and no veth address |
| `Network.SlotAndAddressAreInverse` | internal/boxlet/server/network.go:389-432 | reading a slot off an address and computing the address from the slot undo each other, both ways |
| `Network.MaskedIsInside` | internal/boxlet/server/network.go:400-402 | a prefix contains an address exactly when clearing the host bits gives the base |
| `NetworkSpecs.Complete` | internal/boxlet/server/network.go:62-92 | the caller's object is filled in place: each of the seven fields is the caller's where given and otherwise the configured guest, gateway and mac address, the tap name, the sandbox's namespace, its slot and its address; a nil spec gets all of these, disabled networking gives nothing, and it fails exactly for slot 0 or a slot without an address |
| `NetworkSpecs.NetworkSpec.FillEmpty` | internal/boxlet/server/network.go:69-90 | each of the seven fields keeps a given value and takes the default otherwise |
| `NetworkSpecs.CopiesAgree` | internal/boxproxy/server/server.go:321-342 | both copies of the address computation give the same address or both refuse |
| `NetworkSpecs.DialIff` | internal/boxproxy/server/server.go:260-275 | which records have no address to dial and why, and the address of every other one |
| `NetworkSpecs.DialedIsConfiguredIff` | internal/boxproxy/server/server.go:260-275 | for every assignable slot, boxproxy dials the address boxlet configured exactly when the create request named no other address |
| `NetworkSpecs.ExplicitAddressIsNotDialed` | internal/boxlet/server/network.go:82-84 | a request with an address of its own that boxproxy does not dial |
| `Slots.FirstFree` | internal/storage/store/sqlite/sandbox.go:166-173 | the least free slot in range, or 0 exactly when all are used |
| `Slots.FindFree` | internal/storage/store/sqlite/sandbox.go:166-173 | the scanning loop with its 32-bit counter finds it and ends for every maxSlot, the largest included |
| `Slots.FullIff` | internal/storage/store/sqlite/sandbox.go:166-176 | a set of slots in range has maxSlot members exactly when none is free |
| `BuildSlots.MarkUsedFromRoutes` | internal/boxlet/server/services.go:2102-2115 | the slots marked are exactly those whose host access address some route line starts with |
| `BuildSlots.InternalSandboxNetworkSpec` | internal/boxlet/server/services.go:2035-2063 | a build gets the least slot held by no record and shown by no host route, and is refused exactly when there is none (or no records or no valid prefixes) |
| `BuildSlots.InternalSandboxNetworkSpecForTemplateBuild` | internal/boxlet/server/services.go:2065-2092 | the same for template builds, whether or not networking is enabled: least free slot, its spec, and refusal exactly when there is none |
| `SandboxStore.Store.CreateSandbox` | internal/storage/store/sqlite/sandbox.go:13-46 | inserts the record unless the id or its positive slot is taken |
| `SandboxStore.Store.UpdateSandboxState` | internal/storage/store/sqlite/sandbox.go:89-125 | compare-and-swap with one log entry, or nothing at all |
| `SandboxStore.Store.AssignSandboxNetworkSlot` | internal/storage/store/sqlite/sandbox.go:127-203 | the assignment transaction, loops included, computes the specified slot and row |
| `SandboxStore.Store.ListUsed` | internal/storage/store/sqlite/sandbox.go:148-164 | the loop over rows collects exactly the positive slots held |
| `SandboxStore.Store.ReleaseSandboxNetworkSlot` | internal/storage/store/sqlite/sandbox.go:205-221 | sets the slot to 0, or reports a missing row |
| `SandboxStore.Store.DeleteSandbox` | internal/storage/store/sqlite/sandbox.go:241-256 | removes the row, or reports it missing |
| `SandboxStore.Store.ListTransitions` | internal/storage/store/sqlite/transition.go:10-44 | the loop returns the entries of one resource in log order |
| `StoreRuns.ListedIs` | internal/storage/store/sqlite/transition.go:10-44 | a listing has exactly the entries of its resource, in log order |
| `StoreRuns.StepFrame` | internal/storage/store/sqlite/sandbox.go:89-125 | a rejected call changes neither row nor log; any other touches one row, and the log grows by one entry for a change of state and not otherwise |
| `StoreRuns.SlotsStayUnique` | internal/storage/store/sqlite/migrations.go:114-115 | in every run of store calls no two records hold the same positive slot |
| `StoreRuns.ExhaustedIff` | internal/storage/store/sqlite/sandbox.go:166-176 | the scan finds nothing exactly when maxSlot records hold a slot in range each |
| `StoreRuns.AssignsLeastFree` | internal/storage/store/sqlite/sandbox.go:127-203 | an existing slot comes back unchanged; otherwise the least slot no record holds, or exhaustion exactly when maxSlot records hold one |
| `StoreRuns.EnoughSlotsForAll` | internal/storage/store/sqlite/sandbox.go:127-203 | while there are no more records than slots, every assignment succeeds |
| `StoreRuns.LogIsPathPerLife` | internal/storage/store/sqlite/transition.go:10-44 | in every run the log of an id is, sandbox by sandbox, a path of transitions each starting where the last ended, and the last ends in the row's state |
| `StoreRuns.LogIsPathWithoutReuse` | internal/storage/store/sqlite/transition.go:10-44 | with the id not reused it is one path from the creation state to the current state |
| `StoreRuns.LogIsPathIff` | internal/storage/store/sqlite/transition.go:10-44 | with reuse, for calls as boxlet makes them, it is such a path exactly when no earlier sandbox of the id changed state |
| `StoreRuns.ReusedIdBreaksPath` | internal/storage/store/sqlite/transition.go:10-44 | a four-call run that reuses an id and breaks the path |
| `BoxletLog.RunsAreByCalls` | internal/boxlet/server/services.go:69-666 | every run of handlers reaches the store only through calls in which sandboxes start in creating, never go back to it, and are killed before they are deleted |
| `BoxletLog.LifecycleLog` | internal/boxlet/server/services.go:69-666 | after any requests the log of a sandbox is one path from creating to its state exactly when the requests created its id once |
| `Boxlet.SandboxService.CreateSandbox` | internal/boxlet/server/services.go:69-192 | the handler, deferred undo included, does what the create function says for every failing call, keeps every snapshot carried and the records in order |
| `Boxlet.SandboxService.Launch` | internal/boxlet/server/services.go:136-178 | the steps after the runtime files, each failure marking the row and releasing the network |
| `Boxlet.SandboxService.PrepareSandboxRuntimeFiles` | internal/boxlet/server/services.go:898-940 | rootfs preparation with its own undo when the digest or the agent binary cannot be stored |
| `Boxlet.SandboxService.StartSandbox` | internal/boxlet/server/services.go:494-567 | the start handler, mount and deferred unmount included; it keeps snapshots carried and records in order, as the other handlers do |
| `Boxlet.SandboxService.ResumeSandbox` | internal/boxlet/server/services.go:361-418 | the resume handler |
| `Boxlet.SandboxService.PauseSandbox` | internal/boxlet/server/services.go:322-359 | the pause handler |
| `Boxlet.SandboxService.RuntimeAction` | internal/boxlet/server/services.go:576-614 | the steps shared by stop and reboot (and, around another call, pause) |
| `Boxlet.SandboxService.StopSandbox` | internal/boxlet/server/services.go:476-492 | the stop handler with its unmount |
| `Boxlet.SandboxService.RebootSandbox` | internal/boxlet/server/services.go:569-574 | the reboot handler |
| `Boxlet.SandboxService.KillSandbox` | internal/boxlet/server/services.go:420-460 | the kill handler, early returns included |
| `Boxlet.SandboxService.SetSandboxState` | internal/boxlet/server/services.go:620-639 | from whatever state the row is in, without a log entry when it is already there |
| `Boxlet.SandboxService.AssignSandboxNetworkSlot` | internal/boxlet/server/services.go:641-651 | nothing when networking is off, otherwise the store's assignment up to MaxSlots |
| `Boxlet.SandboxService.ReleaseSandboxNetwork` | internal/boxlet/server/services.go:653-666 | host cleanup of the given slot, then the row's slot to 0, a missing row ignored |
| `Boxlet.SandboxService.Prepare` | internal/boxlet/server/network.go:109-126 | the namespace gets the veth pair of the slot its address names |
| `Boxlet.SandboxService.Cleanup` | internal/boxlet/server/network.go:185-196 | removes the namespace of the sandbox, ignoring failing commands |
| `Boxlet.SandboxService.ProviderPrepare` | internal/rootfs/overlaybd/provider.go:61-87 | snapshot, then mount, with the snapshot removed again when the mount fails |
| `Boxlet.SandboxService.ProviderRemove` | internal/rootfs/overlaybd/provider.go:107-115 | unmount, then remove the snapshot; a failed unmount stops it |
| `Orphans.NoRunOrphansASnapshot` | internal/boxlet/server/services.go:69-460 | at every moment of every sequential run, whatever fails, each overlaybd snapshot's key is carried by a sandbox record |
| `Orphans.CreateIsOrphanFree` | internal/boxlet/server/services.go:104-122 | create keeps that at each of its moments |
| `Orphans.KillIsOrphanFree` | internal/boxlet/server/services.go:429-451 | kill removes the snapshot before the record that carries its key |
| `CreateUndo.FailedCreateLeavesNothingIff` | internal/boxlet/server/services.go:115-122 | with working removal a failed create leaves no snapshot, and no mount exactly unless the caller placed the rootfs elsewhere and the failure came after it was in place |
| `CreateUndo.MountCanStay` | internal/boxlet/server/services.go:115-140 | a create with its rootfs elsewhere that fails late and leaves the mount |
| `CreateUndo.PrepareIsAllOrNothing` | internal/rootfs/overlaybd/provider.go:61-87 | preparing the rootfs leaves all of it or nothing |
| `HandlerEffects.StartRootfs` | internal/boxlet/server/services.go:494-567 | a successful start of an overlaybd sandbox ends with its snapshot mounted at its own target; after a failed one something is there exactly when the rootfs had been mounted and the undo failed; no other mount and no snapshot changes; the log gains the way into starting and on to running or failed |
| `HandlerEffects.StopRootfs` | internal/boxlet/server/services.go:476-492 | a successful stop leaves nothing mounted at the target of an overlaybd sandbox; otherwise all mounts are as before; when it succeeds, and the state it ends in |
| `HandlerEffects.ActionLeaves` | internal/boxlet/server/services.go:569-614 | pause, stop and reboot go over pausing, stopping or rebooting to paused, stopped or running, or to failed; both log entries; no mount or snapshot changes |
| `HandlerEffects.ResumeLeaves` | internal/boxlet/server/services.go:361-418 | resume goes over resuming to running or failed; both log entries; no mount or snapshot changes |
| `HandlerEffects.KillRootfs` | internal/boxlet/server/services.go:420-460 | kill unmounts, then removes snapshot and record, as far as it gets; when it succeeds; no other sandbox's rootfs changes |
| `HandlerEffects.KillLog` | internal/boxlet/server/services.go:420-460 | kill logs the way into killing, and on to killed exactly when the rootfs could be removed |
| `HandlerEffects.CreateRefusedIff` | internal/boxlet/server/services.go:69-103 | a create is refused, leaving everything as it was, exactly without an id or directory, for an id in use, or for a source that is no container's, not overlaybd, without an image or with another pull mode |
| `HandlerEffects.CreateRootfs` | internal/boxlet/server/services.go:69-192 | any other create leaves its record, running or failed, with one log entry; after a success the snapshot is there and mounted where the request says, and the record has its key and digest; no other rootfs changes |
| `HandlerEffects.CreateSucceedsIff` | internal/boxlet/server/services.go:69-192 | it succeeds exactly when a slot can be given, the runtime files can be put in place and every later step works |
| `NetworkInvariant.AssignEffect` | internal/boxlet/server/services.go:641-651 | the row gets the given slot and nothing else changes; refusal leaves the row without one |
| `NetworkInvariant.GivenSlotIsFree` | internal/boxlet/server/services.go:641-651 | the given slot is in range, nobody else holds it, and there is one exactly when networking is on |
| `NetworkInvariant.NoSlotIff` | internal/boxlet/server/services.go:641-651 | a slot is refused exactly without valid prefixes, or when every slot has a holder |
| `NetworkInvariant.ReleaseEffect` | internal/boxlet/server/services.go:653-666 | a release always takes the slot, even when the namespace cannot be deleted; the namespace goes when it can |
| `NetworkInvariant.PrepareEffect` | internal/boxlet/server/network.go:109-126 | which namespace appears with which slot, and when preparation succeeds |
| `NetworkInvariant.OwnSpecPrepares` | internal/boxlet/server/network.go:40-60 | a sandbox's own spec carries its namespace, the tap name, the configured guest, gateway and mac address, its slot and the slot's address, and brings about its own namespace with its own slot |
| `NetworkInvariant.OwnedAfterIff` | internal/boxlet/server/services.go:653-666 | after a change to one record and two namespaces, networks are owned exactly when those two are |
| `LifecycleRuns.StartTidy` | internal/boxlet/server/services.go:494-567 | whatever fails: a start ends running with a slot exactly when networking is on, or failed with slot 0; records stay in order and no other is touched |
| `LifecycleRuns.StartTidyIff` | internal/boxlet/server/services.go:494-567 | the networks stay owned exactly unless the start fails, the namespace was there or had just been prepared, and it cannot be deleted |
| `LifecycleRuns.StartOutcome` | internal/boxlet/server/services.go:494-567 | a start succeeds exactly when a slot can be given, the rootfs mounted and every later step works; rows and networks in every case |
| `LifecycleRuns.ResumeTidy` | internal/boxlet/server/services.go:361-418 | the same for resume |
| `LifecycleRuns.ResumeTidyIff` | internal/boxlet/server/services.go:361-418 | the same exact condition for resume |
| `LifecycleRuns.ResumeOutcome` | internal/boxlet/server/services.go:361-418 | the same for resume, which mounts nothing |
| `LifecycleRuns.CreateTidy` | internal/boxlet/server/services.go:69-192 | whatever fails and whatever the request names: create ends running with a slot exactly when networking is on, or failed with slot 0; a refused create changes nothing; no other record is touched |
| `LifecycleRuns.CreateTidyIff` | internal/boxlet/server/services.go:69-192 | for every request and every failure, exactly when create leaves a network without a record of its slot: under its own name with another slot, or failed and not deleted; under another name, unless that sandbox holds the very slot |
| `LifecycleRuns.LeftToBoxletLeaksIff` | internal/boxlet/server/services.go:69-192 | a request that leaves address and namespace to boxlet leaks exactly by a failing deletion after a failing launch |
| `LifecycleRuns.ForeignNamespaceLeaks` | internal/boxlet/server/network.go:62-92 | a request that names a namespace no sandbox is called after leaves it without a record, success or not |
| `LifecycleRuns.NamedAddressLeaksIff` | internal/boxlet/server/network.go:82-84 | a request that names an address only keeps records and networks in step exactly when it is the one its slot has |
| `LifecycleRuns.ForeignNamespaceCanStay` | internal/boxlet/server/network.go:69-71 | a create with a namespace of its own on an empty host that leaves it without a record |
| `LifecycleRuns.ActionTidy` | internal/boxlet/server/services.go:576-614 | whatever fails: a stop or pause that succeeds ends with slot 0, one that fails ends failed and keeps its slot; reboot keeps the slot it found |
| `LifecycleRuns.ActionTidyIff` | internal/boxlet/server/services.go:576-614 | the networks stay owned exactly unless the slot is given up and the namespace, there before, cannot be deleted |
| `LifecycleRuns.StopCanLeaveNetwork` | internal/boxlet/server/network.go:185-196 | a running sandbox stopped while its namespace cannot be deleted: stopped, slot 0, network still there |
| `LifecycleRuns.KillTidy` | internal/boxlet/server/services.go:420-460 | whatever fails: the record goes, or stays killing when its rootfs cannot be removed |
| `LifecycleRuns.KillTidyIff` | internal/boxlet/server/services.go:420-460 | the networks stay owned exactly unless the record went and the namespace stayed: the directory could not be removed, or the namespace not be deleted |
| `LifecycleRuns.KillCanLeaveNetwork` | internal/boxlet/server/services.go:451-456 | a running sandbox, killed while its directory cannot be removed, whose network stays without a record |
| `LifecycleRuns.KillEffect` | internal/boxlet/server/services.go:420-460 | what kill does to rows and networks in every case |
| `LifecycleRuns.EveryRunKeepsRows` | internal/boxlet/server/services.go:69-666 | at every operation boundary of every sequential run, whatever fails: positive slots are unique and in range, and stopped and paused sandboxes hold none |
| `LifecycleRuns.EveryRunIsTidyIff` | internal/boxlet/server/services.go:69-666 | and every prepared network belongs to a record with that slot at every boundary, exactly when no request of the run meets its own leaking condition |
| `LifecycleRuns.EveryRunIsTidy` | internal/boxlet/server/services.go:69-666 | in particular when namespaces can be deleted, kill removes its directory, and requests leave the network to boxlet |
| `LifecycleRuns.QuietHasNoNetwork` | internal/boxlet/server/services.go:604-608 | then stopped and paused sandboxes have no network |
| `BuildProtocol.MutualExclusion` | internal/boxapi/handler/template.go:264-326 | in every interleaving of any number of handlers, with crashes, deletions and failing updates, at most one is between its swap into building and its exit swap, and the row is then building or deleted |
| `BuildProtocol.ReadyIsNeverLeft` | internal/storage/store/sqlite/template_build.go:86-110 | ready is left only by deletion, and a deleted build does not come back |
| `BuildProtocol.ReadyMeansMade` | internal/boxapi/handler/template.go:264-326 | with an artifact client, a ready build has a handler whose artifact call succeeded, and an accepted request's own call did |
| `BuildProtocol.StepOk` | internal/boxapi/handler/template.go:264-326 | every step keeps the protocol's invariant |
| `BuildProtocol.ExitSettles` | internal/boxapi/handler/template.go:294-328 | in every reachable system a handler whose build is still there when it leaves makes it ready and is accepted, or makes it fail and reports it |
| `BuildProtocol.BuildsComeAndGo` | internal/storage/store/sqlite/template_build.go:12-28 | a fresh build waits; deleting a template takes its builds and no others |
| `BuildApi.Store.GetTemplateBuild` | internal/storage/store/sqlite/template_build.go:30-42 | the status of one build of one template, or nothing, or a failing query |
| `BuildApi.Store.UpdateTemplateBuildStatus` | internal/storage/store/sqlite/template_build.go:86-110 | the compare-and-swap and what it reports |
| `BuildApi.Store.StartTemplateBuildV2` | internal/boxapi/handler/template.go:245-329 | the handler's code, with any steps of others between its own, is a prefix of the protocol's steps in order; it answers not found exactly for a row that is not there and not retryable exactly for a build it reads as building or ready; left alone it takes a waiting or failed build to ready, or to failed when the artifact call fails, and answers so |
| `BuildApi.Store.Build` | internal/boxapi/handler/template.go:294-328 | from the artifact call on: error or ready, and the response |
| `FilePaths.RelIsBelowIff` | internal/boxshim/runtime/firecracker.go:1412-1414 | the prefix test on filepath.Rel's answer accepts exactly the paths below the base whose next element does not start with two dots |
| `FilePaths.CleanFromDir` | internal/boxshim/runtime/firecracker.go:1105-1130 | a path is its directory or one element below it, unless it ends in two dots |
| `FilePaths.SiblingBySuffix` | internal/boxshim/runtime/firecracker.go:264-272 | a suffix without a slash keeps the directory |
| `FilePaths.CleanedIsNormal` | internal/boxshim/runtime/firecracker.go:1180-1183 | a cleaned path has no empty or . element, and .. only in front of a path that does not start at the root |
| `FilePaths.CleanLeadsThere` | internal/boxshim/runtime/firecracker.go:1180-1183 | it leads from every directory to where the path itself leads |
| `FilePaths.SplitIsInverse` | internal/boxshim/runtime/firecracker.go:1180-1183 | the elements of a text are what stands between its slashes |
| `FilePaths.ExtIs` | internal/boxshim/runtime/firecracker.go:1169-1174 | the extension is the end of the text from its last dot on, unless a slash follows |
| `Jailer.JailerRuntime.Bind` | internal/boxshim/runtime/firecracker.go:1180-1212 | a binding already there is not repeated; otherwise mount and translation table grow together, or neither does |
| `Jailer.JailerRuntime.PrepareMounts` | internal/boxshim/runtime/firecracker.go:1065-1132 | success adds exactly the spec's bindings in order (kernel, rootfs, drives, snapshot directories) and gives exactly the writable files and snapshot directories to the jailed user, none if that is root; failure, which takes a failing call, adds the first few bindings and gives away no more than that |
| `Jailer.JailerRuntime.EnsureWritable` | internal/boxshim/runtime/firecracker.go:1134-1147 | a path changes hands unless the user is root or the call fails |
| `Jailer.JailerRuntime.BindFile` | internal/boxshim/runtime/firecracker.go:1076-1098 | a file is bound, and changes hands exactly when it is not read-only |
| `Jailer.JailerRuntime.RuntimePath` | internal/boxshim/runtime/firecracker.go:1405-1422 | the lookup loop is the first match of the table |
| `Jailer.JailerRuntime.RuntimeSpec` | internal/boxshim/runtime/firecracker.go:1373-1396 | every non-empty path of the spec is translated, empty ones stay empty |
| `JailerPaths.TranslationIsPreserved` | internal/boxshim/runtime/firecracker.go:1405-1434 | with targets that do not nest, every covered path, translated and followed through the mounts, is the original |
| `JailerPaths.AllPreservedIff` | internal/boxshim/runtime/firecracker.go:1405-1434 | where only file targets clash, every covered path leads back to itself exactly when each file whose target is taken again is bound before under another target |
| `JailerPaths.OvermountedIsLost` | internal/boxshim/runtime/firecracker.go:1205-1210 | a file that is its own first match and whose target is taken again leads elsewhere |
| `JailerPaths.SpecFilesPreservedIff` | internal/boxshim/runtime/firecracker.go:1065-1132 | with plain drive names, kernel, rootfs and drives all lead back to their files exactly when no clash of drive targets does harm |
| `JailerPaths.UncoveredIsLost` | internal/boxshim/runtime/firecracker.go:1389-1393 | an unbound path, a drive's without an id for one, finds nothing in the jail unless it lies at or below a target |
| `JailerPaths.UncoveredIsUnchanged` | internal/boxshim/runtime/firecracker.go:1405-1422 | a path no binding covers is returned as it is |
| `JailerPaths.MappingsApart` | internal/boxshim/runtime/firecracker.go:1169-1174 | plain drive names that share no target give targets that never nest |
| `JailerPaths.FilesArePreserved` | internal/boxshim/runtime/firecracker.go:1373-1396 | kernel, rootfs and every drive with an id lead back to their host files |
| `JailerPaths.KernelAndRootfsTargets` | internal/boxshim/runtime/firecracker.go:1070-1085 | the spec handed over names the kernel /kernel and the rootfs /rootfs.ext4, unless the two are one file |
| `JailerPaths.SnapshotPathsArePreserved` | internal/boxshim/runtime/firecracker.go:225-228 | memfile, snapfile and the temporary files next to them lead back to the host, in the shared and in the split layout |
| `JailerPaths.SharedTargetMisleads` | internal/boxshim/runtime/firecracker.go:1169-1174 | a spec with two drives of one id: the first one's path leads to the second one's file |

## Left out

- JailerPaths.TranslationIsPreserved: for targets that nest (a drive id with a slash can do that) not nesting is sufficient; the exact condition is stated where drive names are plain.
- JailerPaths.SpecFilesPreservedIff: drive names are plain elements; symbolic links inside bound directories are not modelled.
- JailerPaths.FilesArePreserved: a drive with a path but no id is translated but never bound, which UncoveredIsLost covers.
- Boxlet.SandboxService.PauseSandbox: the snapshot row it writes is left out, as no property here depends on snapshot rows.
- Boxlet.SandboxService.Prepare: the single commands count as two outcomes, before and after the namespace is there.
- Boxlet.SandboxService.Cleanup: routes, links and NAT rules are not tracked, only the namespace; the shared NAT rules are removed for all sandboxes at once.
- StartRequest.StartRequestRoundTrip: boxd only decodes start requests, so the encoder is the one a client uses, from the same field numbers.
- BuildProtocol.MutualExclusion: build ids are random and taken as never reused; a handler that crashes while critical leaves its row building for ever, so no progress is claimed.
- HubModel.DeliveryHistory: receiving is one atomic step; a receive during a publish falls before or after its own channel's offer, which is an order of steps the runs include.
- Running implies a slot is claimed only for create, start and resume: reboot assigns none.
- Uniqueness between a build's borrowed slot and later assignments: the store does not look at host routes, so the choice is fresh only when made.
- Concurrent lifecycle requests on one sandbox: handlers do not check the state they start from; runs are sequential there, and arbitrary at the level of store calls and build statuses.
- Hashed namespace and interface names are taken as free of collisions.
- Dotted-quad and CIDR text: prefixes start as an aligned base and a length; an IPv4-mapped IPv6 prefix counts as IPv6, which MaxSlots rejects first.
- The other protobuf messages (update, input, signal, selector, process info, event wrapper): they use the same walker and field printers and would only add easy members.
- Empty and unframed protobuf bodies in readConnectRequest: UnframedIsKept says what the codec is given, but no round trip is claimed for them.
- Sandbox directories, and the network spec handed to the shim beyond its namespace and slot: not part of the world the handlers change.
- mountPointsUnder and unmountUnderExcept: parsing of mountinfo and calls to umount, without a property beyond their text.
- SQL, JSON, timestamps, gRPC, HTTP, websockets, process signals, the Firecracker client and containerd: replaced by maps, sequences and calls that may fail.
- Template and image rows: no property here depends on them.

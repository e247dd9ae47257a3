# Verification of the Apple TV Remote to Samsung bridge

A Dafny model of the parts of the bridge whose correctness spans many functions, processes or runs,
with proofs. `dafny verify dfyconfig.toml` checks everything.

| files | what they model |
|---|---|
| `StateDirectory`, `AtomicIo`, `PairingState` | the pairing state on disk: fences, clients, window and identity records, recovery, and the commands over them |
| `AuthorizationCache` | the paired-client store as a running daemon consults it, against concurrent writers |
| `Opack`, `OpackForms`, `OpackLaws`, `OpackReferences`, `OpackAlignment`, `OpackCodec` | the OPACK codec: its bytes, and its two object tables |
| `DispatchLane`, `DispatchAnswers`, `CommandDispatch` | the bounded dispatch lane: its steps and runs, what a caller who waits learns, and the class that takes the steps |
| `Remote`, `Relay`, `Repeater`, `BridgeService` | touches, holds, auto-repeat, and one connection's glue over the shared lane |
| `Auth`, `Connection` | pair-setup and pair-verify, the AEAD session, the frames of one connection |
| `RateLimit`, `SourceLimit`, `Guardrails`, `SetupSessions` | the sliding-window limits on pair-setup starts and failures, and the SRP sessions they stand before |
| `Framing`, `Tlv8` | the incremental frame parser and the TLV8 codec |

How the outside world enters:

- **Crashes.** A directory entry has a visible version and a set of older ones a crash may bring back; a
  successful sync empties that set for every entry. Any entry may come back in any such version
  independently of the others, which is weaker than losing a suffix of the operations, so every proof
  covers that too. Which operation is refused, fails to sync, is killed or ends in a crash is given for all
  operations beforehand, so a call is stopped exactly if one of its own met a fault. Processes exclude
  each other by the state lock, so a run is a sequence of commands.
- **Concurrent writers of the client store.** A world assigns to every instant what each directory holds;
  each system call of a check happens at an instant of its own. The assumption is only that stamps tell
  versions apart. Which directory is refused when is given for all instants.
- **asyncio.** A method is one stretch between awaits; what happens at an await is the caller's choice of
  the next method. Answers of the authorization check, the television, the clock and the limiters are
  parameters.
- **Cryptography.** Secrets, keys, signatures and sealed messages are terms: a message opens exactly under
  the key, nonce and associated data it was sealed with.
- **Random draws** are parameters. `PairingRuns.Draws` asks of them what the drawing loops ensure, and
  that a window's generation is not one an earlier setup has used.

Where the code does less than its description:

- The cache's claim that its mapping, markers and directory describe one consistent state can fail in two
  ways, and `Authorizes` states for each exactly when it does. A reload looks at the legacy marker before
  the others: a True answer from it was right when the markers were stamped if and only if no legacy
  marker was there then. Every writer here lifts markers only after the client store
  (`FenceOutlivesClients`, proved of all runs), which is enough; `FlickeringMarkersFoolAPass` shows a pass
  accepted with no right instant at all.
- A failed reload keeps the old mapping beside a newly taken chain. A True answer from it was right when
  the call began if and only if no marker stood where that chain was taken; `FailedReloadCanGrantLate`
  shows one that was right at no instant of its call.
- OPACK references: the packer and the unpacker remember different things. `RoundTripsIff` says for every
  supported value when it comes back, and three small values show how one does not. Mappings are compared
  with their order, which is stricter than Python's `==`.
- A source can get more starts admitted than its limit exactly when the overall limit exceeds the limit per
  source plus the number of source slots (`SourceLimitKeptIff`); the shipped constants are far below that.
- The wait advised by the failure limiter is for the earlier of two windows; `AdvisedWaitIsEnoughIff` says
  when it is enough.

## Model

| member | source | states |
|---|---|---|
| `PairingRuns.AnyRun` | src/atvr4samsung/companion/protocol/identity_reset.py:108-163 | Over every run of startup, pair, revoke, unpair, reset, M1, M5 and power loss, whatever fault each file operation meets: once a fence write returned, only clients enrolled after it are authorized; a published reset only ever serves an identity drawn after it; identities served with no reset fence ever visible in between are equal; an enrolment ran under the window its M1 read; the store holds at most eight clients; a marker leaves only after the client store |
| `PairingRuns.Enroll` | src/atvr4samsung/app.py:519-551 | Unless something stops it, enrolment works: on a settled directory `pair`, a setup M1 and a setup M5 of a valid new client each succeed, and that client is authorized from then on beside everyone who was |
| `StateDirectory.NoteKeeps` | src/atvr4samsung/companion/protocol/server_identity.py:246-280 | Every event a run can record keeps all those history claims, given what the directory keeps at each instant |
| `StateDirectory.ChangeKeepsDisk` | src/atvr4samsung/companion/protocol/atomic_io.py:401-435 | One allowed rename or unlink, once visible and with every older version of the entry still able to surface after a crash, keeps what fences, resets, served identities and opened windows promise about whatever survives, and the history claims |
| `StateDirectory.ChangeKeepsServed` | src/atvr4samsung/companion/protocol/server_identity.py:160-196 | A served identity stays the only one that can surface until a reset fence becomes visible |
| `StateDirectory.LossKeepsDisk` | src/atvr4samsung/companion/protocol/atomic_io.py:294-311 | A sync or a crash, which can only narrow what may surface, keeps those promises |
| `StateDirectory.ChangeKeepsClients` | src/atvr4samsung/companion/protocol/identity_reset.py:149-163 | Lifting a fence is safe exactly because no version of the client store can come back |
| `StateDirectory.ChangeKeepsIdentity` | src/atvr4samsung/companion/protocol/identity_reset.py:125-146 | A pending reset survives every change until only a newly drawn identity can surface; a clear never downgrades it |
| `AtomicIo.StateDir.Change` | src/atvr4samsung/companion/protocol/atomic_io.py:401-435 | Replace or unlink, then sync: what is left is given for every fault an operation can meet; success leaves one committed version, a failed sync or a crash any version that was still possible; it is stopped exactly by a fault |
| `AtomicIo.StateDir.DurableUnlink` | src/atvr4samsung/companion/protocol/atomic_io.py:294-311 | An absent entry is synced too, committing a removal whose first sync failed |
| `AtomicIo.StateDir.Reboot` | src/atvr4samsung/companion/protocol/atomic_io.py:303-309 | After a crash each entry is any version not yet superseded by a successful sync |
| `IdentityReset.BeginIdentityReset` | src/atvr4samsung/companion/protocol/identity_reset.py:108-122 | On return a reset fence is durable, whatever marker was there before |
| `IdentityReset.BeginClearAll` | src/atvr4samsung/companion/protocol/identity_reset.py:125-146 | On return a fence is durable; an existing reset is not downgraded and is then not owned by the clear |
| `IdentityReset.ClearClearAll` | src/atvr4samsung/companion/protocol/identity_reset.py:149-156 | The clear's own markers go, a reset fence stays |
| `ServerIdentity.LoadOrCreate` | src/atvr4samsung/companion/protocol/server_identity.py:160-196 | Startup's outcome on every directory: a pending reset ends in the fresh identity alone, a pending clear in the same identity and no clients or window, otherwise nothing else changes; what it returns is committed. It is stopped exactly by a fault of a file operation, and finds the identity corrupt exactly when one is there that is none and no reset is about to replace it: a startup without a fault always serves a sound identity |
| `ServerIdentity.LoadSettled` | src/atvr4samsung/companion/protocol/server_identity.py:178-196 | With nothing pending: a missing identity is the drawn one, a complete one is itself, one without a binding gains only that, and anything else is corrupt |
| `ServerIdentity.RecoverIdentityReset` | src/atvr4samsung/companion/protocol/server_identity.py:246-269 | Replaying a reset ends with only the new identity on disk, however often it is interrupted before |
| `ServerIdentity.RecoverClearAll` | src/atvr4samsung/companion/protocol/server_identity.py:272-280 | Replaying a clear ends with no marker, client or window, the identity untouched |
| `ServerIdentity.LoadPersisted` | src/atvr4samsung/companion/protocol/server_identity.py:127-147 | `pair` only names an identity that is committed, complete and not being reset; each refusal has its exact cause, and only a fault stops it otherwise |
| `Management.Unpair` | src/atvr4samsung/app.py:621-655 | Unpair leaves exactly the unpaired directory, nobody authorized, no client or window; a reset, asked for or pending, is left for startup, and otherwise nothing is pending and the identity stays; only a fault stops it |
| `Management.Pair` | src/atvr4samsung/app.py:519-551 | A returned window is the committed one, bound to the persisted identity and active for it; each refusal has its exact cause, and only a fault stops it otherwise |
| `Management.Revoke` | src/atvr4samsung/companion/protocol/paired_clients.py:168-179 | Revocation removes that identifier and nobody else, adds nobody, and is refused exactly over a bad store or an unreadable marker |
| `PairedStore.AddLocked` | src/atvr4samsung/companion/protocol/paired_clients.py:215-235 | Adding re-keys a known identifier for free, refuses a ninth, refuses under a fence, and commits before returning |
| `PairedStore.RemoveLocked` | src/atvr4samsung/companion/protocol/paired_clients.py:237-251 | Removal commits the store without that identifier, or syncs an earlier removal; it is refused exactly over a bad store or an unreadable marker |
| `PairingWindow.OpenLocked` | src/atvr4samsung/pairing_window.py:113-159 | A window is returned only once committed; refused exactly under a fence, for a bad duration or a bad binding; otherwise only a fault stops it |
| `PairingWindow.StartSetup` | src/atvr4samsung/pairing_window.py:172-199 | M1 gets a window exactly if one is on record, unexpired, naming this server under a valid binding, with no fence |
| `PairingWindow.MutateIfCurrent` | src/atvr4samsung/pairing_window.py:201-220 | M5 persists the client exactly when the window it names is the active unexpired one bound to this server and no fence exists; otherwise nothing changes |
| `AuthorizationCache.PairedClients.Authorizes` | src/atvr4samsung/companion/protocol/paired_clients.py:142-156 | Where nothing the call looks at moves or is refused, the answer is whether the client is authorized, from the first load on. Against any concurrent writers. Unchanged stamps: the path led to the retained directory when the call began, a True answer was right then if and only if no marker stood where the chain was last taken, and after a reload that did not fail either answer was right then. After a reload: a False answer was right when the record was read, a True one was right when the markers were stamped if and only if no legacy marker was there. A directory substituted throughout the call denies, and denies ever after |
| `AuthorizationCache.PairedClients.Refresh` | src/atvr4samsung/companion/protocol/paired_clients.py:259-283 | As long as neither the chain nor the three entries have changed nothing is opened or read; and a refresh over a directory that stands still, can be read and is not refused does not fail |
| `AuthorizationCache.StillKept` | src/atvr4samsung/companion/protocol/paired_clients.py:272-283 | Over a directory that stands still, present stamps equal to the cached ones make the cached decision the present one, however old the pass |
| `AuthorizationCache.CachedDecisionIsCurrent` | src/atvr4samsung/companion/protocol/paired_clients.py:259-283 | With the cache loaded on the chain now retained, unchanged stamps mean the cached mapping and markers are those of the instant the call began |
| `AuthorizationCache.KeptMappingIsCurrentIff` | src/atvr4samsung/companion/protocol/paired_clients.py:259-283 | A mapping kept from any earlier accepted pass, as after a failed reload, was right when the call began if and only if no marker stood where the chain was taken |
| `AuthorizationCache.CurrentChainResolves` | src/atvr4samsung/companion/protocol/atomic_io.py:165-188 | Seeing every retained stamp again means the configured names led to the retained directories at the start of the check |
| `AuthorizationCache.AcceptedPassHasInstant` | src/atvr4samsung/companion/protocol/paired_clients.py:325-356 | An accepted pass that grants was right when it stamped the markers if and only if no legacy marker was there then, which holds if legacy markers leave only after the client store |
| `AuthorizationCache.WritersLiftLast` | src/atvr4samsung/companion/protocol/identity_reset.py:149-156 | The order every writer keeps for both markers gives that |
| `AuthorizationCache.RefusedPassHasInstant` | src/atvr4samsung/companion/protocol/paired_clients.py:325-356 | A pass that refuses was right when it read the record, for any writer |
| `AuthorizationCache.PairedClients.ReloadFromDirectory` | src/atvr4samsung/companion/protocol/paired_clients.py:325-356 | At most two passes; it succeeds exactly if the first is accepted, or the first could be read and the second is accepted, so it fails only over something that cannot be read or when both passes saw something move; then the cached mapping and stamps are left alone |
| `AuthorizationCache.PairedClients.Revalidate` | src/atvr4samsung/companion/protocol/paired_clients.py:305-323 | The rewalk succeeds only on the same directory objects in every position, and does on a path that stands still and leads there; anything else empties the cache and is final |
| `AuthorizationCache.PairedClients.ChainIsCurrent` | src/atvr4samsung/companion/protocol/atomic_io.py:165-188 | True only after every descriptor and every name was seen with its retained stamp, and whenever none of them changes |
| `AuthorizationCache.PairedClients.OpenChain` | src/atvr4samsung/companion/protocol/atomic_io.py:554-626 | The chain is a top-down walk in which each name was read after its parent was stamped; a path that stands still and is not refused is opened |
| `AuthorizationCache.FlickeringMarkersFoolAPass` | src/atvr4samsung/companion/protocol/paired_clients.py:325-356 | With markers that come and go, a pass is accepted although at no instant anyone was authorized |
| `AuthorizationCache.FailedReloadCanGrantLate` | src/atvr4samsung/companion/protocol/paired_clients.py:259-283 | After a reload that failed over an unreadable fence, a later check of the kept mapping can grant at no instant of its call, even if markers leave only after the client store |
| `OpackReferences.BackReferenceRoundTrip` | src/atvr4samsung/companion/protocol/opack.py:100-131 | Right-nested values with a table of at most 65536 entries unpack to an equal value and the rest of the input, references included |
| `OpackReferences.NestedStep` | src/atvr4samsung/companion/protocol/opack.py:192-239 | The simulation behind it: from agreeing tables, packing then unpacking a right-nested value returns it, whatever follows |
| `OpackReferences.LeafStep` | src/atvr4samsung/companion/protocol/opack.py:115-131 | One scalar, as a reference or anew, keeps the packer's encodings and the unpacker's values in step |
| `OpackReferences.ReferenceReadsIff` | src/atvr4samsung/companion/protocol/opack.py:115-127 | A written reference reads back as its entry if and only if its index is below 65536 |
| `OpackReferences.MessagesRoundTrip` | src/atvr4samsung/companion/protocol/appletv.py:603-623 | Every response and event with flat content reads back as sent |
| `OpackAlignment.RoundTripsIff` | src/atvr4samsung/companion/protocol/opack.py:37-239 | Every supported value whose references fit two bytes round-trips if and only if it is aligned: each repeated scalar is where the packer's index points in the unpacker's table, and no container is repeated |
| `OpackAlignment.Step` | src/atvr4samsung/companion/protocol/opack.py:138-239 | Behind it, from any two tables: reading consumes just what was written or fails, and gives the value back exactly if aligned |
| `OpackAlignment.PartsStep` | src/atvr4samsung/companion/protocol/opack.py:192-223 | The same for the parts of a container, counted or terminated |
| `OpackAlignment.AssembledEqualIff` | src/atvr4samsung/companion/protocol/opack.py:207-223 | A mapping comes back exactly if all of its keys and values do: no misread key can be merged away unnoticed |
| `OpackAlignment.SmallTableFits` | src/atvr4samsung/companion/protocol/opack.py:115-127 | A table of at most 65536 entries keeps every reference within two bytes |
| `OpackAlignment.DistinctIsAligned` | src/atvr4samsung/companion/protocol/opack.py:115-131 | Values without a repeated long encoding are aligned |
| `OpackAlignment.RepeatSurvivesIff` | src/atvr4samsung/companion/protocol/opack.py:128-129 | `[x, s, s]` round-trips if and only if packer and unpacker remember equally many things of `x` |
| `OpackAlignment.ContainerDrifts` | src/atvr4samsung/companion/protocol/opack.py:206-206 | A container before the last part breaks a later reference |
| `OpackAlignment.EmptyStringDrifts` | src/atvr4samsung/companion/protocol/opack.py:236-237 | So does an empty string |
| `OpackAlignment.WidthsDrift` | src/atvr4samsung/companion/protocol/opack.py:19-30 | So do equal integers of different encoded widths |
| `OpackLaws.NoReferenceRoundTrip` | src/atvr4samsung/companion/protocol/opack.py:138-239 | Any supported value whose encodings are all different round-trips at any nesting and length |
| `OpackLaws.PlainRoundTrip` | src/atvr4samsung/companion/protocol/opack.py:192-223 | Plain encodings, terminated containers included, unpack to the value, consuming exactly their bytes |
| `OpackLaws.DistinctPacksPlain` | src/atvr4samsung/companion/protocol/opack.py:100-131 | With all encodings different no reference is written |
| `OpackLaws.RepackSame` | src/atvr4samsung/companion/protocol/opack.py:19-30 | Packing what was decoded gives the same bytes, through the remembered integer widths |
| `OpackLaws.NeverTerminator` | src/atvr4samsung/companion/protocol/opack.py:197-216 | No encoding of a supported value starts with the terminator byte |
| `OpackLaws.IntRoundTripsIff` | src/atvr4samsung/companion/protocol/opack.py:47-58 | A plain integer round-trips if and only if it is between 0 and 2^64-1 |
| `OpackLaws.DecodedIsEqual` | src/atvr4samsung/companion/protocol/opack.py:164-171 | The width-tagged integers that decoding produces are equal to the plain ones |
| `Opack.UnpackValue` | src/atvr4samsung/companion/protocol/opack.py:138-239 | Every successful call returns a strictly shorter rest, so unpacking ends on every input |
| `OpackCodec.PackInto` | src/atvr4samsung/companion/protocol/opack.py:37-131 | The packer, appending to its one table in place, computes the specification's bytes and table |
| `OpackCodec.PackBytes` | src/atvr4samsung/companion/protocol/opack.py:33-34 | Packing starts with an empty table |
| `OpackCodec.UnpackFrom` | src/atvr4samsung/companion/protocol/opack.py:138-239 | The unpacker, advancing through the input and appending to its one table in place, computes the specification's value, rest and table, or fails where it does |
| `OpackCodec.UnpackBytes` | src/atvr4samsung/companion/protocol/opack.py:134-135 | Unpacking starts with an empty table |
| `OpackCodec.UnpackList` | src/atvr4samsung/companion/protocol/opack.py:192-206 | The counted and the terminated list loop |
| `OpackCodec.UnpackDict` | src/atvr4samsung/companion/protocol/opack.py:207-223 | The counted and the terminated mapping loop, storing pair by pair |
| `OpackForms.RepeatedKeys` | src/atvr4samsung/companion/protocol/opack.py:207-223 | A mapping read from the wire has each key once, where it came first, with the value that came last |
| `OpackForms.ReadableKeys` | src/atvr4samsung/companion/protocol/opack.py:207-223 | It can be read unless a key is missing its value or is a container |
| `OpackForms.ScalarForms` | src/atvr4samsung/companion/protocol/opack.py:39-58 | Byte for byte, every scalar but strings: a type byte, then the number, least significant byte first |
| `OpackForms.StringForms` | src/atvr4samsung/companion/protocol/opack.py:61-80 | Byte for byte, every string of up to two length bytes |
| `OpackForms.DataForms` | src/atvr4samsung/companion/protocol/opack.py:81-99 | Byte for byte, every byte string of up to two length bytes |
| `OpackForms.ReferenceForms` | src/atvr4samsung/companion/protocol/opack.py:115-127 | Byte for byte, every reference below 65536 |
| `OpackForms.ContainerForms` | src/atvr4samsung/companion/protocol/opack.py:100-112 | Containers of any length: the count in the type byte, the parts in order, and from fifteen on a terminator |
| `OpackForms.LittleEndian` | src/atvr4samsung/companion/protocol/opack.py:50-58 | Byte i of a written number is its i-th digit to the base 256 |
| `OpackForms.ReadForms` | src/atvr4samsung/companion/protocol/opack.py:164-171 | Numbers of every width that is a power of two are read, and remember it |
| `OpackForms.ReadReferences` | src/atvr4samsung/companion/protocol/opack.py:226-232 | A long reference is read from as many bytes as its type byte says |
| `OpackForms.CutStrings` | src/atvr4samsung/companion/protocol/opack.py:172-191 | A string cut off by the end is taken as it is, unless what is left is not UTF-8 |
| `OpackForms.Unread` | src/atvr4samsung/companion/protocol/opack.py:224-234 | A reference to nothing and type bytes that mean nothing are errors |
| `OpackForms.ValidIff` | src/atvr4samsung/companion/protocol/opack.py:172-182 | Text is accepted exactly if it encodes some sequence of Unicode scalar values (RFC 3629, section 3) |
| `DispatchLane.NothingBeginsLate` | src/atvr4samsung/companion/dispatch.py:251-346 | In any run nothing begins that was cancelled, or whose owner was ended, after it was accepted |
| `DispatchAnswers.CompletionTellsAnswer` | src/atvr4samsung/companion/dispatch.py:367-408 | In any run a completion is done exactly if its item, having begun and not been thrown away since, was answered with success, failed exactly if it was answered with a failure, pending exactly while the item is in hand, and otherwise cancelled |
| `DispatchAnswers.PutDownIsTruthful` | src/atvr4samsung/companion/dispatch.py:468-483 | Putting the running item down settles its completion by the answer, unless something cancelled it before |
| `DispatchAnswers.ApplyIsTruthful` | src/atvr4samsung/companion/dispatch.py:168-419 | No step of the lane lets a completion tell anything else |
| `DispatchLane.RunKeeps` | src/atvr4samsung/companion/dispatch.py:201-419 | Any run keeps: the queue bound; no queued item asleep; queued and uncancelled running work genuine, uncancelled and of an active owner; begin order is acceptance order; a completion is pending exactly while one item in hand will settle it; settled completions keep their outcome |
| `DispatchLane.DrainedRunHasSameEffect` | src/atvr4samsung/companion/dispatch.py:222-245 | In any run without cancellations, once drained the television saw the same other commands in the same order, each with the same text in force, as without coalescing |
| `DispatchLane.TakenIff` | src/atvr4samsung/companion/dispatch.py:201-245 | A command is taken exactly if its owner is active and authorized now and there is room for it or it replaces the text last queued; what is then queued and logged is given, and an unauthorized owner is ended |
| `DispatchLane.BeginsIff` | src/atvr4samsung/companion/dispatch.py:350-366 | The first in the queue begins exactly if the second check still says yes; otherwise everything of its owner goes, and nothing else |
| `DispatchLane.WorkerSurvives` | src/atvr4samsung/companion/dispatch.py:380-395 | The one worker outlives everything but shutdown and a cancellation meant for itself |
| `DispatchLane.HitIsInterrupted` | src/atvr4samsung/companion/dispatch.py:300-307 | A cancelled command does not keep the worker, unless it is the worker that cancels |
| `DispatchLane.ReplaceIsFaithful` | src/atvr4samsung/companion/dispatch.py:222-232 | Replacing the queued tail text leaves that effect unchanged |
| `DispatchLane.ApplySettlesOnce` | src/atvr4samsung/companion/dispatch.py:468-483 | No step changes a settled completion |
| `DispatchLane.PurgeHands` | src/atvr4samsung/companion/dispatch.py:453-466 | A purge takes exactly what it is aimed at; all else stays in hand |
| `DispatchLane.KeptInOrder` | src/atvr4samsung/companion/dispatch.py:453-466 | What a purge leaves queued stays in order |
| `DispatchLane.PurgeKeeps` | src/atvr4samsung/companion/dispatch.py:251-312 | Cancelling an owner or a generation, running command included, keeps the lane's invariant |
| `DispatchLane.PopKeeps` | src/atvr4samsung/companion/dispatch.py:350-366 | The worker's pop, with either answer of the authorization check, keeps it |
| `DispatchLane.FinishKeeps` | src/atvr4samsung/companion/dispatch.py:367-408 | Success, failure, revocation and cancellation of the running command keep it, the worker's death included |
| `DispatchLane.CloseKeeps` | src/atvr4samsung/companion/dispatch.py:325-346 | Closing keeps it: queue and owners empty, every completion settled |
| `DispatchLane.SleepKeeps` | src/atvr4samsung/companion/dispatch.py:410-412 | The wake flag is lowered only over an empty queue |
| `CommandDispatch.CommandDispatchLane.Submit` | src/atvr4samsung/companion/dispatch.py:168-174 | Submission is the specified enqueue: dead owner, revoked owner, coalescing, full queue, append |
| `CommandDispatch.CommandDispatchLane.SubmitAndWait` | src/atvr4samsung/companion/dispatch.py:176-199 | Tagged work gets its own completion, cancelled at once if it is refused |
| `CommandDispatch.CommandDispatchLane.CancelHold` | src/atvr4samsung/companion/dispatch.py:251-272 | Exactly that owner's work of that generation goes, and the worker is woken if any did; it is interrupted unless it is itself calling |
| `CommandDispatch.CommandDispatchLane.CancelOwner` | src/atvr4samsung/companion/dispatch.py:247-249 | The owner and all its work go |
| `CommandDispatch.CommandDispatchLane.DiscardQueued` | src/atvr4samsung/companion/dispatch.py:453-466 | The purge loop keeps the rest in order, cancels the completions of what goes and reports whether anything did |
| `CommandDispatch.CommandDispatchLane.WorkerTakes` | src/atvr4samsung/companion/dispatch.py:350-366 | Something begins only with its owner active and the second authorization check positive |
| `CommandDispatch.CommandDispatchLane.WorkerFinishes` | src/atvr4samsung/companion/dispatch.py:367-408 | The answer goes on record with the item put down; its completion, if still pending, is done after success, failed after a failure and cancelled otherwise, and no settled one changes |
| `CommandDispatch.CommandDispatchLane.Close` | src/atvr4samsung/companion/dispatch.py:325-346 | Queue and owners are emptied and the worker interrupted, waking what waits |
| `BridgeService.BridgeService.AnyStep` | src/atvr4samsung/companion/server.py:191-317 | Whatever happens next, among touches, timers, sessions, the worker and other connections: a key repeats only while the relay holds that direction, and work of an ended hold is never handed in or begun again |
| `BridgeService.BridgeService.WorkerTakes` | src/atvr4samsung/companion/server.py:293-317 | A delayed repeat begins only for the key the relay holds now, as the live generation of the current session |
| `BridgeService.BridgeService.TouchStop` | src/atvr4samsung/companion/server.py:491-501 | Ending the touch session ends the hold; only its delayed work leaves the queue, the first click stays |
| `BridgeService.BridgeService.Touch` | src/atvr4samsung/companion/server.py:653-675 | A press, release or click leaves nothing repeating; taps and swipes are all handed in, in order; ending a hold removes its delayed work and nothing else |
| `BridgeService.BridgeService.DispatchSink` | src/atvr4samsung/companion/server.py:679-723 | A start queues one untagged click and repeats that key exactly if the click was taken; a stop purges only the delayed work; anything else is handed in as it is |
| `BridgeService.BridgeService.BeginDispatchSession` | src/atvr4samsung/companion/server.py:191-208 | A new session starts with no hold, the old one purged under its old owner first; the new owner is active with a live worker, and no other owner's work has left |
| `BridgeService.BridgeService.EndSession` | src/atvr4samsung/companion/server.py:210-216 | Teardown leaves no hold and no owner in the lane, and no other owner's work has left |
| `BridgeService.BridgeService.SendRepeat` | src/atvr4samsung/companion/server.py:293-317 | A repeat is handed in only for the live hold; stale and revoked ones are not |
| `BridgeService.BridgeService.InvalidateRepeaters` | src/atvr4samsung/companion/server.py:180-189 | All holds stop before anything else can run, their delayed work leaving the queue and nothing else |
| `BridgeService.BridgeService.CancelRepeatGeneration` | src/atvr4samsung/companion/server.py:255-265 | The ended generation's work leaves the lane and its owner is forgotten |
| `BridgeService.ApplySafe` | src/atvr4samsung/companion/dispatch.py:201-419 | No step of the shared lane, by anyone, puts this connection's delayed work outside its live hold |
| `BridgeService.EndSafe` | src/atvr4samsung/companion/server.py:255-265 | Cancelling the live generation takes all of this connection's delayed work out for good |
| `Repeater.HoldRepeater.Start` | src/atvr4samsung/companion/repeater.py:93-109 | A second start of the same key changes nothing; any other ends what was active and takes a generation never used before |
| `Repeater.HoldRepeater.Stop` | src/atvr4samsung/companion/repeater.py:111-116 | Stop ends the held key and reports its generation, and nothing for any other key |
| `Repeater.HoldRepeater.StopEach` | src/atvr4samsung/companion/repeater.py:124-136 | Every active generation ends, exactly once |
| `Repeater.HoldRepeater.Cancel` | src/atvr4samsung/companion/repeater.py:146-153 | `on_stop` fires once for the generation that ends, and every generation issued is live or has ended once |
| `Repeater.HoldRepeater.Finished` | src/atvr4samsung/companion/repeater.py:173-183 | A task that ends by itself clears its own handle only |
| `Repeater.Repeat` | src/atvr4samsung/companion/repeater.py:155-172 | A hold sends while there is time, input is live and sending works, and stops for nothing else; it sends at most ceil((max_hold - initial_delay) / interval) repeats, none when that is negative, and exactly that many when nothing is late |
| `Repeater.AllowanceIs` | src/atvr4samsung/companion/repeater.py:155-172 | That ceiling counts the sends that start before the cap |
| `Relay.CommandRelay.OnTouch` | src/atvr4samsung/companion/relay.py:123-166 | What a touch emits is the change of hold followed by its discrete gestures, unless these belong to a hold of the same press; kept over all touches: starts and stops alternate with matching keys, each start follows one direction sampled over the dwell, a started hold mutes discrete touches until the next press |
| `Relay.CommandRelay.UpdateHold` | src/atvr4samsung/companion/relay.py:173-193 | A hold starts exactly when an unchanged direction has dwelt long enough, and a changed one stops it first |
| `Relay.CommandRelay.Rearm` | src/atvr4samsung/companion/relay.py:177-182 | A changed or lost direction stops the old hold under its old key and starts the dwell over |
| `Relay.CommandRelay.KeepDwelling` | src/atvr4samsung/companion/relay.py:183-193 | An unchanged direction starts repeating once, when it has dwelt long enough |
| `Relay.CommandRelay.LiftTouch` | src/atvr4samsung/companion/relay.py:149-162 | A release ends the hold and drops the swipe or tap it would have been, and a stray tap right after |
| `Relay.CommandRelay.Emit` | src/atvr4samsung/companion/relay.py:210-218 | Only a second SELECT within the window is dropped |
| `Relay.CommandRelay.OnButton` | src/atvr4samsung/companion/relay.py:108-121 | A button acts once, on either representation of its release |
| `Relay.HeardParses` | src/atvr4samsung/companion/relay.py:123-166 | The commands of one touch lead the start/stop grammar from the hold before to the hold after |
| `Relay.DwellJustifiesStart` | src/atvr4samsung/companion/relay.py:180-193 | A dwell of the configured length is what a start needs |
| `Relay.DiscreteGesture` | src/atvr4samsung/companion/relay.py:123-166 | A press and a release, whatever came before, are heard as the tap or swipe they make, unless a SELECT comes too soon after another |
| `Relay.HeldGesture` | src/atvr4samsung/companion/relay.py:123-208 | A swipe held long enough is one start, one stop when it is lifted, and no swipe or tap besides |
| `Remote.KeyOf` | src/atvr4samsung/bridge/keymap.py:117-123 | No direction maps to the SELECT key, so the de-dupe never sees a hold |
| `Remote.KeyNames` | src/atvr4samsung/bridge/keymap.py:117-123 | Each direction is the television's key of that name |
| `Gestures.PointsWhere` | src/atvr4samsung/bridge/gestures.py:112-131 | A displacement points up, down, left or right exactly if it is long enough that way and longer than across by the ratio |
| `Gestures.ResolvesTo` | src/atvr4samsung/bridge/gestures.py:147-168 | Within tapping distance one SELECT; else one key for each full repeat distance travelled, at least one and at most the maximum, the way it points, with inverted axes turned round |
| `Gestures.WholeTouch` | src/atvr4samsung/bridge/gestures.py:80-106 | Of a touch only where it began and where it is now matter |
| `Gestures.ReleaseAgrees` | src/atvr4samsung/bridge/gestures.py:112-161 | A finger lifted where it was last seen completes swipes only the way the hold logic saw it pointing, and at least one then |
| `Gestures.SwipeTranslator.Feed` | src/atvr4samsung/bridge/gestures.py:80-106 | Touch points update the track and resolve on release |
| `Auth.CompanionServerAuth.HandleAuthFrame` | src/atvr4samsung/companion/protocol/auth.py:158-196 | Over every run: a frame is accepted exactly if it continues one of the exchanges by kind and sequence number and the answers to it are good; each phase holds exactly its own material; any other frame fails for good with everything erased; encryption follows its own M1 directly, with that exchange's keys and, when pairing is required, a client proved over both ephemeral keys; encrypted is never left by a frame |
| `Auth.TransitionContinues` | src/atvr4samsung/companion/protocol/auth.py:210-247 | The table of transitions lets in exactly what continues an exchange: setup M1, M3, M5 and then a verify M1, in rounds, after a verify M1 or not, ended by a verify M3 directly after its M1 |
| `Auth.Exchanges` | src/atvr4samsung/companion/protocol/auth.py:210-247 | Enrolment followed by verification, verification alone, and verification given up for enrolment are such exchanges |
| `Auth.CompanionServerAuth.FaultsAre` | src/atvr4samsung/companion/protocol/auth.py:239-247 | What counts as a pairing failure: a setup frame out of place or cut off by an exception, a proof or a client that does not check out under the window setup began in, and nothing else |
| `Auth.CompanionServerAuth.HandleAll` | src/atvr4samsung/companion/protocol/auth.py:210-247 | From a fresh connection each frame is accepted exactly if it and all before it continue an exchange with good answers, so a whole exchange with good answers ends encrypted; one refused frame and no later one is accepted |
| `Auth.CompanionServerAuth.RunHandler` | src/atvr4samsung/companion/protocol/auth.py:371-561 | A completed handler leaves what the next phase holds, and completes exactly under its conditions; enrolment names the window of the session's own M1 |
| `Auth.CompanionServerAuth.VerifyClient` | src/atvr4samsung/companion/protocol/auth.py:312-347 | Accepts exactly a proof sealed under this exchange's secret and signed by the stored key over both ephemeral keys and the identifier |
| `Auth.CompanionServerAuth.HandleM1Verify` | src/atvr4samsung/companion/protocol/auth.py:249-310 | Keys come from this M1's client key and a fresh server key |
| `Auth.CompanionServerAuth.HandleM3Verify` | src/atvr4samsung/companion/protocol/auth.py:371-388 | Encryption gets the exchange's own keys, then they are erased |
| `Auth.CompanionServerAuth.HandleM1Setup` | src/atvr4samsung/companion/protocol/auth.py:390-441 | A session needs admission, no reset, no backoff and an open window; an unfinished handshake is never met here |
| `Auth.CompanionServerAuth.HandleM3Setup` | src/atvr4samsung/companion/protocol/auth.py:443-483 | The proof flag is set only for the same unexpired window and a verified proof |
| `Auth.CompanionServerAuth.HandleM5Setup` | src/atvr4samsung/companion/protocol/auth.py:485-561 | Setup completes, and erases its session, only if the client was stored under that window |
| `Auth.CompanionServerAuth.Reset` | src/atvr4samsung/companion/protocol/auth.py:151-156 | A connection starts and ends with no pairing material |
| `Aead.NoncesDiffer` | src/atvr4samsung/companion/protocol/chacha20.py:20-39 | Different counters give different nonces, for either nonce length |
| `Aead.Chacha20Cipher.Encrypt` | src/atvr4samsung/companion/protocol/chacha20.py:41-49 | An implicit encryption uses the counter's nonce and advances it; there is none once the counter no longer fits |
| `Aead.Chacha20Cipher.Decrypt` | src/atvr4samsung/companion/protocol/chacha20.py:51-59 | Opens exactly a message of that key, nonce and header, advancing the counter either way |
| `Aead.Chacha20Cipher.NoNonceTwice` | src/atvr4samsung/companion/protocol/chacha20.py:20-59 | No two implicitly sealed messages of one direction share a nonce |
| `Connection.CompanionConnection.HandleFrame` | src/atvr4samsung/companion/protocol/appletv.py:467-545 | Reading goes on exactly while malformed frames are fewer than three, auth frames continue their exchange before encryption, and all else is an empty keepalive or sealed for this session and its client still authorized; auth frames after encryption end the connection untouched; empty keepalives leave the counters alone; any other frame is opened with the next nonce or ends the connection; nothing else is delivered |
| `Connection.CompanionConnection.ReceiveFromPeer` | src/atvr4samsung/companion/protocol/appletv.py:492-506 | For any interleaving of a peer's numbered messages, of any ordinary frame type, with empty keepalives, the receive counter is the number of messages and they arrive as sent; if they can be handled the connection stays open |
| `Connection.CompanionConnection.SendToClient` | src/atvr4samsung/companion/protocol/appletv.py:437-454 | A message is written exactly if the connection is open, it is not oversized and a nonce is left; its header declares its type and its size on the wire; the i-th is sealed with nonce i over its header; an oversized one uses none |
| `Connection.CompanionConnection.EnableEncryption` | src/atvr4samsung/companion/protocol/appletv.py:426-432 | The cipher is installed once per connection, with the keys of the finished exchange and both counters at zero |
| `Connection.CompanionConnection.TeardownConnection` | src/atvr4samsung/companion/protocol/appletv.py:405-419 | No cipher or pairing material outlives the connection |
| `SourceLimit.SourceLimitKeptIff` | src/atvr4samsung/companion/protocol/guardrails.py:124-153 | Over every sequence of starts, no source gets more of them admitted in any half-open window than its limit if and only if the overall limit is at most the limit per source plus the number of source slots |
| `SourceLimit.SoundAdmits` | src/atvr4samsung/companion/protocol/guardrails.py:124-153 | Within that bound one start is admitted exactly if the whole history leaves room for it, overall and for its source; in every case the overall window is never overfull |
| `SourceLimit.AdmitRemembers` | src/atvr4samsung/companion/protocol/guardrails.py:143-147 | Each live start of a source that the table lost was followed by at least as many starts of others as there are slots, because the source pushed out is the one unused longest |
| `SourceLimit.RoomForSource` | src/atvr4samsung/companion/protocol/guardrails.py:131-142 | Within the bound, a source the table would let in is below its limit by the whole history |
| `SourceLimit.EvictionForgets` | src/atvr4samsung/companion/protocol/guardrails.py:143-147 | For every larger overall limit, a flood by one source, interrupted once by each of as many others as there are slots, is admitted whole and exceeds the source's limit |
| `SourceLimit.RunIsSound` | src/atvr4samsung/companion/protocol/guardrails.py:124-166 | Any run of starts keeps all of this |
| `Guardrails.SlidingWindows.Take` | src/atvr4samsung/companion/protocol/guardrails.py:124-153 | Any half-open window holds at most the overall limit, and within the bound at most each source's; within the bound the decision is exactly that of counting the whole history |
| `Guardrails.SlidingWindows.Prune` | src/atvr4samsung/companion/protocol/guardrails.py:158-166 | Pruning in place is the specified pruning |
| `Guardrails.SlidingWindows.Record` | src/atvr4samsung/companion/protocol/guardrails.py:131-153 | Recording in place: limit by source, limit overall, eviction of the least recently used source, or a new entry at the end of both |
| `Guardrails.PairSetupAttemptLimiter.AdmitStart` | src/atvr4samsung/companion/protocol/guardrails.py:124-153 | One start is consumed exactly if it is admitted |
| `Guardrails.PairFailureLimiter.Check` | src/atvr4samsung/companion/protocol/guardrails.py:193-206 | Within the bound a setup may start exactly while neither window is full, counting every recorded failure; otherwise the advised wait is for the earlier expiry; any numbers are taken, and a limit that is met by no failure at all asks for an oldest time that is not there, which is an error |
| `Guardrails.AdviceDecides` | src/atvr4samsung/companion/protocol/guardrails.py:193-228 | With positive limits nothing is missing when it is asked for, and no wait is advised exactly when a start would be recorded |
| `Guardrails.PairFailureLimiter.RecordFailure` | src/atvr4samsung/companion/protocol/guardrails.py:208-228 | A failure is recorded exactly while no limit is full; any numbers are taken, and only evicting from an empty table is an error |
| `SetupSessions.SetupService.HandleFrame` | src/atvr4samsung/companion/protocol/auth.py:390-431 | The setup handler of any connection, answered by the shared limiter: the limiter is asked exactly for a setup M1 in its place, and every SRP session the handler makes is one of the admitted starts |
| `SetupSessions.SetupService.HandleAll` | src/atvr4samsung/companion/protocol/appletv.py:588-591 | Over any number of connections and frames, the SRP sessions made on all of them together obey the overall limit, and within the bound each source's |
| `RateLimit.PruneTimes` | src/atvr4samsung/companion/protocol/guardrails.py:158-166 | Pruning forgets exactly what left the window |
| `RateLimit.SourcesFit` | src/atvr4samsung/companion/protocol/guardrails.py:143-147 | There are never more tracked sources than starts in the window |
| `RateLimit.AdmitKeeps` | src/atvr4samsung/companion/protocol/guardrails.py:124-153 | With at least as many source slots as starts in all, no source is ever evicted |
| `RateLimit.WithinGrows` | src/atvr4samsung/companion/protocol/guardrails.py:124-153 | Admitting below the limit overfills no window, past or future |
| `RateLimit.AdvisedWaitFrees` | src/atvr4samsung/companion/protocol/guardrails.py:155-156 | The advised wait frees a slot of that source, and no whole second less does |
| `RateLimit.AdviceIsLeast` | src/atvr4samsung/companion/protocol/guardrails.py:193-206 | The wait a failed setup is advised is the least number of whole seconds, at least one, until a full limit frees a place |
| `RateLimit.DecisionIsLeast` | src/atvr4samsung/companion/protocol/guardrails.py:124-156 | A start that is turned away is told which limit it met, its own before the overall one, and the least whole seconds until that frees a place |
| `RateLimit.AdvisedWaitIsEnoughIff` | src/atvr4samsung/companion/protocol/guardrails.py:198-206 | After the advised wait the source may start if and only if every limit that was full has its oldest entry out of the window by then |
| `RateLimit.AdviceCanBeEarly` | src/atvr4samsung/companion/protocol/guardrails.py:198-206 | With both limits full that can fail |
| `Framing.CutAnywhere` | src/atvr4samsung/companion/protocol/framing.py:53-89 | Where the stream is cut does not matter, to the frames, the retained bytes or the point of an oversize error |
| `Framing.FramesReadBack` | src/atvr4samsung/companion/protocol/framing.py:53-89 | Well-formed frames, empty payloads included, read back exactly |
| `Framing.RestIsIncomplete` | src/atvr4samsung/companion/protocol/framing.py:43-46 | What is retained is a proper beginning of one bounded frame |
| `Framing.FrameParser.Feed` | src/atvr4samsung/companion/protocol/framing.py:53-82 | The incremental loop computes the parse of everything received |
| `Framing.FrameParser.Receive` | src/atvr4samsung/companion/protocol/framing.py:53-82 | Whatever pieces the network makes of frames written as type byte, big-endian three-byte length and payload, of any length up to the maximum, the receiver gets exactly those, and of the last one retains what has arrived |
| `Framing.WrittenIsRead` | src/atvr4samsung/companion/protocol/appletv.py:437-454 | The parse of what a sender writes is what it meant |
| `Framing.OversizedIsRefused` | src/atvr4samsung/companion/protocol/framing.py:68-73 | A frame that declares too much is refused by its header alone, after everything before it |
| `Framing.FrameParser.FeedEach` | src/atvr4samsung/companion/protocol/framing.py:53-82 | Any chunking gives the frames and the error of one call on the whole |
| `Framing.FrameParser.Take` | src/atvr4samsung/companion/protocol/framing.py:84-89 | Bytes are moved up to the target size and no further |
| `Tlv8.RoundTrip` | src/atvr4samsung/companion/protocol/tlv8.py:67-106 | Reading what was written gives the dictionary without its empty values |
| `Tlv8.FragmentsRead` | src/atvr4samsung/companion/protocol/tlv8.py:67-86 | Fragments of a value of any length read as one |
| `Tlv8.WriteTlv` | src/atvr4samsung/companion/protocol/tlv8.py:89-106 | The writing loops produce the specified bytes |
| `Tlv8.FragmentAt` | src/atvr4samsung/companion/protocol/tlv8.py:97-105 | The k-th fragment stands at byte 257 k: its tag, its size, and its 255 bytes of the value, fewer only in the last |
| `Tlv8.FragmentsLength` | src/atvr4samsung/companion/protocol/tlv8.py:97-105 | There are no more bytes than that |
| `Tlv8.WrittenInOrder` | src/atvr4samsung/companion/protocol/tlv8.py:89-106 | Entries are written one after the other |
| `Tlv8.CutOff` | src/atvr4samsung/companion/protocol/tlv8.py:70-84 | An entry cut off is taken as far as it goes, unless not even its length has come |
| `Tlv8.ParseInto` | src/atvr4samsung/companion/protocol/tlv8.py:70-84 | The recursion fills its one dictionary with the specified result, or fails on a missing length byte |
| `Tlv8.ReadTlv` | src/atvr4samsung/companion/protocol/tlv8.py:67-86 | Reading starts from an empty dictionary |

## Left out

- Samsung WebSocket client, TLS pinning, Wake-on-LAN, mDNS, configuration, command-line output, logging and the media, HID-button and text-input decoding: thin I/O or tables, no state worth a proof.
- Ownership, mode, ACL and extended-attribute checks: when a directory component is refused is given, and a record is readable or not.
- Cryptographic primitives, SRP arithmetic and key derivation: symbolic; freshness of ephemeral keys and of session owners is not derived from randomness but given by parameters.
- The in-memory client store (no path) and the missing state directory: management commands create the directory with their lock, so it always exists here.
- Pin strength and the wording of records: a window's pin is a string, a record parses to its fields or is malformed or unreadable.
- OPACK floating-point values: Python's equality identifies 40 with 40.0, which the table relation would have to inherit.
- OPACK text is modelled as its UTF-8 bytes, a mapping as its keys and values in order; Python's recursion limit is not modelled, in OPACK or in TLV8.
- `_set_result` on futures, the state waiter, `join` and `cancel_and_wait`: a completion is its outcome, and waiting is not a step.
- The repeater's cleanup when the event loop is already closing (the RuntimeError branch of `_run`), and the draining of cancelled tasks: they touch no generation that is still live.
- Callbacks: `on_stop` and `on_unauthorized` run as the last part of the call that makes them, so they are modelled directly after it.
- ConnectionAdmission: two sets used as counters.
- OpackAlignment.RoundTripsIff: references to an entry beyond 65535 are excluded, because they are written with more bytes than are read and what follows is then read out of step (`ReferenceReadsIff`).
- Replies: what M2, M4 and M6 and the error responses contain.
- Source keys: trimming and truncating a peer address to its limiter key is not modelled; the limiter is given the key.
- TLV8: tags outside 0..255 and values that are not bytes, which raise before anything is written.
- Repeater.Repeat: the loop runs in one piece, its awaits given by the turns; the class above it models start, stop and finish as separate steps.

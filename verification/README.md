# JamScript in Dafny

A model of the stateful core of JamScript, with its safety properties proved for every input, every
run or every reachable state.

- **Transaction coordinator and scheduler** (`Scheduler`, `SchedulerLaws`, `Coordinator*`). Per-service
  queues, the multi-pass nonce scheduler, one in-flight lane per service, and the ways a batch leaves it:
  finished, failed, outcome unknown, materialized. The coordinator is a class; its methods are proved
  against functions on its whole state, and the laws are about runs of those functions.
- **Backend state, database and recovery log** (`Store`, `Provider`, `Backend*`, `RecoveryLog`,
  `RefineOutput`). Heads by service, the prefix-keyed rows and journal written in one batch, loading after
  a restart, replay, and the wire format of the outputs that are logged.
- **On-chain accumulate** (`Accumulate`). The generated guest's compare-and-swap over work results.
- **The whole system** (`System*`). Coordinator, backend and chain composed, every critical section a step
  of its own, restarts included: exactly when the backend's head simulates the chain's commitment.
- **Runtime** (`Runtime`). Wallet and owner nonces and the write overlay, and how they meet the scheduler.
- **Signed envelopes** (`*Envelope*`, `Ownership`). The wire layout; the protocol crate's and the guest's
  decoders and verification, each written from its own source; what a signature covers.
- **ABI codec and size bound** (`Natural`, `Codec`, `CodecMachine`, `SizeBound`).

What the model assumes:

- A state root is any function from states to roots; theorems that need it say `CollisionFree`; a
  state that collides with the empty one could not be opened (`InsertedOpens`). The recovery payload
  decoder and the payload hash are arbitrary functions. Owner keys use an arbitrary hash.
- A transaction id is kept as the triple that is hashed. Wherever a mutex guards a method, the method is
  one atomic step. The clock is an argument, one reading per call.
- The system's chain moves only by packages the backend submitted, each at most once; package hashes do
  not repeat, and a package reported failed never accumulates and is never reported imported. What a
  service's commitment was before the backend knew the service is arbitrary. A counter at its limit ends
  the composed system's enqueueing and dispatching; the coordinator alone is modelled with saturation.
- In the runs of dispatched batches, no key is both a wallet's public key and an owner's hash.
- The store's iterator yields the row keys from the given key on in bytewise order, and a write batch is
  taken whole or not at all.
- `usize` is 64 bits wide and release arithmetic wraps where the source does not check it.

Where a property fails at the edge of the code, a lemma shows the case and another gives the exact
condition:

- saturated counters: `EnqueueKeepsIff`, `RepeatedActionGetsNewId`, `DispatchKeepsIff`,
  `SaturatedBatchReplaced`, `SaturatedNonceSelectedTwice`;
- a dependency on the service itself: `SplitMattersIff`, `SelfDependencyMatters`;
- envelope length and signer scheme: `V1DecodersAgreeIff`, `V2DecodersAgreeIff`, `FullPayloadRefused`,
  `UnknownSchemeRefused`;
- an increment that wraps: `ComputedBoundSoundIff`, `ResultBoundWrapsSomewhere`, `AcceptedInputFitsIff`,
  `AcceptedInputOverflows`;
- a batch with an action that does not verify, or with two lanes under one key: `NoRefusalIff`,
  `UnverifiedBlocks`, `SharedKeyRefused`;
- a restart while a package is in the network: `RestartKeepsIff`, `RestartRun`;
- the registration of a service the chain already holds state for: `RegisterKeepsIff`,
  `HeldCommitmentRun`;
- a submission around the coordinator: `SubmitWorkKeepsIff`, `UncoordinatedRun`.

Comments of the source call the on-disk head the single read root; the finalized context's state root is
not stored and comes back as zeros (`HeadReadsBack`).

## Model

| member | source | states |
|---|---|---|
| SystemRuns.RunKeepsIff | crates/jamscript-service-backend/src/lib.rs:2295-2583 | Over every interleaving of requests, dispatches, accepted, rejected and lost submissions, chain progress, failure reports, status checks by anyone about any package, settling, best-chain snapshots, registrations, restarts and submissions around the coordinator: the simulation holds in every state of the run if and only if every registration, restart and uncoordinated submission in it meets its condition. The simulation: without a lane a service's head is the chain's commitment and no package can move it; with a lane only a package of its batch can, and head and chain are both at its parent root, or at its two roots, or, once materialized, both at its new root even before the coordinator hears of it. |
| SystemRuns.StepKeepsIff | crates/jamscript-service-backend/src/lib.rs:3801-4045 | From a state where it holds, a step keeps the simulation if and only if it is not an unsafe registration, restart or uncoordinated submission. |
| SystemRuns.HeadTrailsByOne | crates/jamscript-service-backend/src/lib.rs:5206-5222 | In every state of such a run a service with a free lane has its head at the chain root; where they differ, the chain is exactly one transition ahead, by the accumulated package of the batch in the lane, which is not yet materialized, whose parent is the head and whose new root is the chain root. |
| SystemSteps.NeverStale | crates/jamscript-service-backend/src/lib.rs:2545-2568 | For a package of the batch in a lane, the canonical root is always the prediction's parent or new root, so `PredictionStale` is never returned for it, and when the commit is due the head is at its parent. |
| SystemRuns.StaleIsHarmless | crates/jamscript-service-backend/src/lib.rs:2559-2565 | When `PredictionStale` is returned, the package is not of the batch in the lane; nothing but its pending entry goes, and nothing at all if it had been materialized. |
| SystemSteps.ObserveKeeps | crates/jamscript-service-backend/src/lib.rs:2517-2583 | A status check keeps the simulation whoever makes it, for whichever service and package, whatever it finds: not imported, stale, canonical, database failure. The coordinator is not told. |
| SystemLaws.SettleKeeps | crates/jamscript-service-backend/src/lib.rs:3882-3885 | Marking a batch materialized because its package is found finalized, in a later critical section than the status check, keeps the simulation, for a batch in its lane and for one that left it. |
| SystemLaws.GiveUpKeeps | crates/jamscript-service-backend/src/lib.rs:3873-3881 | Failing a batch whose package was reported failed frees a lane whose head is the chain root. |
| SystemRuns.ReconcileCatchesUp | crates/jamscript-service-backend/src/lib.rs:3821-3885 | Once the chain has taken the lane's package and its payload leads to its new root, one status check whose durable write succeeds and one settling move the head to the chain root and free the lane. |
| SystemSteps.RestartKeepsIff | crates/jamscript-service-backend/src/lib.rs:5032-5057 | A restart keeps the simulation if and only if every head is the chain's commitment and no package can still move the chain. |
| SystemRuns.RestartForgets | crates/jamscript-service-backend/src/lib.rs:5032-5057 | After a restart with a package that can still move the chain, its service's lane is free, its head is as before, the package is not pending and the simulation is broken. |
| SystemRuns.SecondPackageStrands | crates/jamscript-service-backend/src/lib.rs:2375-2389 | With a package outside the lane that can move the chain, a batch accepted at the same root gets `PredictionStale` once the chain takes the first package to another root; head and chain then differ, so nothing can be submitted any more. |
| SystemSteps.RegisterKeepsIff | crates/jamscript-service-backend/src/lib.rs:3304-3330 | Registering an unknown service keeps the simulation, and leaves it able to submit, if and only if the chain has no commitment for it or that of the empty state; registering a known one always does. |
| SystemLaws.SubmitWorkKeepsIff | crates/jamscript-service-backend/src/lib.rs:3660-3694 | A package submitted without going through the coordinator keeps the simulation if and only if its transition changes nothing. |
| SystemFailures.RestartRun | crates/jamscript-service-backend/src/lib.rs:5032-5057 | A run from the initial state, for every valid configuration and any two transitions from the empty state to different roots: register, request, dispatch, accept, restart, request, dispatch, accept, and the chain takes the first package. The simulation holds up to the restart and is broken by it; at the end the second batch's prediction is stale and its service can submit nothing. |
| SystemFailures.UncoordinatedRun | crates/jamscript-service-backend/src/lib.rs:3660-3694 | A run from the initial state: register, submit around the coordinator, and then a batch as above. The simulation is broken by the submission; at the end the batch's prediction is stale and its service can submit nothing. |
| SystemFailures.HeldCommitmentRun | crates/jamscript-service-backend/src/lib.rs:3304-3330 | One registration from the initial state, with any other commitment than the empty state's on the chain: the lane is free, the head is behind and nothing can be submitted. |
| SystemLaws.DispatchKeeps | crates/jamscript-service-backend/src/lib.rs:3923-3934 | Taking a batch when the head is the chain root opens a lane with no package yet and keeps the simulation. |
| SystemLaws.AcceptKeeps | crates/jamscript-service-backend/src/lib.rs:2454-2515 | An accepted submission is tracked before the coordinator hears of it; it puts a package in the lane that starts at the common root. |
| SystemLaws.ConcludeKeeps | crates/jamscript-service-backend/src/lib.rs:3973-4000 | Telling the coordinator the package hash, or that the outcome is unknown, any number of steps after the network decided, keeps the simulation. |
| SystemLaws.LoseKeeps | crates/jamscript-service-backend/src/lib.rs:3985-4045 | A submission with an unknown outcome, whether the network took the package or not, keeps the lane and the simulation. |
| SystemLaws.RejectKeeps | crates/jamscript-service-backend/src/lib.rs:4000-4038 | A submission refused before acceptance has no package, so failing its batch frees a lane whose head is the chain root. |
| SystemSteps.AccumulateKeeps | crates/jamscript-codegen-rust/src/lib.rs:293-318 | When the guest's compare-and-swap accepts a package the chain moves from the head to that package's new root, and no package outside the lane can move it. |
| SystemInvocations.InvocationIsRun | crates/jamscript-codegen-rust/src/lib.rs:272-319 | One invocation over any list of distinct packages of a service is a run of the system's single-package steps: the chain root ends at the end of the chain the entry accepts, exactly the packages accepted at their turn are marked, no other service or package changes. |
| SystemInvocations.EntryMatchesChain | crates/jamscript-codegen-rust/src/lib.rs:311-318 | The commitment stored after the invocation, written or left alone, reads as the system's chain root. |
| BackendRuns.RunKeeps | crates/jamscript-service-backend/src/lib.rs:5011-5290 | Over every run of registrations, predictions, commits, replays, snapshots and restarts from an empty database: memory and database agree on every service's state, root and sequence, every journal is its exact window, no service is ever marked corrupt, and one more restart succeeds, finds nothing corrupt and every service untouched. |
| BackendLaws.RestartRefines | crates/jamscript-service-backend/src/lib.rs:5032-5057 | Reading the database back succeeds and gives the same registry and, for every service, the same corruption verdict, head root, head state and sequence; the invariant holds again and only pending work is forgotten. |
| BackendLaws.CommitKeeps | crates/jamscript-service-backend/src/lib.rs:5235-5290 | A successful commit moves exactly one service's head from the output's parent to its new root, its state by the recovered diff and its sequence by one, in memory and database alike; every other service is untouched. |
| BackendLaws.JournalStep | crates/jamscript-service-backend/src/lib.rs:572-585 | For retention R, after a commit the stored transitions of the service are exactly the last R sequence numbers, each starting at the root the one before ended at, the last ending at the head. |
| BackendLaws.CommitSpares | crates/jamscript-service-backend/src/lib.rs:562-585 | A commit for one service leaves another's state rows, head row and journal entries as they were. |
| BackendLaws.CommitDurable | crates/jamscript-service-backend/src/lib.rs:531-585 | If rows, head and journal of a service describe its state, they describe the state after the diff once the batch is written. |
| BackendRuns.SnapshotKeepsWorld | crates/jamscript-service-backend/src/lib.rs:5155-5200 | Materializing a best-chain prediction moves no service's head, state or sequence. |
| BackendRuns.StepKeeps | crates/jamscript-service-backend/src/lib.rs:5011-5290 | Each single backend step, a restart included, keeps memory and database in agreement. |
| BackendStates.BackendState.CommitRecovery | crates/jamscript-service-backend/src/lib.rs:5235-5290 | The checks in the source's order, then the durable write, then memory; on any error memory and database are exactly as before. |
| BackendStates.BackendState.MaterializeIfCanonical | crates/jamscript-service-backend/src/lib.rs:5206-5222 | Nothing unless the pending prediction's new root is canonical; then a commit after which the work is finalized and no longer pending, or the commit's error with nothing changed. |
| BackendStates.BackendState.ApplyRecovery | crates/jamscript-service-backend/src/lib.rs:5224-5233 | Unknown service and key mismatch are refused; otherwise it is a commit. |
| BackendStates.BackendState.TrackPrediction | crates/jamscript-service-backend/src/lib.rs:5127-5142 | A registered service's prediction becomes pending, predicted and not finalized; nothing else changes. |
| BackendStates.BackendState.MaterializePredictionSnapshot | crates/jamscript-service-backend/src/lib.rs:5155-5200 | The checks of a commit from the prediction's own parent, ending in a snapshot; no error changes anything. |
| BackendStates.FromDatabase | crates/jamscript-service-backend/src/lib.rs:5032-5057 | Builds exactly the restored state: registry rows first, then every registered service's snapshot; a corrupt service is marked, a schema mismatch stops everything. |
| BackendStates.LoadRegistry | crates/jamscript-service-backend/src/lib.rs:420-446 | Registers the rows in order: a row that does not decode or does not register marks its service corrupt, a row of another schema version stops the load. |
| Database.BackendDatabase.CommitTransition | crates/jamscript-service-backend/src/lib.rs:531-585 | Either the whole write batch (state rows in diff order, head, journal entry, one eviction) or nothing. |
| Database.BackendDatabase.LoadServiceSnapshot | crates/jamscript-service-backend/src/lib.rs:459-526 | Head row checks in the source's order, then the state under the service's prefix, refused when its root is not the head's. |
| Database.BackendDatabase.PersistService | crates/jamscript-service-backend/src/lib.rs:448-457 | Only that service's row changes. |
| Database.HeadReadsBack | crates/jamscript-service-backend/src/lib.rs:470-504 | A written head reads back as it was, except that the finalized context's state root comes back as zeros. |
| Database.TransitionKeyInjective | crates/jamscript-service-backend/src/lib.rs:588-593 | Journal keys of two services or two sequences never coincide. |
| StateRows.ScanPrefix | crates/jamscript-service-backend/src/lib.rs:507-519 | The forward scan that stops at the first foreign key reads exactly the rows of the service, for every content of the store. |
| StateRows.RowsFollowDiff | crates/jamscript-service-backend/src/lib.rs:562-571 | Writing a transition's rows is applying its diff to the service's state. |
| StateRows.RowsSpareOthers | crates/jamscript-service-backend/src/lib.rs:562-571 | Writing one service's rows leaves every other service's state alone. |
| KeyOrder.PrefixInterval | crates/jamscript-service-backend/src/lib.rs:510-519 | In bytewise order the keys with a prefix are contiguous from the prefix on. |
| Provider.InsertKeeps | crates/service-runtime-host/src/lib.rs:580-597 | The provider stays content-addressed with at most eight finalized roots, all of which can be opened; the inserted state is the head and the history is shifted exactly when full. |
| Provider.InsertedOpens | crates/service-runtime-host/src/lib.rs:574-597 | Opening the new head gives the inserted state exactly when it does not collide with the empty state's root. |
| Provider.SnapshotKeeps | crates/service-runtime-host/src/lib.rs:602-623 | A snapshot and the evictions it causes never move the head nor change a finalized state. |
| Provider.FullStateProvider.Insert | crates/service-runtime-host/src/lib.rs:580-597 | The slot after insertion and eviction; other services' slots are unchanged. |
| Provider.FullStateProvider.InsertSnapshot | crates/service-runtime-host/src/lib.rs:602-623 | The slot after a snapshot and guarded eviction; other services' slots are unchanged. |
| Registries.RegisterKeeps | crates/jamscript-service-backend/src/lib.rs:678-697 | Registration keeps ids and keys in bijection, never rebinds either, fails exactly on a conflicting binding, and never with `ServiceIdKeyMismatch`. |
| Registries.ServiceRegistry.Register | crates/jamscript-service-backend/src/lib.rs:678-697 | The registry after registration, or the error with the registry unchanged. |
| RecoveryLog.ReplayRebuilds | crates/jamscript-service-backend/src/lib.rs:5313-5341 | Replaying the log of any list of replayable envelopes is applying them in order up to the first error, a failed database write included. |
| RecoveryLog.TornTailKeepsPrefix | crates/jamscript-service-backend/src/lib.rs:5313-5341 | A log cut anywhere inside its last entry is reported as truncated, after applying exactly the complete entries before it. |
| RecoveryLog.ReplayWritten | crates/jamscript-service-backend/src/lib.rs:5313-5341 | Bytes behind a written log are replayed from the state the log leads to. |
| RecoveryLog.LogGrows | crates/jamscript-service-backend/src/lib.rs:5292-5311 | Appending an envelope gives the log of one more envelope if its encoding's length fits 32 bits, and `EntryTooLarge` otherwise. |
| RecoveryLog.AppendedReadsBackIff | crates/jamscript-service-backend/src/lib.rs:1374-1406 | An appended envelope decodes to itself if and only if its output has its dependencies strictly by service and a payload that decodes and has the committed hash, as every decoded output has. |
| RecoveryLog.EntriesFit | crates/jamscript-service-backend/src/lib.rs:1374-1384 | Every envelope that encodes is below the replay limit, which appending does not check: the output encoder's limits bound it by 1089951 bytes. |
| RecoveryLog.PredictionsReplay | crates/jamscript-service-backend/src/lib.rs:5313-5341 | The log of any list of envelopes whose outputs were decoded from refinement results is written, and replaying it is applying them in order. |
| RecoveryLog.EnvelopeInverse | crates/jamscript-service-backend/src/lib.rs:1386-1406 | A byte string decodes to an envelope exactly when it is that envelope's frame, within the limit, around bytes that decode to its output. |
| RecoveryLog.ReplayRecoveryLog | crates/jamscript-service-backend/src/lib.rs:5313-5341 | The offset loop computes the replay: state reached and first error, for every pattern of database writes that fail. |
| RecoveryLog.Decode | crates/jamscript-service-backend/src/lib.rs:1386-1406 | The cursor reads, with their error for every malformed input. |
| RefineOutputs.ReadsBackIff | crates/service-runtime-core/src/lib.rs:1109-1264 | What encodes decodes to itself if and only if its dependencies are strictly by service, its payload decodes and has the committed hash, and roots and hashes are 32 bytes. |
| RefineOutputs.DecodedIsReady | crates/service-runtime-core/src/lib.rs:1203-1264 | Whatever decodes meets these conditions and every limit, so it encodes and decodes again to itself, though the decoder also accepts repeated dependencies. |
| RefineOutputs.EncodedSize | crates/service-runtime-core/src/lib.rs:1109-1125 | The encoder's limits keep every encoding within 1089910 bytes. |
| RefineOutputs.HeaderAgrees | crates/service-runtime-core/src/lib.rs:1154-1201 | The on-chain entry's header decoder, which skips receipts its own way, reads the head of the very output the full decoder returns; the full decoder accepts exactly what the header decoder does within its length limit and with a good payload. |
| RefineOutputs.CanonicalExact | crates/service-runtime-core/src/lib.rs:1267-1284 | Canonicalization fails exactly when two dependencies name one service at two roots; otherwise it lists the same dependencies, each once, by service. |
| RefineOutputs.CanonicalIsSetlike | crates/service-runtime-core/src/lib.rs:1267-1284 | The result does not depend on order or repetition, and a canonical list is left alone. |
| RefineOutputs.CanonicalizeDependencies | crates/service-runtime-core/src/lib.rs:1267-1284 | The drain loop computes it, the error included. |
| RefineOutputs.Encode | crates/service-runtime-core/src/lib.rs:1109-1152 | Field by field with its two loops: the encoding, or the error of the limit or conflict met first. |
| RefineOutputs.Decode | crates/service-runtime-core/src/lib.rs:1203-1264 | One cursor with its two loops: the decoder's result with its error; what is returned is ready. |
| Scheduler.SelectCanonicalIndices | crates/jamscript-service-backend/src/lib.rs:1684-1735 | The nested loops terminate and return the selected and stale indices of the pass-by-pass selection. |
| Scheduler.AdmissionOrderSorted | crates/jamscript-service-backend/src/lib.rs:1692-1693 | The visiting order lists every index once, by arrival and then position. |
| SchedulerLaws.SelectionSound | crates/jamscript-service-backend/src/lib.rs:1684-1735 | For every queue and cap: every index is selected, stale or remaining, exactly once; the selection is nonce-valid in order; stale items are behind their sender's final counter. |
| SchedulerLaws.SelectionMaximal | crates/jamscript-service-backend/src/lib.rs:1684-1735 | Uncapped: below the expected nonce stale, inside the sender's longest contiguous run selected or stale with a selected copy of the nonce, above its end remaining, every unsigned item selected. |
| SchedulerLaws.MaximalBelowCap | crates/jamscript-service-backend/src/lib.rs:1722-1729 | The same for every cap that is not reached. |
| SchedulerLaws.SelectsWholeRun | crates/jamscript-service-backend/src/lib.rs:1684-1735 | For every sender and nonce below the saturated one, uncapped or below the cap: the nonce is selected if and only if it lies in the sender's longest contiguous run from the expected nonce. |
| SchedulerLaws.FinalCounterIsRunEnd | crates/jamscript-service-backend/src/lib.rs:1684-1735 | A sender's counter after selection is the end of its longest contiguous run in the queue. |
| SchedulerLaws.SelectedOncePerNonce | crates/jamscript-service-backend/src/lib.rs:1703-1718 | Two selected items never share sender and nonce, short of the saturated nonce. |
| SchedulerLaws.SaturatedNonceSelectedTwice | crates/jamscript-service-backend/src/lib.rs:1712-1715 | At the saturated nonce two items with one nonce are both selected. |
| SchedulerLaws.CappedIsPrefix | crates/jamscript-service-backend/src/lib.rs:1722-1729 | A cap cuts the uncapped selection to its first entries and the stale list to a prefix, and changes nothing when not reached. |
| SchedulerLaws.StorageOrderIrrelevant | crates/jamscript-service-backend/src/lib.rs:1689-1735 | Queues holding the same items with distinct arrivals give the same selected and stale items in the same order. |
| CoordinatorRuns.RunKeeps | crates/jamscript-service-backend/src/lib.rs:1655-2251 | In every reachable state below counter saturation: queue limits and order, deadlines exactly for queues, every transaction in one place, one unresolved batch per lane, flushing within in-flight, unheld batches materialized or reported. |
| CoordinatorRuns.AcceptedIsConserved | crates/jamscript-service-backend/src/lib.rs:1793-1878 | A request accepted anywhere in a run is at its end either waiting, or refused with an error, or at one position of one batch, and never more than one; refusal and placement are final. |
| CoordinatorRuns.OneFate | crates/jamscript-service-backend/src/lib.rs:2013-2127 | The three places exclude each other and one always applies. |
| CoordinatorRuns.RunFollows | crates/jamscript-service-backend/src/lib.rs:2181-2229 | Along a run nothing is forgotten: transactions, placements, errors, batches, their members and materialization stay. |
| CoordinatorRuns.LaneHeld | crates/jamscript-service-backend/src/lib.rs:2002-2004 | From a batch's dispatch until it is failed or materialized, whatever else happens and an unknown outcome included, the lane stays with it and its service dispatches nothing. |
| CoordinatorRuns.DispatchIsSound | crates/jamscript-service-backend/src/lib.rs:2042-2133 | A dispatch finds the lane free, opens it for a new batch, and submits the actions of distinct queued, unexpired transactions, at most the configured number, nonce-valid in order. |
| CoordinatorRuns.DispatchKeepsIff | crates/jamscript-service-backend/src/lib.rs:2091-2133 | A dispatch keeps the invariant if and only if the batch counter is not saturated. |
| CoordinatorRuns.SaturatedBatchReplaced | crates/jamscript-service-backend/src/lib.rs:2091-2133 | At the saturated counter two services' batches get one id, and the second replaces the first one's record while its lane stays held. |
| CoordinatorRuns.StepKeeps | crates/jamscript-service-backend/src/lib.rs:1760-2251 | Every step keeps the invariant while the counters it advances are below their limit. |
| CoordinatorLaws.EnqueueKeepsIff | crates/jamscript-service-backend/src/lib.rs:1816-1833 | An accepted request keeps the invariant if and only if neither the arrival counter nor the service's sequence is saturated. |
| CoordinatorLaws.RepeatedActionGetsNewId | crates/jamscript-service-backend/src/lib.rs:1816-1823 | The same action accepted twice gets two ids if and only if the service's sequence can still advance. |
| CoordinatorLaws.TakeKeeps | crates/jamscript-service-backend/src/lib.rs:2013-2127 | Splitting a queue and dispatching keeps the invariant: expired, stale, selected and left-over items end in the right place. |
| CoordinatorLaws.SplitIds | crates/jamscript-service-backend/src/lib.rs:2025-2073 | Every queued transaction is in exactly one of expired, stale, selected and left over, and nothing else is. |
| CoordinatorLaws.FailKeeps | crates/jamscript-service-backend/src/lib.rs:2181-2209 | Failing a batch reports each of its transactions, frees only its own lane and moves nothing. |
| CoordinatorLaws.UnknownKeeps | crates/jamscript-service-backend/src/lib.rs:2211-2229 | Marking an outcome unknown keeps lane, membership and queues. |
| CoordinatorLaws.MaterializeKeeps | crates/jamscript-service-backend/src/lib.rs:2231-2251 | Materializing a batch frees only its own lane and keeps the invariant. |
| CoordinatorLaws.FinishKeeps | crates/jamscript-service-backend/src/lib.rs:2151-2175 | Finishing a batch gives it and exactly its transactions the package hash and keeps the lane. |
| Coordination.TransactionCoordinator.Enqueue | crates/jamscript-service-backend/src/lib.rs:1793-1878 | Accepted exactly when both limits leave room; then the new id, queue, counters and deadline; otherwise nothing changes and the retry delay is at least 100 ms. |
| Coordination.TransactionCoordinator.IsBatchReady | crates/jamscript-service-backend/src/lib.rs:1884-1898 | Ready exactly when the lane is free and the queue is full enough or its deadline has passed. |
| Coordination.TransactionCoordinator.TakeReadyBatch | crates/jamscript-service-backend/src/lib.rs:1992-2134 | The whole new state and the batch to submit, for every branch: not ready, unknown sender, nothing selected, dispatched. |
| Coordination.TransactionCoordinator.FinishBatch | crates/jamscript-service-backend/src/lib.rs:2151-2175 | The whole new state, an unknown batch id included. |
| Coordination.TransactionCoordinator.FailBatch | crates/jamscript-service-backend/src/lib.rs:2181-2209 | The whole new state; nothing for an unknown or materialized batch. |
| Coordination.TransactionCoordinator.MarkSubmissionUnknown | crates/jamscript-service-backend/src/lib.rs:2211-2229 | The whole new state: the batch's transactions marked, the lane kept. |
| Coordination.TransactionCoordinator.MarkMaterialized | crates/jamscript-service-backend/src/lib.rs:2231-2251 | The whole new state; nothing for an unknown or already materialized batch. |
| Coordination.TransactionCoordinator.MarkBestIncluded | crates/jamscript-service-backend/src/lib.rs:2143-2149 | Only that transaction's flag. |
| DispatchedBatches.DispatchedBatchRuns | crates/jamscript-runtime/src/lib.rs:289-301 | A batch the coordinator dispatches from the authoritative nonces, wallet and owner actions mixed, verified and applied in order, has no receipt refusing a nonce, whatever its commits do. |
| RuntimeLaws.ScheduledRunsThrough | crates/jamscript-runtime/src/lib.rs:197-240 | Any nonce run, wallets and owners mixed, applied from agreeing counters consumes every nonce but the unusable last one, and ends at the scheduler's counters. |
| Runtime.OverlayRefinesDirect | crates/jamscript-runtime/src/lib.rs:304-333 | For every commit, reading through the write overlay and merging it once is the same as running on a copy: same reads, same result, same state. |
| RuntimeLaws.StateIsAppliedInOrder | crates/jamscript-runtime/src/lib.rs:289-301 | The state after a batch is the applied actions' commits run in order; failed and rejected ones leave no trace. |
| RuntimeLaws.EntryCases | crates/jamscript-runtime/src/lib.rs:197-287 | One wallet or owner action: a nonce that is not the counter is refused with no change, the last nonce is exhausted, any other is consumed and only its own counter moves; the state is the commit's exactly when it succeeds. |
| RuntimeLaws.NonceCounts | crates/jamscript-runtime/src/lib.rs:197-287 | A wallet's or an owner's counter moves by exactly the number of applied and failed receipts of that wallet or owner. |
| RuntimeLaws.ConsumedOnce | crates/jamscript-runtime/src/lib.rs:197-287 | In a mixed batch no nonce of a wallet or of an owner is consumed twice, and consumption is in nonce order. |
| RuntimeLaws.NoRefusalIff | crates/jamscript-runtime/src/lib.rs:197-301 | No action of a mixed batch is refused for its nonce, with code 10 or 17, if and only if each one's nonce is its lane's counter plus the number of actions of the lane before it, saturated; what the commits do does not matter. |
| RuntimeLaws.SharedKeyRefused | crates/jamscript-runtime/src/lib.rs:242-287 | Were one key both a wallet's and an owner's, the scheduler's one counter would order an owner's action behind a wallet's and the runtime would refuse it with code 17. |
| RuntimeLaws.UnverifiedBlocks | crates/jamscript-runtime/src/lib.rs:289-301 | Of two scheduled actions of a wallet whose first does not verify, the second is refused for its nonce. |
| Runtime.InMemoryRuntime.ApplyAction | crates/jamscript-runtime/src/lib.rs:197-240 | Refused with code 10 or 12 and no change, or the nonce consumed and the commit's state kept only on success. |
| Runtime.InMemoryRuntime.ApplyOwnershipAction | crates/jamscript-runtime/src/lib.rs:242-287 | The same on owner counters with codes 15, 17 and 12. |
| Runtime.InMemoryRuntime.ApplyBatch | crates/jamscript-runtime/src/lib.rs:289-301 | State and receipts of applying the entries in order; an unverified entry only yields its receipt. |
| Runtime.InMemoryRuntime.MergeWrites | crates/jamscript-runtime/src/lib.rs:226-235 | Merging the overlay key by key, in any order, gives the merged state. |
| Runtime.StateTransaction.Perform | crates/jamscript-runtime/src/lib.rs:304-333 | The overlay and result a commit closure leaves. |
| Runtime.StateTransaction.Put | crates/jamscript-runtime/src/lib.rs:320-323 | The state seen through the transaction changes at that key only. |
| Runtime.StateTransaction.Remove | crates/jamscript-runtime/src/lib.rs:325-328 | The state seen through the transaction loses that key only. |
| Runtime.StateKeyInjective | crates/service-runtime-core/src/lib.rs:516-527 | Two different (namespace, key) pairs never share a state key. |
| Runtime.ApplicationKeysAvoidNonces | crates/service-runtime-core/src/lib.rs:529-539 | No application key is a nonce key. |
| Accumulate.MinijamAccumulate | crates/jamscript-codegen-rust/src/lib.rs:272-319 | The loop writes the commitment to the end of the accepted chain, or nothing; an undecodable invocation input accepts nothing. |
| Accumulate.AcceptedIsChain | crates/jamscript-codegen-rust/src/lib.rs:293-310 | Accepted results are among those offered, each valid at the tick and with its dependencies, and form a chain from the stored root. |
| Accumulate.TurnDecides | crates/jamscript-codegen-rust/src/lib.rs:293-310 | Greedy: a result is in the chain at its turn exactly when it starts at the root reached so far and is valid; otherwise it changes nothing. |
| Accumulate.WrittenIsEndOfChain | crates/jamscript-codegen-rust/src/lib.rs:311-318 | Storage is written exactly when something was accepted; what is written decodes to the end of a chain starting at the root stored before. |
| Accumulate.SplitInvocations | crates/jamscript-codegen-rust/src/lib.rs:293-318 | Splitting the results over two invocations at one tick changes nothing when no later result depends on the service itself. |
| Accumulate.SplitMattersIff | crates/jamscript-codegen-rust/src/lib.rs:303-308 | One later result is judged alike before and after the split if and only if the root did not move, or it does not mention the service, or something else refuses it, or it names neither root throughout. |
| Accumulate.SelfDependencyMatters | crates/jamscript-codegen-rust/src/lib.rs:303-308 | A result depending on the root reached during the invocation is skipped together and accepted apart. |
| Accumulate.DependenciesValid | crates/jamscript-codegen-rust/src/lib.rs:302-308 | True exactly when every dependency's stored commitment is the named root; an absent commitment never is. |
| Accumulate.CommitmentInverse | crates/service-runtime-core/src/lib.rs:247-272 | Thirty-four bytes are a commitment to a root exactly when they are its encoding. |
| ProtocolEnvelopes.DecodesV1 | crates/jamscript-protocol/src/lib.rs:132-167 | The protocol crate's decoder (version, scheme right after the selector, payload limit before the payload, trailing bytes, shape last) returns an action exactly when the bytes are its encoding, it is well shaped and its scheme is known. |
| ProtocolEnvelopes.DecodesV2 | crates/jamscript-protocol/src/lib.rs:339-386 | The protocol crate's version 2 decoder, owners decoded as they are met and the shape validated last, returns an action exactly when the bytes are its encoding and it is well shaped. |
| GuestEnvelopes.DecodesV1 | crates/jamscript-runtime-core/src/lib.rs:381-420 | The guest's decoder (length first, no scheme check, key and signature limits last) returns an action exactly when the bytes are its encoding, within 1 MiB, and it is well shaped. |
| GuestEnvelopes.DecodesV2 | crates/jamscript-runtime-core/src/lib.rs:422-467 | The guest's version 2 decoder, length first and no shape check at the end, returns an action exactly when the bytes are its encoding, within 1 MiB, and it is well shaped. |
| ProtocolEnvelopes.ReadV1 | crates/jamscript-protocol/src/lib.rs:132-167 | One cursor over the bytes, field by field: the decoder's result with its error, and an action exactly for its encoding. |
| ProtocolEnvelopes.ReadV2 | crates/jamscript-protocol/src/lib.rs:339-386 | One cursor over the bytes, field by field: the decoder's result with its error, and an action exactly for its encoding. |
| GuestEnvelopes.ReadV1 | crates/jamscript-runtime-core/src/lib.rs:381-420 | The guest's own cursor, field by field: the decoder's result with its error, and an action exactly for its encoding within the limit. |
| GuestEnvelopes.ReadV2 | crates/jamscript-runtime-core/src/lib.rs:422-467 | The guest's own cursor, field by field: the decoder's result with its error, and an action exactly for its encoding within the limit. |
| ProtocolEnvelopes.WriteV1 | crates/jamscript-protocol/src/lib.rs:98-130 | Appends the fields; succeeds exactly within the three size limits, with the encoding the decoders invert. |
| ProtocolEnvelopes.WriteV2 | crates/jamscript-protocol/src/lib.rs:303-337 | Appends the fields; succeeds exactly for well-shaped actions, with the encoding the decoders invert. |
| EnvelopeLaws.V1DecodersAgreeIff | crates/jamscript-runtime-core/src/lib.rs:381-420 | The protocol's and the guest's version 1 decoders, each with its own reader, give the same answer if and only if the bytes are no envelope, or the envelope is within 1 MiB exactly when its scheme byte is known. |
| EnvelopeLaws.V2DecodersAgreeIff | crates/jamscript-runtime-core/src/lib.rs:422-467 | The protocol's and the guest's version 2 decoders give the same answer if and only if the bytes are no envelope or within 1 MiB. |
| EnvelopeLaws.FullPayloadRefused | crates/jamscript-runtime-core/src/lib.rs:382-384 | Every action whose payload has the permitted maximum size is decoded by the protocol crate and refused by the guest, in both versions. |
| EnvelopeLaws.UnknownSchemeRefused | crates/jamscript-protocol/src/lib.rs:142 | Every well-shaped version 1 envelope of an unknown scheme within 1 MiB is decoded by the guest and refused by the protocol crate. |
| ProtocolEnvelopes.Commit | crates/jamscript-protocol/src/lib.rs:261-289 | The commitment preimage, appended field by field, exists exactly for well-shaped actions; otherwise the shape's error. |
| ProtocolEnvelopes.Verify | crates/jamscript-protocol/src/lib.rs:388-425 | The checks before the signature check in the source's order; they pass, with the commitment preimage, exactly for a well-shaped action that is unexpired and matches network, service, selector, nonce and payload hash, with a proof and no delegate. |
| GuestEnvelopes.AdmitsIff | crates/jamscript-runtime-core/src/lib.rs:476-531 | The guest's own preimage exists if and only if network, service, selector, payload hash and nonce match, there is a proof and no delegate, and the controller is valid; it is then the protocol's commitment preimage. |
| GuestEnvelopes.Verify | crates/jamscript-runtime-core/src/lib.rs:476-531 | The checks before the signature check in the guest's order, then its preimage appended field by field. |
| EnvelopeLaws.AdmissionsAgree | crates/jamscript-runtime-core/src/lib.rs:476-531 | For an envelope the guest decodes, the protocol crate decodes the same action and lets it through to the signature check if and only if the guest does and it is unexpired; both then check the same bytes. |
| EnvelopeLaws.CommitmentBinds | crates/jamscript-protocol/src/lib.rs:261-289 | Equal commitment preimages force equal network, service, selector, controller, delegate, nonce, expiry and payload hash. |
| EnvelopeLaws.DigestBinds | crates/jamscript-protocol/src/lib.rs:79-92 | Equal version 1 digest preimages force equal version, network, service, selector, scheme, nonce, expiry and payload hash. |
| EnvelopeLaws.VersionsApart | crates/jamscript-runtime-core/src/lib.rs:506-531 | No version 1 preimage is a version 2 preimage. |
| EnvelopeLaws.IdentityIsWhole | crates/jamscript-service-backend/src/lib.rs:1766-1792 | No action decodes as both versions, and an enqueued action has a sender exactly when it has a nonce. |
| Ownerships.OwnershipInverse | crates/ownership-core/src/lib.rs:104-136 | The ownership decoder accepts exactly the encoder's image and inverts it. |
| Ownerships.OwnershipSelfDelimiting | crates/ownership-core/src/lib.rs:104-136 | No owner's encoding is a proper prefix of another's, so concatenations split uniquely. |
| Ownerships.OwnershipLayout | crates/ownership-core/src/lib.rs:91-116 | An owner encodes exactly when it validates, in 24 to 37 bytes that carry their own length. |
| Codec.RoundTrip | crates/jamscript-codec/src/lib.rs:90-200 | For every type and encodable value, decoding the encoding followed by any bytes gives the value and consumes exactly the encoding. |
| Codec.EncodingPrefixFree | crates/jamscript-codec/src/lib.rs:90-200 | Two encodings of one type that continue to the same bytes are of the same value and end at the same place. |
| Codec.DecodedReencodes | crates/jamscript-codec/src/lib.rs:268-388 | Whatever decodes re-encodes, in no more bytes than were consumed. |
| Codec.DecodeNormalises | crates/jamscript-codec/src/lib.rs:268-388 | Decoding then encoding then decoding gives the same value, from no more bytes. |
| CodecMachine.EncodeInto | crates/jamscript-codec/src/lib.rs:90-200 | Appends exactly the encoding to the buffer, or returns its error. |
| CodecMachine.DecodeFrom | crates/jamscript-codec/src/lib.rs:268-388 | Returns the decoded value and moves the reader past exactly the bytes used, or returns the error. |
| CodecMachine.DecodeExact | crates/jamscript-codec/src/lib.rs:57-64 | Accepts every encoding as the value it came from, nothing with bytes left over, and whatever it accepts re-encodes to something no longer. |
| CodecMachine.Reader.ReadNatural | crates/jamscript-codec/src/lib.rs:249-265 | The natural at the cursor, consumed, or the error. |
| CodecMachine.Reader.TakeBytes | crates/jamscript-codec/src/lib.rs:234-245 | The next bytes, consumed, or an error with the cursor kept. |
| Scalars.UnsignedInverse | crates/jamscript-codec/src/lib.rs:202-213 | At every width reading and writing unsigned integers are inverse, and exactly the in-range values are written. |
| Scalars.SignedInverse | crates/jamscript-codec/src/lib.rs:215-227 | Truncating a two's complement 128-bit value and sign-extending it back are inverse at every width. |
| Natural.NaturalRoundTrip | crates/jamscript-codec/src/lib.rs:75-88 | Reading an encoded natural followed by any bytes gives it back and consumes exactly its encoding. |
| Natural.NaturalShortest | crates/jamscript-codec/src/lib.rs:249-265 | Any accepted form of a value is at least as long as the encoder's. |
| Natural.NaturalLengthMonotone | crates/jamscript-codec/src/lib.rs:75-88 | A larger natural never has a shorter encoding. |
| Natural.NonMinimalNaturalAccepted | crates/jamscript-codec/src/lib.rs:249-265 | A longer form of zero is accepted, so re-encoding does not reproduce the input. |
| Natural.PayloadReaderNatural | crates/jamscript-codegen-rust/src/lib.rs:727 | The generated payload reader returns the codec reader's value and length on every input. |
| Natural.ReadFnEncode | crates/jamscript-codegen-rust/src/lib.rs:354-365 | The accumulate reader agrees with the codec reader except that it refuses a first byte of 0xff. |
| Natural.DecodeAccumulateInit | crates/jamscript-codegen-rust/src/lib.rs:367-374 | Recovers every triple of naturals below 2^56 from its encoding, and accepts nothing with bytes left over. |
| SizeBound.CompactLenIsNaturalLength | crates/jamscript-ir/src/lib.rs:227-242 | The bound's prefix length is the length of the natural the codec writes. |
| SizeBound.EncodingWithinLongest | crates/jamscript-ir/src/lib.rs:220-275 | Every encoding fits the bound computed over unbounded integers. |
| SizeBound.ComputedBoundExact | crates/jamscript-ir/src/lib.rs:220-275 | Where a bound is computed it never exceeds the one over unbounded integers, and equals it exactly when that one fits a machine word. |
| SizeBound.ComputedBoundSound | crates/jamscript-ir/src/lib.rs:220-275 | Where the unbounded bound fits a machine word, the computed bound covers every encoding. |
| SizeBound.BoundAttainedIff | crates/jamscript-ir/src/lib.rs:220-275 | Some value reaches the bound exactly for the types without owners or unsupported parts on every longest path and with the longest variant selectable. |
| SizeBound.ComputedBoundSoundIff | crates/jamscript-ir/src/lib.rs:220-275 | For a type whose bound is attained, the computed bound covers every encoding if and only if the unbounded bound fits a machine word. |
| SizeBound.ResultBoundWraps | crates/jamscript-ir/src/lib.rs:272 | A result type with a word-sized side gets the bound zero, which every value exceeds. |
| SizeBound.ResultBoundWrapsSomewhere | crates/jamscript-ir/src/lib.rs:272 | Such a type exists and has a value. |
| SizeBound.AcceptedInputFits | crates/jamscript-parser/src/lib.rs:690-714 | A parsed and accepted input schema whose unbounded size fits a machine word never produces a payload above the limit. |
| SizeBound.AcceptedInputFitsIff | crates/jamscript-parser/src/lib.rs:690-714 | Where every field attains its bound, all payloads of an accepted schema keep the limit if and only if the unbounded size does. |
| SizeBound.AcceptedInputOverflows | crates/jamscript-parser/src/lib.rs:690-714 | The parser accepts a one-field schema, every bound in it between 1 and 1000000, that has a payload above the limit: a result type around 2^64 - 1 bytes of nested arrays. |

## Left out

- HTTP and JSON-RPC plumbing, JSON shaping, logging, environment parsing: out of scope; requests and settings arrive as values.
- PolkaVM calls, planners, witnesses, artifact loading: predictions are arbitrary outputs satisfying the checks the backend makes.
- Signature schemes and hash functions: library calls, taken as arbitrary functions or hypotheses; verification is modelled up to the signature check.
- The trie behind a state root, including how it treats empty values: a state is a finite map.
- The JSON text of head and service rows: a row is its fields, or undecodable.
- Failure of persisting a service record after it was registered in memory.
- Changing the journal retention between two runs of the backend: it is fixed for a run.
- Restarts without a database: the composed system restarts from the database; without one, recovery is the replay of the log, modelled on its own.
- Liveness: a lane whose outcome is unknown, or whose transition expired, can stay held forever.
- Control claims of the runtime and management envelopes: out of scope.
- The closure state a commit callback may keep between two actions of a batch: a commit depends on its action and on what it reads.
- Diagnostics, status history and error info of a batch: they influence no decision.
- The inside of a recovery payload: whether it decodes, to which changes, and its hash are arbitrary functions.
- RuntimeLaws.ScheduledRunsThrough: stated for actions that verify, because an action that does not verify consumes no nonce and its sender's later ones in the batch are then refused.
- SystemLaws.DispatchKeeps: at the saturated batch counter the composed system does not dispatch; DispatchKeepsIff says what the coordinator does there.

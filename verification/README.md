# CAPT runtime: a verified model

This Dafny project models the state-carrying core of the CAPT runtime and proves what its protocols keep over
every history, interleaving and crash. `dafny verify dfyconfig.toml` checks all of it.

| file | models |
|---|---|
| `EventStore.dfy`, `StoreCommits.dfy`, `Replay.dfy`, `ReplayTrails.dfy`, `Checkpoint.dfy`, `CheckpointFields.dfy`, `CheckpointStreams.dfy` | the append-only ledger with its hash chain, the replay fold, checkpoints |
| `DriverRun.dfy`, `DriverRunTables.dfy`, `Reconciliation.dfy`, `ReconciliationAnswers.dfy`, `DriverRunLedger.dfy`, `RunStreams.dfy` | driver runs: lifecycle, dispatch boundary, reconciliation, and their events in the ledger |
| `Delegation.dfy`, `DelegationRecords.dfy`, `DelegationForest.dfy`, `DelegationDepth.dfy`, `DelegationLimits.dfy`, `ParentMaps.dfy` | delegate assignments: expiry, the ancestor walk, depth limits |
| `Permits.dfy`, `MediaJobs.dfy`, `MediaProgress.dfy` | claim-before-effect, and the media submit, poll, fetch and prompt compilation calls built on it |
| `Adoption.dfy`, `AdoptionProgress.dfy` | adoption of a verified artifact with retries after crashes |
| `Base64.dfy`, `StateKey.dfy`, `KeyProgress.dfy` | the state key: key file, keychain item, process cache |
| `VesselTiming.dfy`, `CohortDispatch.dfy`, `CohortCauses.dfy` | concurrent dispatch of council cohorts over a slot semaphore |
| `LoopDetector.dfy`, `TreeHash.dfy`, `TreeShapes.dfy`, `ContextMerkle.dfy` | action-loop detection, structural tree hashing, component Merkle identity |
| `Session.dfy`, `SessionTable.dfy`, `Framing.dfy` | session table and its journal, length-prefixed frames over a stream |
| `Council.dfy`, `CouncilClaims.dfy`, `CouncilMeanings.dfy`, `Text.dfy`, `Prelude.dfy` | council validation, expansion and claim analysis; order of strings; outcome types |

## How things are modelled

- An object whose methods update its fields is a class whose methods are proved equal to a function of the old state
  (`Store`, `ReplayState`, `GovernedService`, `SessionLifecycle`, `CohortDispatchRecord`, `KeyHost`, `Workspace`,
  `Socket`, `TreeHasher`); the properties are lemmas about those functions. Loops of the source are loops here.
- What an operation accepts, answers and leaves behind is stated a second time without those functions, on the records
  and requests themselves, so that a wrong branch in function and method alike contradicts some lemma.
- A protocol of several callers is a state machine: one function application per atomic step, and an event sequence
  chooses who moves, what the outside world answers and who dies. Its theorems quantify over all event sequences.
- Digests are function parameters. Where a result needs them collision-free, that is a hypothesis of the lemma, for
  the ledger chain only about the texts the two ledgers really hash. JSON is a pair of inverse functions.
- Timestamps are natural numbers. A clock that never goes back is a hypothesis where it is needed, and stated as one.
- Sorted duplicate-free tuples and lists are sets or maps, except the sorted cohort list, whose order matters.

## Findings

Where a promise does not hold as stated, or the code and its documentation differ, the model follows the code.

- The hash chain covers payload digests and event ids, not stream ids. A manifest is accepted over a ledger in which
  the streams of two created runs are exchanged (`ExchangedStreamsAccepted`); apart from stream ids the accepted prefix
  is exactly the one the manifest was taken from (`AcceptanceBindsPrefix`).
- The event-based reconciliation can refuse a run's own legal ledger, because the marker may skip `request_started`
  (`OwnLedgerMayBeRefused`). It never does, at any point of a history, exactly when each accepted completed response
  finds more requests than completed responses before it (`NeverRefusedExactly`); recording responses only while their
  request is out is enough (`InTurnIsNeverRefused`).
- `reconcile` departs from several of its documented criteria. Invalid lease or budget does not forbid the retry of a lost
  run (`InvalidAuthorityForbidsExactly`); conflicting observations and a missing mission or task are reported but never
  ask a human (`HumanIsAskedExactly`); a lost run is not called externally unknown unless its marker is outside the
  vocabulary (`LostIsUnknownExactly`). `StaleAuthorityIsRetried` and `BadRecordsAreCompleted` are inputs.
- A second creation of the same driver run is accepted by the service and starts its dispatch marker afresh: a ledger
  that records the request as started can rebuild a run that is safe to retry (`SecondCreationForgets`). It does so
  exactly when every record of a crossed boundary is followed by another creation (`RebuiltRunIsSafeExactly`).
- Stored delegation depths can become stale, by ending an assignment above a live one and re-parenting its delegate
  (`ReparentingMakesDepthStale`). They are always true exactly when no assignment ends or expires while a live one
  hangs under it (`AlwaysTrueExactly`); before an ending that is a check of one parent (`EndingKeepsDepthsExactly`).
- An issue time that goes back can see two live assignments of one delegate (`GoingBackIsAmbiguous`), exactly at times
  before both their expiries (`AmbiguousReadExactly`), or a cycle (`GoingBackIsCyclic`), exactly when the climb over the
  assignments live at that time never ends and is nowhere ambiguous (`CyclicReadExactly`).
- The governor of a cohort dispatcher counts over its whole life, so the last closing check of a dispatch fails
  exactly when earlier dispatches took more slots than the present one invalidates cohorts (`EndOfDispatch`).
- Two adoption attempts in one process share their temporary file, and any two such attempts can leave any bytes at a
  destination that is not yet the authorized one (`SharedTempTearsDestination`). The destination never holds anything
  but its old or the authorized bytes exactly when it held the authorized ones from the start or no two attempts share
  a process (`NeverTornExactly`); attempts of one process one after the other are safe too
  (`DestinationIsOldOrAuthorized`).
- A creator of the key file that dies half-way leaves a file that no later call can use (`HalfWrittenFileStays`); with
  no creator at work a key can still be had exactly when the whole encoding was written (`UsableExactlyWhenWhole`).
- The live session table comes to differ from its journal by a failing commit, by the registration of a session with an
  empty id, and by the registration of a named one when a bus subscriber fails after the table's own handler has run;
  by nothing else, and by each of these (`AgreementExactly`). Receipts are restored in commit order
  exactly when finalization times never go back (`TimeOrderIsCommitOrder`); when one does, a restart can take a
  session's checkpoint before its registration and lose it (`ClockStepLosesCheckpoint`).
- A session can be checkpointed only once per offload, and only once without one (`SecondCheckpointRefused`).

## Model

| member | source | states |
|---|---|---|
| EventStore.Store.CommitCommand | capt_runtime/store.py:550-717 | all appends of a command become durable together with contiguous versions and an extended chain, or a version conflict or a reused event id leaves the store as it was |
| EventStore.Store.VerifyChain | capt_runtime/store.py:752-784 | recomputing the chain succeeds exactly when every row carries its payload digest, its chain digest and the next version of its stream |
| EventStore.AppendAllConsistent | capt_runtime/store.py:550-717 | every accepted command keeps the ledger verifying and each stored version equal to the length of its stream |
| EventStore.AppendAllExtends | capt_runtime/store.py:550-717 | a command only adds its own events behind the ledger, in order, with the versions it expected |
| StoreCommits.AcceptedExactly | capt_runtime/store.py:550-717 | a command is accepted exactly when each of its appends expects the length its stream then has and brings an event id used neither in the ledger nor earlier in the command; the ledger and every stream then hold exactly what the appends say, the first kind and the last state included |
| StoreCommits.RefusalIsTrue | capt_runtime/store.py:550-717 | a refusal names an append whose expected version is not the stream's length, or whose event id is used |
| StoreCommits.IdsStayDistinct | capt_runtime/store.py:550-717 | no command ever records an event id twice |
| StoreCommits.LinkText | capt_runtime/store.py:110-113 | each link digests the previous digest, the payload digest and the event id, parted by bars |
| EventStore.ChainBindsContents | capt_runtime/store.py:110-113 | for ledgers of one length: equal chain digests exactly when event ids and payloads agree at every position |
| EventStore.PrefixIdentical | capt_runtime/store.py:110-113 | two contiguous ledgers of one length are identical exactly when chain digests and stream ids agree |
| Replay.ReplayState.ApplyEnvelope | capt_runtime/replay.py:71-89 | an old version is skipped, a gap or a mutation without prior state is refused without effect, the next version is reduced |
| Replay.ReplayState.FoldEvents | capt_runtime/replay.py:324-339 | the loop over envelopes is the fold, and stops at the first refusal |
| Replay.ReplayToSequence | capt_runtime/replay.py:324-339 | verifies the whole chain, checks the target, and rebuilds exactly the state of the prefix |
| Replay.FoldConcat | capt_runtime/replay.py:324-401 | folding in two parts is folding at once, errors included |
| Replay.RedeliveryIsNoOp | capt_runtime/replay.py:75-80 | re-delivering any folded event only raises the skip count |
| Replay.DuplicatesAbsorbed | capt_runtime/replay.py:75-80 | a run of duplicates anywhere leaves the outcome of everything after it unchanged |
| Replay.AppliedIsSumOfVersions | capt_runtime/replay.py:71-296 | the number of applied events is the sum of all stream versions |
| Replay.ReplayIsPerStream | capt_runtime/replay.py:71-296 | replay of a contiguous ledger succeeds exactly when every stream folds alone, skips nothing, and holds each stream's own fold and length |
| ReplayTrails.ReplayFollowsTrails | capt_runtime/replay.py:71-296 | a contiguous ledger replays exactly when the payloads of every stream lead from state to state, beginning with one that may open a stream; each stream then stands at the end of its trail, at the version that is its length |
| ReplayTrails.PayloadAt | capt_runtime/replay.py:324-339 | the payloads of a stream are those of its events, in ledger order |
| ReplayTrails.NextByVersion | capt_runtime/replay.py:71-89 | after a replayed ledger an event is skipped exactly when its version is not above the stream's length, and a gap is reported exactly when it is more than one above |
| Replay.InterleavingImmaterial | capt_runtime/replay.py:71-296 | two contiguous ledgers with equal streams rebuild equal states, or both fail |
| Replay.ReplayRebuildsSnapshots | capt_runtime/replay.py:342-344 | when each append stored what the reducer makes of its event, full replay succeeds and equals all stored snapshots and versions |
| Checkpoint.CreateCheckpoint | capt_runtime/checkpoint.py:67-175 | succeeds exactly when the chain verifies and every stream kind is known; lists exactly the streams with their versions under their fields, the head identity and the open work |
| CheckpointFields.FieldBearsKind | capt_runtime/checkpoint.py:28-51 | every stream kind is listed under the field that bears its name in camel case |
| Checkpoint.LedgerIdentityToSequence | capt_runtime/replay.py:299-321 | the event id and chain digest of the prefix |
| Checkpoint.CheckpointReplay | capt_runtime/replay.py:347-401 | the in-place replay gives exactly the outcome of verification, prefix fold, manifest checks and suffix fold, with the same error |
| Checkpoint.AcceptedExactly | capt_runtime/replay.py:347-401 | for an arbitrary manifest: accepted exactly when its schema, runtime version and digest are right, the ledger replays in full, the position is in range, and the prefix has the listed chain digest, the listed last event and, for every listed stream of every field, the listed positive number of events |
| Checkpoint.RefusalIsTrue | capt_runtime/replay.py:347-401 | each refusal names what is wrong with the manifest or the ledger |
| Checkpoint.SuccessIsFullReplay | capt_runtime/replay.py:347-401 | whatever the manifest, a checkpoint replay that succeeds is the full replay |
| Checkpoint.OwnManifestAccepted | capt_runtime/replay.py:352-380 | the manifest of a store is accepted over its own ledger |
| Checkpoint.CheckpointAgreesWithFullReplay | capt_runtime/replay.py:347-401 | after any further appends on which full replay succeeds, checkpoint replay succeeds with the same state |
| Checkpoint.AcceptanceBindsPrefix | capt_runtime/replay.py:352-364 | an accepted ledger has the manifest's events as its prefix, up to stream ids, and identically exactly when those agree |
| CheckpointStreams.ExchangedStreamsAccepted | capt_runtime/store.py:110-113 | exchanging the streams of two created driver runs keeps the chain; the old manifest is accepted and each run is rebuilt under the other's name |
| DriverRun.HistoryAgrees | capt_runtime/driver_run.py:90-186 | after every history the marker is past request_started exactly when such an event was accepted, attempts stay within the limit and match the accepted events, and the limit is unchanged |
| DriverRunTables.MovesExactly | capt_runtime/driver_run.py:90-132 | the lifecycles from which each target may be reached, every field an accepted move changes, and which refusal any other move meets |
| DriverRunTables.RecordsExactly | capt_runtime/driver_run.py:134-186 | the markers from which each boundary may be recorded, the limit on requests, and every field an accepted record changes |
| DriverRunTables.RecordRefusalIsTrue | capt_runtime/driver_run.py:134-186 | a refused record names what is in its way |
| DriverRunTables.HistoryLeaves | capt_runtime/driver_run.py:65-132 | after any history of a created run its lifecycle is where the accepted moves led, it counts its starts, is disposed of exactly when it ended, and asks for reconciliation once lost |
| DriverRunTables.EndsComeFrom | capt_runtime/driver_run.py:20-35 | only a running run is ever completed or lost, only a lost one reconciled, and nothing follows an end |
| DriverRun.AttemptsWithinLimit | capt_runtime/driver_run.py:168-182 | attempts never pass a valid limit and under an approval equal the accepted request_started events |
| DriverRun.BoundaryChangesBounded | capt_runtime/driver_run.py:134-186 | at most 3 times the limit plus 4 boundary changes, although the tool loop reopens requests |
| DriverRun.BoundaryBoundIsTight | capt_runtime/driver_run.py:134-186 | for every limit a history reaches that bound |
| Reconciliation.ConflictsExactly | capt_runtime/reconciliation.py:165-174 | a conflict is reported exactly when two observations share an identity and differ |
| Reconciliation.ConflictingObservations | capt_runtime/reconciliation.py:165-174 | the loop over observations computes those conflicts, in order |
| ReconciliationAnswers.ConflictsNameTheContradicted | capt_runtime/reconciliation.py:165-174 | an identity is reported exactly when two observations carry it and differ |
| Reconciliation.Outcome | capt_runtime/reconciliation.py:60-162 | disposition and lifecycle anomalies for every combination of state, marker, completion, artifact, lease and budget |
| Reconciliation.Reconcile | capt_runtime/reconciliation.py:60-162 | the disposition, and exactly the anomalies that are present |
| Reconciliation.CountBoundaries | capt_runtime/reconciliation.py:177-199 | counts the boundary events of the run, or refuses events of another run |
| Reconciliation.ReconcileProviderHttpAttempts | capt_runtime/reconciliation.py:177-216 | the event-based decision with its errors for foreign events and for more responses than requests |
| ReconciliationAnswers.ProviderAnswersExactly | capt_runtime/reconciliation.py:197-216 | every answer of the event-based procedure, for lost and other runs alike, exactly in terms of the run and the recorded boundaries |
| ReconciliationAnswers.RetryExactly | capt_runtime/reconciliation.py:42-137 | when a retry is safe and when it is forbidden |
| Reconciliation.SafeExactlyWhenNeverCrossed | capt_runtime/reconciliation.py:42-57 | after any history a run is safe to retry exactly when nothing from request_started on was accepted, and then it made no attempt |
| Reconciliation.NeverSafeAgain | capt_runtime/reconciliation.py:42-57 | once such an event is accepted, no continuation is classified safe to retry |
| Reconciliation.ProceduresAgreeOnRetry | capt_runtime/reconciliation.py:189-216 | for a lost run with its own events both procedures allow a retry in the same cases, all without a request_started event |
| Reconciliation.OwnLedgerMayBeRefused | capt_runtime/reconciliation.py:197-199 | for every new run, recording a completed response at once is legal and makes the event-based procedure refuse the ledger |
| Reconciliation.InTurnIsNeverRefused | capt_runtime/reconciliation.py:197-199 | histories that record each response only while a request is out are never refused |
| Reconciliation.NeverRefusedExactly | capt_runtime/reconciliation.py:197-199 | no prefix of a history is refused exactly when each accepted completed response finds more requests than completed responses before it |
| Reconciliation.InvalidAuthorityForbidsExactly | capt_runtime/reconciliation.py:69-137 | with invalid lease or budget the retry is forbidden exactly for runs that are not lost or whose request is out |
| Reconciliation.HumanIsAskedExactly | capt_runtime/reconciliation.py:69-150 | when a human is asked, whatever the observations and bindings |
| Reconciliation.LostIsUnknownExactly | capt_runtime/reconciliation.py:69-137 | a lost run is externally unknown exactly for a marker outside the vocabulary |
| Reconciliation.CompletedExactly | capt_runtime/reconciliation.py:69-150 | when a run counts as completed |
| Reconciliation.StaleAuthorityIsRetried | capt_runtime/reconciliation.py:75-79 | a lost run, lease and budget invalid, that is answered safe to retry |
| Reconciliation.BadRecordsAreCompleted | capt_runtime/reconciliation.py:77-78 | an unbound run with conflicting observations that is answered completed |
| DriverRunLedger.ServedIsReduced | capt_runtime/services.py:2006-2058 | replaying the event of any accepted driver-run command gives the snapshot the command stored |
| DriverRunLedger.ReplayRebuildsRuns | capt_runtime/replay.py:172-184 | replaying the ledger of any accepted driver-run commands rebuilds every run as stored |
| RunStreams.StreamLeadsTo | capt_runtime/replay.py:172-184 | in a stream that replays every state change and every boundary record may follow the events before it, identity and previous marker included, and the stored run is what they led to since its last creation |
| RunStreams.ServedExactly | capt_runtime/services.py:2006-2058 | when a command on a stored run is accepted, and the event it appends |
| DriverRunLedger.RebuiltRunIsSafeExactly | capt_runtime/replay.py:172-184 | a run rebuilt from any contiguous ledger is safe to retry exactly when every record from request_started on is followed by another creation, that is, when none is recorded since the last one |
| DriverRunLedger.CreatedOnceNeverForgets | capt_runtime/replay.py:172-184 | with a single creation it is safe exactly when its stream records nothing from request_started on |
| DriverRunLedger.CommandsOfRecreated | capt_runtime/services.py:2006-2029 | creating, recording request_started and creating again are all accepted and append the three events of the next row |
| DriverRunLedger.SecondCreationForgets | capt_runtime/services.py:2006-2029 | a contiguous three-event ledger that records request_started and rebuilds a run that is safe to retry |
| Delegation.GovernedService.ActiveAssignmentForDelegate | capt_runtime/governed_service.py:380-395 | none, the one live assignment, or the ambiguity error |
| Delegation.GovernedService.DelegationDepthLimit | capt_runtime/governed_service.py:397-421 | the loop terminates in every state, cyclic ones included, with the demanded depth and the least limit above, or the error of the walk |
| Delegation.GovernedService.AssignDelegate | capt_runtime/governed_service.py:423-479 | adds exactly the assignment, or refuses it with the error of the first failing check and no change |
| DelegationRecords.AssignedExactly | capt_runtime/governed_service.py:423-479 | in any state: accepted exactly when the id is new, the times and the initial state are right, the parent is another bot that may delegate, the delegate is a delegate bot of the existing mission without a live row, any task belongs to the mission, and the live rows lead from the parent to a crew bot past limits that all allow the depth, which is one more than the parent's |
| DelegationRecords.AssignRefusalIsTrue | capt_runtime/governed_service.py:423-479 | a refusal names what is missing or in the way |
| DelegationRecords.EveryRowIsAuthorized | capt_runtime/governed_service.py:432-469 | after every history: row ids are distinct, each row's parent is a bot that may delegate, its delegate another bot of kind delegate bound to the row's mission, the mission exists, any task belongs to it, and the row expires after its creation |
| Delegation.GovernedService.TransitionDelegateAssignment | capt_runtime/governed_service.py:481-510 | ends exactly the named active assignment, or refuses without change |
| DelegationRecords.EndedExactly | capt_runtime/aggregates/delegate_assignment.py:48-64 | exactly the named row ends, exactly when it is active, the actor may end it so, and the time is before its expiry or, to expire it, not |
| DelegationRecords.EveryRowIsExplained | capt_runtime/governed_service.py:481-510 | after every history: each row was assigned as it stands by a command at its creation time, and a row that is completed, revoked or expired was ended so by a command of an actor entitled to it, at a time that allowed it |
| DelegationRecords.EndedIsFinal | capt_runtime/aggregates/delegate_assignment.py:48-64 | an ended row never changes again and no row is removed |
| DelegationForest.WalkClimbs | capt_runtime/governed_service.py:405-421 | a successful walk is the climb of the live parent relation to the crew bot, meeting every limit on the way |
| DelegationForest.EveryHistoryIsForest | capt_runtime/governed_service.py:423-479 | with issue times that do not go back: at most one live assignment per delegate and mission, and no cycle, after every history |
| DelegationForest.LimitsOnlyFailInactive | capt_runtime/governed_service.py:397-421 | in such states the walk can fail only for a bot without live assignment |
| DelegationForest.CycleAndAmbiguityUnreachable | capt_runtime/governed_service.py:405-421 | after any history, cycle, ambiguity and missing-ancestor errors cannot be raised, now or later |
| DelegationForest.AmbiguousReadExactly | capt_runtime/governed_service.py:380-395 | a read is ambiguous exactly at times before the expiry of two active assignments of the delegate, which lie before the last command |
| DelegationDepth.DepthsSurviveExactly | capt_runtime/governed_service.py:397-421 | while time passes and assignments end, true depths stay true exactly when nothing live hangs below what went |
| DelegationDepth.EndingKeepsDepthsExactly | capt_runtime/governed_service.py:481-505 | an ending keeps true depths exactly when no live assignment of the mission has the ended delegate as its parent |
| DelegationDepth.AlwaysTrueExactly | capt_runtime/governed_service.py:454-464 | in a chronological history every live depth is, before and after every command, the hop count to the crew bot and within all limits above, exactly when no assignment ends or expires above a live one |
| DelegationDepth.LeafFirstHistoriesKeepDepths | capt_runtime/governed_service.py:454-464 | so it is after the last command also when only the states after commands are compared |
| DelegationLimits.GoingBackIsAmbiguous | capt_runtime/governed_service.py:380-395 | an issue time that goes back sees two live assignments of one delegate |
| DelegationForest.CyclicReadExactly | capt_runtime/governed_service.py:397-421 | a read reports a cycle exactly when the climb over the assignments live then is endless and nowhere ambiguous, which lies before the last command |
| DelegationLimits.GoingBackIsCyclic | capt_runtime/governed_service.py:397-421 | an issue time that goes back sees a cycle |
| DelegationLimits.ReparentingMakesDepthStale | capt_runtime/governed_service.py:454-464 | without leaf-first ending a live depth can be wrong |
| Permits.Claimed | capt_runtime/store.py:365-401 | a key not claimed before gives one caller its only permit |
| Permits.Spent | capt_runtime/store.py:365-401 | the effect uses the permit up, so no key has two effects |
| Permits.Crashed | capt_runtime/store.py:365-401 | a crash can only lose a permit |
| MediaJobs.AtMostOneEffectPerApproval | capt_runtime/media_execution.py:687-831 | in every interleaving of submit, poll and fetch calls with crashes: at most one dispatch and one asset download per approval and per driver run |
| MediaJobs.EveryEffectIsCovered | capt_runtime/media_execution.py:741-831 | every dispatch follows consumption, job claim and request_started in this order; every download follows the dispatch of its request and, for a video, its own claim; every compilation follows its claim |
| MediaJobs.AtMostOneCompilationPerProposal | capt_runtime/prompt_proposals.py:299-342 | at most one compilation per proposal id, across crashes and repeated calls |
| MediaJobs.DownloadClaimStep | capt_runtime/media_execution.py:985-993 | the download claim hands out the only download permit and keeps the whole invariant |
| MediaJobs.SubmitKeepsInv | capt_runtime/media_execution.py:687-831 | every step of a submit call keeps tables, order of records and permits |
| MediaJobs.PollKeepsInv | capt_runtime/media_execution.py:891-962 | so does every step of a poll |
| MediaJobs.FetchKeepsInv | capt_runtime/media_execution.py:965-1028 | and of a fetch |
| MediaProgress.DownloadedOnlyWhenReady | capt_runtime/media_execution.py:965-1028 | in every run a download is claimed, and a video downloaded, only after a state in which that job was ready to download under its consumed approval |
| MediaProgress.ReadyIsFetched | capt_runtime/media_execution.py:965-1028 | from every reachable state: a ready video whose download is unclaimed is claimed, downloaded and completed by the first fetch that is left undisturbed |
| MediaProgress.PollerSawPending | capt_runtime/media_execution.py:927-935 | a poll goes on only after a state in which its job was submitted or processing |
| MediaProgress.PendingIsPolled | capt_runtime/media_execution.py:891-962 | from every reachable state: an undisturbed poll of a pending video writes the provider's answer, if it is one of the three known, and leaves everything else |
| MediaProgress.ConsumedOnlyWhenApproved | capt_runtime/media_execution.py:746-755 | an approval is consumed only while it stands approved, for a driver without admission and without a run |
| MediaProgress.ApprovedIsSent | capt_runtime/media_execution.py:741-831 | from every reachable state: an undisturbed submission of an approved request with an unused driver writes its records in order, sends it, fetches an image, and stores the receipt |
| MediaProgress.FailedSendIsFinal | capt_runtime/media_execution.py:825-831 | a send that fails leaves the job indeterminate for ever, and the request is never sent again, whatever anyone does |
| MediaProgress.RunClaimsLogged | capt_runtime/store.py:365-401 | the claimed keys of admissions, jobs, downloads and compilations are exactly those on record |
| MediaProgress.UnclaimedIsCompiled | capt_runtime/prompt_proposals.py:299-342 | an undisturbed compilation of a proposal never claimed is claimed, compiled and recorded |
| MediaJobs.DispatchHappens | capt_runtime/media_execution.py:741-790 | an approved request can be sent, whatever it is bound to |
| Adoption.DestinationIsOldOrAuthorized | capt_runtime/artifact_workspace.py:133-203 | with one attempt per process, at every moment of every interleaving with crashes the destination holds its old bytes or exactly the authorized ones; adopted implies the latter; at most one adoption event |
| Adoption.RetryCommits | capt_runtime/governed_service.py:620-663 | after the replace, the fourth step of any fresh attempt leaves the promotion adopted, whatever others do and even without source or verification |
| AdoptionProgress.PromotionMoves | capt_runtime/governed_service.py:580-663 | a promotion is authorized only, and always, when verified with its source intact, adopted only by an attempt with its receipt, discarded only before adoption; each adoption leaves one receipt |
| AdoptionProgress.ReplacedOnlyWhenCleared | capt_runtime/governed_service.py:620-663 | in every run the destination is replaced only by an attempt that came by while the promotion was authorized, while it was cleared, and while the source was intact |
| AdoptionProgress.AdoptedOnlyWhenCleared | capt_runtime/governed_service.py:620-663 | and so is a promotion adopted |
| AdoptionProgress.AttemptAdopts | capt_runtime/artifact_workspace.py:133-203 | an attempt left alone, reading the source in any chunks, puts it in place, removes its temporary file and records the replacement |
| AdoptionProgress.PresentIsReconciled | capt_runtime/artifact_workspace.py:133-150 | a destination that holds the authorized bytes is only recorded as reconciled |
| Adoption.NeverTornExactly | capt_runtime/artifact_workspace.py:133-203 | for any assignment of attempts to processes: the destination never holds foreign bytes exactly when it held the authorized ones from the start or no two attempts share a process |
| Adoption.SharedTempTearsDestination | capt_runtime/artifact_workspace.py:167-189 | any two attempts of one process can leave any bytes at any destination that is not yet authorized |
| Adoption.Workspace.AtomicAdopt | capt_runtime/artifact_workspace.py:133-203 | undisturbed: reconciles a matching destination, else replaces it by a matching source and removes the temporary file, else fails and changes nothing |
| Base64.RoundTrip | capt_runtime/state_security.py:61-68 | decoding the encoding of any bytes gives them back |
| Base64.DecodedLength | capt_runtime/state_security.py:61-68 | text decodes only in whole quads, to at most three bytes each |
| Base64.QuadIsNumber | capt_runtime/state_security.py:61-68 | the four characters of three bytes are the same number in base 64 as the bytes in base 256 |
| Base64.DecodesExactly | capt_runtime/state_security.py:61-68 | exactly the texts of whole quads of the alphabet with at most two padding signs at the end are decoded |
| KeyText.PartialFile | capt_runtime/state_security.py:61-68 | any prefix of the key file decodes to the whole key or is refused, refused exactly when shorter than the encoding |
| KeyFile.ReturnedKeysAgree | capt_runtime/state_security.py:116-138 | all keys returned by any number of processes, with partial writes, partial reads and crashes, are equal and are what the file holds |
| KeyFile.HalfWrittenFileStays | capt_runtime/state_security.py:123-138 | a file left incomplete by its creator never changes and never yields a key |
| KeyFile.UsableExactlyWhenWhole | capt_runtime/state_security.py:116-138 | with no creator at work, a later call can return a key exactly when the file holds the whole encoding |
| KeyFileProgress.FirstCreates | capt_runtime/state_security.py:116-138 | from every state without a file, a process left alone creates it with the whole text of its key and returns that key |
| Keychain.ReturnedKeysAgree | capt_runtime/state_security.py:71-113 | all returned keys are equal, an item once present is never replaced, and the changed-during-init error does not occur |
| KeychainProgress.MissingIsAdded | capt_runtime/state_security.py:71-113 | after any run without an item, a process left alone adds its key and returns it |
| KeychainProgress.PresentIsReturned | capt_runtime/state_security.py:71-113 | with an item a process left alone returns its key |
| StateKey.KeyHost.KeychainKey | capt_runtime/state_security.py:71-113 | the key of the item, or the candidate once added; never replaces an item |
| StateKey.KeyHost.FileKey | capt_runtime/state_security.py:116-138 | the key of the file, or the candidate, then in the file; an invalid file is refused and kept |
| StateKey.KeyHost.StateKey | capt_runtime/state_security.py:141-150 | the environment wins and leaves the cache alone; otherwise the first key found is returned for good |
| VesselTiming.TransitionsKeepOrder | capt_runtime/council.py:258-279 | each transition is accepted exactly in its turn and not before its predecessor's instant, and keeps recorded instants and their order |
| CohortCauses.TransitionsExactly | capt_runtime/council.py:258-279 | an accepted transition records its instant and nothing else; a refused one says why |
| CohortCauses.EndsExactly | capt_runtime/cohort_dispatcher.py:99-120 | a record is completed or terminated with the instant of its end, if its provider was started |
| VesselTiming.CohortDispatchRecord.Complete | capt_runtime/cohort_dispatcher.py:99-109 | completes the timing only of a started record, and the disposition |
| VesselTiming.CohortDispatchRecord.Terminate | capt_runtime/cohort_dispatcher.py:111-120 | accepts the terminal dispositions other than completed, closing an open timing; refuses without change |
| CohortDispatch.AtEveryMoment | capt_runtime/cohort_dispatcher.py:245-298 | for every interleaving: calls in flight within the limit, each cohort invoked at most once and never if invalidated, timings ordered, and no wait for a slot starves |
| CohortDispatch.TerminalIsFinal | capt_runtime/cohort_dispatcher.py:111-120 | a record with a terminal disposition does not change any more |
| CohortDispatch.DispatchCanAlwaysEnd | capt_runtime/cohort_dispatcher.py:245-306 | no dispatch gets stuck: from every reachable state a run leads to all workers finished |
| CohortDispatch.WhenAllAreDone | capt_runtime/cohort_dispatcher.py:245-324 | all slots are back, every record is terminal, invalidated exactly as asked, and the total grew by the cohorts not invalidated |
| CohortCauses.DispositionIsCaused | capt_runtime/cohort_dispatcher.py:245-298 | over every run that ends: a record is invalidated exactly when its cohort was, completed exactly when its call was answered without exception, and timed out, starved or failed exactly when the exception that ended its call was of that class |
| CohortCauses.EveryInstantIsClock | capt_runtime/cohort_dispatcher.py:245-298 | in every run each instant of a record is the clock of the step that recorded it, and an end closes an open timing |
| CohortCauses.PoolFills | capt_runtime/cohort_dispatcher.py:293-303 | a queued worker is taken up exactly while fewer run than there are records and slots |
| CohortCauses.PeakIsMaximum | capt_runtime/cohort_dispatcher.py:302-321 | the reported peak is the greatest number of workers that ever held a counted slot |
| CohortDispatch.ClosingChecks | capt_runtime/cohort_dispatcher.py:302-321 | the first failing closing check, or none |
| CohortDispatch.EndOfDispatch | capt_runtime/cohort_dispatcher.py:302-321 | the end of a dispatch reports multiplied calls exactly when earlier dispatches took more slots than this one invalidates, and nothing else ever |
| LoopDetector.DetectActionLoop | capt_runtime/loop_detector.py:43-77 | a loop exactly when some period in range repeats often enough at the tail; least period, maximal repeats, start index |
| LoopDetector.WindowRepeats | capt_runtime/loop_detector.py:66-68 | all cycles of the window equal exactly when each step recurs one period later |
| LoopDetector.ExtendBack | capt_runtime/loop_detector.py:70-75 | the maximal number of repeats |
| LoopDetector.LoopIsUnique | capt_runtime/loop_detector.py:43-77 | the specification leaves one result |
| LoopDetector.LoopIsCopies | capt_runtime/loop_detector.py:66-76 | every copy equals the first cycle, step by step |
| LoopDetector.CycleIsPrimitive | capt_runtime/loop_detector.py:59-77 | with a minimal period of at most one, the cycle is no power of a shorter one |
| TreeHash.TreeHasher.Walk | benchmarks/tree_sitter_hashing.py:68-83 | the recursive walk appends exactly the entries of the subtrees, in pre-order |
| TreeHash.CompareHashes | benchmarks/tree_sitter_hashing.py:132-141 | changed and unchanged paths by the digests of the two listings |
| TreeHash.LookupSubtrees | benchmarks/tree_sitter_hashing.py:64-95 | a hashing gives for each path the digest of the subtree there and nothing else |
| TreeShapes.EntryIsSubtree | benchmarks/tree_sitter_hashing.py:68-83 | every entry has the kind and the digest of the subtree at its place |
| TreeShapes.ListedInOrder | benchmarks/tree_sitter_hashing.py:68-83 | every hashing lists its subtrees in reading order, no place twice |
| TreeShapes.KeptSplits | benchmarks/tree_sitter_hashing.py:31-61 | children are kept one by one and in order |
| TreeShapes.NormalReads | benchmarks/tree_sitter_hashing.py:31-61 | a normal form shows the text exactly of nodes whose children are all comments or anonymous |
| TreeHash.CompareTrees | benchmarks/tree_sitter_hashing.py:132-141 | comparing two hashed trees finds exactly the paths at which they differ |
| TreeHash.AncestorsChange | benchmarks/tree_sitter_hashing.py:43-95 | under a named root changed paths are closed under taking ancestors |
| TreeHash.RootChangedExactly | benchmarks/tree_sitter_hashing.py:132-141 | with named roots, the root changed exactly when some path did |
| TreeHash.UnnamedRootHidesChange | benchmarks/tree_sitter_hashing.py:68-83 | the named root is needed |
| TreeHash.DigestsAgreeExactly | benchmarks/tree_sitter_hashing.py:43-61 | root digests agree exactly for trees alike up to passed-over children, and then no path changes |
| TreeHash.CommentsDoNotMatter | benchmarks/tree_sitter_hashing.py:43-61 | a comment or anonymous child added to any node of the tree that keeps a child changes no digest at any path, whatever text the nodes around it then cover |
| TreeHash.CommentInLeafMatters | benchmarks/tree_sitter_hashing.py:31-40 | in a node without kept children it does |
| Session.SessionLifecycle.constructor | capt_runtime/session.py:53-92 | the loop over receipts restores the table the receipts describe |
| Session.SessionLifecycle.RegisterSession | capt_runtime/session.py:94-182 | registers, returns the registered session, or refuses; table, journal and error for every fault, also of a subscriber before or after the table's own handler; no crash point leaves other receipts than before or after |
| Session.SessionLifecycle.CheckpointSession | capt_runtime/session.py:184-248 | the same for a checkpoint, updated field by field |
| Session.SessionLifecycle.ResumeSession | capt_runtime/session.py:250-319 | the same for a resume, with its receipt check |
| Session.SessionLifecycle.CloseSession | capt_runtime/session.py:321-377 | the same for a close |
| Session.AgreementExactly | capt_runtime/session.py:53-182 | from agreement, the live table equals the restored one after an operation exactly unless its commit failed, a session with an empty id was registered, or a named one was noted by the table's handler before a subscriber failed |
| Session.CrashRestoresBeforeOrAfter | capt_runtime/session.py:53-92 | a crash anywhere inside an operation restores the table of just before or just after it |
| Session.TableIsJournal | capt_runtime/session.py:53-92 | through any operations, refusals, crashes and restarts the table is what its journal says |
| SessionTable.TableTellsRequests | capt_runtime/session.py:94-377 | after any regular history of operations, refusals, crashes and restarts: the table holds exactly the registered named sessions; mission and operator are those of the registration, phase and transaction those of the last accepted request, next action and offload those of the last accepted checkpoint or none, the reason that of the last accepted close or none |
| SessionTable.RestartTellsRequests | capt_runtime/session.py:53-92 | a restart finds the same |
| SessionTable.AnsweredExactly | capt_runtime/session.py:94-377 | for every state, request and fault: which error is raised, and that a receipt is left exactly when nothing refuses or disturbs the request |
| SessionTable.FailureLeaves | capt_runtime/session.py:94-377 | what each failure under an operation leaves in the live table |
| SessionTable.UnregisteredCanRegister | capt_runtime/session.py:94-182 | a registration is accepted exactly when none of the session was accepted before, whatever came between |
| SessionTable.SecondCheckpointRefused | capt_runtime/session.py:204-216 | a session cannot be checkpointed twice with the same offload, nor twice without one |
| Session.TimeOrderIsCommitOrder | capt_solo/ctp/journal.py:200-206 | sorting by finalization time keeps the commit order exactly when the times do not go back |
| Session.ClockStepLosesCheckpoint | capt_solo/ctp/journal.py:200-206 | when a checkpoint is finalized at an earlier time than its registration, a restart loses it |
| Framing.Socket.RecvExact | capt_runtime/ipc_framing.py:20-31 | exactly the wanted bytes however the socket splits them; none at the end of the stream; truncated in between |
| Framing.Socket.RecvJson | capt_runtime/ipc_framing.py:34-54 | the frame at the head of the stream, its error, and what stays unread |
| Framing.Socket.SendJson | capt_runtime/ipc_framing.py:57-65 | writes exactly one frame, or refuses an invalid limit, empty or oversized text and writes nothing |
| Framing.HeaderRoundTrip | capt_runtime/ipc_framing.py:40-65 | the four-byte big-endian length round trip |
| Framing.FrameRoundTrip | capt_runtime/ipc_framing.py:34-65 | a frame is read back whole and nothing behind it is consumed |
| Framing.ValueMeansFrame | capt_runtime/ipc_framing.py:34-54 | on any stream, a returned value is the text of a complete frame, and exactly that frame is consumed |
| Framing.FrameExactly | capt_runtime/ipc_framing.py:34-54 | the answer to any stream under any limit, byte by byte, and what stays unread |
| Framing.EncodedBytes | capt_runtime/ipc_framing.py:57-65 | what is written: the length in four bytes, most significant first, and the text |
| Framing.StreamRoundTrip | capt_runtime/ipc_framing.py:20-65 | all sent payloads arrive in order, then the end of the stream, with any limit of at least the sender's |
| Framing.CutStream | capt_runtime/ipc_framing.py:20-65 | a stream cut anywhere yields exactly the frames before the cut, and truncated unless the cut is at a frame's end |
| Council.ValidateCouncil | capt_runtime/council.py:104-136 | accepts exactly the valid councils; the bound on logical vessels then holds by itself |
| CouncilMeanings.ValidExactly | capt_runtime/council.py:104-136 | for every tier: exactly the councils with the counts of the tier, distinct cohort ids, and no blank name or policy |
| Council.BuildLogicalBlast | capt_runtime/council.py:164-180 | the nested loops expand the sorted cohorts, or refuse an invalid council |
| Council.ExpansionOfValid | capt_runtime/council.py:164-180 | cohorts times vessels intents with pairwise distinct ids |
| Council.VesselIdIsInjective | capt_runtime/council.py:172 | the fixed-width suffix makes a vessel id tell cohort and ordinal, whatever the cohort id |
| CouncilMeanings.VesselIdReads | capt_runtime/council.py:172 | a vessel id is its cohort's id, a mark, and the ordinal in four decimal digits |
| Council.BlastMembers | capt_runtime/council.py:164-180 | exactly the vessels one to count of each cohort |
| CouncilMeanings.ExpansionAt | capt_runtime/council.py:164-180 | the expansion goes cohort by cohort, the vessels of each in the order of their ordinals |
| Council.CohortOrderIsImmaterial | capt_runtime/council.py:104-180 | any permutation of the cohorts has the same verdict and the same expansion order |
| CouncilClaims.AnalyzeClaims | capt_runtime/council.py:375-428 | accepts exactly observations of known vessels with their cohort and one text per claim, and returns their claims and disputes |
| CouncilMeanings.AcceptableExactly | capt_runtime/council.py:375-396 | exactly observations that name a cohort of a valid council and one of its vessels, with one text per claim, can be analysed |
| CouncilMeanings.ClaimCollects | capt_runtime/council.py:394-415 | each part of a claim holds exactly what the observations of that claim say |
| CouncilMeanings.StatusExactly | capt_runtime/council.py:359-372 | each status, by the number of cohorts that support, dissent and hold back |
| CouncilClaims.DisputesAreDisputedClaims | capt_runtime/council.py:359-421 | disputes are exactly the claims marked disputed, with their two sides |
| CouncilClaims.HighestIsMaximum | capt_runtime/council.py:413-414 | the reported confidence is the greatest of its stance, and zero without any |
| CouncilClaims.OrderIsImmaterial | capt_runtime/council.py:375-428 | under any permutation of observations and of cohorts: the same acceptance, claims, disputes and source count |
| ContextMerkle.BuildContextMerkle | capt_runtime/context_merkle.py:81-116 | the pairing loop ends with the root and height of the six component leaves |
| ContextMerkle.RootOfPack | capt_runtime/context_merkle.py:81-116 | the root of a pack spelled out over its six leaves, at height four |
| ContextMerkle.EqualRootsExactly | capt_runtime/context_merkle.py:92-102 | for leaf lists of any one length: equal roots exactly for equal leaves |
| ContextMerkle.RepeatedLastIsHidden | capt_runtime/context_merkle.py:96-99 | equal length is needed: an odd list and the list with its last node repeated share the root |
| ContextMerkle.DiffContextMerkle | capt_runtime/context_merkle.py:119-131 | changed and unchanged components are disjoint and cover what either side lists; with one leaf per component the unchanged ones are exactly the leaves both hold |
| ContextMerkle.DiffOfPacks | capt_runtime/context_merkle.py:119-131 | exactly the components with another payload are reported, and the root changed exactly when there is one |

## Left out

- The reducers of the other event types of `replay.py`: a reducer is a parameter of the fold, instantiated for driver
  runs. `sandbox_lease` streams are counted by checkpoints but have no reducer.
- `DriverRun` follows `capt_runtime/driver_run.py`; the lifecycle table of `capt_runtime/aggregates/claim_driver.py`,
  which the ledger uses, is the one of `DriverRunLedger`. Driver id, work-order version and unused counters are left out.
- The idempotency table, outbox, encryption at rest and schema validation of the store; authority checks of commands.
- `create_checkpoint` reads the store several times; the reads are taken as one moment. Manifest fields for the
  outbox, policy bundle contents and artifact hashes are opaque or left out.
- Status reads (`media_job_status`, `pi_attempt_status`), file uploads and the checks of routes, prices and files: a
  failed check is one of the refusals a step may take. A claim and its replayed answer are one atomic step.
- Concurrent polls may overwrite each other's job state; proved are the answer of an undisturbed poll and what bounds the
  effects.
- Fairness: calls and attempts that are left undisturbed are shown to finish their work, and a dispatch that it can always
  end; that the scheduler lets them is not modelled.
- Delegation commands are one step each. In the source the reads precede the commit and only the new assignment's own
  stream carries an expected version, so two concurrent assigns under different ids could both commit.
- Several dispatches at once over one cohort dispatcher; dispatches one after the other are covered.
- Prompt text, provider results and digests of cohort records.
- An append to the session journal is one atomic write. In the source a death inside it can leave a torn last line,
  which a restart refuses; and an append may reach the disk although it reports failure.
- What other subscribers of the session bus do, apart from failing before or after the table's own handler; a second
  lifecycle object over the same journal; `createdAt` and `closedAt`. Receipts of other users of the journal are skipped
  by the restore, but the histories of `TableIsJournal` have none.
- White space is the ASCII set; base64 is decoded in whole quads, so surplus padding after a full quad is refused.
- Real confidences stand for floating point; the digest of a council and its raw observations are left out.
- `hash_source_with_tree_sitter`, `build_prompt_prefix_plan`, `select_challenges`: wiring or easy members.
- MediaJobs.PollKeepsInv: job states are not shown to advance monotonically, because concurrent polls are allowed here.
- KeyFile.ReturnedKeysAgree: runs start without a key file; one that something else put there is not covered, except
  for undisturbed calls (`StateKey.KeyHost.FileKey`).
- Keychain.ReturnedKeysAgree: no other program updates or deletes the item, as the create-only contract demands.
- Adoption.DestinationIsOldOrAuthorized: no other program writes the destination; digest checks and the replace are
  atomic steps.

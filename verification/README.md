# Glassroot: models and proofs

Glassroot analyses pull requests: a controller turns GitHub deliveries into analysis jobs, a runner
records what the workloads of both revisions did in an evidence bundle, and a comparator reports how
the behaviour changed. This project models its protocols and algorithms in Dafny and proves what they
promise. `dafny verify dfyconfig.toml` checks it.

## What is modelled

**The pull-request controller.** `ControllerModel` has the rows of the controller store. A SHA-256
id is the tuple of the fields it is computed from. `ControllerSpec` gives each committed transaction as a function on
the tables, and `ControllerStore.Store` is the store itself, each of whose methods is proved to do that
function; its ghost history makes a store's life a run. A run is any sequence of transactions, so it covers any
interleaving by any number of controllers and source ingesters. Whether a lease has expired is an
input, so that no clock is assumed. `ControllerInvariant` and `ControllerSafety` prove the table invariant
and what follows of live work and generations, `SourceFencing` the source-import leases, `ControllerRuns` the
reconcile leases and exactly-once effects. `DeliveryInbox` is the webhook inbox with its outbox, and
`ControllerSystem` puts inbox, controllers and store together: controllers claim, look up, lease,
apply, lose answers, crash and acknowledge, one call at a time. `ControllerAnswers` and `DeliveryAnswers` say what each
transaction answers and when it commits, in the fields of its input and of the rows it finds, without the functions
that define it; `ControllerHistory` what the tables say of the run behind them, and `ControllerProcessing` that
controllers do what their records call for.

**The evidence bundle.** `EvidenceModel` says what a bundle is made of, `EvidenceSession` what every
call of the writer does, and `EvidenceWriter.Writer` is the session object whose methods change its
fields in place. `EvidenceReader` has the reader's checks, written independently of the writer.
`EvidenceFiles`, `EvidenceEvents`, `EvidenceRecords` and `EvidenceRuns` prove the session invariant over all
sequences of calls; `EvidenceCommit`, `EvidenceAgreement` and `EvidenceVerdict` compare a commit with every check of the reader;
`EvidenceOutcomes` says exactly when a commit succeeds, and shows commits that the reader rejects; `EvidenceFraming` is the byte level of event files.
`EvidenceAnswers` says what single calls do, in limits, counts and files. `EvidenceSoundness` is about any bundle, whoever wrote
it: what acceptance means, document by document, exactly; `EvidenceBlindSpots` shows what it does not mean.

**The comparator.** `ComparatorFacts` has facts, keys, typed anchors and compared fields,
`OccurrenceProfiles` and `ComparatorVariants` what is counted, and `Comparator` both the meaning of a comparison and the loops that
find it by flagging variants in two maps. `ComparatorLaws` and `ComparatorMirror` prove what any comparison promises, and `ComparatorAnswers` which record each single
variant is in and what it says, in the components of the facts.

**The artifact collector.** `GlobMatcher` has the meaning of `**` patterns and the two memoised
searches, `GlobLaws` that meaning without recursion, `Collector` the planner and the storing loop over an inventory,
`CollectorLaws` their guarantees and `CollectorAnswers` what becomes of each entry and rule.

**The pipeline change analysis.** `PipelineChange` says what is reported, `PipelineComparison` appends it step by step, and
`PipelineChangeLaws` proves that an empty report is a proof of equality, and `PipelineAnswers` which changes there are, field by field.

**The attach stream.** `AttachFrames` demultiplexes Docker frames with a limit for each stream; `FrameLaws` has the wire format.

## Where code and documentation differ

The models follow the code.

- `docs/COMPARISON.md` lists a scenario's outcome among possible modifications; the code makes the
  status part of the anchor, so it is never one (`OutcomeIsNeverAModification`).
- It lists the unit of a resource limit, too; the code does not compare it (`UnitIsNotCompared`).
- It calls a profile variable as soon as two complete repetitions differ; the code assesses nothing
  unless all repetitions are complete (`WhatRepeatabilityMeans`).
- It names `ambiguous-correlation` as a basis; the code reports ambiguity as a limitation only.
- `docs/EVIDENCE_BUNDLE_READER.md` says that sequence gaps and duplicate sequences fail verification; after an empty event file the
  code expects number 1 again, so numbers can repeat (`AcceptedEventsAreNumbered`, `AcceptedThoughInconsistent`).

## What the proofs found

- The writer does not sort artifact records although the reader requires path order, does not check the
  runner, and leaves the folder of an attempt without a file, which the reader does not expect: the commits
  of `OutOfOrderIsRejected`, `ImproperRunnerIsRejected` and `AttemptWithoutFileIsRejected`.
- A limit of the whole bundle refuses an entry only after its file is in place. The call fails, and for an
  event file or an artifact the session with it; a log leaves the session active. A later commit can
  succeed, and the reader rejects the file as undeclared (`UnlistedObjectSpoils`, `StrayIsRejected`).
- The reader compares only the number of the manifest's artifact records with the indexes and looks each of them up, so that a
  repeated record can stand for one that is left out; and it compares no outcome of the execution document with the
  attempt's own result (`AcceptedRecordsAreIndexed`, `AcceptedThoughInconsistent`).
- A controller takes any failure to read a check run's binding or row for a missing one, and books the
  rerequest as ignored (`ControllerSystem.LookedUp`).
- The descendant search of the collector can answer yes where no path can match
  (`UnsatisfiablePatternIsAFalseAlarm`); `ExactIffSatisfiableOrBarred` says for which patterns.
- `AcknowledgeSourceImport` completes a request without moving its job (`AcknowledgingStrandsTheJob`).

## Model

| member | source | states |
|---|---|---|
| ControllerSafety.StepKeepsInv | internal/githubcontrollerstore/store.go:265-410 | every transaction of the store, whatever its input, keeps the table invariant, and none is refused because a job, attempt or source-request key is already taken |
| ControllerSafety.RunKeepsInv | internal/githubcontrollerstore/store.go:309-410 | so the invariant holds after every run of transactions by any number of controllers and ingesters, in any order |
| ControllerSafety.LiveWorkIsCurrent | internal/githubcontrollerstore/store.go:559-572 | in every reachable state each non-terminal job and attempt belongs to the current job of an eligible pull request with that job's target and generation, and each open source request to a job that is still importing |
| ControllerSafety.OneLiveJobPerPull | internal/githubcontrollerstore/store.go:335-398 | a pull request never has two live jobs |
| ControllerSafety.StepIsVersioned | internal/githubcontrollerstore/store.go:335-398 | one transaction raises a pull request's generation by exactly one exactly when eligibility or target changes, and otherwise leaves its standing as it is |
| ControllerSafety.SnapshotIsVersioned | internal/githubcontrollerstore/store.go:309-410 | the same for a snapshot transaction |
| ControllerSafety.BlockIsVersioned | internal/githubcontrollerstore/installation.go:59-97 | the same for the row loop of an installation hint |
| ControllerSafety.GenerationIsAVersion | internal/githubcontrollerstore/store.go:335-398 | over any run a generation never falls, and equal generations mean equal eligibility, target and job |
| ControllerInvariant.InsertWorkMeetsNoKey | internal/githubapp/job.go:43-67 | scheduling under a fresh generation meets no existing job, attempt or source-request key |
| ControllerInvariant.NextAttemptMeetsNoKey | internal/githubcontrollerstore/rerequest.go:80-115 | a rerequest's next attempt number and id are new |
| ControllerInvariant.InvalidateKeepsInv | internal/githubcontrollerstore/installation.go:59-123 | blocking every affected pull request and cancelling its work keeps the invariant |
| ControllerInvariant.ImportKeepsInv | internal/githubcontrollerstore/sourceoutbox.go:108-155 | applying an import result keeps the invariant, moving the job with its request |
| ControllerRuns.CommitsNeverOutnumberAcquires | internal/githubcontrollerstore/store.go:573-583 | over any run, committed snapshot and rerequest transactions on a pull request, plus the lease that may be outstanding, never outnumber the leases acquired on it |
| ControllerRuns.StaleLeaseChangesNothing | internal/githubcontrollerstore/rerequest.go:116-126 | a transaction whose owner and generation do not match the lease row is rejected and changes no table |
| ControllerRuns.IdleStepChangesOnlyLeases | internal/githubcontrollerstore/store.go:429-454 | a rejected transaction and a redelivery change at most the leases |
| ControllerRuns.StepBooks | internal/githubcontrollerstore/store.go:455-462 | whatever answers a delivery with a result has booked it in the same commit, and nothing else books |
| ControllerRuns.SerialRunAgrees | internal/githubcontrollerstore/store.go:429-462 | erasing duplicates and rejections from any run leaves the same tables apart from leases |
| ControllerRuns.DeliveredOnce | internal/githubcontrollerstore/store.go:429-462 | a run in which every step counts processes exactly the booked deliveries, each once |
| ControllerRuns.ExactlyOnce | internal/githubcontrollerstore/store.go:309-462 | exactly-once effects: any interleaving of claims, takeovers, rejections and redeliveries equals, apart from leases, a serial run in which every transaction commits under a lease of its own and each booked delivery is processed once |
| SourceFencing.ClaimsRise | internal/githubcontrollerstore/sourceoutbox.go:15-79 | lease generations of a source request strictly rise from claim to claim |
| SourceFencing.ClaimIsFinishedOnce | internal/githubcontrollerstore/sourceoutbox.go:87-155 | one claim is acknowledged, released or applied at most once |
| SourceFencing.OnlyTheLatestClaimFinishes | internal/githubcontrollerstore/sourceoutbox.go:87-155 | whoever finishes a request holds the latest claim on it |
| SourceFencing.ClosedIsAbsorbing | internal/githubcontrollerstore/sourceoutbox.go:15-155 | a closed request is never changed again |
| SourceFencing.AcceptedResultMovesOneJob | internal/githubcontrollerstore/sourceoutbox.go:108-155 | an accepted result moves exactly one job out of importing-source, and nothing else in the job table |
| SourceFencing.AcknowledgingStrandsTheJob | internal/githubcontrollerstore/sourceoutbox.go:81-106 | a request that is acknowledged instead of applied leaves its job short of the runner for the rest of the run |
| ControllerStore.MaxAttemptNumber | internal/githubcontrollerstore/rerequest.go:80-115 | the highest attempt number of a job |
| ControllerStore.InsertTargetJobAttemptSource | internal/githubcontrollerstore/store.go:518-545 | inserts job, first attempt and source request exactly as specified, key checks included |
| ControllerStore.ScheduleTarget | internal/githubcontrollerstore/store.go:335-398 | supersedes what is current and schedules the new target, unless it is current already |
| ControllerStore.ReconcilePull | internal/githubcontrollerstore/store.go:309-410 | brings a pull-request row to what a snapshot shows |
| ControllerStore.RerequestAttempt | internal/githubcontrollerstore/rerequest.go:37-127 | adds the attempt of a rerequest, or says why not |
| ControllerStore.InvalidateInstallationRows | internal/githubcontrollerstore/installation.go:59-97 | the row loop, in any order of rows, has the effect of blocking all affected rows at once |
| ControllerStore.CheckProcessed | internal/githubcontrollerstore/store.go:429-454 | finds a delivery's earlier outcome, and a conflict of projections |
| ControllerStore.ReleaseReconcileLease | internal/githubcontrollerstore/store.go:573-583 | deletes the lease row of exactly this owner and generation |
| ControllerStore.Finish | internal/githubcontrollerstore/store.go:455-462 | books the delivery and gives the lease up, or commits nothing |
| ControllerStore.ImportResultApplied | internal/githubcontrollerstore/sourceoutbox.go:108-155 | closes the request with the result and moves its job on |
| ControllerStore.ScanCandidates | internal/githubcontrollerstore/sourceoutbox.go:15-79 | selects the first claimable requests, none when a counter is used up |
| ControllerStore.TakeCandidates | internal/githubcontrollerstore/sourceoutbox.go:15-79 | leases the selected requests one by one; every guarded update takes effect |
| ControllerStore.Store.constructor | internal/githubcontrollerstore/store.go:140-154 | an empty store is valid |
| ControllerStore.Store.AcquireReconcileLease | internal/githubcontrollerstore/store.go:265-307 | does exactly what the lease step specifies to the whole database, and stays valid |
| ControllerStore.Store.ApplyPullRequestSnapshot | internal/githubcontrollerstore/store.go:309-410 | does exactly the snapshot step |
| ControllerStore.Store.ApplyCheckRunRerequest | internal/githubcontrollerstore/rerequest.go:37-127 | does exactly the rerequest step |
| ControllerStore.Store.ApplyInstallationHint | internal/githubcontrollerstore/installation.go:11-48 | does exactly the hint step |
| ControllerStore.Store.RecordProcessingDecision | internal/githubcontrollerstore/store.go:722-745 | does exactly the decision step |
| ControllerStore.Store.RegisterCheckBinding | internal/githubcontrollerstore/rerequest.go:12-35 | does exactly the binding step |
| ControllerStore.Store.ClaimSourceImports | internal/githubcontrollerstore/sourceoutbox.go:15-79 | does exactly the claim step |
| ControllerStore.Store.FinishSourceLease | internal/githubcontrollerstore/sourceoutbox.go:87-106 | does exactly the acknowledge or release step |
| ControllerStore.Store.ApplySourceImportResult | internal/githubcontrollerstore/sourceoutbox.go:108-155 | does exactly the import-result step |
| LeaseQueue.FirstOfIsFirst | internal/githubinbox/lease.go:12-93 | a claim takes open rows in sequence order and passes one over only when it is full |
| DeliveryInbox.InboxStepKeepsInv | internal/githubinbox/store.go:171-230 | accepting, claiming and finishing keep inbox and outbox consistent: one outbox record for each delivery, of its projection |
| DeliveryInbox.InboxStepPersists | internal/githubinbox/lease.go:12-167 | no step removes or rewrites a record: identity and projection stay, generations only rise, acknowledged is final |
| DeliveryInbox.Inbox.Accept | internal/githubinbox/store.go:171-230 | records a delivery once, counts a conflicting one, and reports a duplicate |
| DeliveryInbox.Inbox.ClaimOutbox | internal/githubinbox/lease.go:12-93 | does exactly the claim step of the inbox |
| DeliveryInbox.Inbox.FinishLease | internal/githubinbox/lease.go:122-167 | does exactly the guarded acknowledge or release step |
| DeliveryInbox.ScanRecords | internal/githubinbox/lease.go:12-93 | selects the first claimable records, or reports the counter that is used up |
| DeliveryInbox.TakeRecords | internal/githubinbox/lease.go:12-93 | leases the selected records one by one |
| ControllerSystem.ReachedKeepsSystem | internal/githubcontroller/controller.go:70-186 | whatever deliveries arrive and however controllers interleave, fail to read, crash and lose answers, the system invariant holds |
| ControllerSystem.AcknowledgedIsProcessed | internal/githubcontroller/controller.go:167-186 | every acknowledged outbox record has a processed row with its projection |
| ControllerSystem.EveryDeliveryTakesEffectOnce | internal/githubcontroller/controller.go:70-186 | end to end, the controller tables apart from leases are those of a serial run that processes recorded deliveries only and no webhook delivery twice |
| ControllerSystem.OvertakenControllerChangesNothing | internal/githubinbox/lease.go:122-167 | of two controllers with a claim on one record the earlier is fenced: its acknowledgement or release changes nothing |
| ControllerSystem.ProjectionsNeverConflict | internal/githubcontrollerstore/store.go:429-454 | no controller ever meets its delivery processed under another projection |
| EvidencePaths.DirDeterminesKey | internal/evidence/path.go:71-81 | below repetition 10000 an attempt's directory settles its coordinates |
| EvidencePaths.LargeRepetitionsCollide | internal/evidence/path.go:75-81 | beyond it, all repetitions of a scenario share one directory |
| EvidencePaths.AcceptedPlanDirsDiffer | internal/evidence/writer.go:92-166 | under the writer's ceiling on attempts, no two attempts of an accepted plan share a directory |
| EvidencePaths.PlanCounts | internal/evidence/reader.go:808-824 | ordinals number the expanded attempts, and no repetition exceeds their number |
| EvidencePaths.UintToString | internal/evidence/path.go:82-94 | the digit loop over a fixed buffer writes the decimal numeral |
| EvidenceEvents.EmitKeeps | internal/evidence/session.go:91-227 | an emit appends exactly its event to the events of all files together, or fails the session and appends nothing |
| EvidenceRuns.CallIsKept | internal/evidence/session.go:91-227 | every call of the writer keeps the session invariant: staged files, manifest entries, capture states, event ranges, artifact records and logs fit together |
| EvidenceRuns.SessionsAreSound | internal/evidence/session.go:91-227 | so do all sequences of calls, and the event files together hold exactly the emitted events in order |
| EvidenceRuns.RangesTile | internal/evidence/session.go:156-188 | the first, last and count ranges of the attempts tile 1..n |
| EvidenceRuns.LogsAreFaithful | internal/evidence/logs.go:67-156 | across all interleaved streams each log stores a prefix of what was offered, truncated exactly when observed exceeds stored and then evidence is incomplete, and the stored sizes sum to the session's total within the shared limit |
| EvidenceCommit.FinalizeWorks | internal/evidence/session.go:285-308 | closing whatever is open never fails on a sound session where the bundle has room, and leaves it listed |
| EvidenceCommit.WriteAllWorks | internal/evidence/manifest.go:12-57 | what is staged before the manifest is written: results, indexes and the execution document, each once and listed |
| EvidenceAgreement.ManifestIsOk | internal/evidence/reader.go:224-321 | the reader's manifest checks pass on every committed session |
| EvidenceAgreement.PayloadsAreOk | internal/evidence/reader.go:353-372 | every manifest digest is that of its file |
| EvidenceAgreement.LayoutAgrees | internal/evidence/reader_inventory.go:422-465 | the reader expects exactly the files and folders the writer left, exactly when every file is listed and no attempt is without one |
| EvidenceVerdict.ExecutionAgrees | internal/evidence/reader.go:431-530 | the execution checks pass exactly when the runner is a proper one and results come in plan order |
| EvidenceVerdict.ArtifactsAgree | internal/evidence/reader.go:532-593 | the artifact checks pass exactly when every attempt's records are in path order |
| EvidenceVerdict.ReadsEvents | internal/evidence/reader.go:595-688 | the event checks of the first n attempts pass exactly when each attempt's events are acceptable, and then count what was emitted |
| EvidenceVerdict.CompletionAgrees | internal/evidence/reader.go:690-771 | the completion checks pass on every commit of a session whose files are all listed |
| EvidenceVerdict.ReaderAgreesWithWriter | internal/evidence/reader.go:193-222 | writer-reader agreement: of any session of calls and any commit that succeeds, the reader accepts the bundle exactly when no file was refused by a limit of the bundle, every attempt leaves a file, artifacts were recorded in path order, and the execution names a proper runner and reports plan order, the true event total and complete events |
| EvidenceVerdict.WalkGivesBackTheEvents | internal/evidence/reader.go:826-896 | event round trip: walking the committed bundle in plan order gives back exactly the emitted events in order, if every file could be listed |
| EvidenceOutcomes.CommitSucceeds | internal/evidence/session.go:229-283 | a commit succeeds exactly when the bundle has room for what it writes, the session's state allows it, the completion fits plan, attempts and event ranges, and it is either complete or names its failure |
| EvidenceOutcomes.RoomLeavesNothingStray | internal/evidence/session.go:420-440 | a file is left in place unlisted only if some call met the entry or byte limit of the bundle |
| EvidenceOutcomes.UnlistedObjectSpoils | internal/evidence/artifacts.go:85-100 | an artifact whose object the manifest has no room for fails the session with the object in place |
| EvidenceOutcomes.StrayIsRejected | internal/evidence/reader.go:332-351 | any session that has left a file unlisted can still be committed as incomplete, and the bundle is rejected |
| EvidenceOutcomes.ImproperRunnerIsRejected | internal/evidence/manifest.go:47-48 | the writer does not look at the runner: with one the reader does not accept every successful commit is rejected |
| EvidenceOutcomes.AttemptWithoutFileIsRejected | internal/evidence/reader.go:332-351 | a run given up before anything was recorded commits, and its bundle is rejected |
| EvidenceOutcomes.OutOfOrderIsRejected | internal/evidence/artifacts.go:221-231 | two artifacts recorded against path order commit, and the bundle is rejected |
| EvidenceWriter.Writer.constructor | internal/evidence/writer.go:92-166 | begins a sound session |
| EvidenceWriter.Writer.Emit | internal/evidence/session.go:91-134 | the in-place emit does exactly the specified call |
| EvidenceWriter.Writer.CloseEvents | internal/evidence/session.go:210-227 | closes and lists an event file as specified |
| EvidenceWriter.Writer.OpenLog | internal/evidence/logs.go:23-57 | opens a log as specified |
| EvidenceWriter.Writer.WriteLog | internal/evidence/logs.go:67-104 | writes within both limits as specified |
| EvidenceWriter.Writer.MarkTruncated | internal/evidence/logs.go:106-120 | records an observer's truncation as specified |
| EvidenceWriter.Writer.CloseLog | internal/evidence/logs.go:122-156 | closes and lists a log as specified |
| EvidenceWriter.Writer.AddArtifact | internal/evidence/artifacts.go:16-108 | stores, deduplicates or omits an artifact as specified |
| EvidenceWriter.Writer.RecordArtifactOmission | internal/evidence/artifacts.go:110-142 | records an omission as specified |
| EvidenceWriter.Writer.MarkArtifactCollectionComplete | internal/evidence/artifacts.go:144-159 | marks an empty collection as specified |
| EvidenceWriter.Writer.FinalizeCaptures | internal/evidence/session.go:285-308 | the loop over the attempts finalizes as specified |
| EvidenceWriter.Writer.WriteResults | internal/evidence/manifest.go:12-57 | the loop over the attempts writes results as specified |
| EvidenceWriter.Writer.Commit | internal/evidence/session.go:229-283 | commits or aborts exactly as specified, and returns the bundle |
| EvidenceWriter.Extend | internal/evidence/logs.go:67-104 | how much of one write is kept |
| EvidenceWriter.ReadArtifact | internal/evidence/artifacts.go:174-208 | the read loop stops exactly when the input ends or exceeds its limit |
| EvidenceAnswers.StreamIsWholeOrOver | internal/evidence/artifacts.go:174-208 | an artifact is read whole exactly when it fits; otherwise more than the limit was observed |
| EvidenceFraming.AppendLine | internal/evidence/session.go:91-154 | an event file is its lines, each ended by a line feed |
| EvidenceFraming.ReadLines | internal/evidence/reader.go:626-688 | the framing checks and the loop over lines decide the specified framing |
| EvidenceFraming.FileReadsBack | internal/evidence/reader.go:626-688 | a file reads back as the written lines exactly when no line is empty, has a line feed or ends in a carriage return |
| EvidenceFraming.AcceptedFileIsCanonical | internal/evidence/reader.go:626-688 | an accepted file is the only file with its lines |
| EvidenceFraming.FileSettlesEvents | internal/evidence/session.go:136-154 | the bytes of an event file settle its events in order, for any line encoding that settles one event |
| ComparatorFacts.KeyTellsFactsApart | internal/compare/match.go:168-183 | valid facts are counted together exactly when digest, kind and source agree |
| ComparatorFacts.AnchorTellsIdentity | internal/compare/digest.go:54-121 | anchors agree exactly when kind, source and identity do |
| ComparatorFacts.OutcomeIsNeverAModification | internal/compare/match.go:367-467 | the outcome of a scenario is never a changed field, because it is part of the anchor |
| ComparatorFacts.UnitIsNotCompared | internal/compare/match.go:367-467 | a resource limit that changed only in its unit has the same anchor and nothing to report |
| ComparatorFacts.KeySettlesAnchor | internal/observe/digest.go:37-213 | facts that are counted under one key have one anchor and differ in no compared field, because the semantic digest is taken of kind, source and all that the anchor and the comparison read |
| OccurrenceProfiles.WhatRepeatabilityMeans | internal/compare/match.go:193-234 | what each verdict says of the repetitions, both ways: one repetition is never stable, and nothing is assessed while one is incomplete |
| OccurrenceProfiles.ProfileIsItsRepetitions | internal/compare/match.go:361-365 | two profiles are equal exactly when they list the same repetitions with the same known counts |
| OccurrenceProfiles.BuildOccurrenceProfile | internal/compare/match.go:193-234 | the counting loop builds the profile |
| ComparatorVariants.BuildVariants | internal/compare/match.go:168-183 | the nested loops gather every fact under its key, by repetition and in trace order |
| ComparatorVariants.ProfileForVariant | internal/compare/match.go:185-191 | the profile of one variant over all attempts |
| ComparatorVariants.SealVariants | internal/compare/match.go:59-77 | gives every variant profile and anchor, in any map order, and fails exactly when one cannot be anchored |
| Comparator.MatchExactly | internal/compare/match.go:78-97 | the loop over the keys reports recounted variants and consumes every exact match |
| Comparator.GroupByAnchor | internal/compare/match.go:98-109 | groups the variants without exact match by anchor, in any map order |
| Comparator.CorrelateOne | internal/compare/match.go:110-129 | one anchor: a modification, two contested groups, or nothing |
| Comparator.Correlate | internal/compare/match.go:110-129 | the loop over the anchors |
| Comparator.ReportLeftovers | internal/compare/match.go:130-157 | reports what is left, with its flags |
| Comparator.StableSequences | internal/compare/match.go:489-509 | the common sequence of at least two complete repetitions, if there is one |
| Comparator.SameMultiset | internal/compare/match.go:510-514 | sorting and comparing decides equality as multisets |
| Comparator.OrderRecord | internal/compare/match.go:475-488 | an order record exactly for two stable, different orders of one multiset |
| Comparator.CompareVariants | internal/compare/match.go:78-157 | the three passes give the specified records, in sorted key order |
| Comparator.CompareScenario | internal/compare/match.go:59-166 | a whole scenario: the specified records, or an error exactly when a variant cannot be anchored |
| ComparatorLaws.OutcomeIsDetermined | internal/compare/match.go:59-166 | the record list is the same for every map iteration order |
| ComparatorLaws.EveryVariantOnce | internal/compare/match.go:78-157 | conservation: a variant with an exact match of equal profile is in no record, every other variant of either side is named by exactly one |
| ComparatorLaws.EveryVariantOfAScenarioOnce | internal/compare/match.go:59-166 | the same for all records of a scenario |
| ComparatorLaws.EveryFactIsHeld | internal/compare/match.go:168-183 | a variant holds every sighting of its facts, as often as it was seen |
| ComparatorLaws.ProfileCountsFacts | internal/compare/match.go:185-234 | a profile lists, for each complete repetition, how many of its facts carry the key |
| ComparatorMirror.SwapMirrors | internal/compare/match.go:59-160 | swapping base and head gives the mirrored records, as a multiset, for all traces whose digests are computed from their facts |
| ComparatorMirror.SwapMirrorsIff | internal/compare/match.go:78-160 | with nothing assumed of the digests, swapping mirrors the records exactly when no recounted key has different anchors on the two sides |
| ComparatorMirror.UnknownIsNotAbsence | internal/compare/match.go:130-157 | added and removed only when the other side has attempts, all complete, and none shows the key; otherwise a coverage change |
| ComparatorMirror.ModifiedPairs | internal/compare/match.go:110-129 | a modification shows two variants of one anchor, kind and source, absent from the other side, and exactly the compared fields that differ |
| ComparatorMirror.ModificationsAreOneToOne | internal/compare/match.go:110-129 | no variant of either side is in two modifications |
| GoText.SortKeys | internal/compare/match.go:318-359 | sorting a key set in any iteration order gives its one ascending listing |
| GoText.AscendingIsUnique | internal/compare/match.go:318-359 | a set has one ascending listing |
| GlobMatcher.MatchRelativePattern | internal/artifactcollect/pattern.go:5-50 | the memoised search decides the recursive meaning of a pattern, within 1 + 2(|p|+1)(|r|+1) states; only a malformed component or a lower limit prevents a verdict, and the default limit never does on validated patterns and paths |
| GlobMatcher.PatternCanMatchDescendant | internal/artifactcollect/pattern.go:52-97 | the descendant search never overlooks a match below a path, is exact for satisfiable patterns, and answers under the same bounds |
| GlobMatcher.SurvivesIffMatchesBelow | internal/artifactcollect/pattern.go:52-97 | it answers yes exactly when some non-empty extension of the path matches, if every component is matched by some name |
| GlobMatcher.NothingBelowIsOverlooked | internal/artifactcollect/pattern.go:52-97 | one half of that needs no assumption on components |
| GlobMatcher.ExactIffSatisfiableOrBarred | internal/artifactcollect/pattern.go:52-97 | the descendant search is right about every path but the root exactly when the pattern is satisfiable or its first component is an ordinary one that matches no name |
| GlobMatcher.UnsatisfiablePatternIsAFalseAlarm | internal/artifactcollect/pattern.go:52-97 | below `out` the pattern `out/[z-a]` matches nothing, and the search answers yes |
| Collector.TryRule | internal/artifactcollect/file.go:87-140 | one rule on one entry: match, block and the rule's own result |
| Collector.PlanMatches | internal/artifactcollect/file.go:80-143 | the nested loops plan every matched entry, every rule's result and whether anything was missed |
| Collector.NarrowestLimit | internal/artifactcollect/file.go:289-297 | the least limit of the matching rules |
| Collector.PlaceFile | internal/artifactcollect/file.go:35-68 | one matched file: hard link, limit, store |
| Collector.StoreRegular | internal/artifactcollect/file.go:35-68 | the loop over the sorted files with its running total |
| Collector.CollectFromInventory | internal/artifactcollect/file.go:23-78 | the whole collection, or the first failure |
| CollectorLaws.EveryMatchOnce | internal/artifactcollect/file.go:23-78 | every matched entry except directories has exactly one artifact, and there is no other |
| CollectorLaws.EveryArtifactIsTruthful | internal/artifactcollect/file.go:23-78 | an artifact is the entry at its path with exactly the rules that match it; links and special entries are never stored |
| CollectorLaws.LimitsHold | internal/artifactcollect/file.go:46-68 | stored bytes never exceed the total limit, nor a file its rules' or the single-file limit |
| CollectorLaws.CompleteMeansNothingMissed | internal/artifactcollect/file.go:80-143 | complete exactly when every matched regular file is stored and no rule matches, or could match below, an entry that is not opened |
| CollectorLaws.CompleteIffNothingHidden | internal/artifactcollect/file.go:80-143 | for patterns on which the search is exact: complete exactly when every matched regular file is stored and no path at or below an unopened entry matches a rule |
| CollectorLaws.CompleteHidesNothing | internal/artifactcollect/file.go:95-106 | in a complete collection nothing that a rule matches can lie at or below a link or special entry |
| CollectorLaws.ReportedPaths | internal/artifactcollect/file.go:307-313 | a rule reports exactly the paths it matched or was stopped at, and is unmatched exactly when there are none |
| CollectorLaws.ReportedBlock | internal/artifactcollect/file.go:307-313 | a rule is blocked exactly when it could match below some entry that is not opened |
| PipelineComparison.SameStringSet | internal/config/change.go:274-289 | counting up and down decides equality as multisets |
| PipelineComparison.ChangeList.CompareStringList | internal/config/change.go:110-130 | appends the specified changes of a list |
| PipelineComparison.ChangeList.CompareScenarios | internal/config/change.go:72-108 | appends the specified changes of the scenarios |
| PipelineComparison.ChangeList.CompareArtifacts | internal/config/change.go:132-163 | appends the specified changes of the artifacts |
| PipelineComparison.ChangeList.CompareIgnoreFields | internal/config/change.go:165-187 | appends the specified changes of the ignore fields |
| PipelineComparison.ComparePipelines | internal/config/change.go:46-70 | reports the specified changes of every field |
| PipelineChangeLaws.NoChangeMeansEqual | internal/config/change.go:46-70 | no change is reported exactly when two validated pipelines are equal in every field |
| PipelineChangeLaws.SameKeysSameOrder | internal/config/change.go:165-187 | for lists of distinct keys: nothing gone, nothing new and no reordering exactly when they are equal |
| PipelineChangeLaws.ListsEqual | internal/config/change.go:110-130 | a list compared place by place reports nothing exactly when equal, distinct or not |
| PipelineChangeLaws.ScenariosEqual | internal/config/change.go:72-108 | scenarios with distinct ids report nothing exactly when equal |
| PipelineChangeLaws.ArtifactsEqual | internal/config/change.go:132-163 | artifacts with distinct paths report nothing exactly when equal |
| PipelineChangeLaws.RepeatedFieldGoesUnreported | internal/config/validate.go:288-305 | without the distinctness that validation enforces a change goes unreported |
| PipelineChangeLaws.SwapMirrorsChanges | internal/config/change.go:46-289 | comparing the other way round reports the same multiset of changes with kinds, security effects and values mirrored |
| AttachFrames.EncodedIsObserved | internal/dockerengine/frames.go:25-45 | an encoded frame sequence reads back whole and without error |
| AttachFrames.TakeChunk | internal/dockerengine/frames.go:58-89 | one chunk: counted, delivered as far as the limit leaves room, or a sink failure |
| AttachFrames.TakePayload | internal/dockerengine/frames.go:46-91 | the chunk loop delivers a payload, or its whole chunks when it is cut short |
| AttachFrames.Decode | internal/dockerengine/frames.go:12-93 | for every input the error is the input's own, and what is delivered and counted per stream is the allowed prefix of what was read |
| AttachFrames.DecodeFrames | internal/dockerengine/frames.go:12-93 | decoding what an engine writes for any frames: each stream is delivered the first min(total, limit) bytes of its payloads, counts are those lengths, truncated exactly when total exceeds the limit; if the sink fails, what it has is still a part of what was sent |
| LeaseQueue.FirstAreUnique | internal/githubcontrollerstore/sourceoutbox.go:22 | which rows a claim takes is settled by what is open and by the limit |
| ControllerAnswers.SnapshotAnswer | internal/githubcontrollerstore/store.go:584-594 | of a new delivery's snapshot, in its own fields: the row is Closed with marked-closed exactly when it is closed or merged, Draft exactly when neither and draft, SourceUnavailable exactly when none of these and the head is unavailable, without repository or commit, and otherwise Eligible with scheduled-new-target or no-change |
| ControllerAnswers.SnapshotFillsRow | internal/githubcontrollerstore/store.go:392-397 | the row takes over the snapshot's base and head, result and row agree, and no other row changes |
| ControllerAnswers.EligibleTargetIsTheSnapshots | internal/githubcontrollerstore/store.go:338-345 | an eligible row stands at exactly the snapshot's repositories, commits and number, with a job of that target and generation |
| ControllerAnswers.CurrentTargetIsLeftAlone | internal/githubcontrollerstore/store.go:346-349 | no change is answered exactly when the row was eligible at this very target, and then nothing but the booking is written |
| ControllerAnswers.SnapshotReworks | internal/githubcontrollerstore/store.go:559-572 | any other snapshot supersedes all work of its pull request that could still run and touches no other work; a new target gets exactly one job, first attempt and pending request for the snapshot's sides, and every other snapshot inserts nothing |
| ControllerAnswers.SnapshotIsTaken | internal/githubcontrollerstore/store.go:411-428 | exactly when a new delivery's snapshot commits: its envelope fits, its lease is the row's, and its sides and a generation are there where they are needed |
| ControllerAnswers.RerequestAnswer | internal/githubcontrollerstore/rerequest.go:65-126 | a rerequest of an unbound or outdated check run is ignored; a current one adds exactly one queued attempt with the next number of the job |
| ControllerAnswers.RerequestIsTaken | internal/githubcontrollerstore/rerequest.go:37-98 | exactly when a new rerequest commits: lease, binding identity and a free attempt number |
| ControllerAnswers.HintAnswer | internal/githubcontrollerstore/installation.go:59-123 | a hint blocks exactly the eligible pull requests of the installation that its action withdraws, with all their live work, and nothing else |
| ControllerAnswers.HintIsTaken | internal/githubcontrollerstore/installation.go:11-48 | exactly when a new hint commits |
| ControllerAnswers.DecisionAnswer | internal/githubcontrollerstore/store.go:722-745 | a decision is booked as it is |
| ControllerAnswers.BindingAnswer | internal/githubcontrollerstore/rerequest.go:12-35 | a check run is bound once; the same binding again is accepted, another refused |
| ControllerAnswers.LeaseAnswer | internal/githubcontrollerstore/store.go:265-307 | a reconcile lease is given exactly when none is held or the held one has expired, with generation 1 or the next one |
| ControllerAnswers.NewDeliveryIsBooked | internal/githubcontrollerstore/store.go:455-462 | a new delivery is booked with exactly the decision, generation, target and job that are answered |
| ControllerAnswers.RedeliveryAnswer | internal/githubcontrollerstore/store.go:429-454 | a redelivery is answered from its booking and gives up its lease; nothing else is written |
| ControllerAnswers.RedeliveryIsTaken | internal/githubcontrollerstore/store.go:429-454 | exactly when a redelivery is answered: the same projection under the right envelope |
| ControllerAnswers.ClaimAnswer | internal/githubcontrollerstore/sourceoutbox.go:15-79 | a claim takes exactly the first pending or expired requests, raising lease generation and attempt count of each |
| ControllerAnswers.ClaimIsGranted | internal/githubcontrollerstore/sourceoutbox.go:15-79 | exactly when a claim is granted |
| ControllerAnswers.FinishAnswer | internal/githubcontrollerstore/sourceoutbox.go:81-106 | exactly the holder of the lease completes a request or gives it back, and changes that row alone |
| ControllerAnswers.ImportAnswer | internal/githubcontrollerstore/sourceoutbox.go:108-155 | exactly a well-formed result about the leased request is accepted; it completes or fails request and job, and nothing else |
| ControllerHistory.PullStandsAtItsLastSnapshot | internal/githubcontrollerstore/store.go:309-410 | over any run: each row stands at the last snapshot taken of it, eligible at exactly its commits if that was open with a head and no hint has withdrawn the repository since, and otherwise as that snapshot or hint says |
| ControllerHistory.BookingIsTheFirstAnswer | internal/githubcontrollerstore/store.go:429-462 | over any run: a booking holds what the step that first took the delivery was answered |
| ControllerHistory.RedeliveryRepeatsTheFirstAnswer | internal/githubcontrollerstore/store.go:429-454 | over any run: a redelivery repeats generation, target and job of the first answer |
| ControllerHistory.JobAtRunnerWasImported | internal/githubcontrollerstore/sourceoutbox.go:108-155 | over any run: a job is at the runner only because an accepted import brought exactly its repositories and commits |
| DeliveryAnswers.AcceptAnswer | internal/githubinbox/store.go:171-230 | first, duplicate, conflicting and clashing deliveries, with the record that the outbox gets |
| DeliveryAnswers.ClaimAnswer | internal/githubinbox/lease.go:12-93 | a claim takes exactly the first pending or expired records |
| DeliveryAnswers.ClaimIsGranted | internal/githubinbox/lease.go:12-109 | exactly when a claim is granted |
| DeliveryAnswers.FinishAnswer | internal/githubinbox/lease.go:122-167 | exactly the holder of the lease acknowledges a record or gives it back; acknowledging again is no error |
| ControllerProcessing.TransactionsAreCalledFor | internal/githubcontroller/controller.go:70-153 | whatever the interleaving, each transaction that carries a delivery is the one that its record calls for, on the pull request that its projection names |
| ControllerProcessing.ConclusionFinishesTheRecord | internal/githubcontroller/controller.go:167-186 | a controller whose lease is current acknowledges its record after success and gives it back after failure |
| ControllerProcessing.RerequestIsToldTheTarget | internal/githubcontroller/controller.go:155-165 | a rerequest is given the snapshot's target exactly when it is of an open pull request with a head, and of this one |
| ControllerProcessing.RerequestIsRouted | internal/githubcontroller/controller.go:122-137 | a check run is routed to the pull request of its binding, if binding and row are found |
| EvidenceSoundness.OnlyItsOwnFilesAreAccepted | internal/evidence/reader.go:332-372 | of any bundle: once it is accepted, no other files and folders are accepted with its manifest; whatever is changed, added or removed without the manifest is rejected |
| EvidenceSoundness.AcceptedExactlyWhenSound | internal/evidence/reader.go:193-222 | of any bundle: it is accepted exactly when its documents say of each other what they should; every digest, path, id, range, record, object, state and flag is compared with the file it stands for |
| EvidenceSoundness.AcceptedEventsAreNumbered | internal/evidence/reader.go:595-688 | of any accepted bundle: as many events as the execution says, each with the id of its number; in plan order they are numbered 1, 2, 3 and so on without gap exactly when no empty event file stands between two events |
| EvidenceSoundness.AcceptedRecordsAreIndexed | internal/evidence/reader.go:757-771 | of any accepted bundle: the manifest's records stand in the indexes, as many as stand there; they are all of them exactly when none is repeated |
| EvidenceBlindSpots.AcceptedThoughInconsistent | internal/evidence/reader.go:595-625 | a bundle that is accepted although two events have one number, a record is left out of the manifest, and the execution contradicts a result |
| EvidenceAnswers.EmitAnswer | internal/evidence/session.go:91-134 | an emit succeeds exactly when its event is the next of the run, for the current attempt or a later one, within all limits, and then it is the next line of that attempt's file |
| EvidenceAnswers.WriteLogAnswer | internal/evidence/logs.go:67-104 | a write keeps exactly as many bytes as both limits allow, counts all, marks what it drops and changes nothing else |
| EvidenceAnswers.LogHoldsWhatWasWritten | internal/evidence/logs.go:67-156 | over any session: a log file is the beginning of all that was written to it while open, and all of it unless its own limit or that of all logs is used up |
| EvidenceAnswers.OpenLogAnswer | internal/evidence/logs.go:23-57 | opening a log puts an empty file in place, once for each stream |
| EvidenceAnswers.MarkTruncatedAnswer | internal/evidence/logs.go:106-120 | a reported truncation counts at least one byte more than was written, and makes the evidence incomplete |
| EvidenceAnswers.CloseLogAnswer | internal/evidence/logs.go:122-156 | closing lists a log once, as truncated, empty or captured, with the digest of what it holds |
| EvidenceAnswers.OmissionAnswer | internal/evidence/artifacts.go:110-142 | an omission is recorded once for a path, as it is reported |
| EvidenceAnswers.CollectionCompleteAnswer | internal/evidence/artifacts.go:144-159 | a finished collection shows on an attempt that has no record |
| EvidenceAnswers.AddArtifactAnswer | internal/evidence/artifacts.go:16-108 | an artifact is stored whole exactly when records, its own limit, the total and what it declares allow it, and else recorded as omitted; a broken input and an unlisted object fail the session |
| EvidenceOutcomes.CommittedBundleSays | internal/evidence/manifest.go:12-81 | a committed bundle repeats plan, runner, results, records and failure, and calls its evidence complete exactly when execution and session are |
| EvidenceOutcomes.CommittedAttemptSays | internal/evidence/manifest.go:59-81 | it has each attempt as planned with the range of its events, and publishes its logs as they were kept |
| OccurrenceProfiles.ProfileSummarises | internal/compare/match.go:193-234 | a profile counts the complete repetitions and has the least and greatest number of facts among them |
| OccurrenceProfiles.ProfileGrows | internal/compare/match.go:193-234 | one repetition more adds its count exactly when it was observed completely |
| ComparatorAnswers.AnchorIsOfOneThing | internal/compare/digest.go:54-121 | two facts share an anchor exactly when kind, source and the identifying components of their payloads agree |
| ComparatorAnswers.ChangedFieldsAreTheDifferences | internal/compare/match.go:367-467 | the changed fields of two facts of one kind are exactly the names of the compared components that differ, for every payload |
| ComparatorAnswers.JoinedSettlesAddresses | internal/compare/match.go:406-408 | joining addresses with NUL tells lists apart, except the empty list and the list of one empty address |
| ComparatorAnswers.RecountedIsReported | internal/compare/match.go:78-97 | a variant of both sides with another profile is in exactly one record: stability changed when its repeatability differs, else count changed |
| ComparatorAnswers.PairIsReported | internal/compare/match.go:110-129 | two variants that are each other's only rivals under an anchor, of one kind and source, are reported as exactly one modification when a compared component differs, and it names exactly those components |
| ComparatorAnswers.UnchangedPairIsReportedApart | internal/compare/match.go:110-157 | when none differs, both are reported alone |
| ComparatorAnswers.UnpairedIsReported | internal/compare/match.go:130-157 | every other variant that the other side lacks is in exactly one record: added, removed or a change of coverage, ambiguous exactly when its anchor has rivals but no partner |
| ComparatorAnswers.OrderIsReported | internal/compare/match.go:475-525 | an order record exactly for two sides that each always have one order, two different ones of the same facts |
| ComparatorAnswers.EveryRecordNamesAVariant | internal/compare/match.go:59-166 | there are no other records |
| ComparatorAnswers.VariantIsItsFacts | internal/compare/match.go:168-183 | there is a variant for exactly the keys of the facts, with kind, source, digest and anchor of its first fact |
| ComparatorAnswers.FactStandsInOrder | internal/compare/match.go:168-183 | a variant holds its facts in trace order |
| ComparatorAnswers.EveryFactIsSighted | internal/compare/match.go:168-183 | every fact of every attempt is sighted once, in the repetition of its attempt |
| ComparatorAnswers.ComparableWhenPayloadsFit | internal/compare/digest.go:54-121 | the comparison fails exactly when the first fact of some key lacks the payload of its kind |
| GlobLaws.MatchesIffCut | internal/artifactcollect/pattern.go:5-50 | a path matches a pattern exactly when it can be cut into one piece for each component: one matching name, or any run of names for a double star |
| GlobLaws.SurvivesIffPrefixMatches | internal/artifactcollect/pattern.go:52-97 | the descendant search says yes exactly when a prefix of the pattern matches the path and something of the pattern is left for below |
| GlobLaws.PatternsCompose | internal/artifactcollect/pattern.go:5-50 | a pattern of two parts matches what its parts match one after the other |
| GoText.PartsMakeTheText | internal/artifactcollect/path.go:215-220 | splitting at slashes gives pieces without slashes that make up the text again |
| CollectorAnswers.FileIsStoredWhenItFits | internal/artifactcollect/file.go:46-68 | a matched regular file is stored exactly when its size is within maxBytes of every matching rule, the single-file limit and what is left of the total after the files before it; otherwise the artifact shows the least of these bounds |
| CollectorAnswers.FilesComeInOrder | internal/artifactcollect/file.go:30-34 | files are placed in path order |
| CollectorAnswers.RulesOfEntryMatch | internal/artifactcollect/file.go:86-121 | the rules of an artifact are exactly those whose pattern matches its path |
| CollectorAnswers.LastStopBlocks | internal/artifactcollect/file.go:307-313 | a rule that is stopped reports the kind of the entry that stopped it last |
| CollectorAnswers.UnstoppedMatches | internal/artifactcollect/file.go:307-313 | a rule that nothing stops has matched exactly when it matches something other than a directory |
| PipelineAnswers.ExactlyTheDifferencesAreReported | internal/config/change.go:46-246 | a change is reported exactly when there is one: for each text, number, script, list place, key and item that differs, at its path, with both values and the effect of its direction |
| PipelineAnswers.EveryPathIsReportedOnce | internal/config/change.go:46-70 | no path is reported twice |
| FrameLaws.EveryInputIsFramesAndRest | internal/dockerengine/frames.go:25-50 | every input is some whole frames and a rest that ends in one of five ways |
| FrameLaws.FramesAreRead | internal/dockerengine/frames.go:25-92 | reading such an input ends as the rest says, and each stream has the payloads of its frames and the whole 32 KiB pieces of one that is cut short |
| FrameLaws.EncodedIsOnWire | internal/dockerengine/frames.go:34-48 | the wire format: 1 or 2, three bytes, the size with its highest byte first, the payload |

## Left out

- SQLite, its pragmas, migrations and metadata binding: a committed transaction is atomic, and the uniqueness constraints are checks of the model.
- Clocks, lease durations and time formats: expiry is an input of each step, so safety rests on owner and generation; there is no claim of progress.
- Hashing: a SHA-256 is injective in what it is taken of. Credentials, secrets and tokens do not occur.
- HTTP handlers, the GitHub client, the broker, sockets, the Docker client, git subprocesses, command lines and the demo.
- The webhook receiver's own projection and cross-checks: a delivery comes with its projection.
- The source ingester's loop (`internal/githubsource/service.go`): its store calls are steps that may come at any time, in any order.
- `ClassifyWorkerResult`, `ReconcilePullRequestGeneration` and the tables of allowed transitions: the store does not go by them.
- JSON, YAML and their strict scanners: a JSON document is the value it encodes, a JSON line a text without line breaks.
- Files as the operating system has them: a bundle is a map of paths and a set of folders; modes, links, synchronising, renaming and races are not part of this model.
- EvidenceVerdict.ReaderAgreesWithWriter: the sizes, depths and characters that the reader's own limits and its strict JSON scanner refuse are not part of this model; the condition is exact for documents that read back as they were written.
- Byte and entry limits of a whole bundle: whether a call meets one is an input of the call, so that sizes of encoded documents need not be known. The limits for events, logs and artifacts are modelled with their sizes.
- EvidenceOutcomes.CommitSucceeds: failing writes, synchronisation and renaming are left out; so is cancellation.
- The order of manifest entries and artifact records in the manifest: the writer sorts and the reader checks it; the model asks for distinctness.
- EvidenceWriter.Writer.Commit: publishing the staged directory by renaming, and what `Abort` cleans up, are not part of this model.
- Comparator.CompareScenario: evidence references, fact snapshots re-sorted by id, summaries and record ids are not in the records; the facts themselves are, in trace order. Context cancellation is left out.
- The comparator's document level: grouping attempts by scenario, the final sort of all records and the limits on counts and bytes. That repetitions of one side differ and facts are valid is what the input checks establish, and is assumed where it is needed.
- Collector.CollectFromInventory: opening, hashing and re-checking a file is one question, whether it can be stored; the inventory walk is its result; limitations and the final sort of the artifact list are left out.
- `path.Match` on one component is any function with three answers.
- PipelineComparison.ComparePipelines: changes are in the order in which they are found, before the final sort; their paths are structured, where the program shows a bounded text.
- Validation of pipelines beyond the uniqueness that the analysis relies on.
- AttachFrames.Decode: the reader is the sequence of its bytes, the sink a callback that fails from some call on; context cancellation is left out.

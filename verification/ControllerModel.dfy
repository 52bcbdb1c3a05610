/** The rows of the controller store (internal/githubcontrollerstore/schema.go, types.go) and the
    identifiers of internal/githubapp. An id that the program computes as a SHA-256 over its fields
    is the tuple of those fields, so two ids are equal exactly when all their fields are. */
module ControllerModel {
  import opened Options

  const MAX_INT64: int := 0x7fff_ffff_ffff_ffff
  const MAX_ATTEMPTS_PER_TARGET: int := 32

  // ---------------------------------------------------------------- identities

  datatype PRKey = PRKey(installation: int, repository: int, number: int)

  datatype Target = Target(installation: int, baseRepository: int, headRepository: int, number: int,
                           baseCommit: string, headCommit: string)
  {
    function Key(): PRKey { PRKey(installation, baseRepository, number) }
  }

  datatype JobId = JobId(target: Target, generation: int)

  datatype AttemptReason = Initial | CheckRerequest

  datatype AttemptId = AttemptId(job: JobId, target: Target, generation: int, number: int, reason: AttemptReason)

  datatype RequestId = RequestId(target: Target, job: JobId, generation: int)

  datatype ProjectionKind =
    | PullRequestKind | CheckRunKind | InstallationKind | InstallationRepositoriesKind | OtherKind

  datatype OutboxId = OutboxId(receiver: string, delivery: string, fingerprint: string, kind: ProjectionKind)

  predicate ValidKey(key: PRKey) { key.installation > 0 && key.repository > 0 && key.number > 0 }

  predicate LowerHex(s: string, n: nat) {
    |s| == n && forall c | c in s :: '0' <= c <= '9' || 'a' <= c <= 'f'
  }

  predicate ValidObjectId(s: string) { LowerHex(s, 40) || LowerHex(s, 64) }

  predicate ValidTarget(t: Target) {
    && t.installation > 0 && t.baseRepository > 0 && t.headRepository > 0 && t.number > 0
    && ValidObjectId(t.baseCommit) && ValidObjectId(t.headCommit)
  }

  predicate ValidOwner(s: string) {
    && 0 < |s| <= 64 && 'a' <= s[0] <= 'z'
    && forall c | c in s :: 'a' <= c <= 'z' || '0' <= c <= '9' || c == '.' || c == '_' || c == '-'
  }

  predicate ValidRoute(s: string) {
    && 0 < |s| <= 256 && s != "." && s != ".."
    && forall c | c in s :: ' ' <= c && c != 0x7f as char && c != '/' && c != '?' && c != '#' && c != '\\'
  }

  // ---------------------------------------------------------------- rows

  datatype Eligibility = Eligible | Draft | Closed | SourceUnavailable | InstallationBlocked

  datatype Decision =
    | ScheduledNewTarget | NoChangeCurrentTarget | MarkedDraft | MarkedClosed | MarkedSourceUnavailable
    | BlockedInstallation | RerequestCreated | RerequestIgnored | InstallationHintRecorded
    | DuplicateProcessed | LegacyProjectionUnreconcilable

  datatype JobState =
    | JobQueued | ImportingSource | Planning | AwaitingRunner | JobRunning | ValidatingReport | ReadyToPublish
    | JobCompleted | JobFailed | JobSuperseded | JobCancelled
  {
    predicate Terminal() { JobCompleted? || JobFailed? || JobSuperseded? || JobCancelled? }
  }

  datatype AttemptState =
    | AttemptQueued | AttemptLeased | AttemptRunning | AttemptCompleted | AttemptFailed | AttemptCancelled
    | AttemptLeaseExpired
  {
    predicate Terminal() { AttemptCompleted? || AttemptFailed? || AttemptCancelled? }
  }

  datatype RequestState = Pending | Leased | RequestCompleted | RequestFailed | RequestSuperseded | RequestCancelled
  {
    predicate Open() { Pending? || Leased? }
  }

  /** One side of a pull request as the API reports it. */
  datatype Side = Side(repository: int, owner: string, name: string, commit: string)

  datatype Snapshot = Snapshot(number: int, closed: bool, merged: bool, draft: bool,
                               base: Side, headAvailable: bool, head: Side)

  datatype PRRow = PRRow(generation: int, eligibility: Eligibility, target: Option<Target>, job: Option<JobId>,
                         baseOwner: string, baseName: string, baseCommit: string,
                         headRepository: int, headCommit: string)

  datatype JobRow = JobRow(target: Target, generation: int, state: JobState)

  datatype AttemptRow = AttemptRow(job: JobId, target: Target, generation: int, number: int,
                                   reason: AttemptReason, state: AttemptState)

  datatype RequestRow = RequestRow(id: RequestId, target: Target, job: JobId, generation: int,
                                   installation: int, number: int, base: Side, head: Side, state: RequestState,
                                   owner: string, leaseGeneration: int, attempts: int)

  datatype LeaseRow = LeaseRow(owner: string, generation: int)

  datatype BindingKey = BindingKey(repository: int, checkRun: int)

  datatype CheckBinding = CheckBinding(app: int, installation: int, repository: int, number: int, checkRun: int,
                                       externalId: string, target: Target, job: JobId,
                                       controllerGeneration: int, publicationGeneration: int)

  datatype ProcessedRow = ProcessedRow(delivery: string, kind: ProjectionKind, digest: Projection, decision: Decision,
                                       generation: int, target: Option<Target>, job: Option<JobId>)

  /** The tables of one store. `source_requests` keeps its AUTOINCREMENT order: row i has sequence i + 1. */
  datatype Tables = Tables(
    processed: map<OutboxId, ProcessedRow>,
    leases: map<PRKey, LeaseRow>,
    pulls: map<PRKey, PRRow>,
    targets: set<Target>,
    jobs: map<JobId, JobRow>,
    attempts: map<AttemptId, AttemptRow>,
    requests: seq<RequestRow>,
    bindings: map<BindingKey, CheckBinding>)

  const EMPTY: Tables := Tables(map[], map[], map[], {}, map[], map[], [], map[])

  // ---------------------------------------------------------------- projections and inputs

  datatype Projection =
    | PullRequestProjection(installation: int, repository: int, number: int, owner: string, name: string)
    | CheckRunProjection(action: string, app: int, installation: int, repository: int, checkRun: int, externalId: string)
    | InstallationProjection(action: string, installation: int, repositories: seq<int>)
    | NoProjection

  /** A delivery as the controller books it; the projection digest stands for the projection. */
  datatype Delivery = Delivery(receiver: string, outbox: OutboxId, deliveryId: string, kind: ProjectionKind,
                               digest: Projection)

  datatype LeaseToken = LeaseToken(key: PRKey, owner: string, generation: int)

  /** The store's configuration. */
  datatype Config = Config(receiver: string, app: int, maxAttempts: int)

  datatype SnapshotInput = SnapshotInput(delivery: Delivery, lease: LeaseToken, snapshot: Snapshot)

  datatype RerequestInput = RerequestInput(delivery: Delivery, lease: LeaseToken, projection: Projection,
                                           snapshotTarget: Option<Target>)

  datatype ImportResult = ImportResult(request: RequestId, target: Target, job: JobId, generation: int,
                                       baseRepository: int, headRepository: int, baseCommit: string, headCommit: string,
                                       failed: bool)

  datatype ReconcileResult = ReconcileResult(decision: Decision, generation: int, target: Option<Target>,
                                             job: Option<JobId>, attempt: Option<AttemptId>, request: Option<RequestId>)

  datatype ErrorCode =
    | RecordInvalid | LeaseBusy | LeaseStale | GenerationOverflow | ProcessedConflict | BindingConflict
    | AttemptLimit | SourceLeaseStale | ConstraintViolated

  /** What a transaction reports. A transaction that reports an error has been rolled back. */
  datatype Reply =
    | Done(result: ReconcileResult)
    | Acquired(lease: LeaseToken)
    | Claimed(imports: seq<nat>)
    | Accepted
    | Rejected(code: ErrorCode)

  function Outcome(decision: Decision): ReconcileResult {
    ReconcileResult(decision, 0, None, None, None, None)
  }
}

/** The transactions of the controller store as functions on its tables: what a committed transaction
    writes, and that a rejected one writes nothing. The class in ControllerStore.dfy is proved against
    these functions; the theorems about runs are proved about them. */
module ControllerSpec {
  import opened ControllerModel
  import opened Options
  import opened LeaseQueue

  /** The body of a delivery transaction: new tables with a result, or an error that rolls it back. */
  datatype Effect = Written(tables: Tables, result: ReconcileResult) | Error(code: ErrorCode)

  // ---------------------------------------------------------------- shared row updates

  function GenerationOf(t: Tables, key: PRKey): int {
    if key in t.pulls then t.pulls[key].generation else 0
  }

  predicate IsEligible(t: Tables, key: PRKey) { key in t.pulls && t.pulls[key].eligibility.Eligible? }

  function CloseJobRow(row: JobRow, next: JobState): JobRow {
    if row.state.Terminal() then row else row.(state := next)
  }

  function CancelAttemptRow(row: AttemptRow): AttemptRow {
    if row.state.Terminal() then row else row.(state := AttemptCancelled)
  }

  function CloseRequestRow(row: RequestRow, next: RequestState): RequestRow {
    if row.state.Open() then row.(state := next) else row
  }

  function ClosedJobs(jobs: map<JobId, JobRow>, closing: set<JobId>, next: JobState): map<JobId, JobRow> {
    map id | id in jobs :: if id in closing then CloseJobRow(jobs[id], next) else jobs[id]
  }

  function CancelledAttempts(attempts: map<AttemptId, AttemptRow>, closing: set<JobId>): map<AttemptId, AttemptRow> {
    map id | id in attempts ::
      if attempts[id].job in closing then CancelAttemptRow(attempts[id]) else attempts[id]
  }

  function ClosedRequests(rows: seq<RequestRow>, closing: set<JobId>, next: RequestState): seq<RequestRow> {
    seq(|rows|, i requires 0 <= i < |rows| =>
      if rows[i].job in closing then CloseRequestRow(rows[i], next) else rows[i])
  }

  /** Closes jobs with everything open that belongs to them: their attempts and their source requests. */
  function CloseJobs(t: Tables, closing: set<JobId>, job: JobState, request: RequestState): Tables {
    t.(jobs := ClosedJobs(t.jobs, closing, job),
       attempts := CancelledAttempts(t.attempts, closing),
       requests := ClosedRequests(t.requests, closing, request))
  }

  function CurrentJob(t: Tables, key: PRKey): set<JobId> {
    if key in t.pulls && t.pulls[key].job.Some? then {t.pulls[key].job.value} else {}
  }

  function IndexOf(rows: seq<RequestRow>, id: RequestId): (i: nat)
    ensures i <= |rows|
    ensures forall k | 0 <= k < i :: rows[k].id != id
    ensures i < |rows| ==> rows[i].id == id
  {
    if rows == [] then 0 else if rows[0].id == id then 0 else 1 + IndexOf(rows[1..], id)
  }

  // ---------------------------------------------------------------- reconciling a snapshot

  function EligibilityFor(s: Snapshot): Eligibility {
    if s.closed || s.merged then Closed
    else if s.draft then Draft
    else if !s.headAvailable || s.head.repository <= 0 || s.head.commit == "" then SourceUnavailable
    else Eligible
  }

  function TargetOf(key: PRKey, s: Snapshot): Target {
    Target(key.installation, s.base.repository, s.head.repository, s.number, s.base.commit, s.head.commit)
  }

  function PullRow(s: Snapshot, generation: int, e: Eligibility, target: Option<Target>, job: Option<JobId>): PRRow {
    PRRow(generation, e, target, job, s.base.owner, s.base.name, s.base.commit, s.head.repository, s.head.commit)
  }

  function FirstAttempt(job: JobId): AttemptId { AttemptId(job, job.target, job.generation, 1, Initial) }

  function AttemptRowOf(id: AttemptId): AttemptRow {
    AttemptRow(id.job, id.target, id.generation, id.number, id.reason, AttemptQueued)
  }

  function RequestOf(job: JobId): RequestId { RequestId(job.target, job, job.generation) }

  function RequestRowOf(job: JobId, s: Snapshot): RequestRow {
    RequestRow(RequestOf(job), job.target, job, job.generation, job.target.installation, s.number, s.base, s.head,
               Pending, "", 0, 0)
  }

  predicate ValidSide(side: Side) {
    side.repository > 0 && ValidRoute(side.owner) && ValidRoute(side.name) && ValidObjectId(side.commit)
  }

  predicate ValidRequest(row: RequestRow) {
    row.generation > 0 && row.installation > 0 && row.number > 0 && ValidSide(row.base) && ValidSide(row.head)
  }

  predicate AttemptNumberTaken(t: Tables, job: JobId, number: int) {
    exists id | id in t.attempts :: t.attempts[id].job == job && t.attempts[id].number == number
  }

  /** Inserts a job with its first attempt and its source request, unless a key is taken. */
  function InsertWork(t: Tables, job: JobId, s: Snapshot): Effect {
    var attempt := FirstAttempt(job);
    var request := RequestRowOf(job, s);
    if job in t.jobs || attempt in t.attempts || AttemptNumberTaken(t, job, 1) then Error(ConstraintViolated)
    else if !ValidRequest(request) then Error(RecordInvalid)
    else if IndexOf(t.requests, request.id) < |t.requests| then Error(ConstraintViolated)
    else Written(
      t.(targets := t.targets + {job.target},
         jobs := t.jobs[job := JobRow(job.target, job.generation, ImportingSource)],
         attempts := t.attempts[attempt := AttemptRowOf(attempt)],
         requests := t.requests + [request]),
      ReconcileResult(ScheduledNewTarget, job.generation, Some(job.target), Some(job), Some(attempt), Some(request.id)))
  }

  function ReconcileEligible(t: Tables, key: PRKey, s: Snapshot): Effect {
    var target := TargetOf(key, s);
    if !ValidTarget(target) then Error(RecordInvalid)
    else if IsEligible(t, key) && t.pulls[key].target == Some(target) then
      Written(t, ReconcileResult(NoChangeCurrentTarget, GenerationOf(t, key), Some(target), t.pulls[key].job, None, None))
    else if GenerationOf(t, key) == MAX_INT64 then Error(GenerationOverflow)
    else
      var job := JobId(target, GenerationOf(t, key) + 1);
      var closed := CloseJobs(t, CurrentJob(t, key), JobSuperseded, RequestSuperseded);
      match InsertWork(closed, job, s)
      case Error(code) => Error(code)
      case Written(t', result) =>
        Written(t'.(pulls := t'.pulls[key := PullRow(s, job.generation, Eligible, Some(target), Some(job))]), result)
  }

  function IneligibleDecision(e: Eligibility): Decision {
    match e case Draft => MarkedDraft case Closed => MarkedClosed case _ => MarkedSourceUnavailable
  }

  function ReconcileIneligible(t: Tables, key: PRKey, s: Snapshot, e: Eligibility): Effect {
    var changed := GenerationOf(t, key) == 0 || t.pulls[key].eligibility != e;
    if changed && GenerationOf(t, key) == MAX_INT64 then Error(GenerationOverflow)
    else
      var generation := GenerationOf(t, key) + if changed then 1 else 0;
      var t' := if changed then CloseJobs(t, CurrentJob(t, key), JobSuperseded, RequestSuperseded) else t;
      Written(t'.(pulls := t'.pulls[key := PullRow(s, generation, e, None, None)]),
              ReconcileResult(IneligibleDecision(e), generation, None, None, None, None))
  }

  function Reconcile(t: Tables, key: PRKey, s: Snapshot): Effect {
    var e := EligibilityFor(s);
    if e.Eligible? then ReconcileEligible(t, key, s) else ReconcileIneligible(t, key, s, e)
  }

  // ---------------------------------------------------------------- booking deliveries, holding leases

  function DuplicateResult(row: ProcessedRow): ReconcileResult {
    ReconcileResult(DuplicateProcessed, row.generation, row.target, row.job, None, None)
  }

  function Book(t: Tables, d: Delivery, r: ReconcileResult): Tables {
    t.(processed := t.processed[d.outbox :=
      ProcessedRow(d.deliveryId, d.kind, d.digest, r.decision, r.generation, r.target, r.job)])
  }

  predicate HoldsLease(t: Tables, lease: LeaseToken) {
    lease.key in t.leases && t.leases[lease.key] == LeaseRow(lease.owner, lease.generation)
  }

  function Release(t: Tables, key: PRKey): Tables { t.(leases := t.leases - {key}) }

  /** Commits an effect under a reconcile lease: book the delivery and give the lease up. */
  function CommitLeased(t: Tables, d: Delivery, lease: LeaseToken, effect: Effect): (Tables, Reply) {
    if d.outbox in t.processed then
      if t.processed[d.outbox].digest != d.digest then (t, Rejected(ProcessedConflict))
      else if !HoldsLease(t, lease) then (t, Rejected(LeaseStale))
      else (Release(t, lease.key), Done(DuplicateResult(t.processed[d.outbox])))
    else match effect
      case Error(code) => (t, Rejected(code))
      case Written(t', result) =>
        if !HoldsLease(t, lease) then (t, Rejected(LeaseStale))
        else (Release(Book(t', d, result), lease.key), Done(result))
  }

  /** Commits an effect that needs no lease. */
  function CommitUnleased(t: Tables, d: Delivery, effect: Effect): (Tables, Reply) {
    if d.outbox in t.processed then
      if t.processed[d.outbox].digest != d.digest then (t, Rejected(ProcessedConflict))
      else (t, Done(DuplicateResult(t.processed[d.outbox])))
    else match effect
      case Error(code) => (t, Rejected(code))
      case Written(t', result) => (Book(t', d, result), Done(result))
  }

  /** `timely` says that the clock values of a call passed its checks. */
  function SnapshotProblem(cfg: Config, inp: SnapshotInput, timely: bool): Option<ErrorCode> {
    if inp.delivery.receiver != cfg.receiver || inp.delivery.deliveryId == "" || !inp.delivery.kind.PullRequestKind? then
      Some(RecordInvalid)
    else if !ValidKey(inp.lease.key) then Some(RecordInvalid)
    else if !ValidOwner(inp.lease.owner) || inp.lease.generation <= 0 || !timely then Some(LeaseStale)
    else if inp.snapshot.number != inp.lease.key.number || inp.snapshot.base.repository != inp.lease.key.repository then
      Some(RecordInvalid)
    else None
  }

  function ApplySnapshot(cfg: Config, t: Tables, inp: SnapshotInput, timely: bool): (Tables, Reply) {
    match SnapshotProblem(cfg, inp, timely)
    case Some(code) => (t, Rejected(code))
    case None => CommitLeased(t, inp.delivery, inp.lease, Reconcile(t, inp.lease.key, inp.snapshot))
  }

  function AcquireLease(t: Tables, key: PRKey, owner: string, expired: bool, timely: bool): (Tables, Reply) {
    if !ValidKey(key) || !ValidOwner(owner) || !timely then (t, Rejected(RecordInvalid))
    else if key !in t.leases then
      (t.(leases := t.leases[key := LeaseRow(owner, 1)]), Acquired(LeaseToken(key, owner, 1)))
    else if !expired then (t, Rejected(LeaseBusy))
    else if t.leases[key].generation == MAX_INT64 then (t, Rejected(GenerationOverflow))
    else
      var generation := t.leases[key].generation + 1;
      (t.(leases := t.leases[key := LeaseRow(owner, generation)]), Acquired(LeaseToken(key, owner, generation)))
  }

  // ---------------------------------------------------------------- check-run rerequests

  ghost function Highest(numbers: set<int>): (m: int)
    ensures forall n | n in numbers :: n <= m
    ensures numbers == {} ==> m == 0
    ensures numbers != {} ==> m in numbers
  {
    if exists n :: n in numbers then
      var n :| n in numbers;
      assert numbers == (numbers - {n}) + {n};
      var m := Highest(numbers - {n});
      if numbers == {n} || n >= m then n else m
    else 0
  }

  function AttemptNumbers(t: Tables, job: JobId): set<int> {
    set id | id in t.attempts && t.attempts[id].job == job :: t.attempts[id].number
  }

  predicate RerequestIsCurrent(t: Tables, key: PRKey, b: CheckBinding, snapshotTarget: Option<Target>) {
    && IsEligible(t, key)
    && t.pulls[key].generation == b.controllerGeneration
    && t.pulls[key].target == Some(b.target)
    && t.pulls[key].job == Some(b.job)
    && snapshotTarget == Some(b.target)
  }

  ghost function Rerequest(cfg: Config, t: Tables, inp: RerequestInput): Effect
    requires inp.projection.CheckRunProjection?
  {
    var bkey := BindingKey(inp.projection.repository, inp.projection.checkRun);
    if bkey !in t.bindings then Written(t, Outcome(RerequestIgnored))
    else
      var b := t.bindings[bkey];
      if b.installation != inp.projection.installation || b.externalId != inp.projection.externalId
         || b.number != inp.lease.key.number then Error(BindingConflict)
      else if !RerequestIsCurrent(t, inp.lease.key, b, inp.snapshotTarget) then
        Written(t, ReconcileResult(RerequestIgnored, GenerationOf(t, inp.lease.key), Some(b.target), Some(b.job), None, None))
      else
        var next := Highest(AttemptNumbers(t, b.job)) + 1;
        var attempt := AttemptId(b.job, b.target, b.controllerGeneration, next, CheckRerequest);
        if next > cfg.maxAttempts then Error(AttemptLimit)
        else if b.controllerGeneration <= 0 || next <= 0 || next > MAX_ATTEMPTS_PER_TARGET then Error(RecordInvalid)
        else if attempt in t.attempts || AttemptNumberTaken(t, b.job, next) then Error(ConstraintViolated)
        else Written(t.(attempts := t.attempts[attempt := AttemptRowOf(attempt)]),
                     ReconcileResult(RerequestCreated, b.controllerGeneration, Some(b.target), Some(b.job), Some(attempt), None))
  }

  predicate RerequestInputValid(cfg: Config, inp: RerequestInput, timely: bool) {
    && timely
    && inp.delivery.kind.CheckRunKind? && inp.delivery.receiver == cfg.receiver
    && inp.projection.CheckRunProjection? && inp.projection.action == "rerequested"
    && inp.projection.app == cfg.app && inp.projection.checkRun > 0
  }

  ghost function ApplyRerequest(cfg: Config, t: Tables, inp: RerequestInput, timely: bool): (Tables, Reply) {
    if !RerequestInputValid(cfg, inp, timely) then (t, Rejected(RecordInvalid))
    else CommitLeased(t, inp.delivery, inp.lease, Rerequest(cfg, t, inp))
  }

  function RegisterBinding(cfg: Config, t: Tables, b: CheckBinding): (Tables, Reply) {
    var bkey := BindingKey(b.repository, b.checkRun);
    if b.app != cfg.app || b.installation <= 0 || b.repository <= 0 || b.number <= 0 || b.checkRun <= 0
       || b.externalId == "" || b.controllerGeneration <= 0 || b.publicationGeneration <= 0 then (t, Rejected(RecordInvalid))
    else if bkey in t.bindings then (t, if t.bindings[bkey] == b then Accepted else Rejected(BindingConflict))
    else (t.(bindings := t.bindings[bkey := b]), Accepted)
  }

  // ---------------------------------------------------------------- installation hints

  predicate Invalidates(action: string) {
    action == "deleted" || action == "suspend" || action == "suspended" || action == "removed"
    || action == "repositories_removed"
  }

  predicate AffectsRepository(action: string, repositories: seq<int>, repository: int) {
    action == "deleted" || action == "suspend" || action == "suspended" || repository in repositories
  }

  function BlockedKeys(t: Tables, p: Projection): set<PRKey>
    requires p.InstallationProjection?
  {
    set key | key in t.pulls && key.installation == p.installation && t.pulls[key].eligibility.Eligible?
              && AffectsRepository(p.action, p.repositories, key.repository)
  }

  function BlockedRow(row: PRRow): PRRow {
    row.(generation := row.generation + 1, eligibility := InstallationBlocked, target := None, job := None)
  }

  function BlockedPulls(pulls: map<PRKey, PRRow>, keys: set<PRKey>): map<PRKey, PRRow> {
    map key | key in pulls :: if key in keys then BlockedRow(pulls[key]) else pulls[key]
  }

  function JobsOf(t: Tables, keys: set<PRKey>): set<JobId> {
    set key | key in keys && key in t.pulls && t.pulls[key].job.Some? :: t.pulls[key].job.value
  }

  function BlockPulls(t: Tables, keys: set<PRKey>): Tables {
    CloseJobs(t, JobsOf(t, keys), JobCancelled, RequestCancelled).(pulls := BlockedPulls(t.pulls, keys))
  }

  function Invalidate(t: Tables, p: Projection): Effect
    requires p.InstallationProjection?
  {
    var keys := if Invalidates(p.action) then BlockedKeys(t, p) else {};
    if exists key | key in keys && key in t.pulls :: t.pulls[key].generation == MAX_INT64 then Error(GenerationOverflow)
    else if keys == {} then Written(t, Outcome(InstallationHintRecorded))
    else Written(BlockPulls(t, keys), Outcome(BlockedInstallation))
  }

  predicate HintValid(cfg: Config, d: Delivery, p: Projection, timely: bool) {
    && timely && d.receiver == cfg.receiver
    && p.InstallationProjection? && p.installation > 0
    && (d.kind.InstallationKind? || d.kind.InstallationRepositoriesKind?)
  }

  function ApplyInstallationHint(cfg: Config, t: Tables, d: Delivery, p: Projection, timely: bool): (Tables, Reply) {
    if !HintValid(cfg, d, p, timely) then (t, Rejected(RecordInvalid))
    else CommitUnleased(t, d, Invalidate(t, p))
  }

  function RecordDecision(cfg: Config, t: Tables, d: Delivery, decision: Decision, timely: bool): (Tables, Reply) {
    if d.receiver != cfg.receiver || !timely then (t, Rejected(RecordInvalid))
    else CommitUnleased(t, d, Written(t, Outcome(decision)))
  }

  // ---------------------------------------------------------------- the source-import queue

  /** A claim may take a pending row, or a leased one that it finds expired. */
  predicate Claimable(rows: seq<RequestRow>, expired: set<nat>, i: nat)
    requires i < |rows|
  {
    rows[i].state.Pending? || (rows[i].state.Leased? && i in expired)
  }

  function ClaimableRows(rows: seq<RequestRow>, expired: set<nat>): set<nat> {
    set i: nat | 0 <= i < |rows| && Claimable(rows, expired, i)
  }

  function Candidates(rows: seq<RequestRow>, expired: set<nat>, limit: nat): seq<nat> {
    FirstOf(ClaimableRows(rows, expired), |rows|, 0, limit)
  }

  function ClaimedRow(row: RequestRow, owner: string): RequestRow {
    row.(state := Leased, owner := owner, leaseGeneration := row.leaseGeneration + 1, attempts := row.attempts + 1)
  }

  function ClaimRows(rows: seq<RequestRow>, chosen: seq<nat>, owner: string): seq<RequestRow> {
    seq(|rows|, i requires 0 <= i < |rows| => if i in chosen then ClaimedRow(rows[i], owner) else rows[i])
  }

  function ClaimImports(t: Tables, owner: string, expired: set<nat>, limit: int, timely: bool): (Tables, Reply) {
    if !ValidOwner(owner) || !timely || limit <= 0 || limit > 100 then (t, Rejected(RecordInvalid))
    else
      var chosen := Candidates(t.requests, expired, limit);
      if exists i | i in chosen ::
           t.requests[i].leaseGeneration == MAX_INT64 || t.requests[i].attempts == MAX_INT64 then
        (t, Rejected(SourceLeaseStale))
      else (t.(requests := ClaimRows(t.requests, chosen, owner)), Claimed(chosen))
  }

  predicate HoldsImport(row: RequestRow, owner: string, generation: int) {
    row.owner == owner && row.leaseGeneration == generation && row.state.Leased?
  }

  /** Acknowledging or releasing a claimed request, without its job. */
  function FinishImport(t: Tables, id: RequestId, owner: string, generation: int, acknowledge: bool, timely: bool): (Tables, Reply) {
    var i := IndexOf(t.requests, id);
    if !ValidOwner(owner) || generation <= 0 || !timely then (t, Rejected(SourceLeaseStale))
    else if i == |t.requests| || !HoldsImport(t.requests[i], owner, generation) then (t, Rejected(SourceLeaseStale))
    else
      (t.(requests := t.requests[i := t.requests[i].(state := if acknowledge then RequestCompleted else Pending)]), Accepted)
  }

  predicate ResultValid(r: ImportResult, owner: string, generation: int, wellFormed: bool) {
    && r.generation > 0 && r.baseRepository > 0 && r.headRepository > 0
    && ValidObjectId(r.baseCommit) && ValidObjectId(r.headCommit)
    && ValidOwner(owner) && generation > 0 && (r.failed || wellFormed)
  }

  predicate ResultMatches(r: ImportResult, row: RequestRow) {
    && row.target == r.target && row.job == r.job && row.generation == r.generation
    && row.base.repository == r.baseRepository && row.head.repository == r.headRepository
    && row.base.commit == r.baseCommit && row.head.commit == r.headCommit
  }

  function MoveJob(jobs: map<JobId, JobRow>, job: JobId, generation: int, next: JobState): map<JobId, JobRow> {
    if job in jobs && jobs[job].generation == generation && jobs[job].state.ImportingSource? then
      jobs[job := jobs[job].(state := next)]
    else jobs
  }

  /** Applying the result of an import: it closes the request and moves its job on. `wellFormed`
      says that the metadata of a successful result passed its format checks. */
  function ApplyImport(t: Tables, r: ImportResult, owner: string, generation: int, wellFormed: bool, timely: bool): (Tables, Reply) {
    var i := IndexOf(t.requests, r.request);
    if !timely || !ResultValid(r, owner, generation, wellFormed) then (t, Rejected(RecordInvalid))
    else if i == |t.requests| || t.requests[i].owner != owner || t.requests[i].leaseGeneration != generation then
      (t, Rejected(SourceLeaseStale))
    else if !t.requests[i].state.Leased? || !ResultMatches(r, t.requests[i]) then (t, Rejected(RecordInvalid))
    else
      var request := if r.failed then RequestFailed else RequestCompleted;
      var job := if r.failed then JobFailed else AwaitingRunner;
      (t.(requests := t.requests[i := t.requests[i].(state := request)],
          jobs := MoveJob(t.jobs, r.job, r.generation, job)), Accepted)
  }

  // ---------------------------------------------------------------- steps

  /** One committed or rejected transaction. Whether a lease has expired is whatever the clock says,
      so it is part of the step. */
  datatype Step =
    | Acquire(key: PRKey, owner: string, expired: bool, timely: bool)
    | SnapshotStep(snapshot: SnapshotInput, timely: bool)
    | RerequestStep(rerequest: RerequestInput, timely: bool)
    | HintStep(hinted: Delivery, hint: Projection, timely: bool)
    | DecisionStep(decided: Delivery, decision: Decision, timely: bool)
    | BindingStep(binding: CheckBinding)
    | ClaimStep(claimant: string, lapsed: set<nat>, limit: int, timely: bool)
    | FinishStep(finished: RequestId, holder: string, lease: int, acknowledge: bool, timely: bool)
    | ImportStep(imported: ImportResult, holder: string, lease: int, wellFormed: bool, timely: bool)

  ghost function Exec(cfg: Config, t: Tables, step: Step): (Tables, Reply) {
    match step
    case Acquire(key, owner, expired, timely) => AcquireLease(t, key, owner, expired, timely)
    case SnapshotStep(inp, timely) => ApplySnapshot(cfg, t, inp, timely)
    case RerequestStep(inp, timely) => ApplyRerequest(cfg, t, inp, timely)
    case HintStep(d, p, timely) => ApplyInstallationHint(cfg, t, d, p, timely)
    case DecisionStep(d, decision, timely) => RecordDecision(cfg, t, d, decision, timely)
    case BindingStep(b) => RegisterBinding(cfg, t, b)
    case ClaimStep(owner, expired, limit, timely) => ClaimImports(t, owner, expired, limit, timely)
    case FinishStep(id, owner, generation, ack, timely) => FinishImport(t, id, owner, generation, ack, timely)
    case ImportStep(r, owner, generation, wellFormed, timely) => ApplyImport(t, r, owner, generation, wellFormed, timely)
  }

  ghost function After(cfg: Config, t: Tables, step: Step): Tables { Exec(cfg, t, step).0 }

  ghost function ReplyTo(cfg: Config, t: Tables, step: Step): Reply { Exec(cfg, t, step).1 }

  /** The tables after a run: any interleaving of transactions of any number of processes. */
  ghost function State(cfg: Config, run: seq<Step>): Tables {
    if run == [] then EMPTY else After(cfg, State(cfg, run[..|run| - 1]), run[|run| - 1])
  }
}

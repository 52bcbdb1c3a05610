/** What every transaction of the controller store keeps: live work belongs to the current job of an
    eligible pull request. */
module ControllerInvariant {
  import opened ControllerModel
  import opened Options
  import opened ControllerSpec

  // ---------------------------------------------------------------- the invariant

  predicate IsCurrent(t: Tables, job: JobId) {
    job.target.Key() in t.pulls && t.pulls[job.target.Key()].job == Some(job)
  }

  ghost predicate PullOk(t: Tables, key: PRKey)
    requires key in t.pulls
  {
    var row := t.pulls[key];
    && 1 <= row.generation <= MAX_INT64
    && match row.job
       case None => !row.eligibility.Eligible? && row.target.None?
       case Some(job) => row.eligibility.Eligible? && row.target == Some(job.target) && job.generation == row.generation
                         && job.target.Key() == key && job in t.jobs
  }

  ghost predicate JobOk(t: Tables, id: JobId)
    requires id in t.jobs
  {
    var row := t.jobs[id];
    && row.target == id.target && row.generation == id.generation
    && id.target.Key() in t.pulls && 1 <= id.generation <= t.pulls[id.target.Key()].generation
    && (!row.state.Terminal() ==> IsCurrent(t, id))
  }

  ghost predicate AttemptOk(t: Tables, id: AttemptId)
    requires id in t.attempts
  {
    var row := t.attempts[id];
    && row == AttemptRowOf(id).(state := row.state)
    && id.job in t.jobs && id.target == id.job.target && id.generation == id.job.generation && id.number >= 1
    && (!row.state.Terminal() ==> IsCurrent(t, id.job))
  }

  ghost predicate RequestOk(t: Tables, row: RequestRow) {
    && row.id == RequestOf(row.job) && row.target == row.job.target && row.generation == row.job.generation
    && row.job in t.jobs && row.leaseGeneration >= 0
    && (row.state.Open() ==> IsCurrent(t, row.job) && t.jobs[row.job].state.ImportingSource?)
  }

  ghost predicate PullsOk(t: Tables) { forall key {:trigger PullOk(t, key)} | key in t.pulls :: PullOk(t, key) }
  ghost predicate JobsOk(t: Tables) { forall id {:trigger JobOk(t, id)} | id in t.jobs :: JobOk(t, id) }
  ghost predicate RequestsOk(t: Tables) {
    forall i {:trigger RequestOk(t, t.requests[i])} | 0 <= i < |t.requests| :: RequestOk(t, t.requests[i])
  }

  ghost predicate RequestsUnique(rows: seq<RequestRow>) { forall i, j | 0 <= i < j < |rows| :: rows[i].id != rows[j].id }
  ghost predicate AttemptsOk(t: Tables) { forall id {:trigger AttemptOk(t, id)} | id in t.attempts :: AttemptOk(t, id) }

  ghost predicate NumbersUnique(t: Tables) {
    forall a, b | a in t.attempts && b in t.attempts && a.job == b.job && a.number == b.number :: a == b
  }

  ghost predicate LeaseOk(key: PRKey, row: LeaseRow) {
    ValidKey(key) && ValidOwner(row.owner) && 1 <= row.generation <= MAX_INT64
  }

  ghost predicate LeasesOk(leases: map<PRKey, LeaseRow>) { forall key | key in leases :: LeaseOk(key, leases[key]) }

  ghost predicate Inv(t: Tables) {
    && PullsOk(t) && JobsOk(t) && AttemptsOk(t) && NumbersUnique(t)
    && RequestsOk(t) && RequestsUnique(t.requests) && LeasesOk(t.leases)
  }

  // ---------------------------------------------------------------- settling: nothing new becomes live

  /** Nothing of the pull request is left that could still run. */
  ghost predicate Idle(t: Tables, key: PRKey) {
    && (forall id | id in t.jobs && id.target.Key() == key :: t.jobs[id].state.Terminal())
    && (forall id | id in t.attempts && id.job.target.Key() == key :: t.attempts[id].state.Terminal())
    && (forall i | 0 <= i < |t.requests| && t.requests[i].job.target.Key() == key :: !t.requests[i].state.Open())
  }

  ghost predicate PullSettles(t: Tables, t': Tables, key: PRKey)
    requires key in t'.pulls
  {
    var row := t'.pulls[key];
    || (key in t.pulls && row == t.pulls[key])
    || (row.job.None? && row.target.None? && !row.eligibility.Eligible?
        && 1 <= row.generation <= MAX_INT64 && GenerationOf(t, key) <= row.generation && Idle(t', key))
  }

  ghost predicate PullsSettle(t: Tables, t': Tables) {
    t.pulls.Keys <= t'.pulls.Keys && forall key {:trigger PullSettles(t, t', key)} | key in t'.pulls :: PullSettles(t, t', key)
  }

  ghost predicate JobSettles(row: JobRow, row': JobRow) {
    row' == row.(state := row'.state) && (row.state.Terminal() ==> row'.state.Terminal())
  }

  ghost predicate JobsSettle(t: Tables, t': Tables) {
    && t'.jobs.Keys == t.jobs.Keys
    && forall id {:trigger t'.jobs[id]} | id in t'.jobs :: JobSettles(t.jobs[id], t'.jobs[id])
  }

  ghost predicate AttemptSettles(row: AttemptRow, row': AttemptRow) {
    row' == row.(state := row'.state) && (row.state.Terminal() ==> row'.state.Terminal())
  }

  ghost predicate AttemptsSettle(t: Tables, t': Tables) {
    && t'.attempts.Keys == t.attempts.Keys
    && forall id {:trigger t'.attempts[id]} | id in t'.attempts :: AttemptSettles(t.attempts[id], t'.attempts[id])
  }

  ghost predicate RequestSettles(t: Tables, t': Tables, i: nat)
    requires i < |t.requests| && i < |t'.requests|
  {
    var row, row' := t.requests[i], t'.requests[i];
    && row'.id == row.id && row'.target == row.target && row'.job == row.job && row'.generation == row.generation
    && row.leaseGeneration <= row'.leaseGeneration
    && (row'.state.Open() ==> row.state.Open() && row.job in t.jobs && row.job in t'.jobs
                              && t'.jobs[row.job].state == t.jobs[row.job].state)
  }

  ghost predicate RequestsSettle(t: Tables, t': Tables) {
    |t'.requests| == |t.requests| && forall i {:trigger RequestSettles(t, t', i)} | 0 <= i < |t.requests| :: RequestSettles(t, t', i)
  }

  /** A change that may close work, retire idle pull requests and hand requests around, no more. */
  ghost predicate Settles(t: Tables, t': Tables) {
    PullsSettle(t, t') && JobsSettle(t, t') && AttemptsSettle(t, t') && RequestsSettle(t, t')
  }

  lemma SettlingKeepsPullsAndJobs(t: Tables, t': Tables)
    requires PullsOk(t) && JobsOk(t) && Settles(t, t')
    ensures PullsOk(t') && JobsOk(t')
  {
    forall key | key in t'.pulls ensures PullOk(t', key) {
      assert PullSettles(t, t', key);
      assert key in t.pulls ==> PullOk(t, key);
    }
    forall id | id in t'.jobs ensures JobOk(t', id) {
      assert JobOk(t, id);
      assert PullSettles(t, t', id.target.Key());
    }
  }

  lemma SettlingKeepsAttempts(t: Tables, t': Tables)
    requires AttemptsOk(t) && NumbersUnique(t) && Settles(t, t')
    ensures AttemptsOk(t') && NumbersUnique(t')
  {
    forall id | id in t'.attempts ensures AttemptOk(t', id) {
      assert AttemptOk(t, id);
      if !t'.attempts[id].state.Terminal() {
        assert PullSettles(t, t', id.job.target.Key());
      }
    }
  }

  lemma SettlingKeepsRequests(t: Tables, t': Tables)
    requires RequestsOk(t) && RequestsUnique(t.requests) && Settles(t, t')
    ensures RequestsOk(t') && RequestsUnique(t'.requests)
  {
    forall i | 0 <= i < |t'.requests| ensures RequestOk(t', t'.requests[i]) {
      assert RequestOk(t, t.requests[i]) && RequestSettles(t, t', i);
      if t'.requests[i].state.Open() {
        assert PullSettles(t, t', t.requests[i].job.target.Key());
      }
    }
    forall i, j | 0 <= i < j < |t'.requests| ensures t'.requests[i].id != t'.requests[j].id {
      assert RequestSettles(t, t', i) && RequestSettles(t, t', j);
    }
  }

  lemma SettlingKeepsInv(t: Tables, t': Tables)
    requires Inv(t) && Settles(t, t') && LeasesOk(t'.leases)
    ensures Inv(t')
  {
    SettlingKeepsPullsAndJobs(t, t');
    SettlingKeepsAttempts(t, t');
    SettlingKeepsRequests(t, t');
  }

  // ---------------------------------------------------------------- closing jobs

  lemma CloseJobsSettles(t: Tables, closing: set<JobId>, job: JobState, request: RequestState)
    requires RequestsOk(t) && job.Terminal() && !request.Open()
    ensures Settles(t, CloseJobs(t, closing, job, request))
  {
    var t' := CloseJobs(t, closing, job, request);
    forall i | 0 <= i < |t.requests| ensures RequestSettles(t, t', i) { assert RequestOk(t, t.requests[i]); }
  }

  lemma CloseJobsLeavesIdle(t: Tables, closing: set<JobId>, job: JobState, request: RequestState, key: PRKey)
    requires JobsOk(t) && AttemptsOk(t) && RequestsOk(t) && job.Terminal() && !request.Open()
    requires CurrentJob(t, key) <= closing
    ensures Idle(CloseJobs(t, closing, job, request), key)
  {
    var t' := CloseJobs(t, closing, job, request);
    forall id | id in t'.jobs && id.target.Key() == key ensures t'.jobs[id].state.Terminal() { assert JobOk(t, id); }
    forall id | id in t'.attempts && id.job.target.Key() == key ensures t'.attempts[id].state.Terminal() {
      assert AttemptOk(t, id);
    }
    forall i | 0 <= i < |t'.requests| && t'.requests[i].job.target.Key() == key ensures !t'.requests[i].state.Open() {
      assert RequestOk(t, t.requests[i]);
    }
  }

  lemma CloseCurrent(t: Tables, key: PRKey) returns (closed: Tables)
    requires Inv(t)
    ensures closed == CloseJobs(t, CurrentJob(t, key), JobSuperseded, RequestSuperseded)
    ensures Inv(closed) && Idle(closed, key)
  {
    closed := CloseJobs(t, CurrentJob(t, key), JobSuperseded, RequestSuperseded);
    CloseJobsSettles(t, CurrentJob(t, key), JobSuperseded, RequestSuperseded);
    CloseJobsLeavesIdle(t, CurrentJob(t, key), JobSuperseded, RequestSuperseded, key);
    SettlingKeepsInv(t, closed);
  }

  lemma RetireKeepsInv(t: Tables, key: PRKey, row: PRRow)
    requires Inv(t) && Idle(t, key)
    requires row.target.None? && row.job.None? && !row.eligibility.Eligible?
    requires 1 <= row.generation <= MAX_INT64 && GenerationOf(t, key) <= row.generation
    ensures Inv(t.(pulls := t.pulls[key := row]))
  {
    var t' := t.(pulls := t.pulls[key := row]);
    forall i | 0 <= i < |t.requests| ensures RequestSettles(t, t', i) { assert RequestOk(t, t.requests[i]); }
    assert forall k | k in t'.pulls :: PullSettles(t, t', k);
    SettlingKeepsInv(t, t');
  }

  // ---------------------------------------------------------------- scheduling a new job

  /** A job of a generation that was never used meets no existing key. */
  lemma InsertWorkMeetsNoKey(t: Tables, job: JobId, s: Snapshot)
    requires JobsOk(t) && AttemptsOk(t) && RequestsOk(t) && job.generation > GenerationOf(t, job.target.Key())
    ensures InsertWork(t, job, s) != Error(ConstraintViolated)
  {
    assert job in t.jobs ==> JobOk(t, job);
    forall id | id in t.attempts ensures id.job != job && t.attempts[id].job != job { assert AttemptOk(t, id); }
    var i := IndexOf(t.requests, RequestOf(job));
    assert i < |t.requests| ==> RequestOk(t, t.requests[i]);
  }

  /** The tables with a new current job for an idle pull request, as `Reconcile` builds them. */
  function Scheduled(t: Tables, key: PRKey, job: JobId, s: Snapshot): Tables {
    t.(targets := t.targets + {job.target},
       jobs := t.jobs[job := JobRow(job.target, job.generation, ImportingSource)],
       attempts := t.attempts[FirstAttempt(job) := AttemptRowOf(FirstAttempt(job))],
       requests := t.requests + [RequestRowOf(job, s)],
       pulls := t.pulls[key := PullRow(s, job.generation, Eligible, Some(job.target), Some(job))])
  }

  ghost predicate CanSchedule(t: Tables, key: PRKey, job: JobId) {
    && Inv(t) && Idle(t, key) && job.target.Key() == key
    && 1 <= job.generation <= MAX_INT64 && job.generation == GenerationOf(t, key) + 1
  }

  lemma ScheduleKeepsPullsAndJobs(t: Tables, key: PRKey, job: JobId, s: Snapshot)
    requires CanSchedule(t, key, job)
    ensures PullsOk(Scheduled(t, key, job, s)) && JobsOk(Scheduled(t, key, job, s))
  {
    var t' := Scheduled(t, key, job, s);
    forall k | k in t'.pulls ensures PullOk(t', k) { assert k != key ==> PullOk(t, k); }
    forall id | id in t'.jobs ensures JobOk(t', id) { assert id != job ==> JobOk(t, id); }
  }

  lemma ScheduleKeepsAttempts(t: Tables, key: PRKey, job: JobId, s: Snapshot)
    requires CanSchedule(t, key, job)
    ensures AttemptsOk(Scheduled(t, key, job, s)) && NumbersUnique(Scheduled(t, key, job, s))
  {
    var t' := Scheduled(t, key, job, s);
    assert job in t.jobs ==> JobOk(t, job);
    forall id | id in t.attempts ensures id.job != job { assert AttemptOk(t, id); }
    forall id | id in t'.attempts ensures AttemptOk(t', id) { assert id != FirstAttempt(job) ==> AttemptOk(t, id); }
  }

  lemma ScheduleKeepsRequests(t: Tables, key: PRKey, job: JobId, s: Snapshot)
    requires CanSchedule(t, key, job)
    ensures RequestsOk(Scheduled(t, key, job, s)) && RequestsUnique(Scheduled(t, key, job, s).requests)
  {
    var t' := Scheduled(t, key, job, s);
    assert job in t.jobs ==> JobOk(t, job);
    forall i | 0 <= i < |t'.requests| ensures RequestOk(t', t'.requests[i]) {
      assert i < |t.requests| ==> RequestOk(t, t.requests[i]);
    }
    forall i, j | 0 <= i < j < |t'.requests| ensures t'.requests[i].id != t'.requests[j].id {
      assert RequestOk(t, t.requests[i]);
    }
  }

  lemma ScheduleKeepsInv(t: Tables, key: PRKey, job: JobId, s: Snapshot)
    requires CanSchedule(t, key, job)
    ensures Inv(Scheduled(t, key, job, s))
  {
    ScheduleKeepsPullsAndJobs(t, key, job, s);
    ScheduleKeepsAttempts(t, key, job, s);
    ScheduleKeepsRequests(t, key, job, s);
  }

  /** What reconciling an eligible snapshot writes: nothing, or a new job on closed tables. */
  lemma ReconcileEligibleSchedules(t: Tables, key: PRKey, s: Snapshot)
    requires ReconcileEligible(t, key, s).Written?
    ensures var t' := ReconcileEligible(t, key, s).tables;
            || t' == t
            || (GenerationOf(t, key) != MAX_INT64
                && t' == Scheduled(CloseJobs(t, CurrentJob(t, key), JobSuperseded, RequestSuperseded), key,
                                   JobId(TargetOf(key, s), GenerationOf(t, key) + 1), s))
  {
  }

  lemma ReconcileEligibleKeepsInv(t: Tables, key: PRKey, s: Snapshot)
    requires Inv(t) && s.number == key.number && s.base.repository == key.repository
    ensures ReconcileEligible(t, key, s).Written? ==> Inv(ReconcileEligible(t, key, s).tables)
  {
    if ReconcileEligible(t, key, s).Written? && ReconcileEligible(t, key, s).tables != t {
      ReconcileEligibleSchedules(t, key, s);
      assert key in t.pulls ==> PullOk(t, key);
      var closed := CloseCurrent(t, key);
      ScheduleKeepsInv(closed, key, JobId(TargetOf(key, s), GenerationOf(t, key) + 1), s);
    }
  }

  lemma ReconcileEligibleMeetsNoKey(t: Tables, key: PRKey, s: Snapshot)
    requires Inv(t) && s.number == key.number && s.base.repository == key.repository
    ensures ReconcileEligible(t, key, s) != Error(ConstraintViolated)
  {
    var closed := CloseCurrent(t, key);
    InsertWorkMeetsNoKey(closed, JobId(TargetOf(key, s), GenerationOf(t, key) + 1), s);
  }

  lemma ReconcileIneligibleKeepsInv(t: Tables, key: PRKey, s: Snapshot, e: Eligibility)
    requires Inv(t) && !e.Eligible?
    ensures ReconcileIneligible(t, key, s, e) != Error(ConstraintViolated)
    ensures ReconcileIneligible(t, key, s, e).Written? ==> Inv(ReconcileIneligible(t, key, s, e).tables)
  {
    assert 0 <= GenerationOf(t, key) <= MAX_INT64 by { assert key in t.pulls ==> PullOk(t, key); }
    var closed := CloseCurrent(t, key);
    if GenerationOf(t, key) != 0 && t.pulls[key].eligibility == e {
      assert PullOk(t, key);
      NothingToClose(t);
      RetireKeepsInv(t, key, PullRow(s, GenerationOf(t, key), e, None, None));
    } else if GenerationOf(t, key) < MAX_INT64 {
      RetireKeepsInv(closed, key, PullRow(s, GenerationOf(t, key) + 1, e, None, None));
    }
  }

  lemma NothingToClose(t: Tables)
    ensures CloseJobs(t, {}, JobSuperseded, RequestSuperseded) == t
  {
    assert ClosedRequests(t.requests, {}, RequestSuperseded) == t.requests;
  }

  lemma ReconcileKeepsInv(t: Tables, key: PRKey, s: Snapshot)
    requires Inv(t) && s.number == key.number && s.base.repository == key.repository
    ensures Reconcile(t, key, s) != Error(ConstraintViolated)
    ensures Reconcile(t, key, s).Written? ==> Inv(Reconcile(t, key, s).tables)
  {
    var e := EligibilityFor(s);
    if e.Eligible? {
      ReconcileEligibleKeepsInv(t, key, s);
      ReconcileEligibleMeetsNoKey(t, key, s);
    } else {
      ReconcileIneligibleKeepsInv(t, key, s, e);
    }
  }

  // ---------------------------------------------------------------- rerequests and hints

  /** A rerequest numbers its attempt past every attempt of the job. */
  lemma NextAttemptMeetsNoKey(t: Tables, job: JobId, attempt: AttemptId)
    requires AttemptsOk(t) && attempt.job == job && attempt.number == Highest(AttemptNumbers(t, job)) + 1
    ensures attempt !in t.attempts && !AttemptNumberTaken(t, job, attempt.number)
    ensures forall id | id in t.attempts && id.job == job :: id.number < attempt.number
    ensures attempt.number >= 1
  {
    forall id | id in t.attempts ensures t.attempts[id].job == id.job && t.attempts[id].number == id.number
                                         && id.number >= 1 {
      assert AttemptOk(t, id);
    }
    forall id | id in t.attempts && id.job == job ensures id.number in AttemptNumbers(t, job) {
      assert t.attempts[id].job == job;
    }
  }

  lemma AddAttemptKeepsInv(t: Tables, attempt: AttemptId)
    requires Inv(t) && IsCurrent(t, attempt.job) && attempt.job in t.jobs
    requires attempt.target == attempt.job.target && attempt.generation == attempt.job.generation && attempt.number >= 1
    requires forall id | id in t.attempts && id.job == attempt.job :: id.number < attempt.number
    ensures Inv(t.(attempts := t.attempts[attempt := AttemptRowOf(attempt)]))
  {
    var t' := t.(attempts := t.attempts[attempt := AttemptRowOf(attempt)]);
    forall id | id in t'.attempts ensures AttemptOk(t', id) { assert id != attempt ==> AttemptOk(t, id); }
    forall k | k in t'.pulls ensures PullOk(t', k) { assert PullOk(t, k); }
    forall id | id in t'.jobs ensures JobOk(t', id) { assert JobOk(t, id); }
    forall i | 0 <= i < |t'.requests| ensures RequestOk(t', t'.requests[i]) { assert RequestOk(t, t.requests[i]); }
  }

  lemma RerequestKeepsInv(cfg: Config, t: Tables, inp: RerequestInput)
    requires Inv(t) && inp.projection.CheckRunProjection?
    ensures Rerequest(cfg, t, inp) != Error(ConstraintViolated)
    ensures Rerequest(cfg, t, inp).Written? ==> Inv(Rerequest(cfg, t, inp).tables)
  {
    var bkey := BindingKey(inp.projection.repository, inp.projection.checkRun);
    if bkey in t.bindings && RerequestIsCurrent(t, inp.lease.key, t.bindings[bkey], inp.snapshotTarget) {
      var b := t.bindings[bkey];
      assert PullOk(t, inp.lease.key);
      var attempt := AttemptId(b.job, b.target, b.controllerGeneration, Highest(AttemptNumbers(t, b.job)) + 1, CheckRerequest);
      NextAttemptMeetsNoKey(t, b.job, attempt);
      AddAttemptKeepsInv(t, attempt);
    }
  }

  lemma InvalidateKeepsInv(t: Tables, p: Projection)
    requires Inv(t) && p.InstallationProjection?
    ensures Invalidate(t, p) != Error(ConstraintViolated)
    ensures Invalidate(t, p).Written? ==> Inv(Invalidate(t, p).tables)
  {
    var keys := if Invalidates(p.action) then BlockedKeys(t, p) else {};
    if Invalidate(t, p).Written? && keys != {} {
      BlockKeepsInv(t, keys);
    }
  }

  lemma BlockIdleKeepsInv(t: Tables, keys: set<PRKey>)
    requires Inv(t) && forall key | key in keys :: key in t.pulls && t.pulls[key].generation != MAX_INT64 && Idle(t, key)
    ensures Inv(t.(pulls := BlockedPulls(t.pulls, keys)))
  {
    var t' := t.(pulls := BlockedPulls(t.pulls, keys));
    forall i | 0 <= i < |t.requests| ensures RequestSettles(t, t', i) { assert RequestOk(t, t.requests[i]); }
    forall key | key in t'.pulls ensures PullSettles(t, t', key) { assert PullOk(t, key); }
    SettlingKeepsInv(t, t');
  }

  lemma BlockKeepsInv(t: Tables, keys: set<PRKey>)
    requires Inv(t) && forall key | key in keys :: key in t.pulls && t.pulls[key].generation != MAX_INT64
    ensures Inv(BlockPulls(t, keys))
  {
    var closing := JobsOf(t, keys);
    var closed := CloseJobs(t, closing, JobCancelled, RequestCancelled);
    CloseJobsSettles(t, closing, JobCancelled, RequestCancelled);
    SettlingKeepsInv(t, closed);
    forall key | key in keys ensures Idle(closed, key) {
      CloseJobsLeavesIdle(t, closing, JobCancelled, RequestCancelled, key);
    }
    BlockIdleKeepsInv(closed, keys);
  }

  // ---------------------------------------------------------------- the source-import queue

  /** A change to jobs and requests alone. */
  lemma QueueKeepsInv(t: Tables, jobs: map<JobId, JobRow>, requests: seq<RequestRow>)
    requires Inv(t) && JobsSettle(t, t.(jobs := jobs)) && RequestsSettle(t, t.(jobs := jobs, requests := requests))
    ensures Inv(t.(jobs := jobs, requests := requests))
  {
    var t' := t.(jobs := jobs, requests := requests);
    assert PullsSettle(t, t');
    assert JobsSettle(t, t');
    assert AttemptsSettle(t, t');
    assert forall i | 0 <= i < |t.requests| :: RequestSettles(t, t.(jobs := jobs, requests := requests), i) ==> RequestSettles(t, t', i);
    SettlingKeepsInv(t, t');
  }

  lemma ClaimKeepsInv(t: Tables, owner: string, expired: set<nat>, limit: int, timely: bool)
    requires Inv(t)
    ensures Inv(ClaimImports(t, owner, expired, limit, timely).0)
  {
    if ValidOwner(owner) && timely && 0 < limit <= 100 {
      var rows := ClaimRows(t.requests, Candidates(t.requests, expired, limit), owner);
      forall i | 0 <= i < |t.requests| ensures RequestSettles(t, t.(jobs := t.jobs, requests := rows), i) {
        assert RequestOk(t, t.requests[i]);
      }
      QueueKeepsInv(t, t.jobs, rows);
      assert t.(jobs := t.jobs, requests := rows) == t.(requests := rows);
    }
  }

  lemma FinishKeepsInv(t: Tables, id: RequestId, owner: string, generation: int, ack: bool, timely: bool)
    requires Inv(t)
    ensures Inv(FinishImport(t, id, owner, generation, ack, timely).0)
  {
    var rows := FinishImport(t, id, owner, generation, ack, timely).0.requests;
    forall i | 0 <= i < |t.requests| ensures RequestSettles(t, t.(jobs := t.jobs, requests := rows), i) {
      assert RequestOk(t, t.requests[i]);
    }
    QueueKeepsInv(t, t.jobs, rows);
  }

  lemma ImportKeepsInv(t: Tables, r: ImportResult, owner: string, generation: int, wellFormed: bool, timely: bool)
    requires Inv(t)
    ensures Inv(ApplyImport(t, r, owner, generation, wellFormed, timely).0)
  {
    var t' := ApplyImport(t, r, owner, generation, wellFormed, timely).0;
    var k := IndexOf(t.requests, r.request);
    assert k < |t.requests| ==> RequestOk(t, t.requests[k]);
    forall i | 0 <= i < |t.requests| ensures RequestSettles(t, t.(jobs := t'.jobs, requests := t'.requests), i) {
      assert RequestOk(t, t.requests[i]);
    }
    QueueKeepsInv(t, t'.jobs, t'.requests);
  }
}

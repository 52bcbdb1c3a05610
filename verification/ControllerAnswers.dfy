/** What each transaction of the controller store answers and writes, said in the fields of its input
    and of the rows that it finds. */
module ControllerAnswers {
  import opened ControllerModel
  import opened Options
  import opened ControllerSpec
  import opened ControllerInvariant
  import opened ControllerSafety
  import opened ControllerRuns
  import opened LeaseQueue

  // ---------------------------------------------------------------- snapshots: the row

  /** The snapshot commits, and is no redelivery. */
  ghost predicate TakesSnapshot(cfg: Config, t: Tables, inp: SnapshotInput, timely: bool) {
    ReplyTo(cfg, t, SnapshotStep(inp, timely)).Done? && inp.delivery.outbox !in t.processed
  }

  /** Nothing but the booking of the delivery and its lease sets the second tables apart from the first. */
  ghost predicate OnlyBooks(t: Tables, t': Tables) { t' == t.(processed := t'.processed, leases := t'.leases) }

  lemma CommitIsEffect(t: Tables, d: Delivery, lease: LeaseToken, effect: Effect)
    requires d.outbox !in t.processed && CommitLeased(t, d, lease, effect).1.Done?
    ensures effect.Written? && CommitLeased(t, d, lease, effect).1.result == effect.result
    ensures OnlyBooks(effect.tables, CommitLeased(t, d, lease, effect).0)
  {
  }

  lemma SnapshotIsEffect(cfg: Config, t: Tables, inp: SnapshotInput, timely: bool)
    requires TakesSnapshot(cfg, t, inp, timely)
    ensures SnapshotProblem(cfg, inp, timely).None?
    ensures Reconcile(t, inp.lease.key, inp.snapshot).Written?
    ensures ReplyTo(cfg, t, SnapshotStep(inp, timely)).result == Reconcile(t, inp.lease.key, inp.snapshot).result
    ensures OnlyBooks(Reconcile(t, inp.lease.key, inp.snapshot).tables, After(cfg, t, SnapshotStep(inp, timely)))
  {
    CommitIsEffect(t, inp.delivery, inp.lease, Reconcile(t, inp.lease.key, inp.snapshot));
  }

  /** The row and the decision follow from what the snapshot says, in this order: closed or merged,
      draft, without a head that can be fetched, and otherwise eligible. */
  lemma SnapshotAnswer(cfg: Config, t: Tables, inp: SnapshotInput, timely: bool)
    requires TakesSnapshot(cfg, t, inp, timely)
    ensures var s, key := inp.snapshot, inp.lease.key; var step := SnapshotStep(inp, timely);
            var t', decision := After(cfg, t, step), ReplyTo(cfg, t, step).result.decision;
            && key in t'.pulls
            && (t'.pulls[key].eligibility.Closed? <==> s.closed || s.merged)
            && (t'.pulls[key].eligibility.Draft? <==> !s.closed && !s.merged && s.draft)
            && (t'.pulls[key].eligibility.SourceUnavailable? <==>
                  !s.closed && !s.merged && !s.draft && (!s.headAvailable || s.head.repository <= 0 || s.head.commit == ""))
            && (t'.pulls[key].eligibility.Eligible? <==>
                  !s.closed && !s.merged && !s.draft && s.headAvailable && s.head.repository > 0 && s.head.commit != "")
            && (decision.MarkedClosed? <==> t'.pulls[key].eligibility.Closed?)
            && (decision.MarkedDraft? <==> t'.pulls[key].eligibility.Draft?)
            && (decision.MarkedSourceUnavailable? <==> t'.pulls[key].eligibility.SourceUnavailable?)
            && (decision.ScheduledNewTarget? || decision.NoChangeCurrentTarget? <==> t'.pulls[key].eligibility.Eligible?)
  {
    SnapshotIsEffect(cfg, t, inp, timely);
  }

  /** The row says what the snapshot says of the sides, unless its target was current already; no other
      row of the table changes. */
  lemma SnapshotFillsRow(cfg: Config, t: Tables, inp: SnapshotInput, timely: bool)
    requires TakesSnapshot(cfg, t, inp, timely)
    ensures var s, key := inp.snapshot, inp.lease.key; var step := SnapshotStep(inp, timely);
            var t', r := After(cfg, t, step), ReplyTo(cfg, t, step).result;
            && key in t'.pulls && t'.pulls == t.pulls[key := t'.pulls[key]]
            && r.generation == t'.pulls[key].generation && r.target == t'.pulls[key].target && r.job == t'.pulls[key].job
            && if r.decision.NoChangeCurrentTarget? then t'.pulls == t.pulls
               else var row := t'.pulls[key];
                    && row.baseOwner == s.base.owner && row.baseName == s.base.name && row.baseCommit == s.base.commit
                    && row.headRepository == s.head.repository && row.headCommit == s.head.commit
  {
    SnapshotIsEffect(cfg, t, inp, timely);
  }

  // ---------------------------------------------------------------- snapshots: the work

  /** An open snapshot's row stands at its own sides: the target has its repositories, commits and number. */
  lemma EligibleTargetIsTheSnapshots(cfg: Config, t: Tables, inp: SnapshotInput, timely: bool)
    requires Inv(t) && TakesSnapshot(cfg, t, inp, timely)
    requires After(cfg, t, SnapshotStep(inp, timely)).pulls[inp.lease.key].eligibility.Eligible?
    ensures var s, key := inp.snapshot, inp.lease.key; var row := After(cfg, t, SnapshotStep(inp, timely)).pulls[key];
            var target := Target(key.installation, s.base.repository, s.head.repository, s.number, s.base.commit, s.head.commit);
            row.target == Some(target) && row.job == Some(JobId(target, row.generation))
  {
    SnapshotIsEffect(cfg, t, inp, timely);
    assert inp.lease.key in t.pulls ==> PullOk(t, inp.lease.key);
  }

  /** Nothing is scheduled when the row stands at the snapshot's target already; then nothing is written. */
  lemma CurrentTargetIsLeftAlone(cfg: Config, t: Tables, inp: SnapshotInput, timely: bool)
    requires TakesSnapshot(cfg, t, inp, timely)
    ensures var s, key := inp.snapshot, inp.lease.key; var step := SnapshotStep(inp, timely);
            var t', r := After(cfg, t, step), ReplyTo(cfg, t, step).result;
            && (r.decision.NoChangeCurrentTarget? <==>
                  && !s.closed && !s.merged && !s.draft && s.headAvailable && s.head.repository > 0 && s.head.commit != ""
                  && key in t.pulls && t.pulls[key].eligibility.Eligible?
                  && t.pulls[key].target == Some(Target(key.installation, s.base.repository, s.head.repository, s.number,
                                                        s.base.commit, s.head.commit)))
            && (r.decision.NoChangeCurrentTarget? ==> OnlyBooks(t, t') && r.attempt.None? && r.request.None?)
  {
    SnapshotIsEffect(cfg, t, inp, timely);
  }

  ghost predicate JobsClosed(jobs: map<JobId, JobRow>, jobs': map<JobId, JobRow>, keys: set<PRKey>, next: JobState) {
    forall id | id in jobs :: id in jobs'
      && jobs'[id] == if id.target.Key() in keys && !(jobs[id].state in {JobCompleted, JobFailed, JobSuperseded, JobCancelled})
                      then jobs[id].(state := next) else jobs[id]
  }

  ghost predicate AttemptsClosed(attempts: map<AttemptId, AttemptRow>, attempts': map<AttemptId, AttemptRow>, keys: set<PRKey>) {
    forall id | id in attempts :: id in attempts'
      && attempts'[id] == if id.target.Key() in keys && !(attempts[id].state in {AttemptCompleted, AttemptFailed, AttemptCancelled})
                          then attempts[id].(state := AttemptCancelled) else attempts[id]
  }

  ghost predicate RequestsClosed(rows: seq<RequestRow>, rows': seq<RequestRow>, keys: set<PRKey>, next: RequestState) {
    && |rows| <= |rows'|
    && forall i | 0 <= i < |rows| ::
         rows'[i] == if rows[i].target.Key() in keys && rows[i].state in {Pending, Leased}
                     then rows[i].(state := next) else rows[i]
  }

  /** The live work of these pull requests is closed, and that of every other one is left alone. */
  ghost predicate WorkClosed(t: Tables, t': Tables, keys: set<PRKey>, job: JobState, request: RequestState) {
    && JobsClosed(t.jobs, t'.jobs, keys, job) && AttemptsClosed(t.attempts, t'.attempts, keys)
    && RequestsClosed(t.requests, t'.requests, keys, request)
  }

  /** These are the current jobs of the pull requests. */
  ghost predicate AreCurrent(t: Tables, closing: set<JobId>, keys: set<PRKey>) {
    forall id :: id in closing <==> id.target.Key() in keys && IsCurrent(t, id)
  }

  lemma CurrentJobIsCurrent(t: Tables, key: PRKey)
    requires Inv(t)
    ensures AreCurrent(t, CurrentJob(t, key), {key})
  {
    assert key in t.pulls ==> PullOk(t, key);
  }

  lemma JobsOfAreCurrent(t: Tables, keys: set<PRKey>)
    requires Inv(t)
    ensures AreCurrent(t, JobsOf(t, keys), keys)
  {
    forall key | key in t.pulls ensures t.pulls[key].job.Some? ==> t.pulls[key].job.value.target.Key() == key {
      assert PullOk(t, key);
    }
    forall id ensures id in JobsOf(t, keys) <==> id.target.Key() in keys && IsCurrent(t, id) {
      if id.target.Key() in keys && IsCurrent(t, id) { assert t.pulls[id.target.Key()].job == Some(id); }
    }
  }

  lemma ClosingClosesJobs(t: Tables, closing: set<JobId>, keys: set<PRKey>, next: JobState)
    requires Inv(t) && AreCurrent(t, closing, keys)
    ensures JobsClosed(t.jobs, ClosedJobs(t.jobs, closing, next), keys, next)
    ensures AttemptsClosed(t.attempts, CancelledAttempts(t.attempts, closing), keys)
  {
    forall id | id in t.jobs && id.target.Key() in keys && !t.jobs[id].state.Terminal() ensures id in closing {
      assert JobOk(t, id);
    }
    forall id | id in t.attempts
      ensures t.attempts[id].job == id.job && id.job.target == id.target
      ensures id.target.Key() in keys && !t.attempts[id].state.Terminal() ==> id.job in closing
    {
      assert AttemptOk(t, id);
    }
  }

  lemma ClosingClosesRequests(t: Tables, closing: set<JobId>, keys: set<PRKey>, next: RequestState)
    requires Inv(t) && AreCurrent(t, closing, keys)
    ensures RequestsClosed(t.requests, ClosedRequests(t.requests, closing, next), keys, next)
  {
    forall i | 0 <= i < |t.requests|
      ensures t.requests[i].target == t.requests[i].job.target
      ensures t.requests[i].target.Key() in keys && t.requests[i].state.Open() ==> t.requests[i].job in closing
    {
      assert RequestOk(t, t.requests[i]);
    }
  }

  lemma ClosingCloses(t: Tables, closing: set<JobId>, keys: set<PRKey>, job: JobState, request: RequestState)
    requires Inv(t) && AreCurrent(t, closing, keys)
    ensures WorkClosed(t, CloseJobs(t, closing, job, request), keys, job, request)
  {
    ClosingClosesJobs(t, closing, keys, job);
    ClosingClosesRequests(t, closing, keys, request);
  }

  lemma FreshJobIsNew(t: Tables, job: JobId)
    requires Inv(t) && GenerationOf(t, job.target.Key()) < job.generation
    ensures job !in t.jobs && FirstAttempt(job) !in t.attempts
  {
    assert job in t.jobs ==> JobOk(t, job);
    assert FirstAttempt(job) in t.attempts ==> AttemptOk(t, FirstAttempt(job));
  }

  /** Exactly one job is scheduled, with its first attempt and a request for exactly the snapshot's sides. */
  ghost predicate Schedules(t: Tables, t': Tables, job: JobId, s: Snapshot) {
    var attempt := AttemptId(job, job.target, job.generation, 1, Initial);
    && t'.targets == t.targets + {job.target}
    && job !in t.jobs && t'.jobs.Keys == t.jobs.Keys + {job}
    && t'.jobs[job] == JobRow(job.target, job.generation, ImportingSource)
    && attempt !in t.attempts && t'.attempts.Keys == t.attempts.Keys + {attempt}
    && t'.attempts[attempt] == AttemptRow(job, job.target, job.generation, 1, Initial, AttemptQueued)
    && |t'.requests| == |t.requests| + 1
    && t'.requests[|t.requests|] == RequestRow(RequestId(job.target, job, job.generation), job.target, job, job.generation,
                                               job.target.installation, s.number, s.base, s.head, Pending, "", 0, 0)
    && t'.bindings == t.bindings
  }

  ghost predicate SchedulesNothing(t: Tables, t': Tables) {
    && t'.targets == t.targets && t'.jobs.Keys == t.jobs.Keys && t'.attempts.Keys == t.attempts.Keys
    && |t'.requests| == |t.requests| && t'.bindings == t.bindings
  }

  /** What the snapshot does to the work of its pull request: the old is superseded unless the standing
      stays, and a new target brings a new job. */
  ghost predicate Reworks(t: Tables, t': Tables, key: PRKey, s: Snapshot, r: ReconcileResult) {
    && (!r.decision.NoChangeCurrentTarget? ==> WorkClosed(t, t', {key}, JobSuperseded, RequestSuperseded))
    && (if r.decision.ScheduledNewTarget? then
          && r.job.Some? && Schedules(t, t', r.job.value, s)
          && r.attempt == Some(AttemptId(r.job.value, r.job.value.target, r.generation, 1, Initial))
          && r.request == Some(RequestId(r.job.value.target, r.job.value, r.generation))
        else SchedulesNothing(t, t') && r.attempt.None? && r.request.None?)
  }

  lemma SchedulingReworks(t: Tables, closed: Tables, key: PRKey, job: JobId, s: Snapshot)
    requires closed == CloseJobs(t, CurrentJob(t, key), JobSuperseded, RequestSuperseded)
    requires WorkClosed(t, closed, {key}, JobSuperseded, RequestSuperseded)
    requires job !in t.jobs && FirstAttempt(job) !in t.attempts
    ensures WorkClosed(t, Scheduled(closed, key, job, s), {key}, JobSuperseded, RequestSuperseded)
    ensures Schedules(t, Scheduled(closed, key, job, s), job, s)
  {
    var t' := Scheduled(closed, key, job, s);
    assert JobsClosed(t.jobs, t'.jobs, {key}, JobSuperseded);
    assert AttemptsClosed(t.attempts, t'.attempts, {key});
    assert RequestsClosed(t.requests, t'.requests, {key}, RequestSuperseded);
  }

  lemma CurrentWorkIsClosed(t: Tables, key: PRKey)
    requires Inv(t)
    ensures WorkClosed(t, CloseJobs(t, CurrentJob(t, key), JobSuperseded, RequestSuperseded), {key}, JobSuperseded, RequestSuperseded)
  {
    CurrentJobIsCurrent(t, key);
    ClosingCloses(t, CurrentJob(t, key), {key}, JobSuperseded, RequestSuperseded);
  }

  lemma EligibleGives(t: Tables, key: PRKey, s: Snapshot, job: JobId)
    requires ReconcileEligible(t, key, s).Written? && job == JobId(TargetOf(key, s), GenerationOf(t, key) + 1)
    ensures var t', r := ReconcileEligible(t, key, s).tables, ReconcileEligible(t, key, s).result;
            if r.decision.ScheduledNewTarget? then
              && t' == Scheduled(CloseJobs(t, CurrentJob(t, key), JobSuperseded, RequestSuperseded), key, job, s)
              && r == ReconcileResult(ScheduledNewTarget, job.generation, Some(job.target), Some(job), Some(FirstAttempt(job)), Some(RequestOf(job)))
            else t' == t && r.decision.NoChangeCurrentTarget? && r.attempt.None? && r.request.None?
  {
  }

  lemma EligibleReworks(t: Tables, key: PRKey, s: Snapshot)
    requires Inv(t) && s.number == key.number && s.base.repository == key.repository && ReconcileEligible(t, key, s).Written?
    ensures Reworks(t, ReconcileEligible(t, key, s).tables, key, s, ReconcileEligible(t, key, s).result)
  {
    var job := JobId(TargetOf(key, s), GenerationOf(t, key) + 1);
    EligibleGives(t, key, s, job);
    if ReconcileEligible(t, key, s).result.decision.ScheduledNewTarget? {
      CurrentWorkIsClosed(t, key);
      FreshJobIsNew(t, job);
      SchedulingReworks(t, CloseJobs(t, CurrentJob(t, key), JobSuperseded, RequestSuperseded), key, job, s);
    }
  }

  lemma IneligibleReworks(t: Tables, key: PRKey, s: Snapshot, e: Eligibility)
    requires Inv(t) && !e.Eligible? && ReconcileIneligible(t, key, s, e).Written?
    ensures Reworks(t, ReconcileIneligible(t, key, s, e).tables, key, s, ReconcileIneligible(t, key, s, e).result)
  {
    CurrentWorkIsClosed(t, key);
    NothingToClose(t);
    assert key in t.pulls ==> PullOk(t, key);
    assert ReconcileIneligible(t, key, s, e).tables
        == CloseJobs(t, CurrentJob(t, key), JobSuperseded, RequestSuperseded).(pulls := ReconcileIneligible(t, key, s, e).tables.pulls);
  }

  lemma BookingReworks(t: Tables, t': Tables, t'': Tables, key: PRKey, s: Snapshot, r: ReconcileResult)
    requires Reworks(t, t', key, s, r) && OnlyBooks(t', t'')
    ensures Reworks(t, t'', key, s, r)
  {
  }

  /** A snapshot that changes the standing of its pull request closes all work of it that could still
      run, and touches no other work. One that schedules a new target inserts its job, first attempt and
      source request, and says so in its result; every other one inserts nothing. */
  lemma SnapshotReworks(cfg: Config, t: Tables, inp: SnapshotInput, timely: bool)
    requires Inv(t) && TakesSnapshot(cfg, t, inp, timely)
    ensures var step := SnapshotStep(inp, timely);
            Reworks(t, After(cfg, t, step), inp.lease.key, inp.snapshot, ReplyTo(cfg, t, step).result)
  {
    var key, s, step := inp.lease.key, inp.snapshot, SnapshotStep(inp, timely);
    SnapshotIsEffect(cfg, t, inp, timely);
    if EligibilityFor(s).Eligible? { EligibleReworks(t, key, s); } else { IneligibleReworks(t, key, s, EligibilityFor(s)); }
    BookingReworks(t, Reconcile(t, key, s).tables, After(cfg, t, step), key, s, ReplyTo(cfg, t, step).result);
  }

  // ---------------------------------------------------------------- snapshots: when they are taken

  /** The envelope is right: receiver, kind, key, lease and identity of the snapshot. */
  ghost predicate SnapshotFits(cfg: Config, t: Tables, inp: SnapshotInput, timely: bool) {
    var d, lease, s := inp.delivery, inp.lease, inp.snapshot;
    && d.receiver == cfg.receiver && d.deliveryId != "" && d.kind == PullRequestKind
    && lease.key.installation > 0 && lease.key.repository > 0 && lease.key.number > 0
    && timely && s.number == lease.key.number && s.base.repository == lease.key.repository
    && lease.key in t.leases && t.leases[lease.key] == LeaseRow(lease.owner, lease.generation)
  }

  /** The row may be raised to another generation. */
  ghost predicate CanRise(t: Tables, key: PRKey) { key in t.pulls ==> t.pulls[key].generation < MAX_INT64 }

  ghost predicate SidesValid(s: Snapshot) {
    && ValidObjectId(s.base.commit) && ValidObjectId(s.head.commit)
    && ValidRoute(s.base.owner) && ValidRoute(s.base.name) && ValidRoute(s.head.owner) && ValidRoute(s.head.name)
  }

  /** Exactly when a new delivery's snapshot is taken. One that says the pull request is not open needs
      only a generation, and not even that when it says nothing new; an open one also needs a head and a
      base that are valid. */
  lemma SnapshotIsTaken(cfg: Config, t: Tables, inp: SnapshotInput, timely: bool)
    requires Inv(t) && inp.delivery.outbox !in t.processed
    ensures var s, key := inp.snapshot, inp.lease.key;
            var open := !s.closed && !s.merged && !s.draft && s.headAvailable && s.head.repository > 0 && s.head.commit != "";
            var said := if s.closed || s.merged then Closed else if s.draft then Draft else SourceUnavailable;
            TakesSnapshot(cfg, t, inp, timely) <==>
              && SnapshotFits(cfg, t, inp, timely)
              && if !open then CanRise(t, key) || t.pulls[key].eligibility == said
                 else
                   || (key in t.pulls && t.pulls[key].eligibility.Eligible?
                       && t.pulls[key].target == Some(Target(key.installation, s.base.repository, s.head.repository, s.number,
                                                             s.base.commit, s.head.commit))
                       && ValidObjectId(s.base.commit) && ValidObjectId(s.head.commit))
                   || (CanRise(t, key) && SidesValid(s))
  {
    var s, key := inp.snapshot, inp.lease.key;
    assert HoldsLease(t, inp.lease) ==> LeaseOk(key, t.leases[key]);
    assert key in t.pulls ==> PullOk(t, key);
    if EligibilityFor(s).Eligible? && s.number == key.number && s.base.repository == key.repository {
      ReconcileEligibleMeetsNoKey(t, key, s);
    }
  }

  // ---------------------------------------------------------------- rerequests

  ghost predicate TakesRerequest(cfg: Config, t: Tables, inp: RerequestInput, timely: bool) {
    ReplyTo(cfg, t, RerequestStep(inp, timely)).Done? && inp.delivery.outbox !in t.processed
  }

  /** The check run is bound to what the pull request stands at now, and to what the snapshot shows. */
  ghost predicate BindingIsCurrent(t: Tables, key: PRKey, b: CheckBinding, shown: Option<Target>) {
    && key in t.pulls && t.pulls[key].eligibility.Eligible? && t.pulls[key].generation == b.controllerGeneration
    && t.pulls[key].target == Some(b.target) && t.pulls[key].job == Some(b.job) && shown == Some(b.target)
  }

  /** `n` is the number after the highest one that an attempt of the job has; the first number is 1. */
  ghost predicate IsNextNumber(t: Tables, job: JobId, n: int) {
    && (forall id | id in t.attempts && id.job == job :: id.number < n)
    && if n == 1 then forall id | id in t.attempts :: id.job != job
       else exists id | id in t.attempts :: id.job == job && id.number == n - 1
  }

  lemma NextNumberIsUnique(t: Tables, job: JobId, m: int, n: int)
    requires Inv(t) && IsNextNumber(t, job, m) && IsNextNumber(t, job, n)
    ensures m == n
  {
    forall id | id in t.attempts ensures id.number >= 1 { assert AttemptOk(t, id); }
  }

  lemma HighestIsNext(t: Tables, job: JobId)
    requires Inv(t)
    ensures IsNextNumber(t, job, Highest(AttemptNumbers(t, job)) + 1)
  {
    var numbers := AttemptNumbers(t, job);
    forall id | id in t.attempts
      ensures t.attempts[id].job == id.job && t.attempts[id].number == id.number && id.number >= 1
      ensures id.job == job ==> id.number in numbers
    {
      assert AttemptOk(t, id);
      assert t.attempts[id].job == job ==> t.attempts[id].number in numbers;
    }
    assert forall n | n in numbers :: exists id :: id in t.attempts && id.job == job && id.number == n;
    assert numbers == {} ==> forall id | id in t.attempts :: id.job != job;
  }

  lemma RerequestIsEffect(cfg: Config, t: Tables, inp: RerequestInput, timely: bool)
    requires TakesRerequest(cfg, t, inp, timely)
    ensures RerequestInputValid(cfg, inp, timely) && Rerequest(cfg, t, inp).Written?
    ensures ReplyTo(cfg, t, RerequestStep(inp, timely)) == Done(Rerequest(cfg, t, inp).result)
    ensures OnlyBooks(Rerequest(cfg, t, inp).tables, After(cfg, t, RerequestStep(inp, timely)))
  {
    CommitIsEffect(t, inp.delivery, inp.lease, Rerequest(cfg, t, inp));
  }

  /** An unbound check run and one whose pull request has moved on are ignored; for a current one exactly
      one attempt is added, with the next number of its job. Nothing else is written. */
  lemma RerequestAnswer(cfg: Config, t: Tables, inp: RerequestInput, timely: bool)
    requires Inv(t) && TakesRerequest(cfg, t, inp, timely) && inp.projection.CheckRunProjection?
    ensures var step := RerequestStep(inp, timely); var t', r := After(cfg, t, step), ReplyTo(cfg, t, step).result;
            var bkey, key := BindingKey(inp.projection.repository, inp.projection.checkRun), inp.lease.key;
            if bkey !in t.bindings then r == ReconcileResult(RerequestIgnored, 0, None, None, None, None) && OnlyBooks(t, t')
            else
              var b := t.bindings[bkey];
              if BindingIsCurrent(t, key, b, inp.snapshotTarget) then
                exists n :: IsNextNumber(t, b.job, n) && 1 <= n <= cfg.maxAttempts && n <= 32
                  && var attempt := AttemptId(b.job, b.target, b.controllerGeneration, n, CheckRerequest);
                     && r == ReconcileResult(RerequestCreated, b.controllerGeneration, Some(b.target), Some(b.job), Some(attempt), None)
                     && attempt !in t.attempts
                     && OnlyBooks(t.(attempts := t.attempts[attempt :=
                          AttemptRow(b.job, b.target, b.controllerGeneration, n, CheckRerequest, AttemptQueued)]), t')
              else
                && r == ReconcileResult(RerequestIgnored, if key in t.pulls then t.pulls[key].generation else 0,
                                        Some(b.target), Some(b.job), None, None)
                && OnlyBooks(t, t')
  {
    RerequestIsEffect(cfg, t, inp, timely);
    var bkey := BindingKey(inp.projection.repository, inp.projection.checkRun);
    if bkey in t.bindings { HighestIsNext(t, t.bindings[bkey].job); }
  }

  /** The envelope is right: a rerequest of this app's check run, under a lease that is held. */
  ghost predicate RerequestFits(cfg: Config, t: Tables, inp: RerequestInput, timely: bool) {
    && timely && inp.delivery.kind == CheckRunKind && inp.delivery.receiver == cfg.receiver
    && inp.projection.CheckRunProjection? && inp.projection.action == "rerequested" && inp.projection.app == cfg.app
    && inp.projection.checkRun > 0
    && inp.lease.key in t.leases && t.leases[inp.lease.key] == LeaseRow(inp.lease.owner, inp.lease.generation)
  }

  /** The binding names this check run, and its job has an attempt left if the run is current. */
  ghost predicate BindingAllows(cfg: Config, t: Tables, inp: RerequestInput, b: CheckBinding)
    requires inp.projection.CheckRunProjection?
  {
    && b.installation == inp.projection.installation && b.externalId == inp.projection.externalId
    && b.number == inp.lease.key.number
    && (BindingIsCurrent(t, inp.lease.key, b, inp.snapshotTarget) ==>
          exists n :: IsNextNumber(t, b.job, n) && n <= cfg.maxAttempts && n <= 32)
  }

  lemma BindingDecides(cfg: Config, t: Tables, inp: RerequestInput, b: CheckBinding)
    requires Inv(t) && inp.projection.CheckRunProjection?
    requires var bkey := BindingKey(inp.projection.repository, inp.projection.checkRun); bkey in t.bindings && t.bindings[bkey] == b
    ensures Rerequest(cfg, t, inp).Written? <==> BindingAllows(cfg, t, inp, b)
  {
    var next := Highest(AttemptNumbers(t, b.job)) + 1;
    RerequestKeepsInv(cfg, t, inp);
    HighestIsNext(t, b.job);
    NextAttemptMeetsNoKey(t, b.job, AttemptId(b.job, b.target, b.controllerGeneration, next, CheckRerequest));
    forall n | IsNextNumber(t, b.job, n) ensures n == next { NextNumberIsUnique(t, b.job, n, next); }
    assert inp.lease.key in t.pulls ==> PullOk(t, inp.lease.key);
  }

  lemma CommitsIffHeld(t: Tables, d: Delivery, lease: LeaseToken, effect: Effect)
    requires d.outbox !in t.processed
    ensures CommitLeased(t, d, lease, effect).1.Done? <==>
              effect.Written? && lease.key in t.leases && t.leases[lease.key] == LeaseRow(lease.owner, lease.generation)
  {
  }

  /** Exactly when a new rerequest is taken. */
  lemma RerequestIsTaken(cfg: Config, t: Tables, inp: RerequestInput, timely: bool)
    requires Inv(t) && inp.delivery.outbox !in t.processed
    ensures TakesRerequest(cfg, t, inp, timely) <==>
              && RerequestFits(cfg, t, inp, timely)
              && var bkey := BindingKey(inp.projection.repository, inp.projection.checkRun);
                 bkey in t.bindings ==> BindingAllows(cfg, t, inp, t.bindings[bkey])
  {
    if RerequestInputValid(cfg, inp, timely) {
      var bkey := BindingKey(inp.projection.repository, inp.projection.checkRun);
      CommitsIffHeld(t, inp.delivery, inp.lease, Rerequest(cfg, t, inp));
      if bkey in t.bindings { BindingDecides(cfg, t, inp, t.bindings[bkey]); }
    }
  }

  // ---------------------------------------------------------------- installation hints

  ghost predicate TakesHint(cfg: Config, t: Tables, d: Delivery, p: Projection, timely: bool) {
    ReplyTo(cfg, t, HintStep(d, p, timely)).Done? && d.outbox !in t.processed
  }

  /** The hint withdraws the repository: with the whole installation, or by naming it. */
  predicate Withdraws(p: Projection, repository: int)
    requires p.InstallationProjection?
  {
    || p.action in {"deleted", "suspend", "suspended"}
    || (p.action in {"removed", "repositories_removed"} && repository in p.repositories)
  }

  /** The eligible pull requests of the installation whose repository is withdrawn. */
  function Withdrawn(t: Tables, p: Projection): set<PRKey>
    requires p.InstallationProjection?
  {
    set key | key in t.pulls && key.installation == p.installation && t.pulls[key].eligibility.Eligible?
              && Withdraws(p, key.repository)
  }

  lemma WithdrawnAreBlocked(t: Tables, p: Projection)
    requires p.InstallationProjection?
    ensures Withdrawn(t, p) == if Invalidates(p.action) then BlockedKeys(t, p) else {}
  {
  }

  /** Every one of these rows is blocked, one generation on, and no other row changes. */
  ghost predicate RowsBlocked(pulls: map<PRKey, PRRow>, pulls': map<PRKey, PRRow>, keys: set<PRKey>) {
    && pulls'.Keys == pulls.Keys
    && forall key | key in pulls ::
         pulls'[key] == if key in keys then pulls[key].(generation := pulls[key].generation + 1, eligibility := InstallationBlocked,
                                                        target := None, job := None)
                        else pulls[key]
  }

  /** These pull requests are blocked with their work, and nothing else is written. */
  ghost predicate Blocks(t: Tables, t': Tables, keys: set<PRKey>) {
    && RowsBlocked(t.pulls, t'.pulls, keys) && WorkClosed(t, t', keys, JobCancelled, RequestCancelled)
    && t'.jobs.Keys == t.jobs.Keys && t'.attempts.Keys == t.attempts.Keys && |t'.requests| == |t.requests|
    && t'.targets == t.targets && t'.bindings == t.bindings
  }

  lemma BlockPullsBlocks(t: Tables, keys: set<PRKey>)
    requires Inv(t)
    ensures Blocks(t, BlockPulls(t, keys), keys)
  {
    JobsOfAreCurrent(t, keys);
    ClosingCloses(t, JobsOf(t, keys), keys, JobCancelled, RequestCancelled);
  }

  lemma NothingBlocked(t: Tables)
    ensures Blocks(t, t, {})
  {
  }

  /** A hint blocks exactly the eligible pull requests that it withdraws, together with their work. */
  lemma HintAnswer(cfg: Config, t: Tables, d: Delivery, p: Projection, timely: bool)
    requires Inv(t) && TakesHint(cfg, t, d, p, timely) && p.InstallationProjection?
    ensures var step := HintStep(d, p, timely); var t', r := After(cfg, t, step), ReplyTo(cfg, t, step).result;
            && Blocks(t, t', Withdrawn(t, p))
            && r == ReconcileResult(if Withdrawn(t, p) == {} then InstallationHintRecorded else BlockedInstallation,
                                    0, None, None, None, None)
  {
    WithdrawnAreBlocked(t, p);
    if Withdrawn(t, p) == {} { NothingBlocked(t); } else { BlockPullsBlocks(t, Withdrawn(t, p)); }
  }

  /** Exactly when a new hint is taken: when every row that it would block has a generation left. */
  lemma HintIsTaken(cfg: Config, t: Tables, d: Delivery, p: Projection, timely: bool)
    requires Inv(t) && d.outbox !in t.processed
    ensures TakesHint(cfg, t, d, p, timely) <==>
              && timely && d.receiver == cfg.receiver && p.InstallationProjection? && p.installation > 0
              && d.kind in {InstallationKind, InstallationRepositoriesKind}
              && forall key | key in Withdrawn(t, p) :: t.pulls[key].generation < MAX_INT64
  {
    if HintValid(cfg, d, p, timely) {
      WithdrawnAreBlocked(t, p);
      forall key | key in t.pulls ensures t.pulls[key].generation <= MAX_INT64 { assert PullOk(t, key); }
    }
  }

  // ---------------------------------------------------------------- decisions, bindings and leases

  /** A decision that needs no tables is booked as it is. */
  lemma DecisionAnswer(cfg: Config, t: Tables, d: Delivery, decision: Decision, timely: bool)
    requires d.outbox !in t.processed
    ensures var step := DecisionStep(d, decision, timely);
            if d.receiver == cfg.receiver && timely then
              && ReplyTo(cfg, t, step) == Done(ReconcileResult(decision, 0, None, None, None, None))
              && OnlyBooks(t, After(cfg, t, step)) && After(cfg, t, step).leases == t.leases
            else ReplyTo(cfg, t, step).Rejected? && After(cfg, t, step) == t
  {
  }

  /** A check run is bound once: the same binding again is no error, another one changes nothing. */
  lemma BindingAnswer(cfg: Config, t: Tables, b: CheckBinding)
    ensures var t', reply := After(cfg, t, BindingStep(b)), ReplyTo(cfg, t, BindingStep(b));
            var bkey := BindingKey(b.repository, b.checkRun);
            && t' == t.(bindings := if reply == Accepted then t.bindings[bkey := b] else t.bindings)
            && (reply == Accepted <==>
                  && (bkey in t.bindings ==> t.bindings[bkey] == b)
                  && b.app == cfg.app && b.installation > 0 && b.repository > 0 && b.number > 0 && b.checkRun > 0
                  && b.externalId != "" && b.controllerGeneration > 0 && b.publicationGeneration > 0)
  {
  }

  /** A reconcile lease is given exactly when none is held or the one that is held has run out; a lease
      that takes over another one has the next generation. */
  lemma LeaseAnswer(cfg: Config, t: Tables, key: PRKey, owner: string, expired: bool, timely: bool)
    requires Inv(t)
    ensures var step := Acquire(key, owner, expired, timely); var t', reply := After(cfg, t, step), ReplyTo(cfg, t, step);
            var valid := key.installation > 0 && key.repository > 0 && key.number > 0 && ValidOwner(owner) && timely;
            && (reply.Acquired? <==> valid && (key in t.leases ==> expired && t.leases[key].generation < MAX_INT64))
            && (reply == Rejected(LeaseBusy) <==> valid && key in t.leases && !expired)
            && if reply.Acquired? then
                 var g := if key in t.leases then t.leases[key].generation + 1 else 1;
                 reply.lease == LeaseToken(key, owner, g) && t' == t.(leases := t.leases[key := LeaseRow(owner, g)])
               else t' == t
  {
    assert key in t.leases ==> LeaseOk(key, t.leases[key]);
  }

  // ---------------------------------------------------------------- bookings and redeliveries

  /** How a delivery is booked with its result. */
  function Booking(d: Delivery, r: ReconcileResult): ProcessedRow {
    ProcessedRow(d.deliveryId, d.kind, d.digest, r.decision, r.generation, r.target, r.job)
  }

  lemma CommitBooks(t: Tables, d: Delivery, lease: LeaseToken, effect: Effect)
    requires d.outbox !in t.processed && CommitLeased(t, d, lease, effect).1.Done?
    requires effect.Written? ==> effect.tables.processed == t.processed
    ensures var (t', reply) := CommitLeased(t, d, lease, effect);
            t'.processed == t.processed[d.outbox := Booking(d, reply.result)]
  {
  }

  /** A new delivery is booked with exactly the result that is answered. */
  lemma NewDeliveryIsBooked(cfg: Config, t: Tables, step: Step)
    requires DeliveryOf(step).Some? && ReplyTo(cfg, t, step).Done? && DeliveryOf(step).value.outbox !in t.processed
    ensures var d := DeliveryOf(step).value;
            After(cfg, t, step).processed == t.processed[d.outbox := Booking(d, ReplyTo(cfg, t, step).result)]
  {
    match step
    case SnapshotStep(inp, timely) =>
      var effect := Reconcile(t, inp.lease.key, inp.snapshot);
      if effect.Written? { ReconcileLeavesBookings(t, inp.lease.key, inp.snapshot); }
      CommitBooks(t, inp.delivery, inp.lease, effect);
    case RerequestStep(inp, timely) =>
      var effect := Rerequest(cfg, t, inp);
      if effect.Written? { RerequestWrites(cfg, t, inp); }
      CommitBooks(t, inp.delivery, inp.lease, effect);
    case _ =>
  }

  /** The lease under which the step commits, if it needs one. */
  function LeaseOf(step: Step): Option<LeaseToken> {
    match step
    case SnapshotStep(inp, _) => Some(inp.lease)
    case RerequestStep(inp, _) => Some(inp.lease)
    case _ => None
  }

  /** A redelivery is answered from its booking and writes nothing; it only gives its lease up. */
  lemma RedeliveryAnswer(cfg: Config, t: Tables, step: Step)
    requires DeliveryOf(step).Some? && DeliveryOf(step).value.outbox in t.processed && ReplyTo(cfg, t, step).Done?
    ensures var d, t' := DeliveryOf(step).value, After(cfg, t, step); var row := t.processed[d.outbox];
            && row.digest == d.digest
            && ReplyTo(cfg, t, step).result == ReconcileResult(DuplicateProcessed, row.generation, row.target, row.job, None, None)
            && t' == t.(leases := if LeaseOf(step).Some? then t.leases - {LeaseOf(step).value.key} else t.leases)
  {
  }

  /** Exactly when a redelivery is answered: its envelope is right, and it brings the same projection. */
  lemma RedeliveryIsTaken(cfg: Config, t: Tables, step: Step)
    requires Inv(t) && DeliveryOf(step).Some? && DeliveryOf(step).value.outbox in t.processed
    ensures var d := DeliveryOf(step).value;
            ReplyTo(cfg, t, step).Done? <==>
              && t.processed[d.outbox].digest == d.digest
              && match step
                 case SnapshotStep(inp, timely) => SnapshotFits(cfg, t, inp, timely)
                 case RerequestStep(inp, timely) => RerequestFits(cfg, t, inp, timely)
                 case HintStep(_, p, timely) =>
                   && timely && d.receiver == cfg.receiver && p.InstallationProjection? && p.installation > 0
                   && d.kind in {InstallationKind, InstallationRepositoriesKind}
                 case DecisionStep(_, _, timely) => timely && d.receiver == cfg.receiver
                 case _ => false
  {
    if step.SnapshotStep? {
      assert HoldsLease(t, step.snapshot.lease) ==> LeaseOk(step.snapshot.lease.key, t.leases[step.snapshot.lease.key]);
    }
  }

  // ---------------------------------------------------------------- the source-import queue

  /** The requests that wait to be imported, and those on which a lease has run out. */
  ghost function Waiting(t: Tables, expired: set<nat>): set<nat> {
    set i: nat | i < |t.requests| && (t.requests[i].state == Pending || (t.requests[i].state == Leased && i in expired))
  }

  lemma CandidatesAreFirst(t: Tables, expired: set<nat>, limit: nat)
    ensures AreFirst(Waiting(t, expired), limit, Candidates(t.requests, expired, limit))
  {
    assert ClaimableRows(t.requests, expired) == Waiting(t, expired);
    FirstOfAreFirst(Waiting(t, expired), |t.requests|, limit);
  }

  /** A claim takes exactly the first waiting requests: each gets the claimant, the next lease generation
      and one more attempt. Without a claim nothing is written. */
  lemma ClaimAnswer(cfg: Config, t: Tables, owner: string, expired: set<nat>, limit: int, timely: bool)
    ensures var step := ClaimStep(owner, expired, limit, timely); var t', reply := After(cfg, t, step), ReplyTo(cfg, t, step);
            if reply.Claimed? then
              && AreFirst(Waiting(t, expired), limit, reply.imports)
              && t' == t.(requests := t'.requests) && |t'.requests| == |t.requests|
              && forall i | 0 <= i < |t.requests| ::
                   var row := t.requests[i];
                   t'.requests[i] == if i in reply.imports then row.(state := Leased, owner := owner,
                                          leaseGeneration := row.leaseGeneration + 1, attempts := row.attempts + 1)
                                     else row
            else t' == t
  {
    if 0 < limit { CandidatesAreFirst(t, expired, limit); }
  }

  /** Exactly when a claim is granted: no counter of a request that it would take is used up. */
  lemma ClaimIsGranted(cfg: Config, t: Tables, owner: string, expired: set<nat>, limit: int, timely: bool)
    ensures ReplyTo(cfg, t, ClaimStep(owner, expired, limit, timely)).Claimed? <==>
              && ValidOwner(owner) && timely && 1 <= limit <= 100
              && exists chosen :: AreFirst(Waiting(t, expired), limit, chosen)
                   && forall k | 0 <= k < |chosen| ::
                        t.requests[chosen[k]].leaseGeneration != MAX_INT64 && t.requests[chosen[k]].attempts != MAX_INT64
  {
    if 1 <= limit {
      CandidatesAreFirst(t, expired, limit);
      var c := Candidates(t.requests, expired, limit);
      forall chosen | AreFirst(Waiting(t, expired), limit, chosen) ensures chosen == c {
        FirstAreUnique(Waiting(t, expired), limit, chosen, c);
      }
    }
  }

  /** Row `i` is the request, leased by exactly this owner under exactly this generation. */
  ghost predicate LeasedBy(t: Tables, i: nat, id: RequestId, owner: string, generation: int) {
    && i < |t.requests| && t.requests[i].id == id && t.requests[i].state == Leased
    && t.requests[i].owner == owner && t.requests[i].leaseGeneration == generation
  }

  /** Whoever holds the lease on a request, and nobody else, completes it or gives it back. */
  lemma FinishAnswer(cfg: Config, t: Tables, id: RequestId, owner: string, generation: int, acknowledge: bool, timely: bool)
    requires Inv(t)
    ensures var step := FinishStep(id, owner, generation, acknowledge, timely); var t', reply := After(cfg, t, step), ReplyTo(cfg, t, step);
            && (reply == Accepted <==>
                  ValidOwner(owner) && generation > 0 && timely && exists i: nat :: LeasedBy(t, i, id, owner, generation))
            && (reply != Accepted ==> t' == t && reply == Rejected(SourceLeaseStale))
            && (forall i: nat | LeasedBy(t, i, id, owner, generation) && reply == Accepted ::
                  t' == t.(requests := t.requests[i := t.requests[i].(state := if acknowledge then RequestCompleted else Pending)]))
  {
    forall i: nat | LeasedBy(t, i, id, owner, generation) ensures i == IndexOf(t.requests, id) {}
    if ReplyTo(cfg, t, FinishStep(id, owner, generation, acknowledge, timely)) == Accepted {
      assert LeasedBy(t, IndexOf(t.requests, id), id, owner, generation);
    }
  }

  /** The result is about the sides of the request that was claimed. */
  ghost predicate IsAbout(r: ImportResult, row: RequestRow) {
    && row.target == r.target && row.job == r.job && row.generation == r.generation
    && row.base.repository == r.baseRepository && row.head.repository == r.headRepository
    && row.base.commit == r.baseCommit && row.head.commit == r.headCommit
  }

  /** A result is accepted exactly from the holder of the lease, well formed and about that request. It
      closes the request as completed or failed, and brings its job to the runner or fails it. */
  lemma ImportAnswer(cfg: Config, t: Tables, r: ImportResult, owner: string, generation: int, wellFormed: bool, timely: bool)
    requires Inv(t)
    ensures var step := ImportStep(r, owner, generation, wellFormed, timely); var t', reply := After(cfg, t, step), ReplyTo(cfg, t, step);
            && (reply == Accepted <==>
                  && timely && ValidOwner(owner) && generation > 0 && (wellFormed || r.failed)
                  && r.generation > 0 && r.baseRepository > 0 && r.headRepository > 0
                  && ValidObjectId(r.baseCommit) && ValidObjectId(r.headCommit)
                  && exists i: nat :: LeasedBy(t, i, r.request, owner, generation) && IsAbout(r, t.requests[i]))
            && (reply != Accepted ==> t' == t)
            && (forall i: nat | LeasedBy(t, i, r.request, owner, generation) && reply == Accepted ::
                  && r.job in t.jobs
                  && t' == t.(requests := t.requests[i := t.requests[i].(state := if r.failed then RequestFailed else RequestCompleted)],
                              jobs := t.jobs[r.job := t.jobs[r.job].(state := if r.failed then JobFailed else AwaitingRunner)]))
  {
    var k := IndexOf(t.requests, r.request);
    forall i: nat | LeasedBy(t, i, r.request, owner, generation) ensures i == k {}
    if ReplyTo(cfg, t, ImportStep(r, owner, generation, wellFormed, timely)) == Accepted {
      assert LeasedBy(t, k, r.request, owner, generation) && IsAbout(r, t.requests[k]);
      assert RequestOk(t, t.requests[k]) && JobOk(t, r.job);
    }
  }
}

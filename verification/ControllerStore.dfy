/** The controller store as the program runs it: one database, and one method per transaction that
    works on a private copy until it commits. Every method is proved to do exactly what the step of
    ControllerSpec does, so a store's life is a run, and what is proved of runs holds of the store. */
module ControllerStore {
  import opened ControllerModel
  import opened Options
  import opened LeaseQueue
  import opened ControllerSpec
  import opened ControllerInvariant
  import opened ControllerSafety

  // ---------------------------------------------------------------- statements of a transaction

  /** Highest attempt number of a job, 0 without attempts: `SELECT MAX(attempt_number)`. */
  method MaxAttemptNumber(tx: Tables, job: JobId) returns (m: int)
    ensures m == Highest(AttemptNumbers(tx, job))
  {
    var rest := AttemptNumbers(tx, job);
    m := 0;
    var any := false;
    while rest != {}
      invariant rest <= AttemptNumbers(tx, job)
      invariant any <==> rest != AttemptNumbers(tx, job)
      invariant any ==> m in AttemptNumbers(tx, job)
      invariant !any ==> m == 0
      invariant forall n | n in AttemptNumbers(tx, job) && n !in rest :: n <= m
      decreases |rest|
    {
      var n :| n in rest;
      if !any || n > m { m := n; }
      any := true;
      rest := rest - {n};
    }
  }

  /** Inserts a job, its first attempt and its source request, checking keys as the schema does. */
  method InsertTargetJobAttemptSource(tx: Tables, job: JobId, s: Snapshot) returns (effect: Effect)
    ensures effect == InsertWork(tx, job, s)
  {
    var next := tx.(targets := tx.targets + {job.target});
    if job in next.jobs { return Error(ConstraintViolated); }
    next := next.(jobs := next.jobs[job := JobRow(job.target, job.generation, ImportingSource)]);
    var attempt := FirstAttempt(job);
    if attempt in next.attempts || AttemptNumberTaken(next, job, 1) { return Error(ConstraintViolated); }
    next := next.(attempts := next.attempts[attempt := AttemptRowOf(attempt)]);
    var request := RequestRowOf(job, s);
    if !ValidRequest(request) { return Error(RecordInvalid); }
    if IndexOf(next.requests, request.id) < |next.requests| { return Error(ConstraintViolated); }
    next := next.(requests := next.requests + [request]);
    return Written(next, ReconcileResult(ScheduledNewTarget, job.generation, Some(job.target), Some(job), Some(attempt), Some(request.id)));
  }

  /** Supersedes the current job and schedules the new target, unless the target is current already. */
  method ScheduleTarget(tx: Tables, key: PRKey, s: Snapshot) returns (effect: Effect)
    ensures effect == ReconcileEligible(tx, key, s)
  {
    var target := TargetOf(key, s);
    var generation := GenerationOf(tx, key);
    if !ValidTarget(target) { return Error(RecordInvalid); }
    if IsEligible(tx, key) && tx.pulls[key].target == Some(target) {
      return Written(tx, ReconcileResult(NoChangeCurrentTarget, generation, Some(target), tx.pulls[key].job, None, None));
    }
    if generation == MAX_INT64 { return Error(GenerationOverflow); }
    generation := generation + 1;
    var next := CloseJobs(tx, CurrentJob(tx, key), JobSuperseded, RequestSuperseded);
    effect := InsertTargetJobAttemptSource(next, JobId(target, generation), s);
    if effect.Written? {
      next := effect.tables;
      next := next.(pulls := next.pulls[key := PullRow(s, generation, Eligible, Some(target), Some(JobId(target, generation)))]);
      effect := Written(next, effect.result);
    }
  }

  /** Brings a pull request to what the snapshot shows of it. */
  method ReconcilePull(tx: Tables, key: PRKey, s: Snapshot) returns (effect: Effect)
    ensures effect == Reconcile(tx, key, s)
  {
    var eligibility := EligibilityFor(s);
    if eligibility.Eligible? {
      effect := ScheduleTarget(tx, key, s);
      return;
    }
    var generation, next := GenerationOf(tx, key), tx;
    if generation == 0 || tx.pulls[key].eligibility != eligibility {
      if generation == MAX_INT64 { return Error(GenerationOverflow); }
      generation := generation + 1;
      next := CloseJobs(tx, CurrentJob(tx, key), JobSuperseded, RequestSuperseded);
    }
    var decision;
    match eligibility {
      case Draft => decision := MarkedDraft;
      case Closed => decision := MarkedClosed;
      case _ => decision := MarkedSourceUnavailable;
    }
    next := next.(pulls := next.pulls[key := PullRow(s, generation, eligibility, None, None)]);
    return Written(next, ReconcileResult(decision, generation, None, None, None, None));
  }

  /** Adds an attempt for a rerequested check run, when the run is bound to the current job. */
  method RerequestAttempt(config: Config, tx: Tables, inp: RerequestInput) returns (effect: Effect)
    requires inp.projection.CheckRunProjection?
    ensures effect == Rerequest(config, tx, inp)
  {
    var key := inp.lease.key;
    var bkey := BindingKey(inp.projection.repository, inp.projection.checkRun);
    if bkey !in tx.bindings { return Written(tx, Outcome(RerequestIgnored)); }
    var b := tx.bindings[bkey];
    if b.installation != inp.projection.installation || b.externalId != inp.projection.externalId || b.number != key.number {
      return Error(BindingConflict);
    }
    if !RerequestIsCurrent(tx, key, b, inp.snapshotTarget) {
      return Written(tx, ReconcileResult(RerequestIgnored, GenerationOf(tx, key), Some(b.target), Some(b.job), None, None));
    }
    var highest := MaxAttemptNumber(tx, b.job);
    var next := highest + 1;
    if next > config.maxAttempts { return Error(AttemptLimit); }
    if b.controllerGeneration <= 0 || next <= 0 || next > MAX_ATTEMPTS_PER_TARGET { return Error(RecordInvalid); }
    var attempt := AttemptId(b.job, b.target, b.controllerGeneration, next, CheckRerequest);
    if attempt in tx.attempts || AttemptNumberTaken(tx, b.job, next) { return Error(ConstraintViolated); }
    return Written(tx.(attempts := tx.attempts[attempt := AttemptRowOf(attempt)]),
                   ReconcileResult(RerequestCreated, b.controllerGeneration, Some(b.target), Some(b.job), Some(attempt), None));
  }

  predicate Exhausted(row: RequestRow) { row.leaseGeneration == MAX_INT64 || row.attempts == MAX_INT64 }

  // ---------------------------------------------------------------- blocking pull requests one by one

  lemma ClosingOneMore(t: Tables, done: set<JobId>, more: set<JobId>)
    ensures CloseJobs(CloseJobs(t, done, JobCancelled, RequestCancelled), more, JobCancelled, RequestCancelled)
            == CloseJobs(t, done + more, JobCancelled, RequestCancelled)
  {
    var one := CloseJobs(t, done, JobCancelled, RequestCancelled);
    var two := CloseJobs(one, more, JobCancelled, RequestCancelled);
    var all := CloseJobs(t, done + more, JobCancelled, RequestCancelled);
    assert two.jobs == all.jobs;
    assert two.attempts == all.attempts;
    assert two.requests == all.requests;
  }

  /** Cancels the job of one pull request and blocks its row. */
  function BlockOne(t: Tables, key: PRKey): Tables
    requires key in t.pulls
  {
    var cancelled := CloseJobs(t, CurrentJob(t, key), JobCancelled, RequestCancelled);
    cancelled.(pulls := t.pulls[key := BlockedRow(t.pulls[key])])
  }

  lemma BlockingOneMore(t: Tables, done: set<PRKey>, key: PRKey)
    requires key in t.pulls && key !in done
    ensures key in BlockPulls(t, done).pulls && BlockPulls(t, done).pulls[key] == t.pulls[key]
    ensures BlockOne(BlockPulls(t, done), key) == BlockPulls(t, done + {key})
  {
    var before := BlockPulls(t, done);
    assert before.pulls[key] == t.pulls[key];
    assert CurrentJob(before, key) == CurrentJob(t, key);
    assert JobsOf(t, done + {key}) == JobsOf(t, done) + CurrentJob(t, key);
    var closed := CloseJobs(t, JobsOf(t, done), JobCancelled, RequestCancelled);
    ClosingOneMore(t, JobsOf(t, done), CurrentJob(t, key));
    assert before.pulls[key := BlockedRow(before.pulls[key])] == BlockedPulls(t.pulls, done + {key});
  }

  lemma BlockingNext(t: Tables, keys: set<PRKey>, rest: set<PRKey>, key: PRKey)
    requires key in rest && rest <= keys && key in t.pulls
    ensures key in BlockPulls(t, keys - rest).pulls && BlockPulls(t, keys - rest).pulls[key] == t.pulls[key]
    ensures BlockOne(BlockPulls(t, keys - rest), key) == BlockPulls(t, keys - (rest - {key}))
  {
    BlockingOneMore(t, keys - rest, key);
    assert keys - rest + {key} == keys - (rest - {key});
  }

  lemma BlockingNone(t: Tables)
    ensures BlockPulls(t, {}) == t
  {
    assert BlockPulls(t, {}).jobs == t.jobs;
    assert BlockPulls(t, {}).attempts == t.attempts;
    assert BlockPulls(t, {}).requests == t.requests;
    assert BlockPulls(t, {}).pulls == t.pulls;
  }

  /** Blocks the eligible pull requests that a hint affects, row by row in any order. */
  method InvalidateInstallationRows(tx: Tables, p: Projection) returns (effect: Effect)
    requires p.InstallationProjection?
    ensures effect == Invalidate(tx, p)
  {
    if !Invalidates(p.action) { return Written(tx, Outcome(InstallationHintRecorded)); }
    var keys := BlockedKeys(tx, p);
    var rest, next := keys, tx;
    BlockingNone(tx);
    while rest != {}
      invariant rest <= keys
      invariant next == BlockPulls(tx, keys - rest)
      invariant forall key | key in keys - rest :: tx.pulls[key].generation != MAX_INT64
      decreases |rest|
    {
      var key :| key in rest;
      BlockingNext(tx, keys, rest, key);
      if next.pulls[key].generation == MAX_INT64 { return Error(GenerationOverflow); }
      next := BlockOne(next, key);
      rest := rest - {key};
    }
    assert keys - {} == keys;
    return Written(next, Outcome(if keys == {} then InstallationHintRecorded else BlockedInstallation));
  }

  /** Closes a claimed request with the result of its import, and moves its job on. */
  method ImportResultApplied(tx: Tables, r: ImportResult, owner: string, generation: int, wellFormed: bool, timely: bool)
    returns (committed: Tables, reply: Reply)
    ensures (committed, reply) == ApplyImport(tx, r, owner, generation, wellFormed, timely)
  {
    if !timely || !ResultValid(r, owner, generation, wellFormed) { return tx, Rejected(RecordInvalid); }
    var i := IndexOf(tx.requests, r.request);
    if i == |tx.requests| || tx.requests[i].owner != owner || tx.requests[i].leaseGeneration != generation {
      return tx, Rejected(SourceLeaseStale);
    }
    if !tx.requests[i].state.Leased? || !ResultMatches(r, tx.requests[i]) { return tx, Rejected(RecordInvalid); }
    var nextRequest, nextJob := RequestCompleted, AwaitingRunner;
    if r.failed { nextRequest, nextJob := RequestFailed, JobFailed; }
    var next := tx.(requests := tx.requests[i := tx.requests[i].(state := nextRequest)]);
    if r.job in next.jobs && next.jobs[r.job].generation == r.generation && next.jobs[r.job].state.ImportingSource? {
      next := next.(jobs := next.jobs[r.job := next.jobs[r.job].(state := nextJob)]);
    }
    return next, Accepted;
  }

  // ---------------------------------------------------------------- bookings, leases, claims

  /** The earlier outcome of a delivery, if it has been processed. */
  method CheckProcessed(tx: Tables, d: Delivery) returns (found: bool, reply: Reply)
    ensures found <==> d.outbox in tx.processed
    ensures found ==> reply == if tx.processed[d.outbox].digest != d.digest then Rejected(ProcessedConflict)
                               else Done(DuplicateResult(tx.processed[d.outbox]))
  {
    if d.outbox !in tx.processed { return false, Done(Outcome(DuplicateProcessed)); }
    if tx.processed[d.outbox].digest != d.digest { return true, Rejected(ProcessedConflict); }
    return true, Done(DuplicateResult(tx.processed[d.outbox]));
  }

  /** Deletes the lease row of exactly this owner and generation, and says how many rows that were. */
  method ReleaseReconcileLease(tx: Tables, lease: LeaseToken) returns (next: Tables, n: nat)
    ensures n == (if HoldsLease(tx, lease) then 1 else 0)
    ensures next == if HoldsLease(tx, lease) then Release(tx, lease.key) else tx
  {
    if lease.key !in tx.leases || tx.leases[lease.key] != LeaseRow(lease.owner, lease.generation) { return tx, 0; }
    return tx.(leases := tx.leases - {lease.key}), 1;
  }

  /** Books a delivery with its result and gives its lease up; without the lease nothing commits. */
  method Finish(tx: Tables, d: Delivery, lease: LeaseToken, effect: Effect) returns (committed: Tables, reply: Reply)
    requires d.outbox !in tx.processed && (effect.Written? ==> effect.tables.leases == tx.leases)
    ensures (committed, reply) == CommitLeased(tx, d, lease, effect)
  {
    if effect.Error? { return tx, Rejected(effect.code); }
    var released, n := ReleaseReconcileLease(Book(effect.tables, d, effect.result), lease);
    if n != 1 { return tx, Rejected(LeaseStale); }
    return released, Done(effect.result);
  }

  /** Scans for at most `limit` claimable requests; none if one of them cannot be counted further. */
  method ScanCandidates(rows: seq<RequestRow>, expired: set<nat>, limit: nat) returns (chosen: Option<seq<nat>>)
    ensures var c := Candidates(rows, expired, limit);
            chosen == if exists i | i in c :: Exhausted(rows[i]) then None else Some(c)
  {
    ghost var all := Candidates(rows, expired, limit);
    ghost var rest := all;
    var found: seq<nat>, i := [], 0;
    while i < |rows| && |found| < limit
      invariant i <= |rows| && |found| <= limit
      invariant rest == FirstOf(ClaimableRows(rows, expired), |rows|, i, limit - |found|) && all == found + rest
      invariant forall k {:trigger found[k]} | 0 <= k < |found| :: found[k] < |rows| && !Exhausted(rows[found[k]])
    {
      if Claimable(rows, expired, i) {
        if Exhausted(rows[i]) {
          assert i == all[|found|];
          return None;
        }
        assert all == (found + [i]) + rest[1..];
        found, rest := found + [i], rest[1..];
      }
      i := i + 1;
    }
    assert all == found;
    return Some(found);
  }

  /** Leases the candidates one by one; each update repeats the conditions it was selected under. */
  method TakeCandidates(rows: seq<RequestRow>, chosen: seq<nat>, expired: set<nat>, owner: string)
    returns (taken: seq<RequestRow>, claimed: seq<nat>)
    requires forall i | i in chosen :: i < |rows| && Claimable(rows, expired, i)
    requires forall j, k | 0 <= j < k < |chosen| :: chosen[j] < chosen[k]
    ensures taken == ClaimRows(rows, chosen, owner) && claimed == chosen
  {
    taken, claimed := rows, [];
    var k := 0;
    while k < |chosen|
      invariant k <= |chosen| && claimed == chosen[..k]
      invariant taken == ClaimRows(rows, chosen[..k], owner)
    {
      var i := chosen[k];
      assert i in chosen && i !in chosen[..k];
      if taken[i].leaseGeneration == rows[i].leaseGeneration && Claimable(taken, expired, i) {
        taken := taken[i := ClaimedRow(taken[i], owner)];
        claimed := claimed + [i];
      }
      k := k + 1;
      assert chosen[..k] == chosen[..k - 1] + [i];
    }
    assert chosen[..k] == chosen;
  }

  // ---------------------------------------------------------------- the store

  class Store {
    const config: Config
    var db: Tables
    /** The transactions so far. */
    ghost var history: seq<Step>

    /** The database is what its history makes of an empty one; so it meets the invariant of every run. */
    ghost predicate Valid()
      reads this
    {
      db == State(config, history) && Inv(db)
    }

    constructor (config: Config)
      ensures Valid() && this.config == config && history == [] && db == EMPTY
    {
      this.config := config;
      db := EMPTY;
      history := [];
      new;
      RunKeepsInv(config, []);
    }

    /** Whatever a method commits, when it is what the step does, the store stays valid. */
    lemma StepKeepsValid(was: Tables, before: seq<Step>, step: Step)
      requires was == State(config, before) && Inv(was)
      ensures State(config, before + [step]) == After(config, was, step) && Inv(After(config, was, step))
    {
      assert (before + [step])[..|before|] == before;
      StepKeepsInv(config, was, step);
    }

    method AcquireReconcileLease(key: PRKey, owner: string, expired: bool, timely: bool) returns (reply: Reply)
      requires Valid()
      modifies this`db, this`history
      ensures Valid() && history == old(history) + [Acquire(key, owner, expired, timely)]
      ensures (db, reply) == Exec(config, old(db), Acquire(key, owner, expired, timely))
    {
      StepKeepsValid(db, history, Acquire(key, owner, expired, timely));
      history := history + [Acquire(key, owner, expired, timely)];
      if !ValidKey(key) || !ValidOwner(owner) || !timely { return Rejected(RecordInvalid); }
      var generation := 1;
      if key in db.leases {
        if !expired { return Rejected(LeaseBusy); }
        if db.leases[key].generation == MAX_INT64 { return Rejected(GenerationOverflow); }
        generation := db.leases[key].generation + 1;
      }
      db := db.(leases := db.leases[key := LeaseRow(owner, generation)]);
      return Acquired(LeaseToken(key, owner, generation));
    }

    method ApplyPullRequestSnapshot(inp: SnapshotInput, timely: bool) returns (reply: Reply)
      requires Valid()
      modifies this`db, this`history
      ensures Valid() && history == old(history) + [SnapshotStep(inp, timely)]
      ensures (db, reply) == Exec(config, old(db), SnapshotStep(inp, timely))
    {
      StepKeepsValid(db, history, SnapshotStep(inp, timely));
      history := history + [SnapshotStep(inp, timely)];
      var problem := SnapshotProblem(config, inp, timely);
      if problem.Some? { return Rejected(problem.value); }
      var tx := db;
      var found, earlier := CheckProcessed(tx, inp.delivery);
      if found {
        if earlier.Rejected? { return earlier; }
        var released, n := ReleaseReconcileLease(tx, inp.lease);
        if n != 1 { return Rejected(LeaseStale); }
        db := released;
        return earlier;
      }
      var effect := ReconcilePull(tx, inp.lease.key, inp.snapshot);
      ReconcileLeavesLeases(tx, inp.lease.key, inp.snapshot);
      var committed;
      committed, reply := Finish(tx, inp.delivery, inp.lease, effect);
      db := committed;
    }

    method ApplyCheckRunRerequest(inp: RerequestInput, timely: bool) returns (reply: Reply)
      requires Valid()
      modifies this`db, this`history
      ensures Valid() && history == old(history) + [RerequestStep(inp, timely)]
      ensures (db, reply) == Exec(config, old(db), RerequestStep(inp, timely))
    {
      StepKeepsValid(db, history, RerequestStep(inp, timely));
      history := history + [RerequestStep(inp, timely)];
      if !RerequestInputValid(config, inp, timely) { return Rejected(RecordInvalid); }
      var tx := db;
      var found, earlier := CheckProcessed(tx, inp.delivery);
      if found {
        if earlier.Rejected? { return earlier; }
        var released, n := ReleaseReconcileLease(tx, inp.lease);
        if n != 1 { return Rejected(LeaseStale); }
        db := released;
        return earlier;
      }
      var effect := RerequestAttempt(config, tx, inp);
      if effect.Written? { RerequestWrites(config, tx, inp); }
      var committed;
      committed, reply := Finish(tx, inp.delivery, inp.lease, effect);
      db := committed;
    }

    method ApplyInstallationHint(d: Delivery, hint: Projection, timely: bool) returns (reply: Reply)
      requires Valid()
      modifies this`db, this`history
      ensures Valid() && history == old(history) + [HintStep(d, hint, timely)]
      ensures (db, reply) == Exec(config, old(db), HintStep(d, hint, timely))
    {
      StepKeepsValid(db, history, HintStep(d, hint, timely));
      history := history + [HintStep(d, hint, timely)];
      if !HintValid(config, d, hint, timely) { return Rejected(RecordInvalid); }
      var found, earlier := CheckProcessed(db, d);
      if found { return earlier; }
      var effect := InvalidateInstallationRows(db, hint);
      if effect.Error? { return Rejected(effect.code); }
      db := Book(effect.tables, d, effect.result);
      return Done(effect.result);
    }

    method RecordProcessingDecision(d: Delivery, decision: Decision, timely: bool) returns (reply: Reply)
      requires Valid()
      modifies this`db, this`history
      ensures Valid() && history == old(history) + [DecisionStep(d, decision, timely)]
      ensures (db, reply) == Exec(config, old(db), DecisionStep(d, decision, timely))
    {
      StepKeepsValid(db, history, DecisionStep(d, decision, timely));
      history := history + [DecisionStep(d, decision, timely)];
      if d.receiver != config.receiver || !timely { return Rejected(RecordInvalid); }
      var found, earlier := CheckProcessed(db, d);
      if found { return earlier; }
      db := Book(db, d, Outcome(decision));
      return Done(Outcome(decision));
    }

    method RegisterCheckBinding(b: CheckBinding) returns (reply: Reply)
      requires Valid()
      modifies this`db, this`history
      ensures Valid() && history == old(history) + [BindingStep(b)]
      ensures (db, reply) == Exec(config, old(db), BindingStep(b))
    {
      StepKeepsValid(db, history, BindingStep(b));
      history := history + [BindingStep(b)];
      if b.app != config.app || b.installation <= 0 || b.repository <= 0 || b.number <= 0 || b.checkRun <= 0
         || b.externalId == "" || b.controllerGeneration <= 0 || b.publicationGeneration <= 0 {
        return Rejected(RecordInvalid);
      }
      var bkey := BindingKey(b.repository, b.checkRun);
      if bkey !in db.bindings {
        db := db.(bindings := db.bindings[bkey := b]);
        return Accepted;
      }
      if db.bindings[bkey] != b { return Rejected(BindingConflict); }
      return Accepted;
    }

    method ClaimSourceImports(owner: string, expired: set<nat>, limit: int, timely: bool) returns (reply: Reply)
      requires Valid()
      modifies this`db, this`history
      ensures Valid() && history == old(history) + [ClaimStep(owner, expired, limit, timely)]
      ensures (db, reply) == Exec(config, old(db), ClaimStep(owner, expired, limit, timely))
    {
      StepKeepsValid(db, history, ClaimStep(owner, expired, limit, timely));
      history := history + [ClaimStep(owner, expired, limit, timely)];
      if !ValidOwner(owner) || !timely || limit <= 0 || limit > 100 { return Rejected(RecordInvalid); }
      var scan := ScanCandidates(db.requests, expired, limit);
      if scan.None? { return Rejected(SourceLeaseStale); }
      FirstOfIsFirst(ClaimableRows(db.requests, expired), |db.requests|, 0, limit);
      var rows, claimed := TakeCandidates(db.requests, scan.value, expired, owner);
      db := db.(requests := rows);
      return Claimed(claimed);
    }

    /** Acknowledges or releases a claimed request: one update, guarded by owner and generation. */
    method FinishSourceLease(id: RequestId, owner: string, generation: int, acknowledge: bool, timely: bool) returns (reply: Reply)
      requires Valid()
      modifies this`db, this`history
      ensures Valid() && history == old(history) + [FinishStep(id, owner, generation, acknowledge, timely)]
      ensures (db, reply) == Exec(config, old(db), FinishStep(id, owner, generation, acknowledge, timely))
    {
      StepKeepsValid(db, history, FinishStep(id, owner, generation, acknowledge, timely));
      history := history + [FinishStep(id, owner, generation, acknowledge, timely)];
      if !ValidOwner(owner) || generation <= 0 || !timely { return Rejected(SourceLeaseStale); }
      var i := IndexOf(db.requests, id);
      if i == |db.requests| || !HoldsImport(db.requests[i], owner, generation) { return Rejected(SourceLeaseStale); }
      var row := db.requests[i].(state := if acknowledge then RequestCompleted else Pending);
      db := db.(requests := db.requests[i := row]);
      return Accepted;
    }

    method ApplySourceImportResult(r: ImportResult, owner: string, generation: int, wellFormed: bool, timely: bool) returns (reply: Reply)
      requires Valid()
      modifies this`db, this`history
      ensures Valid() && history == old(history) + [ImportStep(r, owner, generation, wellFormed, timely)]
      ensures (db, reply) == Exec(config, old(db), ImportStep(r, owner, generation, wellFormed, timely))
    {
      StepKeepsValid(db, history, ImportStep(r, owner, generation, wellFormed, timely));
      history := history + [ImportStep(r, owner, generation, wellFormed, timely)];
      var committed;
      committed, reply := ImportResultApplied(db, r, owner, generation, wellFormed, timely);
      db := committed;
    }
  }
}

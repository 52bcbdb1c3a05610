/** What the tables say of the run that led to them: which snapshot a pull request stands at, what a
    delivery was answered, and how a job came to the runner. */
module ControllerHistory {
  import opened ControllerModel
  import opened Options
  import opened ControllerSpec
  import opened ControllerInvariant
  import opened ControllerSafety
  import opened ControllerRuns
  import opened SourceFencing
  import opened ControllerAnswers

  // ---------------------------------------------------------------- the last snapshot

  /** The step takes a snapshot of the pull request. */
  ghost predicate Shows(cfg: Config, t: Tables, step: Step, key: PRKey) {
    step.SnapshotStep? && step.snapshot.lease.key == key && TakesSnapshot(cfg, t, step.snapshot, step.timely)
  }

  /** The step takes a hint that withdraws the repository of the pull request. */
  ghost predicate Withdrew(cfg: Config, t: Tables, step: Step, key: PRKey) {
    && step.HintStep? && TakesHint(cfg, t, step.hinted, step.hint, step.timely)
    && step.hint.InstallationProjection? && step.hint.installation == key.installation && Withdraws(step.hint, key.repository)
  }

  ghost predicate ShownAt(cfg: Config, run: seq<Step>, i: nat, key: PRKey) {
    i < |run| && Shows(cfg, State(cfg, run[..i]), run[i], key)
  }

  ghost predicate WithdrawnAt(cfg: Config, run: seq<Step>, i: nat, key: PRKey) {
    i < |run| && Withdrew(cfg, State(cfg, run[..i]), run[i], key)
  }

  /** Step `i` is the last one before state `n` that shows the pull request. */
  ghost predicate LastShown(cfg: Config, run: seq<Step>, i: nat, n: nat, key: PRKey) {
    && i < n <= |run| && ShownAt(cfg, run, i, key)
    && forall j: nat | i < j < n :: !ShownAt(cfg, run, j, key)
  }

  ghost predicate WithdrawnSince(cfg: Config, run: seq<Step>, i: nat, n: nat, key: PRKey) {
    exists j: nat :: i < j < n && WithdrawnAt(cfg, run, j, key)
  }

  /** The row is what the snapshot says, and blocked if it was open and has been withdrawn since. */
  ghost predicate StandsAt(row: PRRow, key: PRKey, s: Snapshot, withdrawn: bool) {
    var open := !s.closed && !s.merged && !s.draft && s.headAvailable && s.head.repository > 0 && s.head.commit != "";
    && (row.eligibility.Closed? <==> s.closed || s.merged)
    && (row.eligibility.Draft? <==> !s.closed && !s.merged && s.draft)
    && (row.eligibility.SourceUnavailable? <==> !s.closed && !s.merged && !s.draft && !open)
    && (row.eligibility.InstallationBlocked? <==> open && withdrawn)
    && (row.eligibility.Eligible? <==> open && !withdrawn)
    && row.target == if open && !withdrawn then
                       Some(Target(key.installation, key.repository, s.head.repository, key.number, s.base.commit, s.head.commit))
                     else None
  }

  lemma ShownRowStands(cfg: Config, t: Tables, step: Step, key: PRKey)
    requires Inv(t) && Shows(cfg, t, step, key)
    ensures key in After(cfg, t, step).pulls && StandsAt(After(cfg, t, step).pulls[key], key, step.snapshot.snapshot, false)
  {
    SnapshotAnswer(cfg, t, step.snapshot, step.timely);
    SnapshotIsTaken(cfg, t, step.snapshot, step.timely);
    StepKeepsInv(cfg, t, step);
    assert PullOk(After(cfg, t, step), key);
    if After(cfg, t, step).pulls[key].eligibility.Eligible? { EligibleTargetIsTheSnapshots(cfg, t, step.snapshot, step.timely); }
  }

  lemma WithdrawnRowIsBlocked(cfg: Config, t: Tables, step: Step, key: PRKey, s: Snapshot, withdrawn: bool)
    requires Inv(t) && Withdrew(cfg, t, step, key) && key in t.pulls && StandsAt(t.pulls[key], key, s, withdrawn)
    ensures key in After(cfg, t, step).pulls && StandsAt(After(cfg, t, step).pulls[key], key, s, true)
  {
    HintAnswer(cfg, t, step.hinted, step.hint, step.timely);
  }

  /** No other step touches the row. */
  lemma OtherStepsLeaveRow(cfg: Config, t: Tables, step: Step, key: PRKey)
    requires Inv(t) && !Shows(cfg, t, step, key) && !Withdrew(cfg, t, step, key)
    ensures key in After(cfg, t, step).pulls <==> key in t.pulls
    ensures key in t.pulls ==> After(cfg, t, step).pulls[key] == t.pulls[key]
  {
    StepBooks(cfg, t, step);
    if !step.SnapshotStep? && !step.HintStep? {
      OtherStepsLeavePulls(cfg, t, step);
    } else if ReplyTo(cfg, t, step).Done? {
      if DeliveryOf(step).value.outbox in t.processed {
        RedeliveryAnswer(cfg, t, step);
      } else if step.SnapshotStep? {
        SnapshotFillsRow(cfg, t, step.snapshot, step.timely);
      } else {
        HintIsTaken(cfg, t, step.hinted, step.hint, step.timely);
        HintAnswer(cfg, t, step.hinted, step.hint, step.timely);
      }
    }
  }

  lemma LastShownStays(cfg: Config, run: seq<Step>, i: nat, n: nat, key: PRKey)
    requires n < |run| && LastShown(cfg, run, i, n, key) && !ShownAt(cfg, run, n, key)
    ensures LastShown(cfg, run, i, n + 1, key)
  {
    forall j: nat | i < j < n + 1 ensures !ShownAt(cfg, run, j, key) {
      assert j < n || j == n;
    }
  }

  lemma WithdrawnSinceGrows(cfg: Config, run: seq<Step>, i: nat, n: nat, key: PRKey)
    requires i < n < |run|
    ensures WithdrawnSince(cfg, run, i, n + 1, key) <==> WithdrawnSince(cfg, run, i, n, key) || WithdrawnAt(cfg, run, n, key)
  {
  }

  /** In state `n` the row stands at the snapshot of step `i`, the last one that shows it. */
  ghost predicate StandsSince(cfg: Config, run: seq<Step>, n: nat, key: PRKey, i: nat) {
    && LastShown(cfg, run, i, n, key) && key in State(cfg, run[..n]).pulls
    && StandsAt(State(cfg, run[..n]).pulls[key], key, run[i].snapshot.snapshot, WithdrawnSince(cfg, run, i, n, key))
  }

  lemma ShownStands(cfg: Config, run: seq<Step>, n: nat, key: PRKey)
    requires ShownAt(cfg, run, n, key)
    ensures StandsSince(cfg, run, n + 1, key, n)
  {
    StateAfter(cfg, run, n);
    RunKeepsInv(cfg, run[..n]);
    ShownRowStands(cfg, State(cfg, run[..n]), run[n], key);
  }

  lemma WithdrawnStands(cfg: Config, run: seq<Step>, n: nat, key: PRKey, i: nat)
    requires StandsSince(cfg, run, n, key, i) && n < |run| && !ShownAt(cfg, run, n, key) && WithdrawnAt(cfg, run, n, key)
    ensures StandsSince(cfg, run, n + 1, key, i)
  {
    StateAfter(cfg, run, n);
    RunKeepsInv(cfg, run[..n]);
    WithdrawnRowIsBlocked(cfg, State(cfg, run[..n]), run[n], key, run[i].snapshot.snapshot, WithdrawnSince(cfg, run, i, n, key));
    LastShownStays(cfg, run, i, n, key);
    WithdrawnSinceGrows(cfg, run, i, n, key);
  }

  lemma OtherStands(cfg: Config, run: seq<Step>, n: nat, key: PRKey, i: nat)
    requires StandsSince(cfg, run, n, key, i) && n < |run| && !ShownAt(cfg, run, n, key) && !WithdrawnAt(cfg, run, n, key)
    ensures StandsSince(cfg, run, n + 1, key, i)
  {
    StateAfter(cfg, run, n);
    RunKeepsInv(cfg, run[..n]);
    OtherStepsLeaveRow(cfg, State(cfg, run[..n]), run[n], key);
    LastShownStays(cfg, run, i, n, key);
    WithdrawnSinceGrows(cfg, run, i, n, key);
  }

  /** Only a snapshot brings a row. */
  lemma RowWasThere(cfg: Config, run: seq<Step>, n: nat, key: PRKey)
    requires n < |run| && !ShownAt(cfg, run, n, key) && key in State(cfg, run[..n + 1]).pulls
    ensures key in State(cfg, run[..n]).pulls
  {
    var t, step := State(cfg, run[..n]), run[n];
    StateAfter(cfg, run, n);
    RunKeepsInv(cfg, run[..n]);
    if Withdrew(cfg, t, step, key) {
      HintIsTaken(cfg, t, step.hinted, step.hint, step.timely);
      HintAnswer(cfg, t, step.hinted, step.hint, step.timely);
    } else {
      OtherStepsLeaveRow(cfg, t, step, key);
    }
  }

  /** Every row was shown, and stands at the last snapshot that was taken of it: closed, draft or without
      a source as that one says; eligible, at exactly its commits, when it was open with a head and no
      hint has withdrawn the repository since; and otherwise blocked. */
  lemma {:induction false} PullStandsAtItsLastSnapshot(cfg: Config, run: seq<Step>, n: nat, key: PRKey) returns (i: nat)
    requires n <= |run| && key in State(cfg, run[..n]).pulls
    ensures StandsSince(cfg, run, n, key, i)
    decreases n
  {
    assert run[..0] == [];
    if ShownAt(cfg, run, n - 1, key) {
      i := n - 1;
      ShownStands(cfg, run, n - 1, key);
    } else {
      RowWasThere(cfg, run, n - 1, key);
      i := PullStandsAtItsLastSnapshot(cfg, run, n - 1, key);
      if WithdrawnAt(cfg, run, n - 1, key) { WithdrawnStands(cfg, run, n - 1, key, i); } else { OtherStands(cfg, run, n - 1, key, i); }
    }
  }

  // ---------------------------------------------------------------- what a delivery was answered

  /** Step `i` takes the delivery for the first time, and is answered with this result. */
  ghost predicate AnsweredAt(cfg: Config, run: seq<Step>, i: nat, o: OutboxId, r: ReconcileResult) {
    && i < |run| && DeliveryOf(run[i]).Some? && DeliveryOf(run[i]).value.outbox == o
    && o !in State(cfg, run[..i]).processed && ReplyTo(cfg, State(cfg, run[..i]), run[i]) == Done(r)
  }

  /** Every booking was made by the step that took the delivery, with its projection and its answer. */
  lemma {:induction false} BookingIsTheFirstAnswer(cfg: Config, run: seq<Step>, n: nat, o: OutboxId) returns (i: nat, r: ReconcileResult)
    requires n <= |run| && o in State(cfg, run[..n]).processed
    ensures i < n && AnsweredAt(cfg, run, i, o, r)
    ensures var d := DeliveryOf(run[i]).value;
            State(cfg, run[..n]).processed[o] == ProcessedRow(d.deliveryId, d.kind, d.digest, r.decision, r.generation, r.target, r.job)
    decreases n
  {
    assert run[..0] == [];
    var t, step := State(cfg, run[..n - 1]), run[n - 1];
    StateAfter(cfg, run, n - 1);
    StepBooks(cfg, t, step);
    if o in t.processed {
      i, r := BookingIsTheFirstAnswer(cfg, run, n - 1, o);
    } else {
      NewDeliveryIsBooked(cfg, t, step);
      i, r := n - 1, ReplyTo(cfg, t, step).result;
    }
  }

  /** A redelivery that is answered repeats generation, target and job of the first answer, as a duplicate. */
  lemma RedeliveryRepeatsTheFirstAnswer(cfg: Config, run: seq<Step>, j: nat) returns (i: nat, r: ReconcileResult)
    requires j < |run| && DeliveryOf(run[j]).Some? && ReplyTo(cfg, State(cfg, run[..j]), run[j]).Done?
    requires DeliveryOf(run[j]).value.outbox in State(cfg, run[..j]).processed
    ensures i < j && AnsweredAt(cfg, run, i, DeliveryOf(run[j]).value.outbox, r)
    ensures DeliveryOf(run[i]).value.digest == DeliveryOf(run[j]).value.digest
    ensures ReplyTo(cfg, State(cfg, run[..j]), run[j])
            == Done(ReconcileResult(DuplicateProcessed, r.generation, r.target, r.job, None, None))
  {
    i, r := BookingIsTheFirstAnswer(cfg, run, j, DeliveryOf(run[j]).value.outbox);
    RedeliveryAnswer(cfg, State(cfg, run[..j]), run[j]);
  }

  // ---------------------------------------------------------------- how a job came to the runner

  /** The step brings the job to the runner with the result of its import. */
  ghost predicate Imports(cfg: Config, t: Tables, step: Step, job: JobId) {
    && step.ImportStep? && ReplyTo(cfg, t, step) == Accepted && !step.imported.failed
    && step.imported.job == job && step.imported.target == job.target
    && step.imported.baseCommit == job.target.baseCommit && step.imported.headCommit == job.target.headCommit
    && step.imported.baseRepository == job.target.baseRepository && step.imported.headRepository == job.target.headRepository
  }

  /** A request asks for exactly the sides of its target. */
  ghost predicate SidesOfTarget(row: RequestRow) {
    && row.base.repository == row.target.baseRepository && row.base.commit == row.target.baseCommit
    && row.head.repository == row.target.headRepository && row.head.commit == row.target.headCommit
  }

  ghost predicate RequestsHaveSides(rows: seq<RequestRow>) { forall i | 0 <= i < |rows| :: SidesOfTarget(rows[i]) }

  lemma NewTargetHasSides(cfg: Config, t: Tables, inp: SnapshotInput, timely: bool)
    requires Inv(t) && TakesSnapshot(cfg, t, inp, timely)
    ensures var rows := After(cfg, t, SnapshotStep(inp, timely)).requests;
            |rows| == |t.requests| || (|rows| == |t.requests| + 1 && SidesOfTarget(rows[|t.requests|]))
  {
    SnapshotReworks(cfg, t, inp, timely);
    if ReplyTo(cfg, t, SnapshotStep(inp, timely)).result.decision.ScheduledNewTarget? {
      SnapshotAnswer(cfg, t, inp, timely);
      SnapshotFillsRow(cfg, t, inp, timely);
      EligibleTargetIsTheSnapshots(cfg, t, inp, timely);
    }
  }

  /** Only a snapshot that schedules a new target brings a new request, and that asks for its sides. */
  lemma NewRequestHasSides(cfg: Config, t: Tables, step: Step)
    requires Inv(t) && |t.requests| < |After(cfg, t, step).requests|
    ensures |After(cfg, t, step).requests| == |t.requests| + 1 && SidesOfTarget(After(cfg, t, step).requests[|t.requests|])
  {
    StepBooks(cfg, t, step);
    match step
    case SnapshotStep(inp, timely) =>
      if inp.delivery.outbox in t.processed { RedeliveryAnswer(cfg, t, step); } else { NewTargetHasSides(cfg, t, inp, timely); }
    case HintStep(d, p, timely) =>
      if d.outbox in t.processed { RedeliveryAnswer(cfg, t, step); } else {
        HintIsTaken(cfg, t, d, p, timely);
        HintAnswer(cfg, t, d, p, timely);
      }
    case ClaimStep(owner, expired, limit, timely) => ClaimAnswer(cfg, t, owner, expired, limit, timely);
    case FinishStep(id, owner, g, ack, timely) =>
    case ImportStep(r, owner, g, wellFormed, timely) =>
    case _ => OtherStepsLeavePulls(cfg, t, step);
  }

  lemma AdvancingKeepsSides(rows: seq<RequestRow>, rows': seq<RequestRow>, chosen: seq<nat>, owner: string)
    requires RowsAdvance(rows, rows', chosen, owner) && RequestsHaveSides(rows)
    requires |rows'| == |rows| || (|rows'| == |rows| + 1 && SidesOfTarget(rows'[|rows|]))
    ensures RequestsHaveSides(rows')
  {
    forall i | 0 <= i < |rows| ensures SidesOfTarget(rows'[i]) {
      assert RowAdvances(rows[i], rows'[i], i in chosen, owner) && SidesOfTarget(rows[i]);
    }
  }

  lemma StepKeepsSides(cfg: Config, t: Tables, step: Step)
    requires Inv(t) && RequestsHaveSides(t.requests)
    ensures RequestsHaveSides(After(cfg, t, step).requests)
  {
    StepAdvancesRows(cfg, t, step);
    if |t.requests| < |After(cfg, t, step).requests| { NewRequestHasSides(cfg, t, step); }
    AdvancingKeepsSides(t.requests, After(cfg, t, step).requests, Chosen(cfg, t, step), Claimant(step));
  }

  lemma {:induction false} RunKeepsSides(cfg: Config, run: seq<Step>)
    ensures RequestsHaveSides(State(cfg, run).requests)
  {
    if run != [] {
      RunKeepsSides(cfg, run[..|run| - 1]);
      RunKeepsInv(cfg, run[..|run| - 1]);
      StepKeepsSides(cfg, State(cfg, run[..|run| - 1]), run[|run| - 1]);
    }
  }

  ghost predicate AtRunner(t: Tables, job: JobId) { job in t.jobs && t.jobs[job].state == AwaitingRunner }

  lemma SnapshotBringsNoJob(cfg: Config, t: Tables, inp: SnapshotInput, timely: bool, job: JobId)
    requires Inv(t) && TakesSnapshot(cfg, t, inp, timely) && AtRunner(After(cfg, t, SnapshotStep(inp, timely)), job)
    ensures AtRunner(t, job)
  {
    SnapshotReworks(cfg, t, inp, timely);
    CurrentTargetIsLeftAlone(cfg, t, inp, timely);
  }

  /** An accepted result names the target of its job, and the sides of that target. */
  lemma AcceptedResultIsAboutItsTarget(cfg: Config, t: Tables, r: ImportResult, owner: string, g: int, wellFormed: bool, timely: bool)
    requires Inv(t) && RequestsHaveSides(t.requests)
    requires ReplyTo(cfg, t, ImportStep(r, owner, g, wellFormed, timely)) == Accepted
    ensures r.target == r.job.target
    ensures r.baseRepository == r.target.baseRepository && r.baseCommit == r.target.baseCommit
    ensures r.headRepository == r.target.headRepository && r.headCommit == r.target.headCommit
  {
    ImportAnswer(cfg, t, r, owner, g, wellFormed, timely);
    var i: nat :| LeasedBy(t, i, r.request, owner, g) && IsAbout(r, t.requests[i]);
    assert RequestOk(t, t.requests[i]) && SidesOfTarget(t.requests[i]);
  }

  lemma ImportBringsItsJob(cfg: Config, t: Tables, r: ImportResult, owner: string, g: int, wellFormed: bool, timely: bool, job: JobId)
    requires Inv(t) && RequestsHaveSides(t.requests)
    requires AtRunner(After(cfg, t, ImportStep(r, owner, g, wellFormed, timely)), job)
    ensures AtRunner(t, job) || Imports(cfg, t, ImportStep(r, owner, g, wellFormed, timely), job)
  {
    if ReplyTo(cfg, t, ImportStep(r, owner, g, wellFormed, timely)) == Accepted {
      AcceptedResultIsAboutItsTarget(cfg, t, r, owner, g, wellFormed, timely);
    }
  }

  lemma OnlyImportsBringJobs(cfg: Config, t: Tables, step: Step, job: JobId)
    requires Inv(t) && RequestsHaveSides(t.requests) && AtRunner(After(cfg, t, step), job)
    ensures AtRunner(t, job) || Imports(cfg, t, step, job)
  {
    StepBooks(cfg, t, step);
    match step
    case SnapshotStep(inp, timely) =>
      if ReplyTo(cfg, t, step).Done? {
        if inp.delivery.outbox in t.processed { RedeliveryAnswer(cfg, t, step); } else { SnapshotBringsNoJob(cfg, t, inp, timely, job); }
      }
    case HintStep(d, p, timely) =>
      if ReplyTo(cfg, t, step).Done? {
        if d.outbox in t.processed { RedeliveryAnswer(cfg, t, step); } else {
          HintIsTaken(cfg, t, d, p, timely);
          HintAnswer(cfg, t, d, p, timely);
        }
      }
    case RerequestStep(inp, timely) => RerequestFrame(cfg, t, inp, timely);
    case ImportStep(r, owner, g, wellFormed, timely) => ImportBringsItsJob(cfg, t, r, owner, g, wellFormed, timely, job);
    case _ =>
  }

  /** A job is at the runner only because an accepted import brought exactly its commits. */
  lemma {:induction false} JobAtRunnerWasImported(cfg: Config, run: seq<Step>, n: nat, job: JobId) returns (i: nat)
    requires n <= |run| && AtRunner(State(cfg, run[..n]), job)
    ensures i < n && Imports(cfg, State(cfg, run[..i]), run[i], job)
    decreases n
  {
    assert run[..0] == [];
    StateAfter(cfg, run, n - 1);
    RunKeepsInv(cfg, run[..n - 1]);
    RunKeepsSides(cfg, run[..n - 1]);
    OnlyImportsBringJobs(cfg, State(cfg, run[..n - 1]), run[n - 1], job);
    if AtRunner(State(cfg, run[..n - 1]), job) {
      i := JobAtRunnerWasImported(cfg, run, n - 1, job);
    } else {
      i := n - 1;
    }
  }
}

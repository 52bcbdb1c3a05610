/** The source-import queue as a fencing protocol, over every run: lease generations rise, only the
    latest claim can finish a request, once, and an accepted result moves exactly one job. */
module SourceFencing {
  import opened ControllerModel
  import opened ControllerSpec
  import opened ControllerInvariant
  import opened ControllerSafety

  // ---------------------------------------------------------------- one row, one step

  /** The rows a step claims, and for whom. */
  ghost function Chosen(cfg: Config, t: Tables, step: Step): seq<nat> {
    if step.ClaimStep? && ReplyTo(cfg, t, step).Claimed? then ReplyTo(cfg, t, step).imports else []
  }

  function Claimant(step: Step): string { if step.ClaimStep? then step.claimant else "" }

  /** A step leaves a row alone, claims it for `owner`, or takes it out of the open state it is in. */
  ghost predicate RowAdvances(row: RequestRow, row': RequestRow, chosen: bool, owner: string) {
    if chosen then row.state.Open() && row' == ClaimedRow(row, owner)
    else row' == row || (row.state.Open() && row' == row.(state := row'.state) && !row'.state.Leased?)
  }

  ghost predicate RowsAdvance(rows: seq<RequestRow>, rows': seq<RequestRow>, chosen: seq<nat>, owner: string) {
    && |rows| <= |rows'|
    && (forall i {:trigger rows'[i]} | 0 <= i < |rows| :: RowAdvances(rows[i], rows'[i], i in chosen, owner))
    && (forall i {:trigger rows'[i]} | |rows| <= i < |rows'| :: !rows'[i].state.Leased?)
  }

  /** The step claims row `i` for `owner` under lease generation `g`. */
  ghost predicate Claims(cfg: Config, t: Tables, step: Step, i: nat, owner: string, g: int) {
    i < |t.requests| && i in Chosen(cfg, t, step) && Claimant(step) == owner && g == t.requests[i].leaseGeneration + 1
  }

  /** The step finishes row `i` under the lease (owner, g): it acknowledges or releases it, or applies a result. */
  ghost predicate Finishes(cfg: Config, t: Tables, step: Step, i: nat, owner: string, g: int) {
    && ReplyTo(cfg, t, step) == Accepted && i < |t.requests|
    && match step
       case FinishStep(id, holder, lease, _, _) => IndexOf(t.requests, id) == i && holder == owner && lease == g
       case ImportStep(r, holder, lease, _, _) => IndexOf(t.requests, r.request) == i && holder == owner && lease == g
       case _ => false
  }

  lemma ReconcileAdvancesRows(t: Tables, key: PRKey, s: Snapshot)
    requires Reconcile(t, key, s).Written?
    ensures RowsAdvance(t.requests, Reconcile(t, key, s).tables.requests, [], "")
  {
  }

  lemma InvalidateAdvancesRows(t: Tables, p: Projection)
    requires p.InstallationProjection? && Invalidate(t, p).Written?
    ensures RowsAdvance(t.requests, Invalidate(t, p).tables.requests, [], "")
  {
  }

  lemma ClaimAdvancesRows(t: Tables, owner: string, expired: set<nat>, limit: int, timely: bool)
    ensures var (t', reply) := ClaimImports(t, owner, expired, limit, timely);
            RowsAdvance(t.requests, t'.requests, if reply.Claimed? then reply.imports else [], owner)
  {
  }

  lemma FinishAdvancesRows(t: Tables, id: RequestId, owner: string, g: int, ack: bool, timely: bool)
    ensures RowsAdvance(t.requests, FinishImport(t, id, owner, g, ack, timely).0.requests, [], "")
  {
  }

  lemma ImportAdvancesRows(t: Tables, r: ImportResult, owner: string, g: int, wellFormed: bool, timely: bool)
    ensures RowsAdvance(t.requests, ApplyImport(t, r, owner, g, wellFormed, timely).0.requests, [], "")
  {
  }

  lemma SnapshotAdvancesRows(cfg: Config, t: Tables, inp: SnapshotInput, timely: bool)
    ensures RowsAdvance(t.requests, ApplySnapshot(cfg, t, inp, timely).0.requests, [], "")
  {
    if SnapshotProblem(cfg, inp, timely).None? && Reconcile(t, inp.lease.key, inp.snapshot).Written? {
      ReconcileAdvancesRows(t, inp.lease.key, inp.snapshot);
    }
  }

  lemma HintAdvancesRows(cfg: Config, t: Tables, d: Delivery, p: Projection, timely: bool)
    ensures RowsAdvance(t.requests, ApplyInstallationHint(cfg, t, d, p, timely).0.requests, [], "")
  {
    if HintValid(cfg, d, p, timely) && Invalidate(t, p).Written? {
      InvalidateAdvancesRows(t, p);
    }
  }

  lemma StepAdvancesRows(cfg: Config, t: Tables, step: Step)
    ensures RowsAdvance(t.requests, After(cfg, t, step).requests, Chosen(cfg, t, step), Claimant(step))
  {
    match step
    case SnapshotStep(inp, timely) => SnapshotAdvancesRows(cfg, t, inp, timely);
    case HintStep(d, p, timely) => HintAdvancesRows(cfg, t, d, p, timely);
    case ClaimStep(owner, expired, limit, timely) => ClaimAdvancesRows(t, owner, expired, limit, timely);
    case FinishStep(id, owner, g, ack, timely) => FinishAdvancesRows(t, id, owner, g, ack, timely);
    case ImportStep(r, owner, g, wellFormed, timely) => ImportAdvancesRows(t, r, owner, g, wellFormed, timely);
    case _ => OtherStepsLeavePulls(cfg, t, step);
  }

  // ---------------------------------------------------------------- one row, many steps

  /** No step after the claim of generation `g` can act under it any more. */
  predicate Spent(row: RequestRow, g: int) {
    row.leaseGeneration > g || (row.leaseGeneration == g && !row.state.Leased?)
  }

  /** Between two states of a run a row keeps its identity, its lease generation does not fall, a
      closed row keeps everything, and a spent lease stays spent. */
  ghost predicate RowPersists(row: RequestRow, row': RequestRow) {
    && row'.id == row.id && row'.job == row.job
    && row.leaseGeneration <= row'.leaseGeneration
    && (!row.state.Open() ==> row' == row)
    && (forall g | Spent(row, g) :: Spent(row', g))
  }

  lemma PersistsThenAdvances(row: RequestRow, row': RequestRow, row'': RequestRow, chosen: bool, owner: string)
    requires RowPersists(row, row') && RowAdvances(row', row'', chosen, owner)
    ensures RowPersists(row, row'')
  {
  }

  lemma {:induction false} RowsPersist(cfg: Config, run: seq<Step>, i: nat, j: nat, k: nat)
    requires i <= j <= |run| && k < |State(cfg, run[..i]).requests|
    ensures k < |State(cfg, run[..j]).requests|
    ensures RowPersists(State(cfg, run[..i]).requests[k], State(cfg, run[..j]).requests[k])
    decreases j
  {
    if i < j {
      RowsPersist(cfg, run, i, j - 1, k);
      StepAdvancesRows(cfg, State(cfg, run[..j - 1]), run[j - 1]);
      StateAfter(cfg, run, j - 1);
      PersistsThenAdvances(State(cfg, run[..i]).requests[k], State(cfg, run[..j - 1]).requests[k],
                           State(cfg, run[..j]).requests[k], k in Chosen(cfg, State(cfg, run[..j - 1]), run[j - 1]),
                           Claimant(run[j - 1]));
    }
  }

  lemma StateAfter(cfg: Config, run: seq<Step>, i: nat)
    requires i < |run|
    ensures State(cfg, run[..i + 1]) == After(cfg, State(cfg, run[..i]), run[i])
  {
    assert run[..i + 1][..i] == run[..i];
  }

  lemma ClaimTakesEffect(cfg: Config, t: Tables, step: Step, k: nat, owner: string, g: int)
    requires Claims(cfg, t, step, k, owner, g)
    ensures k < |After(cfg, t, step).requests|
    ensures var row := After(cfg, t, step).requests[k];
            row.state.Leased? && row.owner == owner && row.leaseGeneration == g
  {
  }

  lemma FinishTakesEffect(cfg: Config, t: Tables, step: Step, k: nat, owner: string, g: int)
    requires Finishes(cfg, t, step, k, owner, g)
    ensures t.requests[k].state.Leased? && t.requests[k].owner == owner && t.requests[k].leaseGeneration == g
    ensures k < |After(cfg, t, step).requests| && Spent(After(cfg, t, step).requests[k], g)
  {
  }

  // ---------------------------------------------------------------- theorems over runs

  ghost predicate ClaimedAt(cfg: Config, run: seq<Step>, i: nat, k: nat, owner: string, g: int) {
    i < |run| && Claims(cfg, State(cfg, run[..i]), run[i], k, owner, g)
  }

  ghost predicate FinishedAt(cfg: Config, run: seq<Step>, i: nat, k: nat, owner: string, g: int) {
    i < |run| && Finishes(cfg, State(cfg, run[..i]), run[i], k, owner, g)
  }

  /** The lease generations under which a request is claimed strictly rise. */
  lemma ClaimsRise(cfg: Config, run: seq<Step>, i: nat, j: nat, k: nat, o1: string, g1: int, o2: string, g2: int)
    requires i < j && ClaimedAt(cfg, run, i, k, o1, g1) && ClaimedAt(cfg, run, j, k, o2, g2)
    ensures g1 < g2
  {
    StateAfter(cfg, run, i);
    ClaimTakesEffect(cfg, State(cfg, run[..i]), run[i], k, o1, g1);
    RowsPersist(cfg, run, i + 1, j, k);
  }

  /** A claim is finished at most once: no run finishes the same request twice under one generation. */
  lemma ClaimIsFinishedOnce(cfg: Config, run: seq<Step>, i: nat, j: nat, k: nat, o1: string, o2: string, g: int)
    requires FinishedAt(cfg, run, i, k, o1, g) && FinishedAt(cfg, run, j, k, o2, g)
    ensures i == j
  {
    if i != j {
      var first, second := if i < j then i else j, if i < j then j else i;
      var owner, owner' := if i < j then o1 else o2, if i < j then o2 else o1;
      StateAfter(cfg, run, first);
      FinishTakesEffect(cfg, State(cfg, run[..first]), run[first], k, owner, g);
      FinishTakesEffect(cfg, State(cfg, run[..second]), run[second], k, owner', g);
      RowsPersist(cfg, run, first + 1, second, k);
      assert false;
    }
  }

  /** `i` is the last claim of row `k` before state `n`, and it was made by `owner` under `g`. */
  ghost predicate LastClaim(cfg: Config, run: seq<Step>, i: nat, n: nat, k: nat, owner: string, g: int) {
    && i < n <= |run| && ClaimedAt(cfg, run, i, k, owner, g)
    && forall j, o, h | i < j < n :: !ClaimedAt(cfg, run, j, k, o, h)
  }

  /** A row that is leased after a step was claimed by it, or stood so before. */
  lemma LeasedRowStep(cfg: Config, t: Tables, step: Step, k: nat)
    requires k < |After(cfg, t, step).requests| && After(cfg, t, step).requests[k].state.Leased?
    ensures var row := After(cfg, t, step).requests[k];
            if k in Chosen(cfg, t, step) then Claims(cfg, t, step, k, row.owner, row.leaseGeneration)
            else k < |t.requests| && t.requests[k] == row
  {
    StepAdvancesRows(cfg, t, step);
  }

  lemma NoClaimWithoutChoice(cfg: Config, t: Tables, step: Step, k: nat, owner: string, g: int)
    requires k !in Chosen(cfg, t, step)
    ensures !Claims(cfg, t, step, k, owner, g)
  {
  }

  lemma LastClaimStays(cfg: Config, run: seq<Step>, i: nat, n: nat, k: nat, owner: string, g: int)
    requires LastClaim(cfg, run, i, n, k, owner, g)
    requires n < |run| && k !in Chosen(cfg, State(cfg, run[..n]), run[n])
    ensures LastClaim(cfg, run, i, n + 1, k, owner, g)
  {
    forall j, o, h | i < j < n + 1 ensures !ClaimedAt(cfg, run, j, k, o, h) {
      if j == n {
        NoClaimWithoutChoice(cfg, State(cfg, run[..n]), run[n], k, o, h);
      }
    }
  }

  lemma ClaimIsLast(cfg: Config, run: seq<Step>, n: nat, k: nat, owner: string, g: int)
    requires ClaimedAt(cfg, run, n, k, owner, g)
    ensures LastClaim(cfg, run, n, n + 1, k, owner, g)
  {
  }

  /** A row that is leased was claimed, and by nobody else since. */
  lemma {:induction false} LeasedRowWasClaimed(cfg: Config, run: seq<Step>, n: nat, k: nat) returns (i: nat)
    requires n <= |run| && k < |State(cfg, run[..n]).requests| && State(cfg, run[..n]).requests[k].state.Leased?
    ensures var row := State(cfg, run[..n]).requests[k]; LastClaim(cfg, run, i, n, k, row.owner, row.leaseGeneration)
    decreases n
  {
    assert run[..0] == [];
    var row, t := State(cfg, run[..n]).requests[k], State(cfg, run[..n - 1]);
    StateAfter(cfg, run, n - 1);
    LeasedRowStep(cfg, t, run[n - 1], k);
    if k in Chosen(cfg, t, run[n - 1]) {
      i := n - 1;
      ClaimIsLast(cfg, run, i, k, row.owner, row.leaseGeneration);
    } else {
      i := LeasedRowWasClaimed(cfg, run, n - 1, k);
      LastClaimStays(cfg, run, i, n - 1, k, row.owner, row.leaseGeneration);
    }
  }

  /** Only the latest claim can finish a request: whoever finishes it under (owner, g) claimed it under
      exactly that lease, and nobody has claimed it in between. */
  lemma OnlyTheLatestClaimFinishes(cfg: Config, run: seq<Step>, j: nat, k: nat, owner: string, g: int)
    requires FinishedAt(cfg, run, j, k, owner, g)
    ensures exists i :: LastClaim(cfg, run, i, j, k, owner, g)
  {
    FinishTakesEffect(cfg, State(cfg, run[..j]), run[j], k, owner, g);
    var i := LeasedRowWasClaimed(cfg, run, j, k);
  }

  /** A closed request never changes again. */
  lemma ClosedIsAbsorbing(cfg: Config, run: seq<Step>, i: nat, j: nat, k: nat)
    requires i <= j <= |run| && k < |State(cfg, run[..i]).requests| && !State(cfg, run[..i]).requests[k].state.Open()
    ensures k < |State(cfg, run[..j]).requests| && State(cfg, run[..j]).requests[k] == State(cfg, run[..i]).requests[k]
  {
    RowsPersist(cfg, run, i, j, k);
  }

  /** An accepted result moves exactly one job, its own, and moves it out of importing-source. */
  lemma AcceptedResultMovesOneJob(cfg: Config, run: seq<Step>, r: ImportResult, owner: string, g: int, wellFormed: bool, timely: bool)
    requires var t := State(cfg, run);
             ReplyTo(cfg, t, ImportStep(r, owner, g, wellFormed, timely)) == Accepted
    ensures var t := State(cfg, run); var t' := After(cfg, t, ImportStep(r, owner, g, wellFormed, timely));
            && r.job in t.jobs && t.jobs[r.job].state.ImportingSource?
            && t'.jobs == t.jobs[r.job := t.jobs[r.job].(state := if r.failed then JobFailed else AwaitingRunner)]
  {
    RunKeepsInv(cfg, run);
    var t := State(cfg, run);
    assert RequestOk(t, t.requests[IndexOf(t.requests, r.request)]);
    assert JobOk(t, r.job);
  }

  // ---------------------------------------------------------------- a request that is acknowledged without a result

  /** The job has not got beyond the import: it waits for it, or has been closed meanwhile. */
  predicate NotBeyondImport(state: JobState) { state.ImportingSource? || state.JobSuperseded? || state.JobCancelled? }

  /** Row `k` is the request of the job, it is closed, and the job has not got beyond the import. */
  ghost predicate Stranded(t: Tables, k: nat, job: JobId) {
    && k < |t.requests| && t.requests[k].job == job && !t.requests[k].state.Open()
    && job in t.jobs && NotBeyondImport(t.jobs[job].state)
  }

  lemma ImportLeavesStranded(t: Tables, k: nat, job: JobId, r: ImportResult, owner: string, g: int, wellFormed: bool, timely: bool)
    requires Inv(t) && Stranded(t, k, job)
    ensures Stranded(ApplyImport(t, r, owner, g, wellFormed, timely).0, k, job)
  {
    var i := IndexOf(t.requests, r.request);
    if i < |t.requests| {
      assert RequestOk(t, t.requests[i]) && RequestOk(t, t.requests[k]);
    }
  }

  lemma ReconcileLeavesStranded(t: Tables, k: nat, job: JobId, key: PRKey, s: Snapshot)
    requires Stranded(t, k, job) && Reconcile(t, key, s).Written?
    ensures Stranded(Reconcile(t, key, s).tables, k, job)
  {
    ClosingLeavesStranded(t, k, job, CurrentJob(t, key));
  }

  lemma ClosingLeavesStranded(t: Tables, k: nat, job: JobId, closing: set<JobId>)
    requires Stranded(t, k, job)
    ensures Stranded(CloseJobs(t, closing, JobSuperseded, RequestSuperseded), k, job)
  {
  }

  lemma InvalidateLeavesStranded(t: Tables, k: nat, job: JobId, p: Projection)
    requires Stranded(t, k, job) && p.InstallationProjection? && Invalidate(t, p).Written?
    ensures Stranded(Invalidate(t, p).tables, k, job)
  {
  }

  lemma SnapshotLeavesStranded(cfg: Config, t: Tables, k: nat, job: JobId, inp: SnapshotInput, timely: bool)
    requires Stranded(t, k, job)
    ensures Stranded(ApplySnapshot(cfg, t, inp, timely).0, k, job)
  {
    if Reconcile(t, inp.lease.key, inp.snapshot).Written? { ReconcileLeavesStranded(t, k, job, inp.lease.key, inp.snapshot); }
  }

  lemma HintLeavesStranded(cfg: Config, t: Tables, k: nat, job: JobId, d: Delivery, p: Projection, timely: bool)
    requires Stranded(t, k, job)
    ensures Stranded(ApplyInstallationHint(cfg, t, d, p, timely).0, k, job)
  {
    if HintValid(cfg, d, p, timely) && Invalidate(t, p).Written? { InvalidateLeavesStranded(t, k, job, p); }
  }

  lemma StepLeavesStranded(cfg: Config, t: Tables, step: Step, k: nat, job: JobId)
    requires Inv(t) && Stranded(t, k, job)
    ensures Stranded(After(cfg, t, step), k, job)
  {
    match step
    case SnapshotStep(inp, timely) => SnapshotLeavesStranded(cfg, t, k, job, inp, timely);
    case HintStep(d, p, timely) => HintLeavesStranded(cfg, t, k, job, d, p, timely);
    case ImportStep(r, owner, g, wellFormed, timely) => ImportLeavesStranded(t, k, job, r, owner, g, wellFormed, timely);
    case RerequestStep(inp, timely) => RerequestFrame(cfg, t, inp, timely);
    case ClaimStep(owner, expired, limit, timely) => ClaimLeavesStranded(t, k, job, owner, expired, limit, timely);
    case FinishStep(id, owner, g, ack, timely) => FinishLeavesStranded(t, k, job, id, owner, g, ack, timely);
    case _ =>
  }

  lemma ClaimLeavesStranded(t: Tables, k: nat, job: JobId, owner: string, expired: set<nat>, limit: int, timely: bool)
    requires Stranded(t, k, job)
    ensures Stranded(ClaimImports(t, owner, expired, limit, timely).0, k, job)
  {
  }

  lemma FinishLeavesStranded(t: Tables, k: nat, job: JobId, id: RequestId, owner: string, g: int, ack: bool, timely: bool)
    requires Stranded(t, k, job)
    ensures Stranded(FinishImport(t, id, owner, g, ack, timely).0, k, job)
  {
  }

  lemma {:induction false} StrandedForGood(cfg: Config, run: seq<Step>, i: nat, j: nat, k: nat, job: JobId)
    requires i <= j <= |run| && Stranded(State(cfg, run[..i]), k, job)
    ensures Stranded(State(cfg, run[..j]), k, job)
    decreases j - i
  {
    if i < j {
      RunKeepsInv(cfg, run[..i]);
      StepLeavesStranded(cfg, State(cfg, run[..i]), run[i], k, job);
      StateAfter(cfg, run, i);
      StrandedForGood(cfg, run, i + 1, j, k, job);
    }
  }

  /** Acknowledging a request, unlike applying a result, strands its job: from then on no run ever
      brings the job to a runner, only a newer snapshot or an installation hint can close it. */
  lemma AcknowledgingStrandsTheJob(cfg: Config, run: seq<Step>, i: nat, j: nat, k: nat)
    requires i < j <= |run| && k < |State(cfg, run[..i]).requests|
    requires run[i].FinishStep? && run[i].acknowledge && Finishes(cfg, State(cfg, run[..i]), run[i], k, run[i].holder, run[i].lease)
    ensures var job := State(cfg, run[..i]).requests[k].job;
            job in State(cfg, run[..j]).jobs && NotBeyondImport(State(cfg, run[..j]).jobs[job].state)
  {
    var t := State(cfg, run[..i]);
    RunKeepsInv(cfg, run[..i]);
    assert RequestOk(t, t.requests[k]);
    StateAfter(cfg, run, i);
    StrandedForGood(cfg, run, i + 1, j, k, t.requests[k].job);
  }
}

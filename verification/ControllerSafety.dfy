/** Safety of every run of the controller store: who may be live, and what a generation means. */
module ControllerSafety {
  import opened ControllerModel
  import opened Options
  import opened ControllerSpec
  import opened ControllerInvariant

  // ---------------------------------------------------------------- every step keeps the invariant

  lemma OtherTablesKeepInv(t: Tables, t': Tables)
    requires Inv(t) && LeasesOk(t'.leases)
    requires t'.pulls == t.pulls && t'.jobs == t.jobs && t'.attempts == t.attempts && t'.requests == t.requests
    ensures Inv(t')
  {
    forall i | 0 <= i < |t.requests| ensures RequestSettles(t, t', i) { assert RequestOk(t, t.requests[i]); }
    SettlingKeepsInv(t, t');
  }

  lemma LeasedCommitKeepsInv(t: Tables, d: Delivery, lease: LeaseToken, effect: Effect)
    requires Inv(t) && (effect.Written? ==> Inv(effect.tables) && effect.tables.leases == t.leases)
    ensures Inv(CommitLeased(t, d, lease, effect).0)
    ensures effect != Error(ConstraintViolated) ==> CommitLeased(t, d, lease, effect).1 != Rejected(ConstraintViolated)
  {
    var t' := CommitLeased(t, d, lease, effect).0;
    if t' != t {
      OtherTablesKeepInv(if d.outbox in t.processed then t else effect.tables, t');
    }
  }

  lemma UnleasedCommitKeepsInv(t: Tables, d: Delivery, effect: Effect)
    requires Inv(t) && (effect.Written? ==> Inv(effect.tables) && effect.tables.leases == t.leases)
    ensures Inv(CommitUnleased(t, d, effect).0)
    ensures effect != Error(ConstraintViolated) ==> CommitUnleased(t, d, effect).1 != Rejected(ConstraintViolated)
  {
    if effect.Written? && d.outbox !in t.processed {
      OtherTablesKeepInv(effect.tables, CommitUnleased(t, d, effect).0);
    }
  }

  lemma SnapshotKeepsInv(cfg: Config, t: Tables, inp: SnapshotInput, timely: bool)
    requires Inv(t)
    ensures Inv(ApplySnapshot(cfg, t, inp, timely).0)
    ensures ApplySnapshot(cfg, t, inp, timely).1 != Rejected(ConstraintViolated)
  {
    if SnapshotProblem(cfg, inp, timely).None? {
      ReconcileKeepsInv(t, inp.lease.key, inp.snapshot);
      LeasedCommitKeepsInv(t, inp.delivery, inp.lease, Reconcile(t, inp.lease.key, inp.snapshot));
    }
  }

  lemma RerequestStepKeepsInv(cfg: Config, t: Tables, inp: RerequestInput, timely: bool)
    requires Inv(t)
    ensures Inv(ApplyRerequest(cfg, t, inp, timely).0)
    ensures ApplyRerequest(cfg, t, inp, timely).1 != Rejected(ConstraintViolated)
  {
    if RerequestInputValid(cfg, inp, timely) {
      RerequestKeepsInv(cfg, t, inp);
      LeasedCommitKeepsInv(t, inp.delivery, inp.lease, Rerequest(cfg, t, inp));
    }
  }

  lemma HintKeepsInv(cfg: Config, t: Tables, d: Delivery, p: Projection, timely: bool)
    requires Inv(t)
    ensures Inv(ApplyInstallationHint(cfg, t, d, p, timely).0)
    ensures ApplyInstallationHint(cfg, t, d, p, timely).1 != Rejected(ConstraintViolated)
  {
    if HintValid(cfg, d, p, timely) {
      InvalidateKeepsInv(t, p);
      UnleasedCommitKeepsInv(t, d, Invalidate(t, p));
    }
  }

  lemma QueueStepKeepsInv(cfg: Config, t: Tables, step: Step)
    requires Inv(t) && (step.ClaimStep? || step.FinishStep? || step.ImportStep?)
    ensures Inv(After(cfg, t, step)) && ReplyTo(cfg, t, step) != Rejected(ConstraintViolated)
  {
    match step
    case ClaimStep(owner, expired, limit, timely) => ClaimKeepsInv(t, owner, expired, limit, timely);
    case FinishStep(id, owner, generation, ack, timely) => FinishKeepsInv(t, id, owner, generation, ack, timely);
    case ImportStep(r, owner, generation, wellFormed, timely) => ImportKeepsInv(t, r, owner, generation, wellFormed, timely);
  }

  lemma AcquireKeepsInv(t: Tables, key: PRKey, owner: string, expired: bool, timely: bool)
    requires Inv(t)
    ensures Inv(AcquireLease(t, key, owner, expired, timely).0)
    ensures AcquireLease(t, key, owner, expired, timely).1 != Rejected(ConstraintViolated)
  {
    var (t', reply) := AcquireLease(t, key, owner, expired, timely);
    if reply.Acquired? {
      assert LeaseOk(key, t'.leases[key]) by { assert key in t.leases ==> LeaseOk(key, t.leases[key]); }
      OtherTablesKeepInv(t, t');
    }
  }

  lemma BindingKeepsInv(cfg: Config, t: Tables, b: CheckBinding)
    requires Inv(t)
    ensures Inv(RegisterBinding(cfg, t, b).0) && RegisterBinding(cfg, t, b).1 != Rejected(ConstraintViolated)
  {
    OtherTablesKeepInv(t, RegisterBinding(cfg, t, b).0);
  }

  lemma DecisionKeepsInv(cfg: Config, t: Tables, d: Delivery, decision: Decision, timely: bool)
    requires Inv(t)
    ensures Inv(RecordDecision(cfg, t, d, decision, timely).0)
    ensures RecordDecision(cfg, t, d, decision, timely).1 != Rejected(ConstraintViolated)
  {
    UnleasedCommitKeepsInv(t, d, Written(t, Outcome(decision)));
  }

  /** Every transaction keeps the invariant, and none is refused because a key is already taken. */
  lemma StepKeepsInv(cfg: Config, t: Tables, step: Step)
    requires Inv(t)
    ensures Inv(After(cfg, t, step)) && ReplyTo(cfg, t, step) != Rejected(ConstraintViolated)
  {
    match step
    case Acquire(key, owner, expired, timely) => AcquireKeepsInv(t, key, owner, expired, timely);
    case SnapshotStep(inp, timely) => SnapshotKeepsInv(cfg, t, inp, timely);
    case RerequestStep(inp, timely) => RerequestStepKeepsInv(cfg, t, inp, timely);
    case HintStep(d, p, timely) => HintKeepsInv(cfg, t, d, p, timely);
    case DecisionStep(d, decision, timely) => DecisionKeepsInv(cfg, t, d, decision, timely);
    case BindingStep(b) => BindingKeepsInv(cfg, t, b);
    case _ => QueueStepKeepsInv(cfg, t, step);
  }

  lemma {:induction false} RunKeepsInv(cfg: Config, run: seq<Step>)
    ensures Inv(State(cfg, run))
  {
    if run != [] {
      RunKeepsInv(cfg, run[..|run| - 1]);
      StepKeepsInv(cfg, State(cfg, run[..|run| - 1]), run[|run| - 1]);
    }
  }

  // ---------------------------------------------------------------- who may be live

  /** The pull request of the job is eligible, and stands at exactly this job's target and generation. */
  ghost predicate BelongsToEligiblePull(t: Tables, job: JobId) {
    var key := job.target.Key();
    && key in t.pulls && t.pulls[key].eligibility.Eligible? && t.pulls[key].job == Some(job)
    && t.pulls[key].target == Some(job.target) && t.pulls[key].generation == job.generation
  }

  /** In every reachable state, whatever could still run belongs to the current job of an eligible
      pull request, and an open source request belongs to a job that is still importing. */
  lemma LiveWorkIsCurrent(cfg: Config, run: seq<Step>)
    ensures var t := State(cfg, run);
            && (forall id | id in t.jobs && !t.jobs[id].state.Terminal() :: BelongsToEligiblePull(t, id))
            && (forall id | id in t.attempts && !t.attempts[id].state.Terminal() ::
                  t.attempts[id].job in t.jobs && BelongsToEligiblePull(t, t.attempts[id].job))
            && (forall row | row in t.requests && row.state.Open() ::
                  row.job in t.jobs && t.jobs[row.job].state.ImportingSource? && BelongsToEligiblePull(t, row.job))
  {
    RunKeepsInv(cfg, run);
    var t := State(cfg, run);
    forall id | id in t.jobs && !t.jobs[id].state.Terminal() ensures BelongsToEligiblePull(t, id) {
      assert JobOk(t, id) && PullOk(t, id.target.Key());
    }
    forall id | id in t.attempts && !t.attempts[id].state.Terminal()
      ensures t.attempts[id].job in t.jobs && BelongsToEligiblePull(t, t.attempts[id].job)
    {
      assert AttemptOk(t, id) && PullOk(t, id.job.target.Key());
    }
    forall row | row in t.requests && row.state.Open()
      ensures row.job in t.jobs && t.jobs[row.job].state.ImportingSource? && BelongsToEligiblePull(t, row.job)
    {
      var i :| 0 <= i < |t.requests| && t.requests[i] == row;
      assert RequestOk(t, t.requests[i]) && PullOk(t, row.job.target.Key());
    }
  }

  /** A pull request never has two live jobs. */
  lemma OneLiveJobPerPull(cfg: Config, run: seq<Step>, a: JobId, b: JobId)
    requires var t := State(cfg, run);
             && a in t.jobs && b in t.jobs && a.target.Key() == b.target.Key()
             && !t.jobs[a].state.Terminal() && !t.jobs[b].state.Terminal()
    ensures a == b
  {
    LiveWorkIsCurrent(cfg, run);
    assert BelongsToEligiblePull(State(cfg, run), a) && BelongsToEligiblePull(State(cfg, run), b);
  }

  // ---------------------------------------------------------------- the generation is a version

  /** What a pull request stands at; a pull request without a row stands at generation 0. */
  datatype Standing = Standing(generation: int, eligibility: Option<Eligibility>, target: Option<Target>, job: Option<JobId>)

  function StandingOf(t: Tables, key: PRKey): Standing {
    if key in t.pulls then
      var row := t.pulls[key];
      Standing(row.generation, Some(row.eligibility), row.target, row.job)
    else Standing(0, None, None, None)
  }

  /** The generation rises by one exactly when eligibility or target changes; otherwise nothing changes. */
  ghost predicate Versioned(a: Standing, b: Standing) {
    if a.eligibility == b.eligibility && a.target == b.target then b == a else b.generation == a.generation + 1
  }

  lemma ReconcileIsVersioned(t: Tables, key: PRKey, s: Snapshot, k: PRKey)
    requires Inv(t) && s.number == key.number && s.base.repository == key.repository && Reconcile(t, key, s).Written?
    ensures Versioned(StandingOf(t, k), StandingOf(Reconcile(t, key, s).tables, k))
  {
    assert key in t.pulls ==> PullOk(t, key);
  }

  lemma BlockIsVersioned(t: Tables, p: Projection, k: PRKey)
    requires Inv(t) && p.InstallationProjection? && Invalidate(t, p).Written?
    ensures Versioned(StandingOf(t, k), StandingOf(Invalidate(t, p).tables, k))
  {
    assert k in t.pulls ==> PullOk(t, k);
  }

  lemma ReconcileLeavesLeases(t: Tables, key: PRKey, s: Snapshot)
    ensures Reconcile(t, key, s).Written? ==> Reconcile(t, key, s).tables.leases == t.leases
  {
  }

  lemma RerequestWrites(cfg: Config, t: Tables, inp: RerequestInput)
    requires inp.projection.CheckRunProjection? && Rerequest(cfg, t, inp).Written?
    ensures var t' := Rerequest(cfg, t, inp).tables; t' == t.(attempts := t'.attempts)
  {
  }

  lemma LeasedCommitWrites(t: Tables, d: Delivery, lease: LeaseToken, effect: Effect)
    ensures var t' := CommitLeased(t, d, lease, effect).0;
            || t' == t.(leases := t'.leases)
            || (effect.Written? && t' == effect.tables.(processed := t'.processed, leases := t'.leases))
  {
  }

  lemma RerequestFrame(cfg: Config, t: Tables, inp: RerequestInput, timely: bool)
    ensures var t' := ApplyRerequest(cfg, t, inp, timely).0;
            t' == t.(attempts := t'.attempts, processed := t'.processed, leases := t'.leases)
  {
    if RerequestInputValid(cfg, inp, timely) {
      LeasedCommitWrites(t, inp.delivery, inp.lease, Rerequest(cfg, t, inp));
      if Rerequest(cfg, t, inp).Written? {
        RerequestWrites(cfg, t, inp);
      }
    }
  }

  lemma QueueFrame(cfg: Config, t: Tables, step: Step)
    requires step.ClaimStep? || step.FinishStep? || step.ImportStep?
    ensures After(cfg, t, step).pulls == t.pulls
  {
  }

  lemma RecordFrame(cfg: Config, t: Tables, step: Step)
    requires step.Acquire? || step.DecisionStep? || step.BindingStep?
    ensures After(cfg, t, step).pulls == t.pulls && After(cfg, t, step).requests == t.requests
  {
  }

  lemma OtherStepsLeavePulls(cfg: Config, t: Tables, step: Step)
    requires !step.SnapshotStep? && !step.HintStep?
    ensures After(cfg, t, step).pulls == t.pulls
    ensures !step.ClaimStep? && !step.FinishStep? && !step.ImportStep? ==> After(cfg, t, step).requests == t.requests
  {
    if step.RerequestStep? {
      RerequestFrame(cfg, t, step.rerequest, step.timely);
    } else if step.Acquire? || step.DecisionStep? || step.BindingStep? {
      RecordFrame(cfg, t, step);
    } else {
      QueueFrame(cfg, t, step);
    }
  }

  lemma StepIsVersioned(cfg: Config, t: Tables, step: Step, key: PRKey)
    requires Inv(t)
    ensures Versioned(StandingOf(t, key), StandingOf(After(cfg, t, step), key))
  {
    if step.SnapshotStep? {
      SnapshotIsVersioned(cfg, t, step.snapshot, step.timely, key);
    } else if step.HintStep? {
      if HintValid(cfg, step.hinted, step.hint, step.timely) && Invalidate(t, step.hint).Written? {
        BlockIsVersioned(t, step.hint, key);
      }
    } else {
      OtherStepsLeavePulls(cfg, t, step);
    }
  }

  lemma SnapshotIsVersioned(cfg: Config, t: Tables, inp: SnapshotInput, timely: bool, key: PRKey)
    requires Inv(t)
    ensures Versioned(StandingOf(t, key), StandingOf(ApplySnapshot(cfg, t, inp, timely).0, key))
  {
    if SnapshotProblem(cfg, inp, timely).None? && Reconcile(t, inp.lease.key, inp.snapshot).Written? {
      ReconcileIsVersioned(t, inp.lease.key, inp.snapshot, key);
    }
  }

  /** Over any run a generation never falls, and as long as it is the same, so are eligibility, target
      and job: a generation read earlier says whether what was read with it still holds. */
  lemma {:induction false} GenerationIsAVersion(cfg: Config, run: seq<Step>, i: nat, j: nat, key: PRKey)
    requires i <= j <= |run|
    ensures var before, after := StandingOf(State(cfg, run[..i]), key), StandingOf(State(cfg, run[..j]), key);
            before.generation <= after.generation && (before.generation == after.generation ==> before == after)
    decreases j
  {
    if i < j {
      GenerationIsAVersion(cfg, run, i, j - 1, key);
      RunKeepsInv(cfg, run[..j - 1]);
      StepIsVersioned(cfg, State(cfg, run[..j - 1]), run[j - 1], key);
      assert run[..j][..j - 1] == run[..j - 1];
    }
  }
}

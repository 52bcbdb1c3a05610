/** Leases and redeliveries over every run of the controller store: a reconcile lease pays for one
    commit, and the tables are those of a serial run in which every delivery is processed once. */
module ControllerRuns {
  import opened ControllerModel
  import opened Options
  import opened ControllerSpec
  import opened ControllerInvariant
  import opened ControllerSafety

  // ---------------------------------------------------------------- reconcile leases

  ghost predicate AcquiresLease(cfg: Config, t: Tables, step: Step, key: PRKey) {
    step.Acquire? && step.key == key && ReplyTo(cfg, t, step).Acquired?
  }

  /** A snapshot or rerequest transaction on the pull request commits. */
  ghost predicate CommitsUnderLease(cfg: Config, t: Tables, step: Step, key: PRKey) {
    && ReplyTo(cfg, t, step).Done?
    && ((step.SnapshotStep? && step.snapshot.lease.key == key) || (step.RerequestStep? && step.rerequest.lease.key == key))
  }

  ghost function Acquires(cfg: Config, run: seq<Step>, key: PRKey): nat {
    if run == [] then 0
    else Acquires(cfg, run[..|run| - 1], key)
         + if AcquiresLease(cfg, State(cfg, run[..|run| - 1]), run[|run| - 1], key) then 1 else 0
  }

  ghost function Commits(cfg: Config, run: seq<Step>, key: PRKey): nat {
    if run == [] then 0
    else Commits(cfg, run[..|run| - 1], key)
         + if CommitsUnderLease(cfg, State(cfg, run[..|run| - 1]), run[|run| - 1], key) then 1 else 0
  }

  function Held(t: Tables, key: PRKey): nat { if key in t.leases then 1 else 0 }

  /** A commit spends the lease it holds; only acquiring creates one. */
  lemma CommitSpendsItsLease(t: Tables, d: Delivery, lease: LeaseToken, effect: Effect)
    requires effect.Written? ==> effect.tables.leases == t.leases
    ensures var (t', reply) := CommitLeased(t, d, lease, effect);
            if reply.Done? then HoldsLease(t, lease) && t'.leases == t.leases - {lease.key} else t' == t
  {
  }

  lemma SnapshotSpendsItsLease(cfg: Config, t: Tables, inp: SnapshotInput, timely: bool)
    ensures var (t', reply) := ApplySnapshot(cfg, t, inp, timely);
            if reply.Done? then HoldsLease(t, inp.lease) && t'.leases == t.leases - {inp.lease.key} else t' == t
  {
    if SnapshotProblem(cfg, inp, timely).None? {
      var effect := Reconcile(t, inp.lease.key, inp.snapshot);
      ReconcileLeavesLeases(t, inp.lease.key, inp.snapshot);
      CommitSpendsItsLease(t, inp.delivery, inp.lease, effect);
    }
  }

  lemma RerequestSpendsItsLease(cfg: Config, t: Tables, inp: RerequestInput, timely: bool)
    ensures var (t', reply) := ApplyRerequest(cfg, t, inp, timely);
            if reply.Done? then HoldsLease(t, inp.lease) && t'.leases == t.leases - {inp.lease.key} else t' == t
  {
    if RerequestInputValid(cfg, inp, timely) {
      var effect := Rerequest(cfg, t, inp);
      if effect.Written? { RerequestWrites(cfg, t, inp); }
      CommitSpendsItsLease(t, inp.delivery, inp.lease, effect);
    }
  }

  lemma HintLeavesLeases(cfg: Config, t: Tables, d: Delivery, p: Projection, timely: bool)
    ensures ApplyInstallationHint(cfg, t, d, p, timely).0.leases == t.leases
  {
  }

  lemma OtherStepsLeaveLeases(cfg: Config, t: Tables, step: Step)
    requires !step.Acquire? && !step.SnapshotStep? && !step.RerequestStep?
    ensures After(cfg, t, step).leases == t.leases
  {
    if step.HintStep? { HintLeavesLeases(cfg, t, step.hinted, step.hint, step.timely); }
  }

  lemma LeaseBalance(cfg: Config, t: Tables, step: Step, key: PRKey)
    ensures (if CommitsUnderLease(cfg, t, step, key) then 1 else 0) + Held(After(cfg, t, step), key)
            <= Held(t, key) + if AcquiresLease(cfg, t, step, key) then 1 else 0
  {
    match step
    case SnapshotStep(inp, timely) => SnapshotSpendsItsLease(cfg, t, inp, timely);
    case RerequestStep(inp, timely) => RerequestSpendsItsLease(cfg, t, inp, timely);
    case Acquire(_, _, _, _) =>
    case _ => OtherStepsLeaveLeases(cfg, t, step);
  }

  /** Over any run, committed snapshot and rerequest transactions on a pull request, together with the
      lease that may be outstanding, never outnumber the leases acquired on it. */
  lemma {:induction false} CommitsNeverOutnumberAcquires(cfg: Config, run: seq<Step>, key: PRKey)
    ensures Commits(cfg, run, key) + Held(State(cfg, run), key) <= Acquires(cfg, run, key)
  {
    if run != [] {
      CommitsNeverOutnumberAcquires(cfg, run[..|run| - 1], key);
      LeaseBalance(cfg, State(cfg, run[..|run| - 1]), run[|run| - 1], key);
    }
  }

  /** A transaction whose owner and generation no longer match the lease row changes no table. */
  lemma StaleLeaseChangesNothing(cfg: Config, t: Tables, step: Step)
    requires step.SnapshotStep? || step.RerequestStep?
    requires var lease := if step.SnapshotStep? then step.snapshot.lease else step.rerequest.lease;
             lease.key !in t.leases || t.leases[lease.key].owner != lease.owner || t.leases[lease.key].generation != lease.generation
    ensures After(cfg, t, step) == t && ReplyTo(cfg, t, step).Rejected?
  {
    if step.SnapshotStep? {
      SnapshotSpendsItsLease(cfg, t, step.snapshot, step.timely);
    } else {
      RerequestSpendsItsLease(cfg, t, step.rerequest, step.timely);
    }
  }

  // ---------------------------------------------------------------- the serial run

  /** The tables apart from leases. */
  function Core(t: Tables): Tables { t.(leases := map[]) }

  function DeliveryOf(step: Step): Option<Delivery> {
    match step
    case SnapshotStep(inp, _) => Some(inp.delivery)
    case RerequestStep(inp, _) => Some(inp.delivery)
    case HintStep(d, _, _) => Some(d)
    case DecisionStep(d, _, _) => Some(d)
    case _ => None
  }

  /** The step commits, and is not the redelivery of something already processed. */
  ghost predicate Counts(cfg: Config, t: Tables, step: Step) {
    && !ReplyTo(cfg, t, step).Rejected?
    && (DeliveryOf(step).Some? ==> DeliveryOf(step).value.outbox !in t.processed)
  }

  /** What a single controller that holds no other lease does instead of the step. */
  ghost function Replayed(cfg: Config, t: Tables, step: Step): seq<Step> {
    if step.Acquire? || !Counts(cfg, t, step) then []
    else match step
      case SnapshotStep(inp, timely) => [FreshLease(inp.lease), SnapshotStep(inp.(lease := Renewed(inp.lease)), timely)]
      case RerequestStep(inp, timely) => [FreshLease(inp.lease), RerequestStep(inp.(lease := Renewed(inp.lease)), timely)]
      case _ => [step]
  }

  function Renewed(lease: LeaseToken): LeaseToken { lease.(generation := 1) }

  function FreshLease(lease: LeaseToken): Step { Acquire(lease.key, lease.owner, false, true) }

  /** The run with lost leases, rejected transactions and duplicate deliveries erased. */
  ghost function Serial(cfg: Config, run: seq<Step>): seq<Step> {
    if run == [] then []
    else Serial(cfg, run[..|run| - 1]) + Replayed(cfg, State(cfg, run[..|run| - 1]), run[|run| - 1])
  }

  ghost predicate EveryStepCounts(cfg: Config, run: seq<Step>) {
    run == [] || (EveryStepCounts(cfg, run[..|run| - 1]) && Counts(cfg, State(cfg, run[..|run| - 1]), run[|run| - 1]))
  }

  /** The deliveries of a run in order. */
  function Delivered(run: seq<Step>): seq<OutboxId> {
    if run == [] then []
    else Delivered(run[..|run| - 1])
         + match DeliveryOf(run[|run| - 1]) case None => [] case Some(d) => [d.outbox]
  }

  function WithLeases(e: Effect, leases: map<PRKey, LeaseRow>): Effect {
    if e.Written? then e.(tables := e.tables.(leases := leases)) else e
  }

  lemma InsertWorkIgnoresLeases(t: Tables, job: JobId, s: Snapshot, leases: map<PRKey, LeaseRow>)
    ensures InsertWork(t.(leases := leases), job, s) == WithLeases(InsertWork(t, job, s), leases)
  {
    var u := t.(leases := leases);
    assert AttemptNumberTaken(u, job, 1) == AttemptNumberTaken(t, job, 1);
    assert u.requests == t.requests;
  }

  lemma CloseJobsIgnoresLeases(t: Tables, closing: set<JobId>, job: JobState, request: RequestState, leases: map<PRKey, LeaseRow>)
    ensures CloseJobs(t.(leases := leases), closing, job, request) == CloseJobs(t, closing, job, request).(leases := leases)
  {
    var u := t.(leases := leases);
    assert u.jobs == t.jobs && u.attempts == t.attempts && u.requests == t.requests;
  }

  /** Closing jobs and inserting the work of a new one. */
  lemma SupersedingIgnoresLeases(t: Tables, closing: set<JobId>, job: JobId, s: Snapshot, leases: map<PRKey, LeaseRow>)
    ensures var work := InsertWork(CloseJobs(t, closing, JobSuperseded, RequestSuperseded), job, s);
            InsertWork(CloseJobs(t.(leases := leases), closing, JobSuperseded, RequestSuperseded), job, s) == WithLeases(work, leases)
  {
    CloseJobsIgnoresLeases(t, closing, JobSuperseded, RequestSuperseded, leases);
    InsertWorkIgnoresLeases(CloseJobs(t, closing, JobSuperseded, RequestSuperseded), job, s, leases);
  }

  lemma ReconcileEligibleIgnoresLeases(t: Tables, key: PRKey, s: Snapshot, leases: map<PRKey, LeaseRow>)
    ensures ReconcileEligible(t.(leases := leases), key, s) == WithLeases(ReconcileEligible(t, key, s), leases)
  {
    var u := t.(leases := leases);
    assert u.pulls == t.pulls && GenerationOf(u, key) == GenerationOf(t, key) && IsEligible(u, key) == IsEligible(t, key)
        && CurrentJob(u, key) == CurrentJob(t, key);
    SupersedingIgnoresLeases(t, CurrentJob(t, key), JobId(TargetOf(key, s), GenerationOf(t, key) + 1), s, leases);
  }

  lemma ReconcileIgnoresLeases(t: Tables, key: PRKey, s: Snapshot, leases: map<PRKey, LeaseRow>)
    ensures Reconcile(t.(leases := leases), key, s) == WithLeases(Reconcile(t, key, s), leases)
  {
    if EligibilityFor(s).Eligible? {
      ReconcileEligibleIgnoresLeases(t, key, s, leases);
    } else {
      CloseJobsIgnoresLeases(t, CurrentJob(t, key), JobSuperseded, RequestSuperseded, leases);
    }
  }

  lemma RerequestIgnoresLeases(cfg: Config, t: Tables, inp: RerequestInput, leases: map<PRKey, LeaseRow>, generation: int)
    requires inp.projection.CheckRunProjection?
    ensures Rerequest(cfg, t.(leases := leases), inp.(lease := inp.lease.(generation := generation)))
            == WithLeases(Rerequest(cfg, t, inp), leases)
  {
  }

  lemma InvalidateIgnoresLeases(t: Tables, p: Projection, leases: map<PRKey, LeaseRow>)
    requires p.InstallationProjection?
    ensures Invalidate(t.(leases := leases), p) == WithLeases(Invalidate(t, p), leases)
  {
    var u := t.(leases := leases);
    assert u.pulls == t.pulls && BlockedKeys(u, p) == BlockedKeys(t, p);
    var keys := BlockedKeys(t, p);
    assert JobsOf(u, keys) == JobsOf(t, keys);
    CloseJobsIgnoresLeases(t, JobsOf(t, keys), JobCancelled, RequestCancelled, leases);
  }

  lemma HintReplays(cfg: Config, t: Tables, d: Delivery, p: Projection, timely: bool)
    ensures var (t', reply) := ApplyInstallationHint(cfg, t, d, p, timely);
            ApplyInstallationHint(cfg, Core(t), d, p, timely) == (Core(t'), reply)
  {
    if HintValid(cfg, d, p, timely) { InvalidateIgnoresLeases(t, p, map[]); }
  }

  lemma PlainStepReplays(cfg: Config, t: Tables, step: Step)
    requires !step.Acquire? && !step.SnapshotStep? && !step.RerequestStep?
    ensures Exec(cfg, Core(t), step) == (Core(After(cfg, t, step)), ReplyTo(cfg, t, step))
  {
    if step.HintStep? { HintReplays(cfg, t, step.hinted, step.hint, step.timely); }
  }

  /** A rejected transaction, and a redelivery, change at most the leases. */
  lemma IdleStepChangesOnlyLeases(cfg: Config, t: Tables, step: Step)
    requires !Counts(cfg, t, step)
    ensures Core(After(cfg, t, step)) == Core(t)
  {
    match step
    case SnapshotStep(inp, timely) => SnapshotSpendsItsLease(cfg, t, inp, timely);
    case RerequestStep(inp, timely) => RerequestSpendsItsLease(cfg, t, inp, timely);
    case _ =>
  }

  /** The tables with this lease and no other, in its first generation. */
  function Alone(t: Tables, lease: LeaseToken): Tables { t.(leases := map[lease.key := LeaseRow(lease.owner, 1)]) }

  /** The second step does to the second tables what the first does to the first, and leaves no lease. */
  ghost predicate Repeats(cfg: Config, t: Tables, step: Step, u: Tables, again: Step) {
    Exec(cfg, u, again) == (Core(After(cfg, t, step)), ReplyTo(cfg, t, step)) && DeliveryOf(again) == DeliveryOf(step)
  }

  /** A commit that held its lease can be repeated under a lease acquired for it alone. */
  lemma CommitRepeats(t: Tables, d: Delivery, lease: LeaseToken, effect: Effect)
    requires d.outbox !in t.processed && CommitLeased(t, d, lease, effect).1.Done?
    requires effect.Written? ==> effect.tables.leases == t.leases
    ensures var (t', reply) := CommitLeased(t, d, lease, effect);
            CommitLeased(Alone(t, lease), d, Renewed(lease), WithLeases(effect, Alone(t, lease).leases)) == (Core(t'), reply)
  {
    assert Alone(t, lease).leases - {lease.key} == map[];
  }

  lemma SnapshotRepeats(cfg: Config, t: Tables, inp: SnapshotInput, timely: bool)
    requires Counts(cfg, t, SnapshotStep(inp, timely))
    ensures Repeats(cfg, t, SnapshotStep(inp, timely), Alone(t, inp.lease), SnapshotStep(inp.(lease := Renewed(inp.lease)), timely))
  {
    SnapshotSpendsItsLease(cfg, t, inp, timely);
    ReconcileLeavesLeases(t, inp.lease.key, inp.snapshot);
    ReconcileIgnoresLeases(t, inp.lease.key, inp.snapshot, Alone(t, inp.lease).leases);
    CommitRepeats(t, inp.delivery, inp.lease, Reconcile(t, inp.lease.key, inp.snapshot));
  }

  lemma RerequestRepeats(cfg: Config, t: Tables, inp: RerequestInput, timely: bool)
    requires Counts(cfg, t, RerequestStep(inp, timely))
    ensures Repeats(cfg, t, RerequestStep(inp, timely), Alone(t, inp.lease), RerequestStep(inp.(lease := Renewed(inp.lease)), timely))
  {
    RerequestSpendsItsLease(cfg, t, inp, timely);
    if Rerequest(cfg, t, inp).Written? { RerequestWrites(cfg, t, inp); }
    RerequestIgnoresLeases(cfg, t, inp, Alone(t, inp.lease).leases, 1);
    CommitRepeats(t, inp.delivery, inp.lease, Rerequest(cfg, t, inp));
  }

  lemma Snoc(cfg: Config, run: seq<Step>, step: Step)
    ensures State(cfg, run + [step]) == After(cfg, State(cfg, run), step)
    ensures EveryStepCounts(cfg, run + [step]) == (EveryStepCounts(cfg, run) && Counts(cfg, State(cfg, run), step))
  {
    assert (run + [step])[..|run|] == run;
  }

  /** The serial run so far ends in these tables, without leases, and all its steps count. */
  ghost predicate Mirrors(cfg: Config, serial: seq<Step>, t: Tables) {
    State(cfg, serial) == Core(t) && EveryStepCounts(cfg, serial)
  }

  lemma FreshLeaseReplays(cfg: Config, t: Tables, lease: LeaseToken, serial: seq<Step>)
    requires Mirrors(cfg, serial, t) && ValidKey(lease.key) && ValidOwner(lease.owner)
    ensures State(cfg, serial + [FreshLease(lease)]) == Alone(t, lease) && EveryStepCounts(cfg, serial + [FreshLease(lease)])
  {
    Snoc(cfg, serial, FreshLease(lease));
    assert map[][lease.key := LeaseRow(lease.owner, 1)] == map[lease.key := LeaseRow(lease.owner, 1)];
  }

  /** From these tables the step commits, and it leaves those tables without leases. */
  ghost predicate LeadsTo(cfg: Config, u: Tables, again: Step, t': Tables) {
    Counts(cfg, u, again) && After(cfg, u, again) == Core(t')
  }

  lemma RepeatingLeads(cfg: Config, t: Tables, step: Step, u: Tables, again: Step)
    requires Counts(cfg, t, step) && Repeats(cfg, t, step, u, again) && u.processed == t.processed
    ensures LeadsTo(cfg, u, again, After(cfg, t, step))
  {
  }

  lemma LastStepReplays(cfg: Config, before: seq<Step>, again: Step, t': Tables)
    requires EveryStepCounts(cfg, before) && LeadsTo(cfg, State(cfg, before), again, t')
    ensures Mirrors(cfg, before + [again], t')
  {
    Snoc(cfg, before, again);
  }

  lemma TwoMore(serial: seq<Step>, one: Step, two: Step)
    ensures serial + [one, two] == serial + [one] + [two]
  {
  }

  /** Acquiring the lease afresh and repeating the step does what the step did. */
  lemma LeasedReplays(cfg: Config, t: Tables, lease: LeaseToken, again: Step, t': Tables, serial: seq<Step>)
    requires Mirrors(cfg, serial, t) && ValidKey(lease.key) && ValidOwner(lease.owner)
    requires LeadsTo(cfg, Alone(t, lease), again, t')
    ensures Mirrors(cfg, serial + [FreshLease(lease), again], t')
  {
    FreshLeaseReplays(cfg, t, lease, serial);
    LastStepReplays(cfg, serial + [FreshLease(lease)], again, t');
    TwoMore(serial, FreshLease(lease), again);
  }

  /** What is replayed for the step ends where the step does. */
  ghost predicate Follows(cfg: Config, t: Tables, step: Step, serial: seq<Step>) {
    Mirrors(cfg, serial + Replayed(cfg, t, step), After(cfg, t, step))
  }

  lemma HeldLeaseIsOk(t: Tables, lease: LeaseToken)
    requires Inv(t) && HoldsLease(t, lease)
    ensures ValidKey(lease.key) && ValidOwner(lease.owner)
  {
    assert LeaseOk(lease.key, t.leases[lease.key]);
  }

  lemma SnapshotReplays(cfg: Config, t: Tables, inp: SnapshotInput, timely: bool, serial: seq<Step>)
    requires Mirrors(cfg, serial, t) && Counts(cfg, t, SnapshotStep(inp, timely))
    requires ValidKey(inp.lease.key) && ValidOwner(inp.lease.owner)
    ensures Follows(cfg, t, SnapshotStep(inp, timely), serial)
  {
    var step, again := SnapshotStep(inp, timely), SnapshotStep(inp.(lease := Renewed(inp.lease)), timely);
    SnapshotRepeats(cfg, t, inp, timely);
    RepeatingLeads(cfg, t, step, Alone(t, inp.lease), again);
    LeasedReplays(cfg, t, inp.lease, again, After(cfg, t, step), serial);
  }

  lemma RerequestReplays(cfg: Config, t: Tables, inp: RerequestInput, timely: bool, serial: seq<Step>)
    requires Mirrors(cfg, serial, t) && Counts(cfg, t, RerequestStep(inp, timely))
    requires ValidKey(inp.lease.key) && ValidOwner(inp.lease.owner)
    ensures Follows(cfg, t, RerequestStep(inp, timely), serial)
  {
    var step, again := RerequestStep(inp, timely), RerequestStep(inp.(lease := Renewed(inp.lease)), timely);
    RerequestRepeats(cfg, t, inp, timely);
    RepeatingLeads(cfg, t, step, Alone(t, inp.lease), again);
    LeasedReplays(cfg, t, inp.lease, again, After(cfg, t, step), serial);
  }

  lemma OtherReplays(cfg: Config, t: Tables, step: Step, serial: seq<Step>)
    requires Mirrors(cfg, serial, t) && Counts(cfg, t, step) && !step.Acquire? && !step.SnapshotStep? && !step.RerequestStep?
    ensures Follows(cfg, t, step, serial)
  {
    PlainStepReplays(cfg, t, step);
    RepeatingLeads(cfg, t, step, Core(t), step);
    LastStepReplays(cfg, serial, step, After(cfg, t, step));
  }

  lemma AcquireChangesOnlyLeases(t: Tables, key: PRKey, owner: string, expired: bool, timely: bool)
    ensures Core(AcquireLease(t, key, owner, expired, timely).0) == Core(t)
  {
  }

  lemma NothingReplayed(cfg: Config, t: Tables, step: Step, serial: seq<Step>)
    requires Replayed(cfg, t, step) == [] && State(cfg, serial) == Core(After(cfg, t, step)) && EveryStepCounts(cfg, serial)
    ensures Follows(cfg, t, step, serial)
  {
    assert serial + [] == serial;
  }

  lemma StepReplays(cfg: Config, t: Tables, step: Step, serial: seq<Step>)
    requires Inv(t) && Mirrors(cfg, serial, t)
    ensures Follows(cfg, t, step, serial)
  {
    if step.Acquire? {
      AcquireChangesOnlyLeases(t, step.key, step.owner, step.expired, step.timely);
      NothingReplayed(cfg, t, step, serial);
    } else if !Counts(cfg, t, step) {
      IdleStepChangesOnlyLeases(cfg, t, step);
      NothingReplayed(cfg, t, step, serial);
    } else {
      match step
      case SnapshotStep(inp, timely) =>
        SnapshotSpendsItsLease(cfg, t, inp, timely);
        HeldLeaseIsOk(t, inp.lease);
        SnapshotReplays(cfg, t, inp, timely, serial);
      case RerequestStep(inp, timely) =>
        RerequestSpendsItsLease(cfg, t, inp, timely);
        HeldLeaseIsOk(t, inp.lease);
        RerequestReplays(cfg, t, inp, timely, serial);
      case _ => OtherReplays(cfg, t, step, serial);
    }
  }

  lemma {:induction false} SerialRunAgrees(cfg: Config, run: seq<Step>)
    ensures State(cfg, Serial(cfg, run)) == Core(State(cfg, run)) && EveryStepCounts(cfg, Serial(cfg, run))
  {
    if run != [] {
      var before := run[..|run| - 1];
      SerialRunAgrees(cfg, before);
      RunKeepsInv(cfg, before);
      StepReplays(cfg, State(cfg, before), run[|run| - 1], Serial(cfg, before));
    }
  }

  // ---------------------------------------------------------------- each delivery takes effect once

  lemma ReconcileLeavesBookings(t: Tables, key: PRKey, s: Snapshot)
    requires Reconcile(t, key, s).Written?
    ensures Reconcile(t, key, s).tables.processed == t.processed
  {
  }

  lemma LeasedCommitBooks(t: Tables, d: Delivery, lease: LeaseToken, effect: Effect)
    requires effect.Written? ==> effect.tables.processed == t.processed
    ensures var (t', reply) := CommitLeased(t, d, lease, effect);
            if reply.Done? then Booked(t, t', d) else t' == t
  {
  }

  /** The delivery has a row now, and no other row has changed. */
  ghost predicate Booked(t: Tables, t': Tables, d: Delivery) {
    && d.outbox in t'.processed && t'.processed[d.outbox].digest == d.digest
    && t'.processed == t.processed[d.outbox := t'.processed[d.outbox]]
    && (d.outbox in t.processed ==> t'.processed == t.processed)
  }

  lemma SnapshotBooks(cfg: Config, t: Tables, inp: SnapshotInput, timely: bool)
    ensures var (t', reply) := ApplySnapshot(cfg, t, inp, timely);
            if reply.Done? then Booked(t, t', inp.delivery) else t' == t
  {
    if SnapshotProblem(cfg, inp, timely).None? {
      var effect := Reconcile(t, inp.lease.key, inp.snapshot);
      if effect.Written? { ReconcileLeavesBookings(t, inp.lease.key, inp.snapshot); }
      LeasedCommitBooks(t, inp.delivery, inp.lease, effect);
    }
  }

  lemma RerequestBooks(cfg: Config, t: Tables, inp: RerequestInput, timely: bool)
    ensures var (t', reply) := ApplyRerequest(cfg, t, inp, timely);
            if reply.Done? then Booked(t, t', inp.delivery) else t' == t
  {
    if RerequestInputValid(cfg, inp, timely) {
      var effect := Rerequest(cfg, t, inp);
      if effect.Written? { RerequestWrites(cfg, t, inp); }
      LeasedCommitBooks(t, inp.delivery, inp.lease, effect);
    }
  }

  lemma HintBooks(cfg: Config, t: Tables, d: Delivery, p: Projection, timely: bool)
    ensures var (t', reply) := ApplyInstallationHint(cfg, t, d, p, timely);
            if reply.Done? then Booked(t, t', d) else t' == t
  {
  }

  lemma DecisionBooks(cfg: Config, t: Tables, d: Delivery, decision: Decision, timely: bool)
    ensures var (t', reply) := RecordDecision(cfg, t, d, decision, timely);
            if reply.Done? then Booked(t, t', d) else t' == t
  {
  }

  lemma OtherStepsBookNothing(cfg: Config, t: Tables, step: Step)
    requires DeliveryOf(step).None?
    ensures After(cfg, t, step).processed == t.processed
  {
  }

  /** Whatever answers a delivery with a result has booked it, and nothing else books anything. */
  lemma StepBooks(cfg: Config, t: Tables, step: Step)
    ensures match DeliveryOf(step)
            case Some(d) => if ReplyTo(cfg, t, step).Done? then Booked(t, After(cfg, t, step), d) else After(cfg, t, step) == t
            case None => After(cfg, t, step).processed == t.processed
  {
    match step
    case SnapshotStep(inp, timely) => SnapshotBooks(cfg, t, inp, timely);
    case RerequestStep(inp, timely) => RerequestBooks(cfg, t, inp, timely);
    case HintStep(d, p, timely) => HintBooks(cfg, t, d, p, timely);
    case DecisionStep(d, decision, timely) => DecisionBooks(cfg, t, d, decision, timely);
    case _ => OtherStepsBookNothing(cfg, t, step);
  }

  /** Of any run the serial run processes exactly the booked deliveries, each of them once. */
  lemma {:induction false} DeliveredOnce(cfg: Config, run: seq<Step>)
    requires EveryStepCounts(cfg, run)
    ensures forall o :: o in Delivered(run) <==> o in State(cfg, run).processed
    ensures forall i, j | 0 <= i < j < |Delivered(run)| :: Delivered(run)[i] != Delivered(run)[j]
  {
    if run != [] {
      var before, step := run[..|run| - 1], run[|run| - 1];
      DeliveredOnce(cfg, before);
      StepBooks(cfg, State(cfg, before), step);
    }
  }

  /** Exactly-once effects. Apart from leases, any interleaving of claims, takeovers, rejections and
      redeliveries leaves the tables of a serial run. In the serial run every transaction commits, each
      under a lease of its own, and exactly the deliveries that are booked are processed, each once. */
  lemma ExactlyOnce(cfg: Config, run: seq<Step>)
    ensures var serial := Serial(cfg, run);
            && State(cfg, serial) == Core(State(cfg, run))
            && EveryStepCounts(cfg, serial)
            && (forall o :: o in Delivered(serial) <==> o in State(cfg, run).processed)
            && (forall i, j | 0 <= i < j < |Delivered(serial)| :: Delivered(serial)[i] != Delivered(serial)[j])
  {
    SerialRunAgrees(cfg, run);
    DeliveredOnce(cfg, Serial(cfg, run));
  }
}

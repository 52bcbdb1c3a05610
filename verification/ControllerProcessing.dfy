/** What controllers make of the records they claim: every transaction that carries a delivery is the one
    that its record calls for, on the pull request that the record or its binding names. */
module ControllerProcessing {
  import opened ControllerModel
  import opened Options
  import opened ControllerSpec
  import opened ControllerRuns
  import opened S = ControllerSystem
  import I = DeliveryInbox

  // ---------------------------------------------------------------- what a record calls for

  /** The projection says where the pull request is. */
  predicate Locates(p: Projection) { p.PullRequestProjection? && p.owner != "" && p.name != "" }

  /** The transaction is the one for a record of this kind with this projection. */
  predicate CalledFor(kind: ProjectionKind, p: Projection, step: Step) {
    match step
    case SnapshotStep(inp, _) =>
      kind == PullRequestKind && Locates(p) && inp.lease.key == PRKey(p.installation, p.repository, p.number)
    case RerequestStep(inp, _) => kind == CheckRunKind && p.CheckRunProjection? && inp.projection == p
    case HintStep(_, hint, _) =>
      kind in {InstallationKind, InstallationRepositoriesKind} && p.InstallationProjection? && hint == p
    case DecisionStep(_, decision, _) =>
      || (decision == LegacyProjectionUnreconcilable
          && (kind == OtherKind || (kind == PullRequestKind && p.PullRequestProjection? && !Locates(p))))
      || (decision == RerequestIgnored && kind == CheckRunKind && p.CheckRunProjection?)
    case _ => false
  }

  /** The record, as a delivery. */
  predicate IsDeliveryOf(d: Delivery, r: I.OutboxRow) {
    d.receiver == r.receiver && d.outbox == r.id && d.deliveryId == r.delivery && d.kind == r.kind && d.digest == r.projection
  }

  /** Some record of the outbox is the delivery, and calls for the transaction. */
  ghost predicate IsCalledFor(inbox: I.InboxTables, d: Delivery, step: Step) {
    exists i {:trigger inbox.outbox[i]} :: 0 <= i < |inbox.outbox| && IsDeliveryOf(d, inbox.outbox[i])
                                           && CalledFor(inbox.outbox[i].kind, inbox.outbox[i].projection, step)
  }

  ghost predicate TransactionFits(s: System, i: nat)
    requires i < |s.run|
  {
    DeliveryOf(s.run[i]).Some? ==> IsCalledFor(s.inbox, DeliveryOf(s.run[i]).value, s.run[i])
  }

  ghost predicate TransactionsFit(s: System) { forall i {:trigger TransactionFits(s, i)} | 0 <= i < |s.run| :: TransactionFits(s, i) }

  /** Where a controller can be with its record. */
  ghost predicate WorkerFits(worker: Worker) {
    match worker
    case Bound(claim, _) => claim.record.kind == CheckRunKind && claim.record.projection.CheckRunProjection?
    case Ignoring(claim) => claim.record.kind == CheckRunKind && claim.record.projection.CheckRunProjection?
    case Routed(claim, _) => claim.record.kind == CheckRunKind && claim.record.projection.CheckRunProjection?
    case Reconciling(claim, lease) =>
      var kind, p := claim.record.kind, claim.record.projection;
      || (kind == CheckRunKind && p.CheckRunProjection?)
      || (kind == PullRequestKind && Locates(p) && lease.key == PRKey(p.installation, p.repository, p.number))
    case _ => true
  }

  ghost predicate WorkersFit(s: System) { forall w {:trigger s.workers[w]} | w in s.workers :: WorkerFits(s.workers[w]) }

  // ---------------------------------------------------------------- every event keeps it

  lemma GrownInboxFits(s: System, s': System)
    requires TransactionsFit(s) && I.RecordsPersist(s.inbox, s'.inbox) && s'.run == s.run
    ensures TransactionsFit(s')
  {
    forall i | 0 <= i < |s'.run| ensures TransactionFits(s', i) {
      assert TransactionFits(s, i);
      if DeliveryOf(s.run[i]).Some? {
        var d := DeliveryOf(s.run[i]).value;
        var k :| 0 <= k < |s.inbox.outbox| && IsDeliveryOf(d, s.inbox.outbox[k])
                 && CalledFor(s.inbox.outbox[k].kind, s.inbox.outbox[k].projection, s.run[i]);
        assert I.RecordPersists(s.inbox.outbox[k], s'.inbox.outbox[k]);
      }
    }
  }

  lemma OneMoreTransactionFits(s: System, step: Step)
    requires TransactionsFit(s) && (DeliveryOf(step).Some? ==> IsCalledFor(s.inbox, DeliveryOf(step).value, step))
    ensures TransactionsFit(s.(run := s.run + [step]))
  {
    var s' := s.(run := s.run + [step]);
    forall i | 0 <= i < |s'.run| ensures TransactionFits(s', i) {
      assert i < |s.run| ==> TransactionFits(s, i);
    }
  }

  lemma MovedWorkersFit(s: System, w: nat, worker: Worker)
    requires TransactionsFit(s) && WorkersFit(s) && WorkerFits(worker)
    ensures TransactionsFit(Put(s, w, worker)) && WorkersFit(Put(s, w, worker))
  {
    var s' := Put(s, w, worker);
    forall i | 0 <= i < |s'.run| ensures TransactionFits(s', i) { assert TransactionFits(s, i); }
  }

  /** The transaction with which a controller applies its record is the one that the record calls for. */
  lemma ApplicationIsCalledFor(cfg: Setup, s: System, w: nat, snapshot: Snapshot, timely: bool)
    requires WorkersOk(cfg, s) && WorkersFit(s) && !At(s, w).Idle? && Application(At(s, w), snapshot, timely).Some?
    ensures var step := Application(At(s, w), snapshot, timely).value;
            DeliveryOf(step).Some? && IsCalledFor(s.inbox, DeliveryOf(step).value, step)
  {
    var claim := At(s, w).claim;
    var row := s.inbox.outbox[claim.row];
    assert WorkerOk(cfg, s, s.workers[w]) && WorkerFits(s.workers[w]);
    var step := Application(At(s, w), snapshot, timely).value;
    assert IsDeliveryOf(DeliveryOf(step).value, row) && CalledFor(row.kind, row.projection, step);
  }

  ghost predicate ProcessingFits(s: System) { TransactionsFit(s) && WorkersFit(s) }

  lemma InboxStepFits(cfg: Setup, s: System, step: I.InboxStep)
    requires ProcessingFits(s)
    ensures ProcessingFits(Inboxed(cfg, s, step))
  {
    I.InboxStepPersists(cfg.inbox, s.inbox, step);
    GrownInboxFits(s, Inboxed(cfg, s, step));
  }

  lemma ClaimFits(cfg: Setup, s: System, w: nat, owner: string, expired: set<nat>, timely: bool)
    requires ProcessingFits(s)
    ensures ProcessingFits(S.Claimed(cfg, s, w, owner, expired, timely))
  {
    var step := I.ClaimStep(owner, expired, 1, timely);
    InboxStepFits(cfg, s, step);
    var (inbox, reply) := I.InboxExec(cfg.inbox, s.inbox, step);
    if reply.ClaimedRecords? && reply.rows != [] && reply.rows[0] < |inbox.outbox| {
      MovedWorkersFit(s.(inbox := inbox), w, Working(Claim(reply.rows[0], inbox.outbox[reply.rows[0]])));
    }
  }

  lemma LookingUpFits(cfg: Setup, s: System, w: nat, failed: bool)
    requires ProcessingFits(s) && (At(s, w).Working? || At(s, w).Bound?)
    ensures At(s, w).Working? ==> ProcessingFits(LookedUp(cfg, s, w, At(s, w).claim, failed))
    ensures At(s, w).Bound? ==> ProcessingFits(ReadBack(cfg, s, w, At(s, w).claim, At(s, w).binding, failed))
  {
    var claim := At(s, w).claim;
    assert WorkerFits(s.workers[w]);
    if At(s, w).Working? {
      if claim.record.kind.CheckRunKind? && claim.record.projection.CheckRunProjection? {
        MovedWorkersFit(s, w, LookedUp(cfg, s, w, claim, failed).workers[w]);
      }
    } else {
      MovedWorkersFit(s, w, ReadBack(cfg, s, w, claim, At(s, w).binding, failed).workers[w]);
    }
  }

  lemma LeasingFits(cfg: Setup, s: System, w: nat, lapsed: bool, timely: bool)
    requires ProcessingFits(s) && KeyToLease(At(s, w)).Some?
    ensures ProcessingFits(Leasing(cfg, s, w, KeyToLease(At(s, w)).value, lapsed, timely))
  {
    var claim, key := At(s, w).claim, KeyToLease(At(s, w)).value;
    var step := Acquire(key, claim.record.owner, lapsed, timely);
    assert WorkerFits(s.workers[w]);
    OneMoreTransactionFits(s, step);
    var reply := ReplyTo(cfg.store, State(cfg.store, s.run), step);
    assert reply.Acquired? ==> reply.lease.key == key;
    MovedWorkersFit(s.(run := s.run + [step]), w, if reply.Acquired? then Reconciling(claim, reply.lease) else Failed(claim));
  }

  lemma ApplyingFits(cfg: Setup, s: System, w: nat, snapshot: Snapshot, timely: bool, lost: bool)
    requires WorkersOk(cfg, s) && ProcessingFits(s) && !At(s, w).Idle? && Application(At(s, w), snapshot, timely).Some?
    ensures ProcessingFits(Applied(cfg, s, w, At(s, w).claim, Application(At(s, w), snapshot, timely).value, lost))
  {
    var claim, step := At(s, w).claim, Application(At(s, w), snapshot, timely).value;
    ApplicationIsCalledFor(cfg, s, w, snapshot, timely);
    OneMoreTransactionFits(s, step);
    var reply := ReplyTo(cfg.store, State(cfg.store, s.run), step);
    MovedWorkersFit(s.(run := s.run + [step]), w, if reply.Done? && !lost then Succeeded(claim) else Failed(claim));
  }

  lemma EventFits(cfg: Setup, s: System, e: Event)
    requires WorkersOk(cfg, s) && ProcessingFits(s)
    ensures ProcessingFits(Next(cfg, s, e))
  {
    match e
    case Deliver(d) => InboxStepFits(cfg, s, I.AcceptStep(d));
    case ClaimNext(w, owner, expired, timely) => if At(s, w).Idle? { ClaimFits(cfg, s, w, owner, expired, timely); }
    case LookUp(w, failed) => if At(s, w).Working? { LookingUpFits(cfg, s, w, failed); }
    case ReadCurrent(w, failed) => if At(s, w).Bound? { LookingUpFits(cfg, s, w, failed); }
    case TakeLease(w, lapsed, timely) => if KeyToLease(At(s, w)).Some? { LeasingFits(cfg, s, w, lapsed, timely); }
    case Apply(w, snapshot, timely, lost) =>
      if Application(At(s, w), snapshot, timely).Some? && !At(s, w).Idle? { ApplyingFits(cfg, s, w, snapshot, timely, lost); }
    case GiveUp(w) => if !At(s, w).Idle? && !At(s, w).Succeeded? { MovedWorkersFit(s, w, Failed(At(s, w).claim)); }
    case Conclude(w, timely) =>
      if At(s, w).Succeeded? || At(s, w).Failed? {
        var r := At(s, w).claim.record;
        var step := I.FinishStep(r.id, r.owner, r.generation, At(s, w).Succeeded?, timely);
        InboxStepFits(cfg, s, step);
        MovedWorkersFit(Inboxed(cfg, s, step), w, Idle);
      }
    case Crash(w) => MovedWorkersFit(s, w, Idle);
    case Ambient(step) => if DeliveryOf(step).None? { OneMoreTransactionFits(s, step); }
  }

  lemma {:induction false} ReachedFits(cfg: Setup, events: seq<Event>)
    ensures ProcessingFits(Reached(cfg, events))
  {
    if events != [] {
      var before := events[..|events| - 1];
      ReachedFits(cfg, before);
      ReachedKeepsSystem(cfg, before);
      EventFits(cfg, Reached(cfg, before), events[|events| - 1]);
    }
  }

  /** Whatever the interleaving, each transaction that carries a delivery is the one that a recorded
      delivery calls for: a snapshot of the pull request that its projection names, the rerequest or the
      hint that it is, or the decision not to process it. */
  lemma TransactionsAreCalledFor(cfg: Setup, events: seq<Event>, i: nat)
    requires i < |Reached(cfg, events).run| && DeliveryOf(Reached(cfg, events).run[i]).Some?
    ensures var s := Reached(cfg, events); IsCalledFor(s.inbox, DeliveryOf(s.run[i]).value, s.run[i])
  {
    ReachedFits(cfg, events);
    assert TransactionFits(Reached(cfg, events), i);
  }

  // ---------------------------------------------------------------- what a controller does next

  /** A controller in possession of a lease that is still current acknowledges its record when it has
      succeeded, and gives it back when it has failed. */
  lemma ConclusionFinishesTheRecord(cfg: Setup, events: seq<Event>, w: nat)
    requires var s := Reached(cfg, events);
             && (At(s, w).Succeeded? || At(s, w).Failed?) && At(s, w).claim.record.owner != "" && At(s, w).claim.record.generation > 0
             && At(s, w).claim.row < |s.inbox.outbox| && s.inbox.outbox[At(s, w).claim.row] == At(s, w).claim.record
             && At(s, w).claim.record.state == I.OutboxLeased
    ensures var s := Reached(cfg, events); var worker := At(s, w);
            var next := if worker.Succeeded? then I.OutboxAcknowledged else I.OutboxPending;
            Next(cfg, s, Conclude(w, true))
            == Put(s.(inbox := s.inbox.(outbox := s.inbox.outbox[worker.claim.row := worker.claim.record.(state := next)])), w, Idle)
  {
    ReachedKeepsSystem(cfg, events);
    var s := Reached(cfg, events);
    var i := I.Find(s.inbox.outbox, At(s, w).claim.record.id);
    if i < |s.inbox.outbox| { IdsDiffer(s.inbox, i, At(s, w).claim.row); }
  }

  /** What a rerequest is told of the snapshot: its target, exactly when the snapshot is of an open pull
      request with a head, and of this one. */
  lemma RerequestIsToldTheTarget(claim: Claim, lease: LeaseToken, s: Snapshot, timely: bool)
    requires claim.record.kind == CheckRunKind
    ensures var step := Application(Reconciling(claim, lease), s, timely); var key := lease.key;
            var target := Target(key.installation, s.base.repository, s.head.repository, s.number, s.base.commit, s.head.commit);
            && step.Some? && step.value.RerequestStep? && step.value.rerequest.lease == lease
            && step.value.rerequest.snapshotTarget
               == if s.number == key.number && s.base.repository == key.repository && !s.closed && !s.draft && s.headAvailable
                     && s.head.repository > 0 && s.base.commit != "" && s.head.commit != "" && ValidTarget(target) then Some(target)
                  else None
  {
  }

  /** A rerequest goes to the pull request of the check run's binding, and then for the lease on it, if the
      binding and the row are found and the row knows the repository's route; and else it is ignored. */
  lemma RerequestIsRouted(cfg: Setup, s: System, w: nat, failed: bool)
    requires (At(s, w).Working? && At(s, w).claim.record.kind == CheckRunKind && At(s, w).claim.record.projection.CheckRunProjection?)
             || At(s, w).Bound?
    ensures var t, claim := State(cfg.store, s.run), At(s, w).claim;
            if At(s, w).Working? then
              var bkey := BindingKey(claim.record.projection.repository, claim.record.projection.checkRun);
              At(Next(cfg, s, LookUp(w, failed)), w) == if bkey in t.bindings && !failed then Bound(claim, t.bindings[bkey]) else Ignoring(claim)
            else
              var b := At(s, w).binding; var key := PRKey(b.installation, b.repository, b.number);
              var known := !failed && key in t.pulls && t.pulls[key].baseOwner != "" && t.pulls[key].baseName != "";
              && At(Next(cfg, s, ReadCurrent(w, failed)), w) == (if known then Routed(claim, key) else Ignoring(claim))
              && KeyToLease(Routed(claim, key)) == Some(key)
  {
  }
}

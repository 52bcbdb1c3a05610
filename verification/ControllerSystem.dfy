/** The whole pipeline as a state machine: webhook deliveries come in, any number of controllers claim
    and process them one store call at a time, crash between any two calls, and are overtaken. */
module ControllerSystem {
  import opened ControllerModel
  import opened Options
  import opened ControllerSpec
  import opened ControllerRuns
  import I = DeliveryInbox

  // ---------------------------------------------------------------- states

  /** A claimed record as the controller saw it, with its position in the outbox. */
  datatype Claim = Claim(row: nat, record: I.OutboxRow)

  /** Where a controller is in its processing of one record; every state is between two store calls. */
  datatype Worker =
    | Idle
    | Working(claim: Claim)
    | Bound(claim: Claim, binding: CheckBinding)
    | Ignoring(claim: Claim)
    | Routed(claim: Claim, key: PRKey)
    | Reconciling(claim: Claim, lease: LeaseToken)
    | Succeeded(claim: Claim)
    | Failed(claim: Claim)

  /** The store is given by the transactions it has run. */
  datatype System = System(inbox: I.InboxTables, run: seq<Step>, workers: map<nat, Worker>)

  datatype Setup = Setup(store: Config, inbox: I.InboxConfig)

  const START: System := System(I.NOTHING, [], map[])

  function At(s: System, w: nat): Worker { if w in s.workers then s.workers[w] else Idle }

  function Put(s: System, w: nat, worker: Worker): System { s.(workers := s.workers[w := worker]) }

  // ---------------------------------------------------------------- events

  /** Reading the binding or the row of a check run may fail, and a failure reads like a missing one. The
      answer of an `Apply` may be lost although it has committed. `GiveUp` is a failing call to the
      broker, the API or a database, or a projection that does not fit its kind. `Ambient` is any
      transaction that books no delivery: source ingesters, publishers, other leases. */
  datatype Event =
    | Deliver(delivery: I.VerifiedDelivery)
    | ClaimNext(w: nat, owner: string, expired: set<nat>, timely: bool)
    | LookUp(w: nat, failed: bool)
    | ReadCurrent(w: nat, failed: bool)
    | TakeLease(w: nat, lapsed: bool, timely: bool)
    | Apply(w: nat, snapshot: Snapshot, timely: bool, lost: bool)
    | GiveUp(w: nat)
    | Conclude(w: nat, timely: bool)
    | Crash(w: nat)
    | Ambient(step: Step)

  function DeliveryFor(r: I.OutboxRow): Delivery { Delivery(r.receiver, r.id, r.delivery, r.kind, r.projection) }

  predicate RequestReadable(p: Projection) { p.PullRequestProjection? && p.owner != "" && p.name != "" }

  /** The lease a controller asks for, once it knows the pull request. */
  function KeyToLease(worker: Worker): Option<PRKey> {
    match worker
    case Working(claim) =>
      var p := claim.record.projection;
      if claim.record.kind.PullRequestKind? && RequestReadable(p) then Some(PRKey(p.installation, p.repository, p.number)) else None
    case Routed(_, key) => Some(key)
    case _ => None
  }

  /** The target of a rerequest's snapshot, when the snapshot is fit to be analysed. */
  function SnapshotTarget(s: Snapshot, key: PRKey): Option<Target> {
    if s.number != key.number || s.base.repository != key.repository || s.closed || s.draft || !s.headAvailable
       || s.head.repository <= 0 || s.base.commit == "" || s.head.commit == "" || !ValidTarget(TargetOf(key, s)) then None
    else Some(TargetOf(key, s))
  }

  /** The transaction with which a controller applies its record, if it is where it can do so. */
  function Application(worker: Worker, s: Snapshot, timely: bool): Option<Step> {
    match worker
    case Working(claim) =>
      var r := claim.record;
      (match r.kind
       case PullRequestKind =>
         if r.projection.PullRequestProjection? && !RequestReadable(r.projection) then
           Some(DecisionStep(DeliveryFor(r), LegacyProjectionUnreconcilable, timely))
         else None
       case InstallationKind | InstallationRepositoriesKind =>
         if r.projection.InstallationProjection? then Some(HintStep(DeliveryFor(r), r.projection, timely)) else None
       case OtherKind => Some(DecisionStep(DeliveryFor(r), LegacyProjectionUnreconcilable, timely))
       case CheckRunKind => None)
    case Ignoring(claim) => Some(DecisionStep(DeliveryFor(claim.record), RerequestIgnored, timely))
    case Reconciling(claim, lease) =>
      var r := claim.record;
      if r.kind.PullRequestKind? then Some(SnapshotStep(SnapshotInput(DeliveryFor(r), lease, s), timely))
      else Some(RerequestStep(RerequestInput(DeliveryFor(r), lease, r.projection, SnapshotTarget(s, lease.key)), timely))
    case _ => None
  }

  // ---------------------------------------------------------------- transitions

  ghost function Inboxed(cfg: Setup, s: System, step: I.InboxStep): System {
    s.(inbox := I.InboxExec(cfg.inbox, s.inbox, step).0)
  }

  /** Claims at most one record. */
  ghost function Claimed(cfg: Setup, s: System, w: nat, owner: string, expired: set<nat>, timely: bool): System {
    var (inbox, reply) := I.InboxExec(cfg.inbox, s.inbox, I.ClaimStep(owner, expired, 1, timely));
    var s' := s.(inbox := inbox);
    if reply.ClaimedRecords? && reply.rows != [] && reply.rows[0] < |inbox.outbox| then
      Put(s', w, Working(Claim(reply.rows[0], inbox.outbox[reply.rows[0]])))
    else s'
  }

  /** The binding of the check run decides whether there is anything to do; any error is taken to say no. */
  ghost function LookedUp(cfg: Setup, s: System, w: nat, claim: Claim, failed: bool): System {
    var p := claim.record.projection;
    if !claim.record.kind.CheckRunKind? || !p.CheckRunProjection? then s
    else
      var bindings := State(cfg.store, s.run).bindings;
      var bkey := BindingKey(p.repository, p.checkRun);
      Put(s, w, if bkey in bindings && !failed then Bound(claim, bindings[bkey]) else Ignoring(claim))
  }

  ghost function ReadBack(cfg: Setup, s: System, w: nat, claim: Claim, b: CheckBinding, failed: bool): System {
    var key, pulls := PRKey(b.installation, b.repository, b.number), State(cfg.store, s.run).pulls;
    var known := key in pulls && pulls[key].baseOwner != "" && pulls[key].baseName != "";
    Put(s, w, if known && !failed then Routed(claim, key) else Ignoring(claim))
  }

  ghost function Leasing(cfg: Setup, s: System, w: nat, key: PRKey, lapsed: bool, timely: bool): System {
    var claim := At(s, w);
    if claim.Idle? then s
    else
      var step := Acquire(key, claim.claim.record.owner, lapsed, timely);
      var reply := ReplyTo(cfg.store, State(cfg.store, s.run), step);
      Put(s.(run := s.run + [step]), w, if reply.Acquired? then Reconciling(claim.claim, reply.lease) else Failed(claim.claim))
  }

  ghost function Applied(cfg: Setup, s: System, w: nat, claim: Claim, step: Step, lost: bool): System {
    var reply := ReplyTo(cfg.store, State(cfg.store, s.run), step);
    Put(s.(run := s.run + [step]), w, if reply.Done? && !lost then Succeeded(claim) else Failed(claim))
  }

  /** Success is acknowledged, failure released; what the inbox answers is not looked at again. */
  ghost function Concluded(cfg: Setup, s: System, w: nat, claim: Claim, success: bool, timely: bool): System {
    var r := claim.record;
    Put(Inboxed(cfg, s, I.FinishStep(r.id, r.owner, r.generation, success, timely)), w, Idle)
  }

  ghost function Next(cfg: Setup, s: System, e: Event): System {
    match e
    case Deliver(d) => Inboxed(cfg, s, I.AcceptStep(d))
    case ClaimNext(w, owner, expired, timely) => if At(s, w).Idle? then Claimed(cfg, s, w, owner, expired, timely) else s
    case LookUp(w, failed) => if At(s, w).Working? then LookedUp(cfg, s, w, At(s, w).claim, failed) else s
    case ReadCurrent(w, failed) => if At(s, w).Bound? then ReadBack(cfg, s, w, At(s, w).claim, At(s, w).binding, failed) else s
    case TakeLease(w, lapsed, timely) =>
      var key := KeyToLease(At(s, w));
      if key.Some? then Leasing(cfg, s, w, key.value, lapsed, timely) else s
    case Apply(w, snapshot, timely, lost) =>
      var step := Application(At(s, w), snapshot, timely);
      if step.Some? && !At(s, w).Idle? then Applied(cfg, s, w, At(s, w).claim, step.value, lost) else s
    case GiveUp(w) =>
      var worker := At(s, w);
      if worker.Idle? || worker.Succeeded? then s else Put(s, w, Failed(worker.claim))
    case Conclude(w, timely) =>
      var worker := At(s, w);
      if worker.Succeeded? || worker.Failed? then Concluded(cfg, s, w, worker.claim, worker.Succeeded?, timely) else s
    case Crash(w) => Put(s, w, Idle)
    case Ambient(step) => if DeliveryOf(step).None? then s.(run := s.run + [step]) else s
  }

  /** The state after any interleaving of events. */
  ghost function Reached(cfg: Setup, events: seq<Event>): System {
    if events == [] then START else Next(cfg, Reached(cfg, events[..|events| - 1]), events[|events| - 1])
  }

  // ---------------------------------------------------------------- what every event keeps

  ghost predicate Processed(cfg: Setup, s: System, r: I.OutboxRow) {
    var processed := State(cfg.store, s.run).processed;
    r.id in processed && processed[r.id].digest == r.projection
  }

  /** A claim stands for a record; a controller that has succeeded has had it processed. */
  ghost predicate WorkerOk(cfg: Setup, s: System, worker: Worker) {
    !worker.Idle? ==>
      && worker.claim.row < |s.inbox.outbox| && I.RecordPersists(worker.claim.record, s.inbox.outbox[worker.claim.row])
      && (worker.Succeeded? ==> Processed(cfg, s, worker.claim.record))
  }

  ghost predicate WorkersOk(cfg: Setup, s: System) {
    forall w {:trigger s.workers[w]} | w in s.workers :: WorkerOk(cfg, s, s.workers[w])
  }

  /** Two controllers never hold the same record under the same lease generation. */
  ghost predicate ClaimsDiffer(s: System) {
    forall v, w {:trigger s.workers[v], s.workers[w]} |
      v in s.workers && w in s.workers && v != w && !s.workers[v].Idle? && !s.workers[w].Idle?
      && s.workers[v].claim.row == s.workers[w].claim.row ::
        s.workers[v].claim.record.generation != s.workers[w].claim.record.generation
  }

  ghost predicate AcknowledgedOk(cfg: Setup, s: System) {
    forall i {:trigger s.inbox.outbox[i]} | 0 <= i < |s.inbox.outbox| && s.inbox.outbox[i].state.OutboxAcknowledged? ::
      Processed(cfg, s, s.inbox.outbox[i])
  }

  /** Some record of the outbox has this id and this projection. */
  ghost predicate Recorded(inbox: I.InboxTables, o: OutboxId, digest: Projection) {
    exists i :: 0 <= i < |inbox.outbox| && inbox.outbox[i].id == o && inbox.outbox[i].projection == digest
  }

  ghost predicate BookingsOk(cfg: Setup, s: System) {
    var processed := State(cfg.store, s.run).processed;
    forall o {:trigger processed[o]} | o in processed :: Recorded(s.inbox, o, processed[o].digest)
  }

  ghost predicate SystemInv(cfg: Setup, s: System) {
    && I.InboxInv(s.inbox) && WorkersOk(cfg, s) && ClaimsDiffer(s) && AcknowledgedOk(cfg, s) && BookingsOk(cfg, s)
  }

  // ---------------------------------------------------------------- one event

  lemma PersistsOn(a: I.OutboxRow, b: I.OutboxRow, c: I.OutboxRow)
    requires I.RecordPersists(a, b) && I.RecordPersists(b, c)
    ensures I.RecordPersists(a, c)
  {
  }

  lemma IdsDiffer(inbox: I.InboxTables, i: nat, j: nat)
    requires I.InboxInv(inbox) && i < |inbox.outbox| && j < |inbox.outbox| && inbox.outbox[i].id == inbox.outbox[j].id
    ensures i == j
  {
    assert I.RecordOk(inbox, i) && I.RecordOk(inbox, j);
  }

  lemma RecordedStays(inbox: I.InboxTables, inbox': I.InboxTables, o: OutboxId, digest: Projection)
    requires I.RecordsPersist(inbox, inbox') && Recorded(inbox, o, digest)
    ensures Recorded(inbox', o, digest)
  {
    var i :| 0 <= i < |inbox.outbox| && inbox.outbox[i].id == o && inbox.outbox[i].projection == digest;
    assert I.RecordPersists(inbox.outbox[i], inbox'.outbox[i]);
  }

  /** An inbox step keeps the invariant if it acknowledges nothing that has not been processed. */
  lemma InboxStepKeepsSystem(cfg: Setup, s: System, step: I.InboxStep)
    requires SystemInv(cfg, s)
    requires forall i {:trigger s.inbox.outbox[i]} | 0 <= i < |s.inbox.outbox| :: NewlyAcknowledged(cfg, s, step, i) ==> Processed(cfg, s, s.inbox.outbox[i])
    ensures SystemInv(cfg, Inboxed(cfg, s, step))
  {
    var s' := Inboxed(cfg, s, step);
    I.InboxStepKeepsInv(cfg.inbox, s.inbox, step);
    I.InboxStepPersists(cfg.inbox, s.inbox, step);
    forall w | w in s'.workers ensures WorkerOk(cfg, s', s'.workers[w]) {
      var worker := s.workers[w];
      assert WorkerOk(cfg, s, worker);
      if !worker.Idle? {
        PersistsOn(worker.claim.record, s.inbox.outbox[worker.claim.row], s'.inbox.outbox[worker.claim.row]);
      }
    }
    forall i | 0 <= i < |s'.inbox.outbox| && s'.inbox.outbox[i].state.OutboxAcknowledged? ensures Processed(cfg, s', s'.inbox.outbox[i]) {
      AcknowledgedIsOld(cfg, s, step, i);
      assert s.inbox.outbox[i] == s.inbox.outbox[i];
    }
    var processed := State(cfg.store, s.run).processed;
    forall o | o in processed ensures Recorded(s'.inbox, o, processed[o].digest) {
      RecordedStays(s.inbox, s'.inbox, o, processed[o].digest);
    }
  }

  ghost predicate NewlyAcknowledged(cfg: Setup, s: System, step: I.InboxStep, i: nat)
    requires i < |s.inbox.outbox|
  {
    && step.FinishStep? && step.acknowledge && s.inbox.outbox[i].id == step.id
    && !s.inbox.outbox[i].state.OutboxAcknowledged?
  }

  lemma AcknowledgedIsOld(cfg: Setup, s: System, step: I.InboxStep, i: nat)
    requires i < |Inboxed(cfg, s, step).inbox.outbox| && Inboxed(cfg, s, step).inbox.outbox[i].state.OutboxAcknowledged?
    ensures i < |s.inbox.outbox| && (s.inbox.outbox[i].state.OutboxAcknowledged? || NewlyAcknowledged(cfg, s, step, i))
    ensures Inboxed(cfg, s, step).inbox.outbox[i].id == s.inbox.outbox[i].id
    ensures Inboxed(cfg, s, step).inbox.outbox[i].projection == s.inbox.outbox[i].projection
  {
  }

  /** A transaction for a recorded delivery, or for none, keeps the invariant. */
  lemma TransactionKeepsSystem(cfg: Setup, s: System, step: Step)
    requires SystemInv(cfg, s)
    requires match DeliveryOf(step) case None => true case Some(d) => Recorded(s.inbox, d.outbox, d.digest)
    ensures SystemInv(cfg, s.(run := s.run + [step]))
    ensures var reply := ReplyTo(cfg.store, State(cfg.store, s.run), step);
            DeliveryOf(step).Some? && reply.Done? ==>
              var processed := State(cfg.store, s.run + [step]).processed; var d := DeliveryOf(step).value;
              d.outbox in processed && processed[d.outbox].digest == d.digest
  {
    var s' := s.(run := s.run + [step]);
    Snoc(cfg.store, s.run, step);
    StepBooks(cfg.store, State(cfg.store, s.run), step);
    var was, now := State(cfg.store, s.run).processed, State(cfg.store, s'.run).processed;
    assert forall o | o in was :: o in now && now[o] == was[o];
    forall w | w in s'.workers ensures WorkerOk(cfg, s', s'.workers[w]) {
      assert WorkerOk(cfg, s, s.workers[w]);
    }
    forall i | 0 <= i < |s'.inbox.outbox| && s'.inbox.outbox[i].state.OutboxAcknowledged? ensures Processed(cfg, s', s'.inbox.outbox[i]) {
      assert Processed(cfg, s, s.inbox.outbox[i]);
    }
    forall o | o in now ensures Recorded(s'.inbox, o, now[o].digest) {
      assert o in was ==> Recorded(s.inbox, o, was[o].digest);
    }
  }

  /** A controller may move on with the claim it has. */
  lemma MoveKeepsSystem(cfg: Setup, s: System, w: nat, worker: Worker)
    requires SystemInv(cfg, s)
    requires worker.Idle? || (!At(s, w).Idle? && worker.claim == At(s, w).claim)
    requires worker.Succeeded? ==> Processed(cfg, s, worker.claim.record)
    ensures SystemInv(cfg, Put(s, w, worker))
  {
    var s' := Put(s, w, worker);
    forall v | v in s'.workers ensures WorkerOk(cfg, s', s'.workers[v]) {
      assert v in s.workers ==> WorkerOk(cfg, s, s.workers[v]);
    }
    assert s'.inbox == s.inbox && s'.run == s.run;
  }

  lemma ClaimKeepsSystem(cfg: Setup, s: System, w: nat, owner: string, expired: set<nat>, timely: bool)
    requires SystemInv(cfg, s) && At(s, w).Idle?
    ensures SystemInv(cfg, Claimed(cfg, s, w, owner, expired, timely))
  {
    var step := I.ClaimStep(owner, expired, 1, timely);
    InboxStepKeepsSystem(cfg, s, step);
    var inbox, reply := I.InboxExec(cfg.inbox, s.inbox, step).0, I.InboxExec(cfg.inbox, s.inbox, step).1;
    if reply.ClaimedRecords? && reply.rows != [] {
      var i := reply.rows[0];
      assert i in reply.rows;
      assert inbox.outbox[i] == I.ClaimedRow(s.inbox.outbox[i], owner);
      var s1 := s.(inbox := inbox);
      var s' := Put(s1, w, Working(Claim(i, inbox.outbox[i])));
      forall v | v in s'.workers ensures WorkerOk(cfg, s', s'.workers[v]) {
        assert v in s1.workers ==> WorkerOk(cfg, s1, s1.workers[v]);
      }
      forall v | v in s.workers && !s.workers[v].Idle? && s.workers[v].claim.row == i
        ensures s.workers[v].claim.record.generation < inbox.outbox[i].generation
      {
        assert WorkerOk(cfg, s, s.workers[v]);
      }
    }
  }

  lemma ConclusionKeepsSystem(cfg: Setup, s: System, w: nat, timely: bool)
    requires SystemInv(cfg, s) && (At(s, w).Succeeded? || At(s, w).Failed?)
    ensures SystemInv(cfg, Concluded(cfg, s, w, At(s, w).claim, At(s, w).Succeeded?, timely))
  {
    var worker := At(s, w);
    var r := worker.claim.record;
    var step := I.FinishStep(r.id, r.owner, r.generation, worker.Succeeded?, timely);
    assert WorkerOk(cfg, s, worker);
    forall i | 0 <= i < |s.inbox.outbox| && NewlyAcknowledged(cfg, s, step, i) ensures Processed(cfg, s, s.inbox.outbox[i]) {
      IdsDiffer(s.inbox, i, worker.claim.row);
    }
    InboxStepKeepsSystem(cfg, s, step);
    MoveKeepsSystem(cfg, Inboxed(cfg, s, step), w, Idle);
  }

  lemma ApplicationKeepsSystem(cfg: Setup, s: System, w: nat, snapshot: Snapshot, timely: bool, lost: bool)
    requires SystemInv(cfg, s) && !At(s, w).Idle? && Application(At(s, w), snapshot, timely).Some?
    ensures SystemInv(cfg, Applied(cfg, s, w, At(s, w).claim, Application(At(s, w), snapshot, timely).value, lost))
  {
    var claim, step := At(s, w).claim, Application(At(s, w), snapshot, timely).value;
    assert WorkerOk(cfg, s, At(s, w));
    assert DeliveryOf(step) == Some(DeliveryFor(claim.record));
    assert s.inbox.outbox[claim.row].id == claim.record.id;
    TransactionKeepsSystem(cfg, s, step);
    var s1 := s.(run := s.run + [step]);
    assert At(s1, w) == At(s, w);
    var reply := ReplyTo(cfg.store, State(cfg.store, s.run), step);
    MoveKeepsSystem(cfg, s1, w, if reply.Done? && !lost then Succeeded(claim) else Failed(claim));
  }

  lemma LeasingKeepsSystem(cfg: Setup, s: System, w: nat, key: PRKey, lapsed: bool, timely: bool)
    requires SystemInv(cfg, s)
    ensures SystemInv(cfg, Leasing(cfg, s, w, key, lapsed, timely))
  {
    var worker := At(s, w);
    if !worker.Idle? {
      var step := Acquire(key, worker.claim.record.owner, lapsed, timely);
      TransactionKeepsSystem(cfg, s, step);
      var s1 := s.(run := s.run + [step]);
      assert At(s1, w) == At(s, w);
      var reply := ReplyTo(cfg.store, State(cfg.store, s.run), step);
      MoveKeepsSystem(cfg, s1, w, if reply.Acquired? then Reconciling(worker.claim, reply.lease) else Failed(worker.claim));
    }
  }

  lemma EventKeepsSystem(cfg: Setup, s: System, e: Event)
    requires SystemInv(cfg, s)
    ensures SystemInv(cfg, Next(cfg, s, e))
  {
    match e
    case Deliver(d) => InboxStepKeepsSystem(cfg, s, I.AcceptStep(d));
    case ClaimNext(w, owner, expired, timely) => if At(s, w).Idle? { ClaimKeepsSystem(cfg, s, w, owner, expired, timely); }
    case TakeLease(w, lapsed, timely) =>
      if KeyToLease(At(s, w)).Some? { LeasingKeepsSystem(cfg, s, w, KeyToLease(At(s, w)).value, lapsed, timely); }
    case Apply(w, snapshot, timely, lost) =>
      if Application(At(s, w), snapshot, timely).Some? && !At(s, w).Idle? { ApplicationKeepsSystem(cfg, s, w, snapshot, timely, lost); }
    case Conclude(w, timely) => if At(s, w).Succeeded? || At(s, w).Failed? { ConclusionKeepsSystem(cfg, s, w, timely); }
    case Ambient(step) => if DeliveryOf(step).None? { TransactionKeepsSystem(cfg, s, step); }
    case _ =>
      var w := e.w;
      if Next(cfg, s, e) != s { MoveKeepsSystem(cfg, s, w, At(Next(cfg, s, e), w)); }
  }

  lemma {:induction false} ReachedKeepsSystem(cfg: Setup, events: seq<Event>)
    ensures SystemInv(cfg, Reached(cfg, events))
  {
    if events != [] {
      ReachedKeepsSystem(cfg, events[..|events| - 1]);
      EventKeepsSystem(cfg, Reached(cfg, events[..|events| - 1]), events[|events| - 1]);
    }
  }

  // ---------------------------------------------------------------- theorems over all interleavings

  /** Whatever has been acknowledged has been processed, as it was recorded. */
  lemma AcknowledgedIsProcessed(cfg: Setup, events: seq<Event>)
    ensures var s := Reached(cfg, events); var processed := State(cfg.store, s.run).processed;
            forall r | r in s.inbox.outbox && r.state.OutboxAcknowledged? ::
              r.id in processed && processed[r.id].digest == r.projection
  {
    ReachedKeepsSystem(cfg, events);
    var s := Reached(cfg, events);
    forall r | r in s.inbox.outbox && r.state.OutboxAcknowledged? ensures Processed(cfg, s, r) {
      var i :| 0 <= i < |s.inbox.outbox| && s.inbox.outbox[i] == r;
      assert s.inbox.outbox[i] == s.inbox.outbox[i];
    }
  }

  lemma DeliveriesDiffer(cfg: Setup, s: System, a: OutboxId, b: OutboxId)
    requires SystemInv(cfg, s) && a != b
    requires a in State(cfg.store, s.run).processed && b in State(cfg.store, s.run).processed
    ensures I.InboxKey(a.receiver, a.delivery) != I.InboxKey(b.receiver, b.delivery)
  {
    var processed := State(cfg.store, s.run).processed;
    assert Recorded(s.inbox, a, processed[a].digest) && Recorded(s.inbox, b, processed[b].digest);
    var i :| 0 <= i < |s.inbox.outbox| && s.inbox.outbox[i].id == a;
    var j :| 0 <= j < |s.inbox.outbox| && s.inbox.outbox[j].id == b;
    assert I.RecordOk(s.inbox, i) && I.RecordOk(s.inbox, j);
  }

  /** Exactly-once effects, end to end: whatever the interleaving, the controller's tables apart from
      leases are those of a serial run in which every transaction commits, which processes recorded
      deliveries only, and no webhook delivery more than once. */
  lemma EveryDeliveryTakesEffectOnce(cfg: Setup, events: seq<Event>)
    ensures var s := Reached(cfg, events); var serial := Serial(cfg.store, s.run); var done := Delivered(serial);
            && State(cfg.store, serial) == Core(State(cfg.store, s.run)) && EveryStepCounts(cfg.store, serial)
            && (forall o | o in done :: exists digest :: Recorded(s.inbox, o, digest))
            && (forall i, j | 0 <= i < j < |done| ::
                  I.InboxKey(done[i].receiver, done[i].delivery) != I.InboxKey(done[j].receiver, done[j].delivery))
  {
    ReachedKeepsSystem(cfg, events);
    var s := Reached(cfg, events);
    ExactlyOnce(cfg.store, s.run);
    var done := Delivered(Serial(cfg.store, s.run));
    forall o | o in done ensures exists digest :: Recorded(s.inbox, o, digest) {
      assert Recorded(s.inbox, o, State(cfg.store, s.run).processed[o].digest);
    }
    forall i, j | 0 <= i < j < |done|
      ensures I.InboxKey(done[i].receiver, done[i].delivery) != I.InboxKey(done[j].receiver, done[j].delivery)
    {
      assert done[i] in done && done[j] in done;
      DeliveriesDiffer(cfg, s, done[i], done[j]);
    }
  }

  /** At any time at most one controller holds the current lease of a record, and one that has been
      overtaken can neither acknowledge nor release it: the inbox stays as it is. */
  lemma OvertakenControllerChangesNothing(cfg: Setup, events: seq<Event>, v: nat, w: nat, timely: bool)
    requires var s := Reached(cfg, events);
             && v != w && !At(s, v).Idle? && !At(s, w).Idle? && At(s, v).claim.row == At(s, w).claim.row
             && At(s, v).claim.record.generation <= At(s, w).claim.record.generation
    ensures var s := Reached(cfg, events);
            && At(s, v).claim.row < |s.inbox.outbox|
            && At(s, v).claim.record.generation < s.inbox.outbox[At(s, v).claim.row].generation
            && Next(cfg, s, Conclude(v, timely)).inbox == s.inbox
  {
    ReachedKeepsSystem(cfg, events);
    var s := Reached(cfg, events);
    assert WorkerOk(cfg, s, s.workers[v]) && WorkerOk(cfg, s, s.workers[w]);
    var i := I.Find(s.inbox.outbox, At(s, v).claim.record.id);
    if i < |s.inbox.outbox| { IdsDiffer(s.inbox, i, At(s, v).claim.row); }
  }

  lemma ConflictMeansAnotherDigest(cfg: Config, t: Tables, step: Step)
    requires DeliveryOf(step).Some? && ReplyTo(cfg, t, step) == Rejected(ProcessedConflict)
    ensures var d := DeliveryOf(step).value; d.outbox in t.processed && t.processed[d.outbox].digest != d.digest
  {
  }

  /** No controller ever finds that its delivery was processed with another projection. */
  lemma ProjectionsNeverConflict(cfg: Setup, events: seq<Event>, w: nat, snapshot: Snapshot, timely: bool)
    requires Application(At(Reached(cfg, events), w), snapshot, timely).Some?
    ensures var s := Reached(cfg, events);
            ReplyTo(cfg.store, State(cfg.store, s.run), Application(At(s, w), snapshot, timely).value) != Rejected(ProcessedConflict)
  {
    ReachedKeepsSystem(cfg, events);
    var s := Reached(cfg, events);
    var claim, step := At(s, w).claim, Application(At(s, w), snapshot, timely).value;
    assert DeliveryOf(step) == Some(DeliveryFor(claim.record));
    assert WorkerOk(cfg, s, s.workers[w]);
    var t := State(cfg.store, s.run);
    if ReplyTo(cfg.store, t, step) == Rejected(ProcessedConflict) {
      ConflictMeansAnotherDigest(cfg.store, t, step);
      assert Recorded(s.inbox, claim.record.id, t.processed[claim.record.id].digest);
      var i :| 0 <= i < |s.inbox.outbox| && s.inbox.outbox[i].id == claim.record.id
               && s.inbox.outbox[i].projection == t.processed[claim.record.id].digest;
      IdsDiffer(s.inbox, i, claim.row);
      assert false;
    }
  }
}

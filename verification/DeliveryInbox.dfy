/** The delivery inbox: it accepts each webhook delivery once, and hands its record out under leases. */
module DeliveryInbox {
  import opened ControllerModel
  import opened Options
  import opened LeaseQueue

  // ---------------------------------------------------------------- tables

  datatype InboxKey = InboxKey(receiver: string, delivery: string)

  datatype InboxRow = InboxRow(fingerprint: string, conflicts: nat)

  datatype OutboxState = OutboxPending | OutboxLeased | OutboxAcknowledged

  datatype OutboxRow = OutboxRow(id: OutboxId, receiver: string, delivery: string, kind: ProjectionKind, projection: Projection,
                                 state: OutboxState, owner: string, generation: int, attempts: int)

  /** `outbox` keeps its AUTOINCREMENT order: row i has sequence i + 1. */
  datatype InboxTables = InboxTables(inbox: map<InboxKey, InboxRow>, outbox: seq<OutboxRow>)

  /** A delivery whose signature has been checked; `wellFormed` says that its record passed the format checks. */
  datatype VerifiedDelivery = VerifiedDelivery(receiver: string, delivery: string, fingerprint: string,
                                               kind: ProjectionKind, projection: Projection, enqueued: bool, wellFormed: bool)

  datatype InboxConfig = InboxConfig(receiver: string, maxOwnerBytes: nat, maxClaim: int)

  datatype InboxError =
    | DeliveryRejected | DeliveryIdConflict | TransactionFailed
    | ClaimRejected | LeaseGenerationOverflow | AttemptCountOverflow
    | StaleOutboxLease | OutboxStateInvalid

  datatype InboxReply =
    | Enqueued(id: OutboxId) | Ignored | DuplicateDelivery | ClaimedRecords(rows: seq<nat>) | LeaseFinished
    | Refused(error: InboxError)

  // ---------------------------------------------------------------- transactions as functions

  function IdOf(d: VerifiedDelivery): OutboxId { OutboxId(d.receiver, d.delivery, d.fingerprint, d.kind) }

  function KeyOf(d: VerifiedDelivery): InboxKey { InboxKey(d.receiver, d.delivery) }

  predicate FingerprintTaken(t: InboxTables, d: VerifiedDelivery) {
    exists key | key in t.inbox :: key.receiver == d.receiver && t.inbox[key].fingerprint == d.fingerprint
  }

  function Find(rows: seq<OutboxRow>, id: OutboxId): (i: nat)
    ensures i <= |rows|
    ensures forall k | 0 <= k < i :: rows[k].id != id
    ensures i < |rows| ==> rows[i].id == id
  {
    if rows == [] || rows[0].id == id then 0 else 1 + Find(rows[1..], id)
  }

  function NewRecord(d: VerifiedDelivery): OutboxRow {
    OutboxRow(IdOf(d), d.receiver, d.delivery, d.kind, d.projection, OutboxPending, "", 0, 0)
  }

  function Accepting(cfg: InboxConfig, t: InboxTables, d: VerifiedDelivery): (InboxTables, InboxReply) {
    var key := KeyOf(d);
    if d.receiver != cfg.receiver || d.delivery == "" || !d.wellFormed then (t, Refused(DeliveryRejected))
    else if key in t.inbox then
      if t.inbox[key].fingerprint == d.fingerprint then (t, DuplicateDelivery)
      else (t.(inbox := t.inbox[key := t.inbox[key].(conflicts := t.inbox[key].conflicts + 1)]), Refused(DeliveryIdConflict))
    else if FingerprintTaken(t, d) then (t, Refused(TransactionFailed))
    else
      var t' := t.(inbox := t.inbox[key := InboxRow(d.fingerprint, 0)]);
      if !d.enqueued then (t', Ignored)
      else if Find(t.outbox, IdOf(d)) < |t.outbox| then (t, Refused(TransactionFailed))
      else (t'.(outbox := t.outbox + [NewRecord(d)]), Enqueued(IdOf(d)))
  }

  predicate Claimable(rows: seq<OutboxRow>, expired: set<nat>, i: nat)
    requires i < |rows|
  {
    rows[i].state.OutboxPending? || (rows[i].state.OutboxLeased? && i in expired)
  }

  function ClaimableRows(rows: seq<OutboxRow>, expired: set<nat>): set<nat> {
    set i: nat | 0 <= i < |rows| && Claimable(rows, expired, i)
  }

  function Candidates(rows: seq<OutboxRow>, expired: set<nat>, limit: nat): seq<nat> {
    FirstOf(ClaimableRows(rows, expired), |rows|, 0, limit)
  }

  /** The counter of the first chosen row that cannot be raised any more. */
  function OverflowIn(rows: seq<OutboxRow>, chosen: seq<nat>): (e: Option<InboxError>)
    requires forall i | i in chosen :: i < |rows|
  {
    assert forall k | 0 <= k < |chosen| :: chosen[k] in chosen;
    if chosen == [] then None
    else if rows[chosen[0]].generation == MAX_INT64 then Some(LeaseGenerationOverflow)
    else if rows[chosen[0]].attempts == MAX_INT64 then Some(AttemptCountOverflow)
    else OverflowIn(rows, chosen[1..])
  }

  function ClaimedRow(row: OutboxRow, owner: string): OutboxRow {
    row.(state := OutboxLeased, owner := owner, generation := row.generation + 1, attempts := row.attempts + 1)
  }

  function ClaimRows(rows: seq<OutboxRow>, chosen: seq<nat>, owner: string): seq<OutboxRow> {
    seq(|rows|, i requires 0 <= i < |rows| => if i in chosen then ClaimedRow(rows[i], owner) else rows[i])
  }

  predicate ClaimantValid(cfg: InboxConfig, owner: string, limit: int, timely: bool) {
    && 0 < |owner| <= cfg.maxOwnerBytes && (forall c | c in owner :: ' ' <= c && c != 0x7f as char)
    && timely && 0 < limit <= cfg.maxClaim
  }

  function Claiming(cfg: InboxConfig, t: InboxTables, owner: string, expired: set<nat>, limit: int, timely: bool): (InboxTables, InboxReply) {
    if !ClaimantValid(cfg, owner, limit, timely) then (t, Refused(ClaimRejected))
    else
      var chosen := Candidates(t.outbox, expired, limit);
      match OverflowIn(t.outbox, chosen)
      case Some(error) => (t, Refused(error))
      case None => (t.(outbox := ClaimRows(t.outbox, chosen, owner)), ClaimedRecords(chosen))
  }

  /** Acknowledging or releasing a record under a lease. Acknowledging once more is no error. */
  function Finishing(t: InboxTables, id: OutboxId, owner: string, generation: int, acknowledge: bool, timely: bool): (InboxTables, InboxReply) {
    var i := Find(t.outbox, id);
    if owner == "" || generation <= 0 || !timely || i == |t.outbox| then (t, Refused(StaleOutboxLease))
    else if t.outbox[i].owner != owner || t.outbox[i].generation != generation then (t, Refused(StaleOutboxLease))
    else if acknowledge && t.outbox[i].state.OutboxAcknowledged? then (t, LeaseFinished)
    else if !t.outbox[i].state.OutboxLeased? then (t, Refused(OutboxStateInvalid))
    else
      var next := if acknowledge then OutboxAcknowledged else OutboxPending;
      (t.(outbox := t.outbox[i := t.outbox[i].(state := next)]), LeaseFinished)
  }

  datatype InboxStep =
    | AcceptStep(delivery: VerifiedDelivery)
    | ClaimStep(owner: string, expired: set<nat>, limit: int, timely: bool)
    | FinishStep(id: OutboxId, owner: string, generation: int, acknowledge: bool, timely: bool)

  function InboxExec(cfg: InboxConfig, t: InboxTables, step: InboxStep): (InboxTables, InboxReply) {
    match step
    case AcceptStep(d) => Accepting(cfg, t, d)
    case ClaimStep(owner, expired, limit, timely) => Claiming(cfg, t, owner, expired, limit, timely)
    case FinishStep(id, owner, generation, ack, timely) => Finishing(t, id, owner, generation, ack, timely)
  }

  const NOTHING: InboxTables := InboxTables(map[], [])

  // ---------------------------------------------------------------- what every step keeps

  /** Every outbox record stands for one inbox row, with its delivery id and its fingerprint. */
  predicate RecordOk(t: InboxTables, i: nat)
    requires i < |t.outbox|
  {
    var row := t.outbox[i]; var key := InboxKey(row.receiver, row.delivery);
    && row.id == OutboxId(row.receiver, row.delivery, row.id.fingerprint, row.kind)
    && key in t.inbox && t.inbox[key].fingerprint == row.id.fingerprint && row.generation >= 0
  }

  /** At most one record per delivery, and at most one delivery per fingerprint. */
  ghost predicate InboxInv(t: InboxTables) {
    && (forall i {:trigger RecordOk(t, i)} | 0 <= i < |t.outbox| :: RecordOk(t, i))
    && (forall i, j {:trigger t.outbox[i], t.outbox[j]} | 0 <= i < j < |t.outbox| ::
          InboxKey(t.outbox[i].receiver, t.outbox[i].delivery) != InboxKey(t.outbox[j].receiver, t.outbox[j].delivery))
    && (forall a, b {:trigger t.inbox[a], t.inbox[b]} | a in t.inbox && b in t.inbox && a.receiver == b.receiver
          && t.inbox[a].fingerprint == t.inbox[b].fingerprint :: a == b)
  }

  lemma AcceptingKeepsInv(cfg: InboxConfig, t: InboxTables, d: VerifiedDelivery)
    requires InboxInv(t)
    ensures InboxInv(Accepting(cfg, t, d).0)
    ensures KeyOf(d) !in t.inbox ==> Find(t.outbox, IdOf(d)) == |t.outbox|
  {
    var t' := Accepting(cfg, t, d).0;
    var found := Find(t.outbox, IdOf(d));
    assert found < |t.outbox| ==> RecordOk(t, found);
    forall i | 0 <= i < |t'.outbox| ensures RecordOk(t', i) {
      assert i < |t.outbox| ==> RecordOk(t, i);
    }
    forall i, j | 0 <= i < j < |t'.outbox|
      ensures InboxKey(t'.outbox[i].receiver, t'.outbox[i].delivery) != InboxKey(t'.outbox[j].receiver, t'.outbox[j].delivery)
    {
      assert RecordOk(t, i);
    }
  }

  lemma LeasingKeepsInv(t: InboxTables, t': InboxTables)
    requires InboxInv(t) && t'.inbox == t.inbox && |t'.outbox| == |t.outbox|
    requires forall i {:trigger t'.outbox[i]} | 0 <= i < |t.outbox| :: t'.outbox[i].generation >= t.outbox[i].generation
               && t'.outbox[i] == t.outbox[i].(state := t'.outbox[i].state, owner := t'.outbox[i].owner,
                                               generation := t'.outbox[i].generation, attempts := t'.outbox[i].attempts)
    ensures InboxInv(t')
  {
    forall i | 0 <= i < |t'.outbox| ensures RecordOk(t', i) { assert RecordOk(t, i); }
    forall i, j | 0 <= i < j < |t'.outbox|
      ensures InboxKey(t'.outbox[i].receiver, t'.outbox[i].delivery) != InboxKey(t'.outbox[j].receiver, t'.outbox[j].delivery)
    {
      assert t.outbox[i].delivery == t'.outbox[i].delivery && t.outbox[j].delivery == t'.outbox[j].delivery;
    }
  }

  lemma InboxStepKeepsInv(cfg: InboxConfig, t: InboxTables, step: InboxStep)
    requires InboxInv(t)
    ensures InboxInv(InboxExec(cfg, t, step).0)
  {
    match step
    case AcceptStep(d) => AcceptingKeepsInv(cfg, t, d);
    case ClaimStep(_, _, _, _) => LeasingKeepsInv(t, InboxExec(cfg, t, step).0);
    case FinishStep(_, _, _, _, _) => LeasingKeepsInv(t, InboxExec(cfg, t, step).0);
  }

  // ---------------------------------------------------------------- what happens to one record

  /** No step can act under lease `generation` of the record any more, except acknowledge it again. */
  predicate Settled(row: OutboxRow, generation: int) {
    row.generation > generation || (row.generation == generation && !row.state.OutboxLeased?)
  }

  /** A record keeps what it stands for; its lease generation does not fall, a settled lease stays
      settled, and an acknowledged record never changes again. */
  predicate RecordPersists(row: OutboxRow, row': OutboxRow) {
    && row'.id == row.id && row'.receiver == row.receiver && row'.delivery == row.delivery
    && row'.kind == row.kind && row'.projection == row.projection
    && row.generation <= row'.generation
    && (row.state.OutboxAcknowledged? ==> row' == row)
    && (row.generation == row'.generation ==> row'.owner == row.owner && (row'.state.OutboxLeased? ==> row.state.OutboxLeased?))
  }

  ghost predicate RecordsPersist(t: InboxTables, t': InboxTables) {
    |t.outbox| <= |t'.outbox| && forall i {:trigger t'.outbox[i]} | 0 <= i < |t.outbox| :: RecordPersists(t.outbox[i], t'.outbox[i])
  }

  lemma InboxStepPersists(cfg: InboxConfig, t: InboxTables, step: InboxStep)
    ensures RecordsPersist(t, InboxExec(cfg, t, step).0)
  {
  }

  // ---------------------------------------------------------------- the store

  class Inbox {
    const config: InboxConfig
    var db: InboxTables

    ghost predicate Valid()
      reads this
    {
      InboxInv(db)
    }

    constructor (config: InboxConfig)
      ensures Valid() && this.config == config && db == NOTHING
    {
      this.config := config;
      db := NOTHING;
    }

    method Accept(d: VerifiedDelivery) returns (reply: InboxReply)
      requires Valid()
      modifies this`db
      ensures Valid() && (db, reply) == InboxExec(config, old(db), AcceptStep(d))
    {
      AcceptingKeepsInv(config, db, d);
      if d.receiver != config.receiver || d.delivery == "" || !d.wellFormed { return Refused(DeliveryRejected); }
      var tx := db;
      var key := KeyOf(d);
      if key !in tx.inbox && !FingerprintTaken(tx, d) {
        tx := tx.(inbox := tx.inbox[key := InboxRow(d.fingerprint, 0)]);
      } else {
        if key !in tx.inbox { return Refused(TransactionFailed); }
        if tx.inbox[key].fingerprint == d.fingerprint { return DuplicateDelivery; }
        db := tx.(inbox := tx.inbox[key := tx.inbox[key].(conflicts := tx.inbox[key].conflicts + 1)]);
        return Refused(DeliveryIdConflict);
      }
      if d.enqueued {
        if Find(tx.outbox, IdOf(d)) < |tx.outbox| { return Refused(TransactionFailed); }
        tx := tx.(outbox := tx.outbox + [NewRecord(d)]);
      }
      db := tx;
      return if d.enqueued then Enqueued(IdOf(d)) else Ignored;
    }

    method ClaimOutbox(owner: string, expired: set<nat>, limit: int, timely: bool) returns (reply: InboxReply)
      requires Valid()
      modifies this`db
      ensures Valid() && (db, reply) == InboxExec(config, old(db), ClaimStep(owner, expired, limit, timely))
    {
      InboxStepKeepsInv(config, db, ClaimStep(owner, expired, limit, timely));
      if !ClaimantValid(config, owner, limit, timely) { return Refused(ClaimRejected); }
      var candidates, overflow := ScanRecords(db.outbox, expired, limit);
      if overflow.Some? { return Refused(overflow.value); }
      FirstOfIsFirst(ClaimableRows(db.outbox, expired), |db.outbox|, 0, limit);
      var rows, claimed := TakeRecords(db.outbox, candidates, expired, owner);
      db := db.(outbox := rows);
      return ClaimedRecords(claimed);
    }

    method FinishLease(id: OutboxId, owner: string, generation: int, acknowledge: bool, timely: bool) returns (reply: InboxReply)
      requires Valid()
      modifies this`db
      ensures Valid() && (db, reply) == InboxExec(config, old(db), FinishStep(id, owner, generation, acknowledge, timely))
    {
      InboxStepKeepsInv(config, db, FinishStep(id, owner, generation, acknowledge, timely));
      if owner == "" || generation <= 0 || !timely { return Refused(StaleOutboxLease); }
      var i := Find(db.outbox, id);
      if i == |db.outbox| { return Refused(StaleOutboxLease); }
      var row := db.outbox[i];
      if row.owner != owner || row.generation != generation { return Refused(StaleOutboxLease); }
      if acknowledge {
        if row.state.OutboxAcknowledged? { return LeaseFinished; }
        if !row.state.OutboxLeased? { return Refused(OutboxStateInvalid); }
        row := row.(state := OutboxAcknowledged);
      } else {
        if !row.state.OutboxLeased? { return Refused(OutboxStateInvalid); }
        row := row.(state := OutboxPending);
      }
      db := db.(outbox := db.outbox[i := row]);
      return LeaseFinished;
    }
  }

  lemma NextCandidate(rows: seq<OutboxRow>, expired: set<nat>, i: nat, limit: nat)
    requires i < |rows| && limit > 0 && Claimable(rows, expired, i)
    ensures var open := ClaimableRows(rows, expired); var c := FirstOf(open, |rows|, i, limit);
            && c != [] && c[0] == i && c[1..] == FirstOf(open, |rows|, i + 1, limit - 1)
            && OverflowIn(rows, c) == if rows[i].generation == MAX_INT64 then Some(LeaseGenerationOverflow)
                                      else if rows[i].attempts == MAX_INT64 then Some(AttemptCountOverflow)
                                      else OverflowIn(rows, c[1..])
  {
  }

  /** Scans for at most `limit` claimable records, and stops at one whose counters are used up. */
  method ScanRecords(rows: seq<OutboxRow>, expired: set<nat>, limit: nat) returns (found: seq<nat>, overflow: Option<InboxError>)
    ensures overflow == OverflowIn(rows, Candidates(rows, expired, limit))
    ensures overflow.None? ==> found == Candidates(rows, expired, limit)
  {
    ghost var all := Candidates(rows, expired, limit);
    ghost var rest := all;
    var i := 0;
    found := [];
    while i < |rows| && |found| < limit
      invariant i <= |rows| && |found| <= limit
      invariant rest == FirstOf(ClaimableRows(rows, expired), |rows|, i, limit - |found|) && all == found + rest
      invariant OverflowIn(rows, all) == OverflowIn(rows, rest)
    {
      if Claimable(rows, expired, i) {
        NextCandidate(rows, expired, i, limit - |found|);
        if rows[i].generation == MAX_INT64 { return found, Some(LeaseGenerationOverflow); }
        if rows[i].attempts == MAX_INT64 { return found, Some(AttemptCountOverflow); }
        ShiftOne(found, rest);
        found, rest := found + [i], rest[1..];
      }
      i := i + 1;
    }
    assert rest == [];
    return found, None;
  }

  lemma ShiftOne(found: seq<nat>, rest: seq<nat>)
    requires rest != []
    ensures found + rest == (found + [rest[0]]) + rest[1..]
  {
  }

  /** Leases the candidates one by one; each update repeats the conditions it was selected under. */
  method TakeRecords(rows: seq<OutboxRow>, chosen: seq<nat>, expired: set<nat>, owner: string)
    returns (taken: seq<OutboxRow>, claimed: seq<nat>)
    requires forall i | i in chosen :: i < |rows| && Claimable(rows, expired, i)
    requires forall j, k | 0 <= j < k < |chosen| :: chosen[j] < chosen[k]
    ensures taken == ClaimRows(rows, chosen, owner) && claimed == chosen
  {
    taken, claimed := rows, [];
    var k := 0;
    while k < |chosen|
      invariant k <= |chosen| && claimed == chosen[..k]
      invariant taken == ClaimRows(rows, chosen[..k], owner)
    {
      var i := chosen[k];
      assert i in chosen && i !in chosen[..k];
      if taken[i].generation == rows[i].generation && Claimable(taken, expired, i) {
        taken := taken[i := ClaimedRow(taken[i], owner)];
        claimed := claimed + [i];
      }
      k := k + 1;
      assert chosen[..k] == chosen[..k - 1] + [i];
    }
    assert chosen[..k] == chosen;
  }
}

/** What the inbox answers and writes, said of the delivery and of the rows that it finds. */
module DeliveryAnswers {
  import opened ControllerModel
  import opened LeaseQueue
  import opened DeliveryInbox

  // ---------------------------------------------------------------- accepting

  /** The delivery may be recorded at all. */
  predicate Deliverable(cfg: InboxConfig, d: VerifiedDelivery) { d.receiver == cfg.receiver && d.delivery != "" && d.wellFormed }

  /** Another delivery of the receiver has the fingerprint. */
  ghost predicate FingerprintClashes(t: InboxTables, d: VerifiedDelivery) {
    exists key :: key in t.inbox && key.receiver == d.receiver && t.inbox[key].fingerprint == d.fingerprint
  }

  /** A delivery is recorded on its first arrival, with one pending record in the outbox if it is to be
      processed. One that arrives again is a duplicate when its fingerprint is the same, and else counted
      as a conflict. Anything else changes nothing. */
  lemma AcceptAnswer(cfg: InboxConfig, t: InboxTables, d: VerifiedDelivery)
    requires InboxInv(t)
    ensures var (t', reply) := InboxExec(cfg, t, AcceptStep(d)); var key := InboxKey(d.receiver, d.delivery);
            if !Deliverable(cfg, d) then t' == t && reply == Refused(DeliveryRejected)
            else if key in t.inbox && t.inbox[key].fingerprint == d.fingerprint then t' == t && reply == DuplicateDelivery
            else if key in t.inbox then
              && reply == Refused(DeliveryIdConflict)
              && t' == t.(inbox := t.inbox[key := InboxRow(t.inbox[key].fingerprint, t.inbox[key].conflicts + 1)])
            else if FingerprintClashes(t, d) then t' == t && reply == Refused(TransactionFailed)
            else
              var id := OutboxId(d.receiver, d.delivery, d.fingerprint, d.kind);
              && reply == (if d.enqueued then Enqueued(id) else Ignored)
              && t'.inbox == t.inbox[key := InboxRow(d.fingerprint, 0)]
              && t'.outbox == t.outbox + if d.enqueued then [OutboxRow(id, d.receiver, d.delivery, d.kind, d.projection, OutboxPending, "", 0, 0)]
                                         else []
  {
    AcceptingKeepsInv(cfg, t, d);
  }

  // ---------------------------------------------------------------- claiming

  /** The records that wait to be processed, and those on which a lease has run out. */
  ghost function Waiting(t: InboxTables, expired: set<nat>): set<nat> {
    set i: nat | i < |t.outbox| && (t.outbox[i].state == OutboxPending || (t.outbox[i].state == OutboxLeased && i in expired))
  }

  lemma CandidatesAreFirst(t: InboxTables, expired: set<nat>, limit: nat)
    ensures AreFirst(Waiting(t, expired), limit, Candidates(t.outbox, expired, limit))
  {
    assert ClaimableRows(t.outbox, expired) == Waiting(t, expired);
    FirstOfAreFirst(Waiting(t, expired), |t.outbox|, limit);
  }

  lemma {:induction false} NoOverflowMeans(rows: seq<OutboxRow>, chosen: seq<nat>)
    requires forall i | i in chosen :: i < |rows|
    ensures OverflowIn(rows, chosen).None? <==>
              forall k | 0 <= k < |chosen| :: chosen[k] in chosen && rows[chosen[k]].generation != MAX_INT64 && rows[chosen[k]].attempts != MAX_INT64
  {
    if chosen != [] {
      assert forall k | 0 <= k < |chosen| :: chosen[k] in chosen;
      NoOverflowMeans(rows, chosen[1..]);
      assert forall k | 0 <= k < |chosen| - 1 :: chosen[1..][k] == chosen[k + 1];
    }
  }

  /** A claim takes exactly the first waiting records: each gets the claimant, the next lease generation and
      one more attempt. Without a claim nothing is written. */
  lemma ClaimAnswer(cfg: InboxConfig, t: InboxTables, owner: string, expired: set<nat>, limit: int, timely: bool)
    ensures var (t', reply) := InboxExec(cfg, t, ClaimStep(owner, expired, limit, timely));
            if reply.ClaimedRecords? then
              && AreFirst(Waiting(t, expired), limit, reply.rows) && t'.inbox == t.inbox && |t'.outbox| == |t.outbox|
              && forall i | 0 <= i < |t.outbox| ::
                   var row := t.outbox[i];
                   t'.outbox[i] == if i in reply.rows then row.(state := OutboxLeased, owner := owner, generation := row.generation + 1,
                                                                attempts := row.attempts + 1)
                                   else row
            else t' == t
  {
    if 0 < limit { CandidatesAreFirst(t, expired, limit); }
  }

  /** Exactly when a claim is granted: no counter of a record that it would take is used up. */
  lemma ClaimIsGranted(cfg: InboxConfig, t: InboxTables, owner: string, expired: set<nat>, limit: int, timely: bool)
    ensures InboxExec(cfg, t, ClaimStep(owner, expired, limit, timely)).1.ClaimedRecords? <==>
              && 1 <= |owner| <= cfg.maxOwnerBytes && (forall c | c in owner :: ' ' <= c && c != 0x7f as char)
              && timely && 1 <= limit <= cfg.maxClaim
              && exists chosen :: AreFirst(Waiting(t, expired), limit, chosen)
                   && forall k | 0 <= k < |chosen| ::
                        t.outbox[chosen[k]].generation != MAX_INT64 && t.outbox[chosen[k]].attempts != MAX_INT64
  {
    if 1 <= limit {
      CandidatesAreFirst(t, expired, limit);
      var c := Candidates(t.outbox, expired, limit);
      NoOverflowMeans(t.outbox, c);
      forall chosen | AreFirst(Waiting(t, expired), limit, chosen) ensures chosen == c {
        FirstAreUnique(Waiting(t, expired), limit, chosen, c);
      }
    }
  }

  // ---------------------------------------------------------------- finishing

  /** Row `i` is the record, under exactly this lease. */
  ghost predicate UnderLease(t: InboxTables, i: nat, id: OutboxId, owner: string, generation: int) {
    i < |t.outbox| && t.outbox[i].id == id && t.outbox[i].owner == owner && t.outbox[i].generation == generation
  }

  lemma RecordIsFound(t: InboxTables, i: nat, id: OutboxId)
    requires InboxInv(t)
    ensures i < |t.outbox| && t.outbox[i].id == id ==> i == Find(t.outbox, id)
  {
    var k := Find(t.outbox, id);
    assert k < |t.outbox| ==> RecordOk(t, k);
    assert i < |t.outbox| ==> RecordOk(t, i);
  }

  /** Whoever holds the lease acknowledges a record or gives it back, once; acknowledging again is no
      error. Nobody else changes anything. */
  lemma FinishAnswer(cfg: InboxConfig, t: InboxTables, id: OutboxId, owner: string, generation: int, acknowledge: bool, timely: bool)
    requires InboxInv(t)
    ensures var (t', reply) := InboxExec(cfg, t, FinishStep(id, owner, generation, acknowledge, timely));
            && (reply == LeaseFinished <==>
                  owner != "" && generation > 0 && timely
                  && exists i: nat :: UnderLease(t, i, id, owner, generation)
                       && (t.outbox[i].state == OutboxLeased || (acknowledge && t.outbox[i].state == OutboxAcknowledged)))
            && (reply != LeaseFinished ==> t' == t)
            && (forall i: nat | UnderLease(t, i, id, owner, generation) && reply == LeaseFinished ::
                  t' == t.(outbox := t.outbox[i := t.outbox[i].(state := if acknowledge then OutboxAcknowledged else OutboxPending)]))
  {
    forall i: nat | UnderLease(t, i, id, owner, generation) ensures i == Find(t.outbox, id) { RecordIsFound(t, i, id); }
    var k := Find(t.outbox, id);
    if InboxExec(cfg, t, FinishStep(id, owner, generation, acknowledge, timely)).1 == LeaseFinished {
      assert UnderLease(t, k, id, owner, generation);
      assert t.outbox[k].state.OutboxAcknowledged? ==> t.outbox[k := t.outbox[k].(state := OutboxAcknowledged)] == t.outbox;
    }
  }
}

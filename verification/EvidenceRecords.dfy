/** Artifact records and logs of a session: what is recorded is what is stored, and a log is a prefix
    of what was written to it. */
module EvidenceRecords {
  import opened Options
  import opened EvidenceModel
  import opened EvidenceSession

  // ---------------------------------------------------------------- artifact records

  /** A stored artifact names its object; an omitted one names none. */
  predicate ShapeOk(objects: set<Digest>, r: Record) {
    && ValidLogicalPath(r.logical)
    && if r.disposition.Stored? then
         r.digest.Some? && r.digest.value in objects && r.digest.value.content.Raw?
         && r.objectPath == Some(ObjectPath(r.digest.value)) && r.size == |r.digest.value.content.bytes|
       else r.digest.None? && r.objectPath.None?
  }

  predicate Distinct(records: seq<Record>) {
    forall i, j | 0 <= i < j < |records| :: records[i].attempt != records[j].attempt || records[i].logical != records[j].logical
  }

  predicate References(r: Record, d: Digest) { r.disposition.Stored? && r.digest == Some(d) }

  ghost predicate AttemptRecordsOk(s: Session, i: nat)
    requires i < |s.attempts|
  {
    var a := s.attempts[i];
    && (forall r | r in a.records :: r in s.records && r.attempt == a.planned.key)
    && Distinct(a.records)
    && (a.records == [] ==> a.artifacts.NotProvided? || a.artifacts.CapturedEmpty?)
    && (a.records != [] ==> a.artifacts.Captured? || a.artifacts.OmittedByLimit?)
    && (a.artifacts.OmittedByLimit? ==> s.incomplete)
  }

  ghost predicate RecordFound(s: Session, r: Record) { exists i :: 0 <= i < |s.attempts| && r in s.attempts[i].records }

  ghost predicate RecordsInv(s: Session) {
    && (forall i {:trigger AttemptRecordsOk(s, i)} | 0 <= i < |s.attempts| :: AttemptRecordsOk(s, i))
    && (forall r {:trigger RecordFound(s, r)} | r in s.records :: RecordFound(s, r))
    && (forall r {:trigger ShapeOk(s.objects, r)} | r in s.records :: ShapeOk(s.objects, r))
    && (forall r {:trigger (r.attempt, r.logical)} | r in s.records :: (r.attempt, r.logical) in s.logical)
    && Distinct(s.records)
    && (forall d | d in s.objects :: exists r | r in s.records :: References(r, d))
  }

  predicate SameRecords(a: Attempt, a': Attempt) {
    a'.planned == a.planned && a'.records == a.records && a'.artifacts == a.artifacts
  }

  ghost predicate LeavesRecords(s: Session, s': Session) {
    && |s'.attempts| == |s.attempts| && s'.records == s.records && s'.objects == s.objects && s.logical <= s'.logical
    && (s.incomplete ==> s'.incomplete)
    && forall i {:trigger s'.attempts[i]} | 0 <= i < |s.attempts| :: SameRecords(s.attempts[i], s'.attempts[i])
  }

  lemma LeavingKeepsRecords(s: Session, s': Session)
    requires RecordsInv(s) && LeavesRecords(s, s')
    ensures RecordsInv(s')
  {
    forall i | 0 <= i < |s'.attempts| ensures AttemptRecordsOk(s', i) {
      assert AttemptRecordsOk(s, i) && SameRecords(s.attempts[i], s'.attempts[i]);
    }
    forall r | r in s'.records ensures RecordFound(s', r) {
      assert RecordFound(s, r);
      var i :| 0 <= i < |s.attempts| && r in s.attempts[i].records;
      assert SameRecords(s.attempts[i], s'.attempts[i]);
    }
  }

  /** A new record for attempt `i`; if it is stored, its object is filed. */
  ghost predicate Records(s: Session, s': Session, i: nat, r: Record)
    requires i < |s.attempts|
  {
    var a := s.attempts[i];
    && r.attempt == a.planned.key && (r.attempt, r.logical) !in s.logical && ShapeOk(s'.objects, r)
    && |s'.attempts| == |s.attempts|
    && (forall k {:trigger s'.attempts[k]} | 0 <= k < |s.attempts| && k != i :: SameRecords(s.attempts[k], s'.attempts[k]))
    && s'.attempts[i].planned == a.planned && s'.attempts[i].records == a.records + [r]
    && s'.attempts[i].artifacts == (if r.disposition.Stored? then Captured else OmittedByLimit)
    && s'.records == s.records + [r] && s'.logical == s.logical + {(r.attempt, r.logical)}
    && s'.incomplete == (s.incomplete || !r.disposition.Stored?)
    && s.objects <= s'.objects && (forall d | d in s'.objects :: d in s.objects || References(r, d))
  }

  lemma RecordingKeepsAttempt(s: Session, s': Session, i: nat, r: Record, k: nat)
    requires RecordsInv(s) && i < |s.attempts| && k < |s.attempts| && Records(s, s', i, r)
    ensures AttemptRecordsOk(s', k)
  {
    assert AttemptRecordsOk(s, k);
    assert forall x | x in s.records :: x in s'.records;
    assert r == s'.records[|s.records|];
    if k != i { assert SameRecords(s.attempts[k], s'.attempts[k]); }
    if k == i {
      forall x | x in s.attempts[i].records ensures x.logical != r.logical { assert x in s.records && (x.attempt, x.logical) in s.logical; }
    }
  }

  lemma RecordingKeepsRecords(s: Session, s': Session, i: nat, r: Record)
    requires RecordsInv(s) && i < |s.attempts| && Records(s, s', i, r)
    ensures RecordsInv(s')
  {
    assert r == s'.records[|s.records|];
    forall k | 0 <= k < |s'.attempts| ensures AttemptRecordsOk(s', k) { RecordingKeepsAttempt(s, s', i, r, k); }
    forall x | x in s'.records ensures RecordFound(s', x) && ShapeOk(s'.objects, x) && (x.attempt, x.logical) in s'.logical {
      if x in s.records {
        assert RecordFound(s, x) && ShapeOk(s.objects, x) && (x.attempt, x.logical) in s.logical;
        var k :| 0 <= k < |s.attempts| && x in s.attempts[k].records;
        assert k != i ==> SameRecords(s.attempts[k], s'.attempts[k]);
        assert x in s'.attempts[k].records;
      } else {
        assert x == r && r in s'.attempts[i].records;
      }
    }
    assert Distinct(s'.records) by {
      forall x | x in s.records ensures x.attempt != r.attempt || x.logical != r.logical { assert (x.attempt, x.logical) in s.logical; }
    }
    forall d | d in s'.objects ensures exists x | x in s'.records :: References(x, d) {
      if d in s.objects {
        var x :| x in s.records && References(x, d);
        assert x in s'.records;
      } else {
        assert References(r, d);
      }
    }
  }

  // ---------------------------------------------------------------- logs

  /** What is stored is a prefix of what was written; the log is truncated exactly when more was
      observed than stored, and else it holds everything. */
  predicate LogOk(lim: Limits, log: Log) {
    && log.bytes <= log.offered && |log.bytes| <= lim.logPerStream && |log.offered| <= log.observed
    && (log.truncated <==> log.observed > |log.bytes|)
  }

  /** A log that misses something can take no more: its own limit or the limit of all logs is used up. */
  predicate SpentIfShort(lim: Limits, s: Session, log: Log) {
    log.bytes != log.offered ==> |log.bytes| >= lim.logPerStream || s.totalLog >= lim.totalLog
  }

  predicate LogStateOk(lim: Limits, s: Session, capture: Capture, log: Option<Log>) {
    match log
    case None => capture.NotProvided?
    case Some(l) =>
      && LogOk(lim, l) && SpentIfShort(lim, s, l) && (l.truncated ==> s.incomplete)
      && capture == if !l.closed then CapturedEmpty else if l.truncated then Truncated
                    else if l.bytes == "" then CapturedEmpty else Captured
  }

  ghost predicate AttemptLogsOk(lim: Limits, s: Session, i: nat)
    requires i < |s.attempts|
  {
    LogStateOk(lim, s, s.attempts[i].stdout, s.attempts[i].out) && LogStateOk(lim, s, s.attempts[i].stderr, s.attempts[i].err)
  }

  function LogSize(log: Option<Log>): nat { if log.Some? then |log.value.bytes| else 0 }

  function LogTotal(attempts: seq<Attempt>): nat {
    if attempts == [] then 0
    else LogTotal(attempts[..|attempts| - 1]) + LogSize(attempts[|attempts| - 1].out) + LogSize(attempts[|attempts| - 1].err)
  }

  ghost predicate LogsInv(lim: Limits, s: Session) {
    && (forall i {:trigger AttemptLogsOk(lim, s, i)} | 0 <= i < |s.attempts| :: AttemptLogsOk(lim, s, i))
    && s.totalLog == LogTotal(s.attempts) <= lim.totalLog
  }

  lemma {:induction false} LogTotalAfter(attempts: seq<Attempt>, i: nat, a: Attempt)
    requires i < |attempts|
    ensures LogTotal(attempts[i := a]) + LogSize(attempts[i].out) + LogSize(attempts[i].err)
            == LogTotal(attempts) + LogSize(a.out) + LogSize(a.err)
  {
    var n := |attempts| - 1;
    var changed := attempts[i := a];
    if i < n {
      assert changed[..n] == attempts[..n][i := a];
      LogTotalAfter(attempts[..n], i, a);
    } else {
      assert changed[..n] == attempts[..n];
    }
  }

  predicate SameLogs(a: Attempt, a': Attempt) {
    a'.out == a.out && a'.err == a.err && a'.stdout == a.stdout && a'.stderr == a.stderr
  }

  lemma {:induction false} LogTotalDepends(a: seq<Attempt>, b: seq<Attempt>)
    requires |a| == |b| && forall i | 0 <= i < |a| :: SameLogs(a[i], b[i])
    ensures LogTotal(a) == LogTotal(b)
  {
    if a != [] {
      var n := |a| - 1;
      forall i | 0 <= i < n ensures SameLogs(a[..n][i], b[..n][i]) { assert SameLogs(a[i], b[i]); }
      LogTotalDepends(a[..n], b[..n]);
      assert SameLogs(a[n], b[n]);
    }
  }

  ghost predicate LeavesLogs(s: Session, s': Session) {
    && |s'.attempts| == |s.attempts| && s'.totalLog == s.totalLog && (s.incomplete ==> s'.incomplete)
    && forall i {:trigger s'.attempts[i]} | 0 <= i < |s.attempts| :: SameLogs(s.attempts[i], s'.attempts[i])
  }

  lemma LeavingKeepsLogs(lim: Limits, s: Session, s': Session)
    requires LogsInv(lim, s) && LeavesLogs(s, s')
    ensures LogsInv(lim, s')
  {
    forall i | 0 <= i < |s'.attempts| ensures AttemptLogsOk(lim, s', i) {
      assert AttemptLogsOk(lim, s, i) && SameLogs(s.attempts[i], s'.attempts[i]);
    }
    forall i | 0 <= i < |s.attempts| ensures SameLogs(s.attempts[i], s'.attempts[i]) { assert s'.attempts[i] == s'.attempts[i]; }
    LogTotalDepends(s.attempts, s'.attempts);
  }

  /** One log of attempt `i` changes, and the total with it. */
  ghost predicate ChangesLog(s: Session, s': Session, i: nat)
    requires i < |s.attempts|
  {
    && |s'.attempts| == |s.attempts| && s'.attempts == s.attempts[i := s'.attempts[i]] && (s.incomplete ==> s'.incomplete)
    && s.totalLog <= s'.totalLog
    && s'.totalLog - s.totalLog == LogSize(s'.attempts[i].out) + LogSize(s'.attempts[i].err)
                                   - LogSize(s.attempts[i].out) - LogSize(s.attempts[i].err)
  }

  lemma ChangingKeepsLogs(lim: Limits, s: Session, s': Session, i: nat)
    requires LogsInv(lim, s) && i < |s.attempts| && |s'.attempts| == |s.attempts| && ChangesLog(s, s', i)
    requires AttemptLogsOk(lim, s', i) && s'.totalLog <= lim.totalLog
    ensures LogsInv(lim, s')
  {
    LogTotalAfter(s.attempts, i, s'.attempts[i]);
    forall k | 0 <= k < |s'.attempts| ensures AttemptLogsOk(lim, s', k) { assert AttemptLogsOk(lim, s, k); }
  }

  lemma WritingKeepsLog(lim: Limits, log: Log, data: string, room: int)
    requires LogOk(lim, log) && 0 <= room <= lim.logPerStream - |log.bytes| && (log.bytes != log.offered ==> room <= 0)
    ensures var log' := Written(log, data, room);
            LogOk(lim, log') && (log'.bytes != log'.offered ==> log.bytes != log.offered || |data| > room)
    ensures var log' := Written(log, data, room); |log'.bytes| - |log.bytes| == if room <= 0 then 0 else if |data| > room then room else |data|
  {
    var log' := Written(log, data, room);
    if log.bytes == log.offered {
      assert log'.bytes == log'.offered[..|log'.bytes|];
    } else {
      assert log'.bytes == log.bytes + [];
      assert log'.offered[..|log.bytes|] == log.offered[..|log.bytes|];
    }
  }

  lemma WriteLogKeepsLogs(lim: Limits, s: Session, key: AttemptKey, stream: Stream, data: string)
    requires LogsInv(lim, s)
    ensures LogsInv(lim, WriteLog(lim, s, key, stream, data))
  {
    var i, s' := IndexOfKey(s.attempts, key), WriteLog(lim, s, key, stream, data);
    if i < |s.attempts| && s.state.Active? && LogAt(s.attempts[i], stream).Some? && !LogAt(s.attempts[i], stream).value.closed {
      assert AttemptLogsOk(lim, s, i);
      var log := LogAt(s.attempts[i], stream).value;
      var room := Room(lim, s, log);
      WritingKeepsLog(lim, log, data, room);
      ChangingKeepsLogs(lim, s, s', i);
    }
  }

  lemma OpenLogKeepsLogs(lim: Limits, s: Session, key: AttemptKey, stream: Stream)
    requires LogsInv(lim, s)
    ensures LogsInv(lim, OpenLog(s, key, stream))
  {
    var i, s' := IndexOfKey(s.attempts, key), OpenLog(s, key, stream);
    if i < |s.attempts| && s' != s {
      assert AttemptLogsOk(lim, s, i);
      if s'.state.Active? { ChangingKeepsLogs(lim, s, s', i); } else { LeavingKeepsLogs(lim, s, s'); }
    }
  }

  lemma MarkTruncatedKeepsLogs(lim: Limits, s: Session, key: AttemptKey, stream: Stream, n: int)
    requires LogsInv(lim, s)
    ensures LogsInv(lim, MarkTruncated(s, key, stream, n))
  {
    var i, s' := IndexOfKey(s.attempts, key), MarkTruncated(s, key, stream, n);
    if i < |s.attempts| && s' != s {
      assert AttemptLogsOk(lim, s, i);
      ChangingKeepsLogs(lim, s, s', i);
    }
  }

  lemma CloseLogKeepsLogs(lim: Limits, s: Session, i: nat, stream: Stream, lists: bool)
    requires LogsInv(lim, s) && i < |s.attempts|
    ensures LogsInv(lim, CloseLog(s, i, stream, lists).0)
  {
    var s' := CloseLog(s, i, stream, lists).0;
    CloseLogIs(s, i, stream, lists);
    assert AttemptLogsOk(lim, s, i);
    ChangingKeepsLogs(lim, s, s', i);
  }
}

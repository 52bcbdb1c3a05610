/** When the reader accepts what the writer commits: the checks of results, artifacts, events and
    completion, and the theorem that puts them together. */
module EvidenceVerdict {
  import opened Options
  import opened EvidenceModel
  import opened EvidenceSession
  import opened EvidenceFiles
  import opened EvidenceEvents
  import opened EvidenceRecords
  import opened EvidenceRuns
  import opened EvidenceCommit
  import opened EvidenceAgreement
  import R = EvidenceReader

  // ---------------------------------------------------------------- execution and results

  /** The execution reports the attempts of the plan in order, all of them if it is complete, with
      outcomes that make sense. */
  predicate InPlanOrder(results: seq<AttemptResult>, planned: seq<PlannedAttempt>, complete: bool) {
    && |results| <= |planned| && (complete ==> |results| == |planned|)
    && forall i | 0 <= i < |results| :: R.ResultIs(results[i], planned[i])
  }

  lemma {:induction false} ResultForFinds(results: seq<AttemptResult>, j: nat)
    requires j < |results| && ResultsDistinct(results)
    ensures ResultFor(results, results[j].key) == Some(results[j])
  {
    if j > 0 { ResultForFinds(results[1..], j - 1); }
  }

  lemma FinalIsClosed(lim: Limits, s: Session, f: Session, c: Completion)
    requires Final(lim, s, f, c)
    ensures Closed(f) && f.stray == s.stray
  {
    forall i, name | 0 <= i < |f.attempts| ensures !IsOpen(f.attempts[i], name) {
      assert FinalFrom(s.attempts[i], f.attempts[i], c.attempts);
    }
  }

  lemma {:induction false} ResultForMisses(results: seq<AttemptResult>, key: AttemptKey)
    requires forall j | 0 <= j < |results| :: results[j].key != key
    ensures ResultFor(results, key).None?
  {
    if results != [] { ResultForMisses(results[1..], key); }
  }

  lemma ResultOfAttempt(f: Session, results: seq<AttemptResult>, i: nat)
    requires FilesOk(f) && LaidOut(f) && i < |f.attempts| && ResultsDistinct(results) && InPlanOrder(results, Expand(f.plan), false)
    ensures ResultFor(results, KeyAt(f, i)) == if i < |results| then Some(results[i]) else None
  {
    forall j | 0 <= j < |f.attempts| ensures KeyAt(f, j) == Expand(f.plan)[j].key && (j != i ==> KeyAt(f, j) != KeyAt(f, i)) {
      assert f.attempts[j].planned == Expand(f.plan)[j];
      if KeyAt(f, j) == KeyAt(f, i) { KeysDiffer(f, i, j); }
    }
    if i < |results| {
      ResultForFinds(results, i);
    } else {
      ResultForMisses(results, KeyAt(f, i));
    }
  }

  lemma AttemptResultAgrees(lim: Limits, s: Session, f: Session, c: Completion, i: nat)
    requires Final(lim, s, f, c) && s.stray == {} && i < |f.attempts|
    requires ResultsDistinct(c.attempts) && InPlanOrder(c.attempts, Expand(f.plan), c.complete)
    ensures R.AttemptResultOk(Published(f, c), Expand(f.plan)[i], c.complete)
  {
    var m, p := ManifestOf(f, c), FileOf(f.attempts[i], ResultFile);
    assert Expand(f.plan)[i] == f.attempts[i].planned;
    FinalIsClosed(lim, s, f, c);
    AttemptAtIs(f, c, i);
    ListsWhatThereIs(f, c, i, ResultFile);
    ResultOfAttempt(f, c.attempts, i);
    assert m.attempts[i] == AttemptEntryOf(f.attempts[i]);
    assert FinalFrom(s.attempts[i], f.attempts[i], c.attempts) && ResultStored(f, i, c.attempts) && NameOk(f, i, ResultFile);
  }

  lemma ExecutionAgrees(lim: Limits, s: Session, f: Session, c: Completion)
    requires Final(lim, s, f, c) && s.stray == {} && ResultsDistinct(c.attempts)
    ensures R.ExecutionOk(Published(f, c), Expand(f.plan)) <==> R.RunnerOk(c.runner) && InPlanOrder(c.attempts, Expand(f.plan), c.complete)
  {
    FinalIsClosed(lim, s, f, c);
    EveryFileIsListed(f, ExecutionPath);
    assert HasEntry(f.entries, ExecutionPath);
    var e :| e in f.entries && e.path == ExecutionPath;
    assert EntryOk(f, e);
    if InPlanOrder(c.attempts, Expand(f.plan), c.complete) {
      forall i | 0 <= i < |Expand(f.plan)| ensures R.AttemptResultOk(Published(f, c), Expand(f.plan)[i], c.complete) {
        AttemptResultAgrees(lim, s, f, c, i);
      }
    }
  }

  // ---------------------------------------------------------------- artifacts

  lemma FinalRecords(lim: Limits, s: Session, f: Session, c: Completion)
    requires Final(lim, s, f, c) && RecordsInv(s)
    ensures RecordsInv(f)
    ensures forall i {:trigger f.attempts[i]} | 0 <= i < |f.attempts| :: f.attempts[i].indexed == NeedsIndex(f.attempts[i])
  {
    forall i | 0 <= i < |s.attempts| ensures SameRecords(s.attempts[i], f.attempts[i]) && f.attempts[i].indexed == NeedsIndex(f.attempts[i]) {
      assert FinalFrom(s.attempts[i], f.attempts[i], c.attempts);
    }
    LeavingKeepsRecords(s, f);
  }

  lemma ObjectIsListed(f: Session, c: Completion, d: Digest) returns (e: Entry)
    requires Settled(f) && d in f.objects
    ensures e in ManifestOf(f, c).entries && e.path == ObjectPath(d) && e.role == ObjectRole && e.digest == d
  {
    EveryFileIsListed(f, ObjectPath(d));
    assert HasEntry(f.entries, ObjectPath(d));
    e :| e in f.entries && e.path == ObjectPath(d);
    assert EntryOk(f, e);
  }

  lemma IndexAgrees(f: Session, c: Completion, i: nat)
    requires Settled(f) && RecordsInv(f) && i < |f.attempts| && f.attempts[i].indexed
    ensures R.IndexOk(Published(f, c), FileOf(f.attempts[i], IndexFile)) <==> R.RecordsInOrder(f.attempts[i].records)
  {
    var a := f.attempts[i];
    assert NameOk(f, i, IndexFile) && AttemptRecordsOk(f, i);
    forall r | r in a.records ensures R.RecordOk(ManifestOf(f, c), r) {
      assert r in f.records && ShapeOk(f.objects, r);
      if r.disposition.Stored? { var e := ObjectIsListed(f, c, r.digest.value); }
    }
    assert R.RecordsDistinct(a.records) by {
      forall j, k | 0 <= j < k < |a.records| ensures a.records[j].logical != a.records[k].logical {
        assert a.records[j] in a.records && a.records[k] in a.records;
      }
    }
  }

  lemma IndexIsListed(f: Session, c: Completion, i: nat) returns (e: Entry)
    requires Settled(f) && i < |f.attempts| && f.attempts[i].indexed
    ensures e in ManifestOf(f, c).entries && e.role == IndexRole && e.path == FileOf(f.attempts[i], IndexFile)
    ensures e.path in f.files && f.files[e.path] == IndexDoc(KeyAt(f, i), f.attempts[i].records)
  {
    ListsWhatThereIs(f, c, i, IndexFile);
    assert NameOk(f, i, IndexFile);
    assert R.Lists(ManifestOf(f, c), FileOf(f.attempts[i], IndexFile));
    e :| e in f.entries && e.path == FileOf(f.attempts[i], IndexFile);
    EntryNamesAttempt(f, e, i, IndexFile);
  }

  lemma IndexEntryIsOf(f: Session, e: Entry) returns (i: nat)
    requires Settled(f) && e in f.entries && e.role == IndexRole
    ensures i < |f.attempts| && e.path == FileOf(f.attempts[i], IndexFile) && f.attempts[i].indexed
  {
    assert EntryOk(f, e) && Planned(f, e.key.value);
    i :| 0 <= i < |f.attempts| && KeyAt(f, i) == e.key.value;
    assert NameOk(f, i, IndexFile);
  }

  lemma ObjectIsReferenced(f: Session, c: Completion, d: Digest)
    requires Settled(f) && RecordsInv(f) && d in f.objects
    requires forall i {:trigger f.attempts[i]} | 0 <= i < |f.attempts| :: f.attempts[i].indexed == NeedsIndex(f.attempts[i])
    ensures R.Referenced(Published(f, c), d)
  {
    var r :| r in f.records && References(r, d);
    assert RecordFound(f, r);
    var i :| 0 <= i < |f.attempts| && r in f.attempts[i].records;
    var e := IndexIsListed(f, c, i);
  }

  /** The artifacts are accepted exactly when those of every attempt were recorded in path order. */
  lemma ArtifactsAgree(f: Session, c: Completion)
    requires Settled(f) && RecordsInv(f)
    requires forall i {:trigger f.attempts[i]} | 0 <= i < |f.attempts| :: f.attempts[i].indexed == NeedsIndex(f.attempts[i])
    ensures R.ArtifactsOk(Published(f, c)) <==> forall i | 0 <= i < |f.attempts| :: R.RecordsInOrder(f.attempts[i].records)
  {
    var b := Published(f, c);
    forall e | e in b.manifest.entries && e.role == ObjectRole ensures R.Referenced(b, e.digest) {
      assert EntryOk(f, e) && PathOk(f, e.path);
      ObjectIsReferenced(f, c, e.digest);
    }
    if forall i | 0 <= i < |f.attempts| :: R.RecordsInOrder(f.attempts[i].records) {
      forall e | e in b.manifest.entries && e.role == IndexRole ensures R.IndexOk(b, e.path) {
        var i := IndexEntryIsOf(f, e);
        IndexAgrees(f, c, i);
      }
    }
    if R.ArtifactsOk(b) {
      forall i | 0 <= i < |f.attempts| ensures R.RecordsInOrder(f.attempts[i].records) {
        if f.attempts[i].indexed {
          var e := IndexIsListed(f, c, i);
          IndexAgrees(f, c, i);
        }
      }
    }
  }

  // ---------------------------------------------------------------- events

  /** The events of a complete execution begin and end with the boundary events of their scenario, and
      complete evidence has events for every attempt. */
  ghost predicate EventsAccepted(s: Session, i: nat, c: Completion)
    requires i < |s.attempts|
  {
    (c.complete ==> R.Bounded(EventsOf(s, i))) && (EvidenceComplete(s, c) ==> Has(s.attempts[i], EventsFile))
  }

  /** The last sequence number a reader has seen after `n` attempts. */
  function Seen(s: Session, n: nat): nat
    requires n <= |s.attempts|
  {
    if n == 0 then 0 else if Has(s.attempts[n - 1], EventsFile) then s.attempts[n - 1].last else Seen(s, n - 1)
  }

  lemma {:induction false} SeenIsOffset(s: Session, n: nat)
    requires EventsInv(s) && n <= |s.attempts|
    requires forall i {:trigger s.attempts[i]} | 0 <= i < n && Has(s.attempts[i], EventsFile) :: s.attempts[i].count > 0
    ensures Seen(s, n) == Offset(s.attempts, n)
  {
    if n > 0 {
      SeenIsOffset(s, n - 1);
      assert RangeOk(s, n - 1);
    }
  }

  /** Before an attempt with a file, no attempt has an empty one. */
  lemma SeenBeforeFile(s: Session, i: nat)
    requires EventsInv(s) && i < |s.attempts| && Has(s.attempts[i], EventsFile)
    ensures Seen(s, i) == Offset(s.attempts, i)
  {
    forall k | 0 <= k < i && Has(s.attempts[k], EventsFile) ensures s.attempts[k].count > 0 { assert RangeOk(s, i); }
    SeenIsOffset(s, i);
  }

  lemma ParsesOwnRange(s: Session, i: nat, complete: bool)
    requires i < |s.attempts| && RangeOk(s, i)
    ensures var a := s.attempts[i];
            R.ParseEvents(EventsOf(s, i), KeyAt(s, i), PlanDigest(s), s.plan.run, complete, Offset(s.attempts, i))
            == if complete && !R.Bounded(EventsOf(s, i)) then None else Some(R.Range(a.count, a.first, a.last))
  {
    assert R.LinesOk(EventsOf(s, i), KeyAt(s, i), PlanDigest(s), s.plan.run, Offset(s.attempts, i));
  }

  /** What the reader finds of attempt `i` in the committed bundle. */
  ghost predicate Finds(s: Session, b: Bundle, i: nat, c: Completion)
    requires i < |s.attempts|
  {
    var a, k, m := s.attempts[i], R.AttemptAt(b.manifest.attempts, KeyAt(s, i)), b.manifest;
    && k < |m.attempts| && m.attempts[k].count == a.count && m.attempts[k].first == a.first && m.attempts[k].last == a.last
    && R.HasFile(m, EventsRole, KeyAt(s, i)) == Has(a, EventsFile) && R.EventsAt(b, KeyAt(s, i)) == EventsOf(s, i)
    && (Has(a, EventsFile) ==> R.EventsReadable(b, KeyAt(s, i)))
    && m.plan == PlanDigest(s) && m.run == s.plan.run && m.executionComplete == c.complete && m.evidenceComplete == EvidenceComplete(s, c)
  }

  lemma EventFileIsReadable(f: Session, c: Completion, i: nat)
    requires Settled(f) && i < |f.attempts|
    ensures R.EventsReadable(Published(f, c), KeyAt(f, i)) == Has(f.attempts[i], EventsFile)
    ensures R.EventsAt(Published(f, c), KeyAt(f, i)) == EventsOf(f, i)
  {
    assert NameOk(f, i, EventsFile);
  }

  lemma ReaderFinds(lim: Limits, s: Session, f: Session, c: Completion, i: nat)
    requires Final(lim, s, f, c) && s.stray == {} && i < |f.attempts|
    ensures Finds(s, Published(f, c), i, c) && Expand(f.plan)[i].key == KeyAt(s, i)
  {
    FinalIsClosed(lim, s, f, c);
    assert Expand(f.plan)[i] == f.attempts[i].planned;
    assert FinalFrom(s.attempts[i], f.attempts[i], c.attempts) && KeyAt(f, i) == KeyAt(s, i);
    assert Published(f, c).manifest.attempts[i] == AttemptEntryOf(f.attempts[i]);
    AttemptAtIs(f, c, i);
    HasFileWhenThere(f, c, i, EventsFile);
    EventFileIsReadable(f, c, i);
    assert EventsOf(f, i) == EventsOf(s, i);
  }

  lemma ReadsAttempt(s: Session, b: Bundle, c: Completion, i: nat)
    requires EventsInv(s) && i < |s.attempts| && Finds(s, b, i, c)
    ensures R.ReadAttempt(b, KeyAt(s, i), Seen(s, i), Offset(s.attempts, i))
            == if EventsAccepted(s, i, c) then Some((Seen(s, i + 1), Offset(s.attempts, i + 1))) else None
  {
    assert RangeOk(s, i);
    if Has(s.attempts[i], EventsFile) {
      SeenBeforeFile(s, i);
      ParsesOwnRange(s, i, c.complete);
    }
  }

  ghost predicate AllAccepted(s: Session, n: nat, c: Completion) {
    forall i {:trigger EventsAccepted(s, i, c)} | 0 <= i < n && i < |s.attempts| :: EventsAccepted(s, i, c)
  }

  ghost predicate FindsAll(s: Session, b: Bundle, expected: seq<PlannedAttempt>, c: Completion) {
    |expected| == |s.attempts|
    && forall i {:trigger Finds(s, b, i, c)} | 0 <= i < |s.attempts| :: Finds(s, b, i, c) && expected[i].key == KeyAt(s, i)
  }

  lemma AcceptedOneMore(s: Session, i: nat, c: Completion)
    requires i < |s.attempts|
    ensures AllAccepted(s, i + 1, c) <==> AllAccepted(s, i, c) && EventsAccepted(s, i, c)
  {
  }

  /** What the reader has after one attempt more, given what it had and what it makes of the attempt. */
  lemma ReadsOneMore(b: Bundle, expected: seq<PlannedAttempt>, i: nat, before: Option<(nat, nat)>)
    requires i < |expected| && R.ReadEvents(b, expected, i) == before
    ensures R.ReadEvents(b, expected, i + 1)
         == if before.None? then None else R.ReadAttempt(b, expected[i].key, before.value.0, before.value.1)
  {
  }

  lemma {:induction false} ReadsEvents(s: Session, b: Bundle, expected: seq<PlannedAttempt>, c: Completion, n: nat)
    requires EventsInv(s) && FindsAll(s, b, expected, c) && n <= |s.attempts|
    ensures R.ReadEvents(b, expected, n) == if AllAccepted(s, n, c) then Some((Seen(s, n), Offset(s.attempts, n))) else None
  {
    if n > 0 {
      var i := n - 1;
      ReadsEvents(s, b, expected, c, i);
      assert Finds(s, b, i, c);
      ReadsAttempt(s, b, c, i);
      AcceptedOneMore(s, i, c);
      ReadsOneMore(b, expected, i, R.ReadEvents(b, expected, i));
    }
  }

  lemma ReaderFindsAll(lim: Limits, s: Session, f: Session, c: Completion)
    requires Final(lim, s, f, c) && s.stray == {}
    ensures FindsAll(s, Published(f, c), Expand(f.plan), c)
  {
    forall i | 0 <= i < |s.attempts| ensures Finds(s, Published(f, c), i, c) && Expand(f.plan)[i].key == KeyAt(s, i) {
      ReaderFinds(lim, s, f, c, i);
    }
  }

  /** What the walk visits of one attempt is what was emitted for it; without a file that is nothing. */
  lemma WalksAttempt(s: Session, b: Bundle, expected: seq<PlannedAttempt>, c: Completion, i: nat)
    requires i < |s.attempts| && i < |expected| && RangeOk(s, i) && Finds(s, b, i, c) && expected[i].key == KeyAt(s, i)
    ensures R.Walk(b, expected, i + 1) == R.Walk(b, expected, i) + EventsOf(s, i)
  {
    WalksOneMore(b, expected, i);
  }

  lemma WalksOneMore(b: Bundle, expected: seq<PlannedAttempt>, i: nat)
    requires i < |expected|
    ensures R.Walk(b, expected, i + 1) == R.Walk(b, expected, i)
                                          + if R.HasFile(b.manifest, EventsRole, expected[i].key) then R.EventsAt(b, expected[i].key) else []
  {
  }

  ghost predicate WalksOn(s: Session, b: Bundle, expected: seq<PlannedAttempt>, i: nat)
    requires i < |s.attempts| && i < |expected|
  {
    R.Walk(b, expected, i + 1) == R.Walk(b, expected, i) + EventsOf(s, i)
  }

  lemma EveryAttemptIsWalked(s: Session, b: Bundle, expected: seq<PlannedAttempt>, c: Completion)
    requires EventsInv(s) && FindsAll(s, b, expected, c)
    ensures forall i {:trigger WalksOn(s, b, expected, i)} | 0 <= i < |s.attempts| :: WalksOn(s, b, expected, i)
  {
    forall i | 0 <= i < |s.attempts| ensures WalksOn(s, b, expected, i) {
      assert Finds(s, b, i, c) && RangeOk(s, i);
      WalksAttempt(s, b, expected, c, i);
    }
  }

  lemma {:induction false} WalkAddsUp(s: Session, b: Bundle, expected: seq<PlannedAttempt>, n: nat)
    requires n <= |s.attempts| == |expected|
    requires forall i {:trigger WalksOn(s, b, expected, i)} | 0 <= i < |s.attempts| :: WalksOn(s, b, expected, i)
    ensures R.Walk(b, expected, n) == AllEvents(s, n)
  {
    if n > 0 {
      WalkAddsUp(s, b, expected, n - 1);
      assert WalksOn(s, b, expected, n - 1);
      AllEventsOneMore(s, n - 1);
    }
  }

  /** What a walk over the committed bundle visits is what was emitted. */
  lemma WalkVisitsEvents(s: Session, b: Bundle, expected: seq<PlannedAttempt>, c: Completion, n: nat)
    requires EventsInv(s) && FindsAll(s, b, expected, c) && n <= |s.attempts|
    ensures R.Walk(b, expected, n) == AllEvents(s, n)
  {
    EveryAttemptIsWalked(s, b, expected, c);
    WalkAddsUp(s, b, expected, n);
  }

  lemma AllEventsOneMore(s: Session, i: nat)
    requires i < |s.attempts|
    ensures AllEvents(s, i + 1) == AllEvents(s, i) + EventsOf(s, i)
  {
  }

  // ---------------------------------------------------------------- completion

  lemma CapturesAgree(lim: Limits, s: Session, f: Session, c: Completion, i: nat)
    requires Final(lim, s, f, c) && s.stray == {} && RecordsInv(s) && i < |f.attempts|
    ensures R.CapturesOk(ManifestOf(f, c), AttemptEntryOf(f.attempts[i]))
  {
    FinalIsClosed(lim, s, f, c);
    assert FinalFrom(s.attempts[i], f.attempts[i], c.attempts) && AttemptRecordsOk(s, i) && AttemptLogsOk(lim, f, i);
    HasFileWhenThere(f, c, i, EventsFile);
    HasFileWhenThere(f, c, i, LogFile(Stdout));
    HasFileWhenThere(f, c, i, LogFile(Stderr));
    ListsWhatThereIs(f, c, i, IndexFile);
    ListsWhatThereIs(f, c, i, ResultFile);
  }

  lemma NothingIsMissing(lim: Limits, s: Session, f: Session, c: Completion, i: nat)
    requires Final(lim, s, f, c) && RecordsInv(s) && EventsInv(s) && i < |f.attempts| && EvidenceComplete(s, c)
    ensures R.NothingMissing(AttemptEntryOf(f.attempts[i]))
  {
    assert FinalFrom(s.attempts[i], f.attempts[i], c.attempts) && AttemptRecordsOk(s, i) && AttemptLogsOk(lim, f, i) && RangeOk(s, i);
  }

  lemma {:induction false} DistinctCount(records: seq<Record>)
    requires Distinct(records)
    ensures |(set r | r in records)| == |records|
  {
    if records != [] {
      var init, last := records[..|records| - 1], records[|records| - 1];
      DistinctCount(init);
      assert last !in init;
      assert (set r | r in records) == (set r | r in init) + {last};
    }
  }

  lemma IndexedAreRecorded(f: Session, c: Completion)
    requires Settled(f) && RecordsInv(f)
    requires forall i {:trigger f.attempts[i]} | 0 <= i < |f.attempts| :: f.attempts[i].indexed == NeedsIndex(f.attempts[i])
    ensures R.IndexedRecords(Published(f, c)) == set r | r in f.records
  {
    var b := Published(f, c);
    forall r | r in f.records ensures r in R.IndexedRecords(b) {
      assert RecordFound(f, r);
      var i :| 0 <= i < |f.attempts| && r in f.attempts[i].records;
      var e := IndexIsListed(f, c, i);
      var k :| 0 <= k < |b.manifest.entries| && b.manifest.entries[k] == e;
      assert r in b.files[b.manifest.entries[k].path].records;
    }
    forall r | r in R.IndexedRecords(b) ensures r in f.records {
      var k :| 0 <= k < |b.manifest.entries| && b.manifest.entries[k].role == IndexRole && b.manifest.entries[k].path in b.files
               && b.files[b.manifest.entries[k].path].IndexDoc? && r in b.files[b.manifest.entries[k].path].records;
      var i := IndexEntryIsOf(f, b.manifest.entries[k]);
      assert NameOk(f, i, IndexFile) && AttemptRecordsOk(f, i);
    }
  }

  lemma CompletionAgrees(lim: Limits, s: Session, f: Session, c: Completion)
    requires Final(lim, s, f, c) && s.stray == {} && RecordsInv(s) && EventsInv(s)
    requires (!c.incomplete ==> EvidenceComplete(f, c)) && (c.incomplete ==> c.failure.Some?)
    ensures R.CompletionOk(Published(f, c), ExecutionOf(s, c))
  {
    var b := Published(f, c);
    FinalIsClosed(lim, s, f, c);
    FinalRecords(lim, s, f, c);
    IndexedAreRecorded(f, c);
    DistinctCount(f.records);
    forall a | a in b.manifest.attempts
      ensures R.CapturesOk(b.manifest, a) && (b.manifest.evidenceComplete ==> R.NothingMissing(a))
    {
      var i :| 0 <= i < |b.manifest.attempts| && b.manifest.attempts[i] == a;
      assert a == AttemptEntryOf(f.attempts[i]);
      CapturesAgree(lim, s, f, c, i);
      if EvidenceComplete(s, c) { NothingIsMissing(lim, s, f, c, i); }
    }
  }

  // ---------------------------------------------------------------- the theorem

  /** The session and its completion are such that the bundle will be accepted: a caller can tell before
      it commits. No call left a file that it could not list; every attempt leaves some file; artifacts were
      recorded in path order; the execution names a proper runner, and reports attempts in plan order and
      the number of emitted events; and events are complete. */
  ghost predicate Truthful(s: Session, c: Completion) {
    && s.stray == {} && R.RunnerOk(c.runner)
    && (forall i {:trigger LeavesFile(s, i, c)} | 0 <= i < |s.attempts| :: LeavesFile(s, i, c))
    && (forall i {:trigger s.attempts[i]} | 0 <= i < |s.attempts| :: R.RecordsInOrder(s.attempts[i].records))
    && InPlanOrder(c.attempts, Expand(s.plan), c.complete) && c.total == s.totalEvents
    && AllAccepted(s, |s.attempts|, c)
  }

  predicate LeavesFile(s: Session, i: nat, c: Completion)
    requires i < |s.attempts|
  {
    var a := s.attempts[i];
    Has(a, EventsFile) || a.out.Some? || a.err.Some? || NeedsIndex(a) || ResultFor(c.attempts, a.planned.key).Some?
  }

  lemma AttemptLeavesFile(s: Session, f: Session, c: Completion, i: nat)
    requires i < |s.attempts| && i < |f.attempts| && FinalFrom(s.attempts[i], f.attempts[i], c.attempts)
    ensures HasSome(f.attempts[i]) <==> LeavesFile(s, i, c)
  {
    var b := f.attempts[i];
    assert Has(b, EventsFile) || Has(b, LogFile(Stdout)) || Has(b, LogFile(Stderr)) || Has(b, IndexFile) || Has(b, ResultFile)
           <==> LeavesFile(s, i, c);
    if HasSome(b) {
      var name :| Has(b, name);
      assert name.LogFile? ==> name == LogFile(Stdout) || name == LogFile(Stderr);
    }
  }

  lemma LayoutFollows(lim: Limits, s: Session, f: Session, c: Completion)
    requires Final(lim, s, f, c)
    ensures R.LayoutOk(Published(f, c)) <==>
              s.stray == {} && forall i {:trigger LeavesFile(s, i, c)} | 0 <= i < |s.attempts| :: LeavesFile(s, i, c)
  {
    FinalIsClosed(lim, s, f, c);
    LayoutAgrees(f, c);
    forall i | 0 <= i < |s.attempts| ensures HasSome(f.attempts[i]) <==> LeavesFile(s, i, c) {
      assert FinalFrom(s.attempts[i], f.attempts[i], c.attempts);
      AttemptLeavesFile(s, f, c, i);
    }
  }

  lemma ArtifactsFollow(lim: Limits, s: Session, f: Session, c: Completion)
    requires Final(lim, s, f, c) && s.stray == {} && RecordsInv(s)
    ensures R.ArtifactsOk(Published(f, c)) <==> forall i {:trigger s.attempts[i]} | 0 <= i < |s.attempts| :: R.RecordsInOrder(s.attempts[i].records)
  {
    FinalIsClosed(lim, s, f, c);
    FinalRecords(lim, s, f, c);
    ArtifactsAgree(f, c);
    forall i | 0 <= i < |s.attempts| ensures f.attempts[i].records == s.attempts[i].records {
      assert FinalFrom(s.attempts[i], f.attempts[i], c.attempts);
    }
  }

  lemma EventsFollow(lim: Limits, s: Session, f: Session, c: Completion)
    requires Final(lim, s, f, c) && s.stray == {} && EventsInv(s)
    ensures R.EventsOk(Published(f, c), Expand(f.plan), c.total) <==> AllAccepted(s, |s.attempts|, c) && c.total == s.totalEvents
  {
    ReaderFindsAll(lim, s, f, c);
    ReadsEvents(s, Published(f, c), Expand(f.plan), c, |s.attempts|);
  }

  lemma VerdictOn(lim: Limits, s: Session, f: Session, c: Completion)
    requires SessionInv(lim, s) && Admissible(lim, s.plan) && Final(lim, s, f, c) && ResultsDistinct(c.attempts)
    requires (!c.incomplete ==> EvidenceComplete(f, c)) && (c.incomplete ==> c.failure.Some?)
    ensures R.Accepts(Published(f, c), lim.maxAttempts) <==> Truthful(s, c)
  {
    LayoutFollows(lim, s, f, c);
    if s.stray == {} {
      ListedVerdict(lim, s, f, c);
    }
  }

  lemma ListedVerdict(lim: Limits, s: Session, f: Session, c: Completion)
    requires SessionInv(lim, s) && Admissible(lim, s.plan) && Final(lim, s, f, c) && s.stray == {} && ResultsDistinct(c.attempts)
    requires (!c.incomplete ==> EvidenceComplete(f, c)) && (c.incomplete ==> c.failure.Some?)
    ensures R.Accepts(Published(f, c), lim.maxAttempts) <==> Truthful(s, c)
  {
    FinalIsClosed(lim, s, f, c);
    ManifestIsOk(lim, f, c);
    PayloadsAreOk(f, c);
    PlanIsOk(lim, f, c);
    LayoutFollows(lim, s, f, c);
    ExecutionAgrees(lim, s, f, c);
    ArtifactsFollow(lim, s, f, c);
    EventsFollow(lim, s, f, c);
    CompletionAgrees(lim, s, f, c);
    assert PathOk(f, PlanPath);
  }

  lemma CommittedIsFinal(lim: Limits, s: Session, c: Completion, room: bool)
    requires SessionInv(lim, s) && Commit(s, c, room).1.Some?
    ensures var f := WriteAll(s, c).0;
            && Commit(s, c, room).1.value == Published(f, c) && Final(lim, s, f, c) && ResultsDistinct(c.attempts)
            && (!c.incomplete ==> EvidenceComplete(f, c)) && (c.incomplete ==> c.failure.Some?)
  {
    WriteAllWorks(lim, s, c);
  }

  /** Writer-reader agreement. Whatever calls a session has had, and whether it is committed as complete
      or as incomplete: if the commit succeeds, the reader accepts the bundle exactly when no file was kept
      from being listed, the artifacts of every attempt were recorded in path order and the completion is
      truthful. */
  lemma ReaderAgreesWithWriter(lim: Limits, plan: Plan, calls: seq<Call>, c: Completion, room: bool)
    requires Admissible(lim, plan) && Commit(After(lim, plan, calls), c, room).1.Some?
    ensures R.Accepts(Commit(After(lim, plan, calls), c, room).1.value, lim.maxAttempts) <==> Truthful(After(lim, plan, calls), c)
  {
    var s := After(lim, plan, calls);
    SessionsAreSound(lim, plan, calls);
    CommittedIsFinal(lim, s, c, room);
    VerdictOn(lim, s, WriteAll(s, c).0, c);
  }

  /** Event round trip: a walk over a committed bundle in plan order visits exactly the emitted events, in
      the order of emission, if no file was kept from being listed; in an accepted bundle none was. */
  lemma WalkGivesBackTheEvents(lim: Limits, plan: Plan, calls: seq<Call>, c: Completion, room: bool)
    requires Admissible(lim, plan) && Commit(After(lim, plan, calls), c, room).1.Some? && After(lim, plan, calls).stray == {}
    ensures var b := Commit(After(lim, plan, calls), c, room).1.value;
            R.Walk(b, Expand(plan), |Expand(plan)|) == Emitted(lim, plan, calls)
  {
    var s := After(lim, plan, calls);
    SessionsAreSound(lim, plan, calls);
    CommittedIsFinal(lim, s, c, room);
    ReaderFindsAll(lim, s, WriteAll(s, c).0, c);
    WalkVisitsEvents(s, Published(WriteAll(s, c).0, c), Expand(plan), c, |s.attempts|);
  }
}

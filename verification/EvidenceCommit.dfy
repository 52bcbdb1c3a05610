/** What a successful commit leaves behind: all files closed and listed, with an index where artifacts
    were looked for and a result where the execution reports one. */
module EvidenceCommit {
  import opened Options
  import opened EvidenceModel
  import opened EvidenceSession
  import opened EvidenceFiles
  import opened EvidenceEvents
  import opened EvidenceRecords
  import opened EvidenceRuns

  // ---------------------------------------------------------------- closing and indexing

  /** The attempt has been closed; what it has captured is as it was. */
  ghost predicate ClosedFrom(a: Attempt, b: Attempt) {
    && b.planned == a.planned && b.count == a.count && b.first == a.first && b.last == a.last && b.records == a.records
    && b.artifacts == a.artifacts && b.result == a.result
    && !b.eventsOpen && Has(b, EventsFile) == Has(a, EventsFile)
    && (b.events == a.events || b.events.Captured? || b.events.CapturedEmpty?)
    && LogClosedFrom(a.out, b.out) && LogClosedFrom(a.err, b.err)
    && b.indexed == NeedsIndex(a)
  }

  predicate LogClosedFrom(a: Option<Log>, b: Option<Log>) {
    a.Some? == b.Some? && (a.Some? ==> b.value == a.value.(closed := true))
  }

  /** Nothing but the attempts, the files and the entries has changed. */
  predicate SameRecordKeeping(s: Session, t: Session) {
    |t.attempts| == |s.attempts| && t == s.(attempts := t.attempts, files := t.files, entries := t.entries, payloads := t.payloads)
  }

  ghost predicate SameEventFiles(s: Session, t: Session) {
    |t.attempts| == |s.attempts| && forall i {:trigger EventsOf(t, i)} | 0 <= i < |s.attempts| :: EventsOf(t, i) == EventsOf(s, i)
  }

  /** The first `n` attempts have been finalized. */
  ghost predicate FinalizedTo(lim: Limits, s: Session, t: Session, n: nat) {
    && SameRecordKeeping(s, t) && SameEventFiles(s, t) && FilesOk(t) && LogsInv(lim, t)
    && forall i {:trigger t.attempts[i]} | 0 <= i < |s.attempts| ::
         if i < n then ClosedFrom(s.attempts[i], t.attempts[i]) else t.attempts[i] == s.attempts[i]
  }

  /** Where there is room for every entry, closing a file leaves the record keeping as it is. */
  lemma ClosingEvents(s: Session, i: nat)
    requires i < |s.attempts|
    ensures var t := CloseEvents(s, i, true).0; var a, b := s.attempts[i], t.attempts[i];
            && SameRecordKeeping(s, t) && t.files == s.files && t.attempts == s.attempts[i := b]
            && b == a.(eventsOpen := false, events := b.events) && (a.events == b.events || b.events.Captured? || b.events.CapturedEmpty?)
            && (!a.eventsOpen ==> b == a) && (a.eventsOpen ==> !b.events.NotProvided?)
  {
    CloseEventsIs(s, i, true);
  }

  lemma ClosingLog(s: Session, i: nat, stream: Stream)
    requires i < |s.attempts|
    ensures var t := CloseLog(s, i, stream, true).0; var a, b := s.attempts[i], t.attempts[i];
            && SameRecordKeeping(s, t) && t.files == s.files && t.attempts == s.attempts[i := b]
            && LogClosedFrom(LogAt(a, stream), LogAt(b, stream))
            && b == (if stream.Stdout? then a.(out := b.out, stdout := b.stdout) else a.(err := b.err, stderr := b.stderr))
  {
    CloseLogIs(s, i, stream, true);
  }

  lemma WriteIndexIs(s: Session, i: nat)
    requires i < |s.attempts| && WriteIndex(s, i).1
    ensures var t := WriteIndex(s, i).0; var a := s.attempts[i];
            && SameRecordKeeping(s, t) && t.attempts == s.attempts[i := a.(indexed := true)]
            && t.files == s.files[FileOf(a, IndexFile) := IndexDoc(a.planned.key, a.records)]
  {
  }

  ghost predicate Closable(s: Session, i: nat)
    requires i < |s.attempts|
  {
    FilesOk(s) && !s.attempts[i].indexed && (s.attempts[i].eventsOpen ==> Has(s.attempts[i], EventsFile))
  }

  lemma EventFilesDepend(s: Session, t: Session, i: nat)
    requires i < |s.attempts| && |t.attempts| == |s.attempts| && t.files == s.files
    requires t.attempts == s.attempts[i := t.attempts[i]] && t.attempts[i].planned == s.attempts[i].planned
    ensures SameEventFiles(s, t)
  {
  }

  /** Closing an attempt's files works out, and changes nothing else. */
  lemma CloseAttempt(lim: Limits, s: Session, i: nat)
    requires i < |s.attempts| && Closable(s, i) && LogsInv(lim, s)
    ensures CloseEvents(s, i, true).1
    ensures var s1 := CloseEvents(s, i, true).0; CloseLog(s1, i, Stdout, true).1
    ensures var s1 := CloseEvents(s, i, true).0; var s2 := CloseLog(s1, i, Stdout, true).0; CloseLog(s2, i, Stderr, true).1
    ensures var s1 := CloseEvents(s, i, true).0; var s2 := CloseLog(s1, i, Stdout, true).0; var s3 := CloseLog(s2, i, Stderr, true).0;
            && FilesOk(s3) && LogsInv(lim, s3) && SameRecordKeeping(s, s3) && s3.files == s.files
            && s3.attempts == s.attempts[i := s3.attempts[i]]
            && ClosedFrom(s.attempts[i], s3.attempts[i].(indexed := NeedsIndex(s.attempts[i]))) && !s3.attempts[i].indexed
  {
    var s1 := CloseEvents(s, i, true).0;
    var s2 := CloseLog(s1, i, Stdout, true).0;
    ClosingEvents(s, i);
    ClosingLog(s1, i, Stdout);
    ClosingLog(s2, i, Stderr);
    CloseEventsKeepsFiles(s, i, true);
    CloseLogKeepsFiles(s1, i, Stdout, true);
    CloseLogKeepsFiles(s2, i, Stderr, true);
    ClosingEventsKeepsLogs(lim, s, s1, i);
    CloseLogKeepsLogs(lim, s1, i, Stdout, true);
    CloseLogKeepsLogs(lim, s2, i, Stderr, true);
  }

  lemma ClosingEventsKeepsLogs(lim: Limits, s: Session, t: Session, i: nat)
    requires LogsInv(lim, s) && i < |s.attempts| && SameRecordKeeping(s, t) && t.attempts == s.attempts[i := t.attempts[i]]
    requires SameLogs(s.attempts[i], t.attempts[i])
    ensures LogsInv(lim, t)
  {
    LeavingKeepsLogs(lim, s, t);
  }

  /** Attempt `i` has been closed and, if need be, indexed. */
  ghost predicate FinalizesOne(lim: Limits, s: Session, t: Session, i: nat)
    requires i < |s.attempts|
  {
    && FilesOk(t) && LogsInv(lim, t) && SameRecordKeeping(s, t) && SameEventFiles(s, t)
    && t.attempts == s.attempts[i := t.attempts[i]] && ClosedFrom(s.attempts[i], t.attempts[i])
  }

  lemma FinalizeAttemptWorks(lim: Limits, s: Session, i: nat)
    requires i < |s.attempts| && Closable(s, i) && LogsInv(lim, s)
    ensures FinalizeAttempt(s, i).1 && FinalizesOne(lim, s, FinalizeAttempt(s, i).0, i)
  {
    CloseAttempt(lim, s, i);
    var s1 := CloseEvents(s, i, true).0;
    var s2 := CloseLog(s1, i, Stdout, true).0;
    var s3 := CloseLog(s2, i, Stderr, true).0;
    EventFilesDepend(s, s3, i);
    IndexIfNeeded(lim, s, s3, i);
  }

  lemma IndexIfNeeded(lim: Limits, s: Session, s3: Session, i: nat)
    requires i < |s.attempts| && FilesOk(s3) && LogsInv(lim, s3) && SameRecordKeeping(s, s3) && SameEventFiles(s, s3)
    requires s3.attempts == s.attempts[i := s3.attempts[i]] && !s3.attempts[i].indexed
    requires ClosedFrom(s.attempts[i], s3.attempts[i].(indexed := NeedsIndex(s.attempts[i])))
    ensures if NeedsIndex(s3.attempts[i]) then WriteIndex(s3, i).1 && FinalizesOne(lim, s, WriteIndex(s3, i).0, i)
            else FinalizesOne(lim, s, s3, i)
  {
    if NeedsIndex(s3.attempts[i]) {
      WriteIndexKeepsFiles(s3, i);
      IndexingWorks(lim, s3, i);
      var t := WriteIndex(s3, i).0;
      forall k | 0 <= k < |s.attempts| ensures EventsOf(t, k) == EventsOf(s, k) { assert EventsOf(t, k) == EventsOf(s3, k) == EventsOf(s, k); }
    }
  }

  lemma IndexingWorks(lim: Limits, s: Session, i: nat)
    requires i < |s.attempts| && WriteIndex(s, i).1 && LogsInv(lim, s)
    ensures var t := WriteIndex(s, i).0;
            && LogsInv(lim, t) && SameRecordKeeping(s, t) && SameEventFiles(s, t)
            && t.attempts == s.attempts[i := s.attempts[i].(indexed := true)]
  {
    WriteIndexIs(s, i);
    LeavingKeepsLogs(lim, s, WriteIndex(s, i).0);
  }

  /** Every attempt can be closed. */
  ghost predicate AllClosable(s: Session) {
    forall i {:trigger s.attempts[i]} | 0 <= i < |s.attempts| ::
      !s.attempts[i].indexed && (s.attempts[i].eventsOpen ==> Has(s.attempts[i], EventsFile))
  }

  lemma SessionsCanClose(s: Session)
    requires EventsInv(s) && Unfinished(s)
    ensures AllClosable(s)
  {
    forall i | 0 <= i < |s.attempts| ensures s.attempts[i].eventsOpen ==> Has(s.attempts[i], EventsFile) { assert RangeOk(s, i); }
  }

  /** Finalizing never fails. */
  lemma FinalizeWorks(lim: Limits, s: Session) returns (t: Session)
    requires FilesOk(s) && LogsInv(lim, s) && AllClosable(s)
    ensures Finalize(s, |s.attempts|) == (t, true) && FinalizedTo(lim, s, t, |s.attempts|)
  {
    t := s;
    NothingFinalized(lim, s);
    for n := 0 to |s.attempts|
      invariant Finalize(s, n) == (t, true) && FinalizedTo(lim, s, t, n)
    {
      t := NextCloses(lim, s, t, n);
    }
  }

  lemma NothingFinalized(lim: Limits, s: Session)
    requires FilesOk(s) && LogsInv(lim, s)
    ensures FinalizedTo(lim, s, s, 0)
  {
  }

  lemma NextCloses(lim: Limits, s: Session, before: Session, n: nat) returns (t: Session)
    requires n < |s.attempts| && AllClosable(s) && Finalize(s, n) == (before, true) && FinalizedTo(lim, s, before, n)
    ensures Finalize(s, n + 1) == (t, true) && FinalizedTo(lim, s, t, n + 1)
  {
    assert before.attempts[n] == s.attempts[n];
    FinalizeAttemptWorks(lim, before, n);
    t := FinalizeAttempt(before, n).0;
    FinalizedFurther(lim, s, before, t, n);
  }

  lemma FinalizedFurther(lim: Limits, s: Session, t: Session, u: Session, n: nat)
    requires n < |s.attempts| && FinalizedTo(lim, s, t, n)
    requires FilesOk(u) && LogsInv(lim, u) && SameRecordKeeping(t, u) && SameEventFiles(t, u)
    requires u.attempts == t.attempts[n := u.attempts[n]] && ClosedFrom(t.attempts[n], u.attempts[n])
    ensures FinalizedTo(lim, s, u, n + 1)
  {
    forall i | 0 <= i < |s.attempts| ensures EventsOf(u, i) == EventsOf(s, i) { assert EventsOf(t, i) == EventsOf(s, i); }
    forall i | 0 <= i < |s.attempts|
      ensures if i < n + 1 then ClosedFrom(s.attempts[i], u.attempts[i]) else u.attempts[i] == s.attempts[i]
    {
      assert t.attempts[n] == s.attempts[n] && t.attempts[i] == t.attempts[i];
    }
  }

  // ---------------------------------------------------------------- results

  /** The attempt's result has been written, if there is one. */
  predicate ResultedFrom(a: Attempt, b: Attempt, results: seq<AttemptResult>) {
    b == a.(result := if ResultFor(results, a.planned.key).Some? then Captured else a.result)
  }

  ghost predicate ResultStored(t: Session, i: nat, results: seq<AttemptResult>)
    requires i < |t.attempts|
  {
    var r, p := ResultFor(results, KeyAt(t, i)), FileOf(t.attempts[i], ResultFile);
    r.Some? ==> p in t.files && t.files[p] == ResultDoc(r.value)
  }

  ghost predicate ResultedTo(lim: Limits, s: Session, t: Session, n: nat, results: seq<AttemptResult>) {
    && SameRecordKeeping(s, t) && SameEventFiles(s, t) && FilesOk(t) && LogsInv(lim, t)
    && (forall i {:trigger t.attempts[i]} | 0 <= i < |s.attempts| ::
          if i < n then ResultedFrom(s.attempts[i], t.attempts[i], results) else t.attempts[i] == s.attempts[i])
    && (forall i: nat {:trigger ResultStored(t, i, results)} | i < n && i < |s.attempts| :: ResultStored(t, i, results))
  }

  ghost predicate WritesResult(s: Session, t: Session, i: nat, results: seq<AttemptResult>)
    requires i < |s.attempts|
  {
    && SameRecordKeeping(s, t) && t.attempts == s.attempts[i := t.attempts[i]] && ResultedFrom(s.attempts[i], t.attempts[i], results)
    && (forall p | p != FileOf(s.attempts[i], ResultFile) && p in s.files :: p in t.files && t.files[p] == s.files[p])
    && (forall p | p != FileOf(s.attempts[i], ResultFile) && p in t.files :: p in s.files)
    && ResultStored(t, i, results)
  }

  lemma WriteResultIs(s: Session, i: nat, results: seq<AttemptResult>)
    requires i < |s.attempts| && WriteResult(s, i, results).1
    ensures WritesResult(s, WriteResult(s, i, results).0, i, results)
  {
    if ResultFor(results, KeyAt(s, i)).None? { assert s.attempts[i := s.attempts[i]] == s.attempts; }
  }

  lemma ResultsStay(t: Session, u: Session, n: nat, results: seq<AttemptResult>)
    requires DirsApart(t) && n < |t.attempts| && WritesResult(t, u, n, results)
    requires forall i: nat {:trigger ResultStored(t, i, results)} | i < n :: ResultStored(t, i, results)
    ensures forall i: nat {:trigger ResultStored(u, i, results)} | i <= n :: ResultStored(u, i, results)
    ensures SameEventFiles(t, u)
  {
    forall i: nat | i <= n ensures ResultStored(u, i, results) {
      if i < n {
        assert ResultStored(t, i, results);
        assert DirOf(KeyAt(t, i)) != DirOf(KeyAt(t, n));
        assert KeyAt(u, i) == KeyAt(t, i);
      }
    }
  }

  lemma ResultedFurther(lim: Limits, s: Session, t: Session, u: Session, n: nat, results: seq<AttemptResult>)
    requires n < |s.attempts| && ResultedTo(lim, s, t, n, results) && WritesResult(t, u, n, results)
    requires FilesOk(u) && LogsInv(lim, u)
    ensures ResultedTo(lim, s, u, n + 1, results)
  {
    ResultsStay(t, u, n, results);
    forall i | 0 <= i < |s.attempts| ensures EventsOf(u, i) == EventsOf(s, i) { assert EventsOf(u, i) == EventsOf(t, i) == EventsOf(s, i); }
    forall i | 0 <= i < |s.attempts|
      ensures if i < n + 1 then ResultedFrom(s.attempts[i], u.attempts[i], results) else u.attempts[i] == s.attempts[i]
    {
      assert t.attempts[n] == s.attempts[n] && t.attempts[i] == t.attempts[i];
    }
  }

  lemma WriteResultWorks(lim: Limits, t: Session, i: nat, results: seq<AttemptResult>)
    requires FilesOk(t) && LogsInv(lim, t) && i < |t.attempts| && t.attempts[i].result.NotProvided? && WriteResult(t, i, results).1
    ensures var u := WriteResult(t, i, results).0; WritesResult(t, u, i, results) && FilesOk(u) && LogsInv(lim, u)
  {
    WriteResultIs(t, i, results);
    WriteResultKeepsFiles(t, i, results);
    LeavingKeepsLogs(lim, t, WriteResult(t, i, results).0);
  }

  ghost predicate NoResults(s: Session) {
    forall i {:trigger s.attempts[i]} | 0 <= i < |s.attempts| :: s.attempts[i].result.NotProvided?
  }

  lemma {:induction false} EarlierResults(s: Session, i: nat, n: nat, results: seq<AttemptResult>)
    requires i <= n <= |s.attempts| && WriteResults(s, n, results).1
    ensures WriteResults(s, i, results).1
  {
    if i < n { EarlierResults(s, i, n - 1, results); }
  }

  lemma WriteResultsWorks(lim: Limits, s: Session, m: nat, results: seq<AttemptResult>) returns (t: Session)
    requires FilesOk(s) && LogsInv(lim, s) && NoResults(s) && m <= |s.attempts| && WriteResults(s, m, results).1
    ensures WriteResults(s, m, results) == (t, true) && ResultedTo(lim, s, t, m, results)
  {
    t := s;
    NoResultsYet(lim, s, results);
    for n := 0 to m
      invariant WriteResults(s, n, results) == (t, true) && ResultedTo(lim, s, t, n, results)
    {
      EarlierResults(s, n + 1, m, results);
      t := NextResults(lim, s, t, n, results);
    }
  }

  lemma NextResults(lim: Limits, s: Session, before: Session, n: nat, results: seq<AttemptResult>) returns (t: Session)
    requires n < |s.attempts| && WriteResults(s, n + 1, results).1 && NoResults(s)
    requires WriteResults(s, n, results) == (before, true) && ResultedTo(lim, s, before, n, results)
    ensures WriteResults(s, n + 1, results) == (t, true) && ResultedTo(lim, s, t, n + 1, results)
  {
    assert before.attempts[n] == s.attempts[n];
    WriteResultWorks(lim, before, n, results);
    t := WriteResult(before, n, results).0;
    ResultedFurther(lim, s, before, t, n, results);
  }

  lemma NoResultsYet(lim: Limits, s: Session, results: seq<AttemptResult>)
    requires FilesOk(s) && LogsInv(lim, s)
    ensures ResultedTo(lim, s, s, 0, results)
  {
  }

  // ---------------------------------------------------------------- everything before the manifest

  /** What has become of an attempt: closed, indexed if there is something to index, resulted if there is a result. */
  ghost predicate FinalFrom(a: Attempt, b: Attempt, results: seq<AttemptResult>) {
    && b.planned == a.planned && b.count == a.count && b.first == a.first && b.last == a.last && b.records == a.records
    && b.artifacts == a.artifacts
    && (forall name {:trigger IsOpen(b, name)} :: !IsOpen(b, name))
    && Has(b, EventsFile) == Has(a, EventsFile) && LogClosedFrom(a.out, b.out) && LogClosedFrom(a.err, b.err)
    && (b.events == a.events || b.events.Captured? || b.events.CapturedEmpty?)
    && b.indexed == NeedsIndex(a)
    && b.result == if ResultFor(results, a.planned.key).Some? then Captured else NotProvided
  }

  ghost predicate Final(lim: Limits, s: Session, f: Session, c: Completion) {
    && SameRecordKeeping(s, f) && SameEventFiles(s, f) && FilesOk(f) && LaidOut(f) && LogsInv(lim, f)
    && (forall i {:trigger f.attempts[i]} | 0 <= i < |s.attempts| :: FinalFrom(s.attempts[i], f.attempts[i], c.attempts))
    && (forall i: nat {:trigger ResultStored(f, i, c.attempts)} | i < |s.attempts| :: ResultStored(f, i, c.attempts))
    && ExecutionPath in f.files && f.files[ExecutionPath] == ExecutionContent(ExecutionOf(s, c))
  }

  lemma ClosedThenResulted(a: Attempt, b: Attempt, d: Attempt, results: seq<AttemptResult>)
    requires ClosedFrom(a, b) && ResultedFrom(b, d, results) && a.result.NotProvided?
    ensures FinalFrom(a, d, results)
  {
    forall name ensures !IsOpen(d, name) {
      if name.LogFile? { assert LogAt(d, name.stream) == LogAt(b, name.stream); }
    }
  }

  /** The execution document goes to a path of its own. */
  lemma ExecutionAdds(s: Session, content: Content)
    requires FilesOk(s) && content.ExecutionContent? && WritePayload(s, ExecutionPath, ExecutionRole, None, content).1
    ensures var t := WritePayload(s, ExecutionPath, ExecutionRole, None, content).0;
            && FilesOk(t) && SameRecordKeeping(s, t) && t.attempts == s.attempts && t.files == s.files[ExecutionPath := content]
  {
    var t := WritePayload(s, ExecutionPath, ExecutionRole, None, content).0;
    NotStray(s, ExecutionPath);
    FileAdds(s, t, t.entries[|s.entries|]);
  }

  lemma AttemptIsFinal(lim: Limits, s: Session, closed: Session, r: Session, c: Completion, i: nat)
    requires FinalizedTo(lim, s, closed, |s.attempts|) && ResultedTo(lim, closed, r, |s.attempts|, c.attempts)
    requires Unfinished(s) && i < |s.attempts|
    ensures EventsOf(r, i) == EventsOf(s, i) && FinalFrom(s.attempts[i], r.attempts[i], c.attempts)
  {
    assert EventsOf(r, i) == EventsOf(closed, i) == EventsOf(s, i);
    assert r.attempts[i] == r.attempts[i] && closed.attempts[i] == closed.attempts[i];
    ClosedThenResulted(s.attempts[i], closed.attempts[i], r.attempts[i], c.attempts);
  }

  lemma ResultsStayStored(r: Session, f: Session, results: seq<AttemptResult>)
    requires f.attempts == r.attempts && (forall p | p in r.files && p != ExecutionPath :: p in f.files && f.files[p] == r.files[p])
    requires forall i: nat {:trigger ResultStored(r, i, results)} | i < |r.attempts| :: ResultStored(r, i, results)
    ensures forall i: nat {:trigger ResultStored(f, i, results)} | i < |r.attempts| :: ResultStored(f, i, results)
  {
    forall i: nat | i < |r.attempts| ensures ResultStored(f, i, results) {
      assert ResultStored(r, i, results) && KeyAt(f, i) == KeyAt(r, i);
    }
  }

  lemma FinalLayout(s: Session, f: Session, results: seq<AttemptResult>)
    requires LaidOut(s) && SameRecordKeeping(s, f)
    requires forall i {:trigger f.attempts[i]} | 0 <= i < |s.attempts| :: FinalFrom(s.attempts[i], f.attempts[i], results)
    ensures LaidOut(f)
  {
    LayoutStays(s, f);
  }

  /** Everything but the execution document is as it will be. */
  ghost predicate NearlyFinal(lim: Limits, s: Session, r: Session, c: Completion) {
    && SameRecordKeeping(s, r) && SameEventFiles(s, r) && LogsInv(lim, r)
    && (forall i {:trigger r.attempts[i]} | 0 <= i < |s.attempts| :: FinalFrom(s.attempts[i], r.attempts[i], c.attempts))
    && (forall i: nat {:trigger ResultStored(r, i, c.attempts)} | i < |s.attempts| :: ResultStored(r, i, c.attempts))
  }

  lemma ResultsAreNearlyFinal(lim: Limits, s: Session, closed: Session, r: Session, c: Completion)
    requires FinalizedTo(lim, s, closed, |s.attempts|) && ResultedTo(lim, closed, r, |s.attempts|, c.attempts) && Unfinished(s)
    ensures NearlyFinal(lim, s, r, c)
  {
    forall i | 0 <= i < |s.attempts| ensures EventsOf(r, i) == EventsOf(s, i) && FinalFrom(s.attempts[i], r.attempts[i], c.attempts) {
      AttemptIsFinal(lim, s, closed, r, c, i);
    }
  }

  lemma ExecutionLeavesEvents(s: Session, r: Session, f: Session)
    requires SameEventFiles(s, r) && f.attempts == r.attempts
    requires forall p | p != ExecutionPath :: (p in f.files <==> p in r.files) && (p in r.files ==> f.files[p] == r.files[p])
    ensures SameEventFiles(s, f)
  {
    forall i | 0 <= i < |s.attempts| ensures EventsOf(f, i) == EventsOf(s, i) { assert EventsOf(f, i) == EventsOf(r, i) == EventsOf(s, i); }
  }

  lemma ExecutionKeepsFinal(lim: Limits, s: Session, r: Session, f: Session, c: Completion)
    requires NearlyFinal(lim, s, r, c) && LaidOut(s) && FilesOk(f) && SameRecordKeeping(r, f) && f.attempts == r.attempts
    requires f.files == r.files[ExecutionPath := ExecutionContent(ExecutionOf(r, c))]
    ensures Final(lim, s, f, c)
  {
    LeavingKeepsLogs(lim, r, f);
    ResultsStayStored(r, f, c.attempts);
    ExecutionLeavesEvents(s, r, f);
    FinalLayout(s, f, c.attempts);
  }

  /** When everything before the manifest could be written, the staged files are these. */
  lemma WriteAllWorks(lim: Limits, s: Session, c: Completion)
    requires SessionInv(lim, s) && WriteAll(s, c).1
    ensures Final(lim, s, WriteAll(s, c).0, c)
    ensures c.plan == PlanDigest(s) && ResultsDistinct(c.attempts) && (c.complete ==> |c.attempts| == |s.attempts|)
  {
    SessionsCanClose(s);
    var closed := FinalizeWorks(lim, s);
    forall i | 0 <= i < |closed.attempts| ensures closed.attempts[i].result.NotProvided? {
      assert ClosedFrom(s.attempts[i], closed.attempts[i]);
    }
    var r := WriteResultsWorks(lim, closed, |closed.attempts|, c.attempts);
    ExecutionAdds(r, ExecutionContent(ExecutionOf(r, c)));
    ResultsAreNearlyFinal(lim, s, closed, r, c);
    ExecutionKeepsFinal(lim, s, r, WriteAll(s, c).0, c);
  }
}

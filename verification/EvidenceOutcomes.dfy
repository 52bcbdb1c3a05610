/** When a commit succeeds, and when a file is left unlisted, exactly; and sessions whose commit succeeds
    although the reader rejects the bundle. */
module EvidenceOutcomes {
  import opened Options
  import opened GoText
  import opened EvidenceModel
  import opened EvidenceSession
  import opened EvidenceFiles
  import opened EvidenceEvents
  import opened EvidenceRecords
  import opened EvidenceRuns
  import opened EvidenceCommit
  import opened EvidenceVerdict
  import R = EvidenceReader

  // ---------------------------------------------------------------- the execution document comes last

  predicate Unexecuted(s: Session) { ExecutionPath !in s.files }

  lemma MoveOnLeavesUnexecuted(s: Session, i: nat, next: nat, lists: bool)
    requires Unexecuted(s) && s.current <= i < |s.attempts|
    ensures Unexecuted(MoveOn(s, i, next, lists).0)
  {
    CloseEventsIs(s, s.current, lists);
  }

  lemma EmitLeavesUnexecuted(lim: Limits, s: Session, e: Event, encodable: bool, fits: bool, lists: bool)
    requires Unexecuted(s)
    ensures Unexecuted(Emit(lim, s, e, encodable, fits, lists))
  {
    if s.state.Active? && encodable && e.valid && Routed(s, e) && s.current < |s.attempts| {
      var i := IndexOfKey(s.attempts, e.key);
      MoveOnLeavesUnexecuted(s, i, e.sequence, lists);
      var moved := MoveOn(s, i, e.sequence, lists);
      if moved.1 {
        assert Unexecuted(WriteEvent(lim, moved.0, i, e, fits));
      }
    }
  }

  lemma KeepingLeavesUnexecuted(s: Session, i: nat, input: ArtifactInput, room: nat)
    requires Unexecuted(s) && i < |s.attempts|
    ensures Unexecuted(KeepArtifact(s, i, input, room))
  {
    assert Unexecuted(StoreObject(s, StreamArtifact(input.chunks, room, "").bytes, input.lists).0);
  }

  lemma ArtifactLeavesUnexecuted(lim: Limits, s: Session, input: ArtifactInput)
    requires Unexecuted(s)
    ensures Unexecuted(AddArtifact(lim, s, input))
  {
    var i, room := IndexOfKey(s.attempts, input.key), ArtifactRoom(lim, s, input);
    if i < |s.attempts| && room > 0 {
      KeepingLeavesUnexecuted(s.(logical := s.logical + {(input.key, input.logical)}), i, input, room);
    }
  }

  lemma CallLeavesUnexecuted(lim: Limits, s: Session, call: Call)
    requires Unexecuted(s)
    ensures Unexecuted(Do(lim, s, call))
  {
    match call
    case EmitCall(e, encodable, fits, lists) => EmitLeavesUnexecuted(lim, s, e, encodable, fits, lists);
    case AddArtifactCall(input) => ArtifactLeavesUnexecuted(lim, s, input);
    case _ =>
  }

  lemma {:induction false} RunLeavesUnexecuted(lim: Limits, plan: Plan, calls: seq<Call>)
    requires PlanAccepted(lim, plan)
    ensures Unexecuted(After(lim, plan, calls))
  {
    if calls != [] {
      RunLeavesUnexecuted(lim, plan, calls[..|calls| - 1]);
      CallLeavesUnexecuted(lim, After(lim, plan, calls[..|calls| - 1]), calls[|calls| - 1]);
    }
  }

  lemma FinalizeAttemptLeavesUnexecuted(s: Session, i: nat)
    requires Unexecuted(s) && i < |s.attempts|
    ensures Unexecuted(FinalizeAttempt(s, i).0)
  {
    ClosingEvents(s, i);
    var s1 := CloseEvents(s, i, true).0;
    ClosingLog(s1, i, Stdout);
    var s2 := CloseLog(s1, i, Stdout, true).0;
    ClosingLog(s2, i, Stderr);
  }

  lemma {:induction false} FinalizeLeavesUnexecuted(s: Session, n: nat)
    requires Unexecuted(s) && n <= |s.attempts|
    ensures Unexecuted(Finalize(s, n).0)
  {
    if n > 0 {
      FinalizeLeavesUnexecuted(s, n - 1);
      var before := Finalize(s, n - 1).0;
      FinalizeAttemptLeavesUnexecuted(before, n - 1);
      assert Finalize(s, n).0 == before || Finalize(s, n).0 == FinalizeAttempt(before, n - 1).0;
    }
  }

  lemma {:induction false} ResultsLeaveUnexecuted(s: Session, n: nat, results: seq<AttemptResult>)
    requires Unexecuted(s) && n <= |s.attempts|
    ensures Unexecuted(WriteResults(s, n, results).0)
  {
    if n > 0 {
      ResultsLeaveUnexecuted(s, n - 1, results);
    }
  }

  // ---------------------------------------------------------------- when everything can be written

  /** The result of an attempt, if there is one, reports the range of events that was written. */
  predicate RangeMatches(a: Attempt, results: seq<AttemptResult>) {
    var r := ResultFor(results, a.planned.key);
    r.Some? ==> r.value.count == a.count && r.value.first == a.first && r.value.last == a.last
  }

  lemma ResultCanBeWritten(s: Session, i: nat, results: seq<AttemptResult>)
    requires FilesOk(s) && i < |s.attempts| && s.attempts[i].result.NotProvided?
    ensures WriteResult(s, i, results).1 <==> RangeMatches(s.attempts[i], results)
  {
    assert NameOk(s, i, ResultFile);
  }

  lemma NextResultCanBeWritten(lim: Limits, s: Session, n: nat, results: seq<AttemptResult>)
    requires FilesOk(s) && LogsInv(lim, s) && NoResults(s) && n < |s.attempts| && WriteResults(s, n, results).1
    ensures WriteResults(s, n + 1, results).1 <==> RangeMatches(s.attempts[n], results)
  {
    var t := WriteResultsWorks(lim, s, n, results);
    assert t.attempts[n] == s.attempts[n];
    ResultCanBeWritten(t, n, results);
  }

  lemma {:induction false} ResultsCanBeWritten(lim: Limits, s: Session, n: nat, results: seq<AttemptResult>)
    requires FilesOk(s) && LogsInv(lim, s) && NoResults(s) && n <= |s.attempts|
    ensures WriteResults(s, n, results).1 <==> forall i {:trigger s.attempts[i]} | 0 <= i < n :: RangeMatches(s.attempts[i], results)
  {
    if n > 0 {
      ResultsCanBeWritten(lim, s, n - 1, results);
      if WriteResults(s, n - 1, results).1 {
        NextResultCanBeWritten(lim, s, n - 1, results);
      }
    }
  }

  ghost predicate RangesMatch(s: Session, results: seq<AttemptResult>) {
    forall i {:trigger s.attempts[i]} | 0 <= i < |s.attempts| :: RangeMatches(s.attempts[i], results)
  }

  /** The completion is of this plan, and of as many different attempts as it must be, with the right ranges. */
  ghost predicate Fits(s: Session, c: Completion) {
    && c.plan == PlanDigest(s) && ResultsDistinct(c.attempts) && (c.complete ==> |c.attempts| == |s.attempts|)
    && RangesMatch(s, c.attempts)
  }

  lemma ExecutionCanBeWritten(s: Session, content: Content)
    requires FilesOk(s) && Unexecuted(s)
    ensures WritePayload(s, ExecutionPath, ExecutionRole, None, content).1
  {
    if ExecutionPath in s.payloads {
      ListedIsThere(s, ExecutionPath);
    }
  }

  lemma RangesStay(lim: Limits, s: Session, closed: Session, results: seq<AttemptResult>)
    requires FinalizedTo(lim, s, closed, |s.attempts|) && Unfinished(s)
    ensures RangesMatch(closed, results) <==> RangesMatch(s, results)
    ensures NoResults(closed)
  {
    forall i | 0 <= i < |s.attempts|
      ensures RangeMatches(closed.attempts[i], results) == RangeMatches(s.attempts[i], results) && closed.attempts[i].result.NotProvided?
    {
      assert ClosedFrom(s.attempts[i], closed.attempts[i]);
    }
  }

  lemma ClosedCanBeWritten(lim: Limits, closed: Session, c: Completion)
    requires FilesOk(closed) && LogsInv(lim, closed) && NoResults(closed) && Unexecuted(closed)
    requires WriteResults(closed, |closed.attempts|, c.attempts).1
    ensures var r := WriteResults(closed, |closed.attempts|, c.attempts).0;
            && SameRecordKeeping(closed, r) && WritePayload(r, ExecutionPath, ExecutionRole, None, ExecutionContent(ExecutionOf(r, c))).1
  {
    var r := WriteResultsWorks(lim, closed, |closed.attempts|, c.attempts);
    ResultsLeaveUnexecuted(closed, |closed.attempts|, c.attempts);
    ExecutionCanBeWritten(r, ExecutionContent(ExecutionOf(r, c)));
  }

  /** Given how finalizing and the results come out, the rest follows. */
  lemma AllFollows(s: Session, closed: Session, c: Completion)
    requires Finalize(s, |s.attempts|) == (closed, true) && SameRecordKeeping(s, closed)
    requires WriteResults(closed, |closed.attempts|, c.attempts).1 ==>
               var r := WriteResults(closed, |closed.attempts|, c.attempts).0;
                 && SameRecordKeeping(closed, r) && WritePayload(r, ExecutionPath, ExecutionRole, None, ExecutionContent(ExecutionOf(r, c))).1
    ensures WriteAll(s, c).1 <==>
              && c.plan == PlanDigest(s) && ResultsDistinct(c.attempts) && (c.complete ==> |c.attempts| == |s.attempts|)
              && WriteResults(closed, |closed.attempts|, c.attempts).1
    ensures WriteAll(s, c).1 ==> SameRecordKeeping(s, WriteAll(s, c).0)
  {
  }

  lemma AllCanBeWritten(lim: Limits, s: Session, c: Completion)
    requires SessionInv(lim, s) && Unexecuted(s)
    ensures WriteAll(s, c).1 <==> Fits(s, c)
    ensures WriteAll(s, c).1 ==> SameRecordKeeping(s, WriteAll(s, c).0)
  {
    SessionsCanClose(s);
    FinalizeLeavesUnexecuted(s, |s.attempts|);
    var closed := FinalizeWorks(lim, s);
    RangesStay(lim, s, closed, c.attempts);
    ResultsCanBeWritten(lim, closed, |closed.attempts|, c.attempts);
    assert RangesMatch(closed, c.attempts) == WriteResults(closed, |closed.attempts|, c.attempts).1;
    if WriteResults(closed, |closed.attempts|, c.attempts).1 {
      ClosedCanBeWritten(lim, closed, c);
    }
    AllFollows(s, closed, c);
  }

  /** A commit succeeds exactly when there is room for what it writes, it is allowed in the session's state,
      its completion fits the session, and it either claims to be complete or says why it is not. Files that
      could not be listed do not keep it from succeeding, nor does the runner it names. */
  lemma CommitSucceeds(lim: Limits, plan: Plan, calls: seq<Call>, c: Completion, room: bool)
    requires Admissible(lim, plan)
    ensures var s := After(lim, plan, calls);
            Commit(s, c, room).1.Some? <==>
              && room && Fits(s, c)
              && if c.incomplete then (s.state == Active || s.state == SessionFailed) && c.failure.Some?
                 else s.state == Active && !s.incomplete && c.complete
  {
    var s := After(lim, plan, calls);
    SessionsAreSound(lim, plan, calls);
    RunLeavesUnexecuted(lim, plan, calls);
    AllCanBeWritten(lim, s, c);
  }

  // ---------------------------------------------------------------- what a committed bundle says

  /** The manifest and the execution document repeat the plan and the completion, and call the evidence
      complete exactly when the completion does and nothing was cut short or left out. */
  ghost predicate SaysCompletion(b: Bundle, s: Session, plan: Plan, c: Completion) {
    var digest, whole := Digest(PlanDoc(plan)), c.complete && !c.incomplete && !s.incomplete;
    && b.manifest.run == plan.run && b.manifest.plan == digest && b.manifest.executionComplete == c.complete
    && b.manifest.evidenceComplete == whole && b.manifest.transactionValid && b.manifest.failure == c.failure
    && b.manifest.records == s.records
    && PlanPath in b.files && b.files[PlanPath] == PlanDoc(plan)
    && ExecutionPath in b.files
    && b.files[ExecutionPath]
       == ExecutionContent(ExecutionDoc(plan.run, digest, c.runner, c.complete, whole, true, c.total, c.attempts, c.failure))
  }

  /** The manifest has the attempt as planned, with the range of its events, and its logs are published as
      they were kept. */
  ghost predicate SaysAttempt(b: Bundle, s: Session, plan: Plan, i: nat)
    requires i < |s.attempts|
  {
    && i < |Expand(plan)| == |b.manifest.attempts| && b.manifest.attempts[i].planned == Expand(plan)[i]
    && b.manifest.attempts[i].count == s.attempts[i].count && b.manifest.attempts[i].first == s.attempts[i].first
    && b.manifest.attempts[i].last == s.attempts[i].last
    && PublishesLog(b.files, s.attempts[i], Stdout) && PublishesLog(b.files, s.attempts[i], Stderr)
  }

  /** The result reported for the attempt is published, and so are its artifact records. */
  ghost predicate PublishesResult(b: Bundle, a: Attempt, m: AttemptEntry, results: seq<AttemptResult>) {
    var result, index := AttemptPath(DirOf(a.planned.key), ResultFile), AttemptPath(DirOf(a.planned.key), IndexFile);
    && (result in b.files <==> exists r :: r in results && r.key == a.planned.key)
    && (forall r | r in results && r.key == a.planned.key :: result in b.files && b.files[result] == ResultDoc(r))
    && (m.result == if result in b.files then Captured else NotProvided)
    && (a.records != [] ==> index in b.files && b.files[index] == IndexDoc(a.planned.key, a.records))
  }

  lemma {:induction false} ResultForIsTheOne(results: seq<AttemptResult>, key: AttemptKey)
    requires ResultsDistinct(results)
    ensures ResultFor(results, key).Some? <==> exists r :: r in results && r.key == key
    ensures forall r | r in results && r.key == key :: ResultFor(results, key) == Some(r)
  {
    if results != [] {
      ResultForIsTheOne(results[1..], key);
      forall r | r in results[1..] ensures r.key != results[0].key {
        var j :| 0 <= j < |results[1..]| && results[1..][j] == r;
        assert results[j + 1] == r;
      }
      assert forall r :: r in results <==> r == results[0] || r in results[1..];
    }
  }

  lemma FinalResultIsPublished(lim: Limits, s: Session, f: Session, c: Completion, i: nat)
    requires Final(lim, s, f, c) && ResultsDistinct(c.attempts) && i < |s.attempts|
    ensures PublishesResult(Bundle(f.files, f.folders, ManifestOf(f, c)), s.attempts[i], ManifestOf(f, c).attempts[i], c.attempts)
  {
    ResultForIsTheOne(c.attempts, s.attempts[i].planned.key);
    assert FinalFrom(s.attempts[i], f.attempts[i], c.attempts) && ResultStored(f, i, c.attempts);
    assert NameOk(f, i, ResultFile) && NameOk(f, i, IndexFile);
  }

  ghost predicate PublishesLog(files: map<Path, Content>, a: Attempt, stream: Stream) {
    LogAt(a, stream).Some? ==>
      var p := AttemptPath(DirOf(a.planned.key), LogFile(stream)); p in files && files[p] == Raw(LogAt(a, stream).value.bytes)
  }

  lemma LogIsPublished(f: Session, i: nat, a: Attempt, stream: Stream)
    requires FilesOk(f) && i < |f.attempts| && f.attempts[i].planned == a.planned
    requires LogClosedFrom(LogAt(a, stream), LogAt(f.attempts[i], stream))
    ensures PublishesLog(f.files, a, stream)
  {
    assert NameOk(f, i, LogFile(stream));
  }

  lemma CommittedBundleSays(lim: Limits, plan: Plan, calls: seq<Call>, c: Completion, room: bool)
    requires Admissible(lim, plan) && Commit(After(lim, plan, calls), c, room).1.Some?
    ensures SaysCompletion(Commit(After(lim, plan, calls), c, room).1.value, After(lim, plan, calls), plan, c)
  {
    var s := After(lim, plan, calls);
    SessionsAreSound(lim, plan, calls);
    CommittedIsFinal(lim, s, c, room);
    assert PathOk(WriteAll(s, c).0, PlanPath);
  }

  lemma FinalAttemptSays(lim: Limits, s: Session, f: Session, c: Completion, plan: Plan, i: nat)
    requires Final(lim, s, f, c) && s.plan == plan && i < |s.attempts|
    ensures SaysAttempt(Bundle(f.files, f.folders, ManifestOf(f, c)), s, plan, i)
  {
    assert FinalFrom(s.attempts[i], f.attempts[i], c.attempts);
    LogIsPublished(f, i, s.attempts[i], Stdout);
    LogIsPublished(f, i, s.attempts[i], Stderr);
    assert Expand(f.plan)[i] == f.attempts[i].planned;
  }

  lemma CommittedAttemptSays(lim: Limits, plan: Plan, calls: seq<Call>, c: Completion, room: bool, i: nat)
    requires Admissible(lim, plan) && Commit(After(lim, plan, calls), c, room).1.Some? && i < |After(lim, plan, calls).attempts|
    ensures SaysAttempt(Commit(After(lim, plan, calls), c, room).1.value, After(lim, plan, calls), plan, i)
    ensures var b, s := Commit(After(lim, plan, calls), c, room).1.value, After(lim, plan, calls);
            i < |b.manifest.attempts| && PublishesResult(b, s.attempts[i], b.manifest.attempts[i], c.attempts)
  {
    var s := After(lim, plan, calls);
    SessionsAreSound(lim, plan, calls);
    CommittedIsFinal(lim, s, c, room);
    FinalResultIsPublished(lim, s, WriteAll(s, c).0, c, i);
    FinalAttemptSays(lim, s, WriteAll(s, c).0, c, plan, i);
  }

  // ---------------------------------------------------------------- when nothing is left stray

  /** The call meets no limit of the whole bundle. */
  predicate FindsRoom(call: Call) {
    match call
    case EmitCall(_, _, _, lists) => lists
    case CloseLogCall(_, _, lists) => lists
    case AddArtifactCall(input) => input.lists
    case _ => true
  }

  lemma MoveOnWithRoom(s: Session, i: nat, next: nat)
    requires s.current <= i < |s.attempts|
    ensures MoveOn(s, i, next, true).0.stray == s.stray
  {
    CloseEventsIs(s, s.current, true);
  }

  lemma WritingStraysNothing(lim: Limits, s: Session, i: nat, e: Event, fits: bool)
    requires i < |s.attempts| && e.sequence >= 0
    ensures WriteEvent(lim, s, i, e, fits).stray == s.stray
  {
  }

  lemma EmitWithRoom(lim: Limits, s: Session, e: Event, encodable: bool, fits: bool)
    ensures Emit(lim, s, e, encodable, fits, true).stray == s.stray
  {
    if s.state.Active? && encodable && e.valid && Routed(s, e) && s.current < |s.attempts| {
      var i := IndexOfKey(s.attempts, e.key);
      MoveOnWithRoom(s, i, e.sequence);
      WritingStraysNothing(lim, MoveOn(s, i, e.sequence, true).0, i, e, fits);
    }
  }

  lemma ArtifactWithRoom(lim: Limits, s: Session, input: ArtifactInput)
    requires input.lists
    ensures AddArtifact(lim, s, input).stray <= s.stray
  {
    var i, room := IndexOfKey(s.attempts, input.key), ArtifactRoom(lim, s, input);
    if i < |s.attempts| && room > 0 {
      KeepingWithRoom(s.(logical := s.logical + {(input.key, input.logical)}), i, input, room);
    }
  }

  lemma KeepingWithRoom(s: Session, i: nat, input: ArtifactInput, room: nat)
    requires i < |s.attempts| && input.lists
    ensures KeepArtifact(s, i, input, room).stray <= s.stray
  {
    assert StoreObject(s, StreamArtifact(input.chunks, room, "").bytes, true).0.stray <= s.stray;
  }

  lemma CallWithRoom(lim: Limits, s: Session, call: Call)
    requires FindsRoom(call)
    ensures Do(lim, s, call).stray <= s.stray
  {
    match call
    case EmitCall(e, encodable, fits, _) => EmitWithRoom(lim, s, e, encodable, fits);
    case CloseLogCall(key, stream, _) =>
      if IndexOfKey(s.attempts, key) < |s.attempts| {
        CloseLogIs(s, IndexOfKey(s.attempts, key), stream, true);
      }
    case AddArtifactCall(input) => ArtifactWithRoom(lim, s, input);
    case _ =>
  }

  /** A file is stray only if some call met a limit of the whole bundle. */
  lemma {:induction false} RoomLeavesNothingStray(lim: Limits, plan: Plan, calls: seq<Call>)
    requires PlanAccepted(lim, plan) && forall call | call in calls :: FindsRoom(call)
    ensures After(lim, plan, calls).stray == {}
  {
    if calls == [] {
      BeginIs(lim, plan);
    } else {
      RoomLeavesNothingStray(lim, plan, calls[..|calls| - 1]);
      CallWithRoom(lim, After(lim, plan, calls[..|calls| - 1]), calls[|calls| - 1]);
    }
  }

  // ---------------------------------------------------------------- committed and rejected

  /** A commit that reports nothing but that the run failed. */
  function GivenUp(plan: Plan): Completion {
    var runner := Runner("fake", "v0", FakeTier, false, true);
    Completion(Digest(PlanDoc(plan)), runner, false, [], 0, Some(Failure("run-failed", "run")), true)
  }

  lemma GivingUpSucceeds(lim: Limits, plan: Plan, calls: seq<Call>)
    requires Admissible(lim, plan) && (After(lim, plan, calls).state.Active? || After(lim, plan, calls).state.SessionFailed?)
    ensures Commit(After(lim, plan, calls), GivenUp(plan), true).1.Some?
  {
    SessionsAreSound(lim, plan, calls);
    CommitSucceeds(lim, plan, calls, GivenUp(plan), true);
  }

  /** A run that is given up before anything was recorded commits a bundle that the reader rejects: the
      folder of an attempt without any file is not expected. */
  lemma AttemptWithoutFileIsRejected(lim: Limits, plan: Plan)
    requires Admissible(lim, plan)
    ensures var s := After(lim, plan, []);
            Commit(s, GivenUp(plan), true).1.Some? && !R.Accepts(Commit(s, GivenUp(plan), true).1.value, lim.maxAttempts)
  {
    var s := After(lim, plan, []);
    BeginIsFresh(lim, plan);
    FreshLeavesNothing(s, plan);
    GivingUpSucceeds(lim, plan, []);
    ReaderAgreesWithWriter(lim, plan, [], GivenUp(plan), true);
  }

  lemma FreshLeavesNothing(s: Session, plan: Plan)
    requires Fresh(s)
    ensures |s.attempts| > 0 && !LeavesFile(s, 0, GivenUp(plan))
  {
    assert s.attempts[0] == NewAttempt(s.attempts[0].planned);
  }

  /** The artifact that the limits leave room for is read to its end. */
  predicate CanBeStored(lim: Limits, s: Session, input: ArtifactInput) {
    var i, room := IndexOfKey(s.attempts, input.key), ArtifactRoom(lim, s, input);
    && i < |s.attempts| && s.state.Active? && ValidLogicalPath(input.logical) && (input.key, input.logical) !in s.logical
    && !RecordsFull(lim, s, i) && room > 0 && (input.meta.declared.Some? ==> input.meta.declared.value <= room)
    && !input.broken && !StreamArtifact(input.chunks, room, "").over
  }

  /** The session has failed over a file that it could not list. */
  predicate Spoilt(s: Session) { s.state.SessionFailed? && s.stray != {} }

  function BytesRead(lim: Limits, s: Session, input: ArtifactInput): string
    requires ArtifactRoom(lim, s, input) > 0
  {
    StreamArtifact(input.chunks, ArtifactRoom(lim, s, input), "").bytes
  }

  lemma UnlistedObjectStays(lim: Limits, s: Session, input: ArtifactInput)
    requires CanBeStored(lim, s, input) && !input.lists
    requires var d := Digest(Raw(BytesRead(lim, s, input))); d !in s.objects && !Listed(s, ObjectPath(d))
    ensures Spoilt(AddArtifact(lim, s, input))
  {
    assert ObjectPath(Digest(Raw(BytesRead(lim, s, input)))) in AddArtifact(lim, s, input).stray;
  }

  /** Giving up a run that has left a file unlisted succeeds, and the reader rejects the bundle. */
  lemma StrayIsRejected(lim: Limits, plan: Plan, calls: seq<Call>)
    requires Admissible(lim, plan) && After(lim, plan, calls).stray != {}
    requires After(lim, plan, calls).state.Active? || After(lim, plan, calls).state.SessionFailed?
    ensures var s := After(lim, plan, calls);
            Commit(s, GivenUp(plan), true).1.Some? && !R.Accepts(Commit(s, GivenUp(plan), true).1.value, lim.maxAttempts)
  {
    GivingUpSucceeds(lim, plan, calls);
    ReaderAgreesWithWriter(lim, plan, calls, GivenUp(plan), true);
  }

  lemma AfterFirstArtifact(lim: Limits, plan: Plan, input: ArtifactInput)
    requires PlanAccepted(lim, plan)
    ensures After(lim, plan, [AddArtifactCall(input)]) == AddArtifact(lim, Begin(lim, plan).value, input)
  {
    assert [AddArtifactCall(input)][..0] == [];
    assert After(lim, plan, []) == Begin(lim, plan).value;
  }

  lemma NoObjectYet(lim: Limits, plan: Plan, d: Digest)
    requires PlanAccepted(lim, plan)
    ensures d !in Begin(lim, plan).value.objects && !Listed(Begin(lim, plan).value, ObjectPath(d))
  {
    BeginIs(lim, plan);
  }

  lemma FirstObjectStrays(lim: Limits, plan: Plan, input: ArtifactInput)
    requires PlanAccepted(lim, plan) && CanBeStored(lim, Begin(lim, plan).value, input) && !input.lists
    ensures Spoilt(AddArtifact(lim, Begin(lim, plan).value, input))
  {
    NoObjectYet(lim, plan, Digest(Raw(BytesRead(lim, Begin(lim, plan).value, input))));
    UnlistedObjectStays(lim, Begin(lim, plan).value, input);
  }

  /** A first artifact for whose object the manifest has no room fails the session with the object in place. */
  lemma UnlistedObjectSpoils(lim: Limits, plan: Plan, input: ArtifactInput)
    requires PlanAccepted(lim, plan) && CanBeStored(lim, Begin(lim, plan).value, input) && !input.lists
    ensures Spoilt(After(lim, plan, [AddArtifactCall(input)]))
  {
    FirstObjectStrays(lim, plan, input);
    AfterFirstArtifact(lim, plan, input);
  }

  /** The writer does not look at the runner: with one that the reader does not accept every commit that
      succeeds gives a bundle that is rejected. */
  lemma ImproperRunnerIsRejected(lim: Limits, plan: Plan, calls: seq<Call>, c: Completion, runner: Runner, room: bool)
    requires Admissible(lim, plan) && Commit(After(lim, plan, calls), c, room).1.Some? && !R.RunnerOk(runner)
    ensures var s, c' := After(lim, plan, calls), c.(runner := runner);
            Commit(s, c', room).1.Some? && !R.Accepts(Commit(s, c', room).1.value, lim.maxAttempts)
  {
    CommitSucceeds(lim, plan, calls, c, room);
    CommitSucceeds(lim, plan, calls, c.(runner := runner), room);
    ReaderAgreesWithWriter(lim, plan, calls, c.(runner := runner), room);
  }

  function OmissionOf(key: AttemptKey, logical: string): Call {
    OmissionCall(key, logical, OmittedLimit, 0, Meta(None, "", false, 0), [])
  }

  lemma OmissionIsRecorded(lim: Limits, s: Session, key: AttemptKey, logical: string, i: nat)
    requires i == IndexOfKey(s.attempts, key) < |s.attempts| && s.state.Active? && ValidLogicalPath(logical)
    requires (key, logical) !in s.logical && !RecordsFull(lim, s, i)
    ensures var t := Do(lim, s, OmissionOf(key, logical));
            && t.state.Active? && |t.attempts| == |s.attempts| && IndexOfKey(t.attempts, key) == i && |t.records| == |s.records| + 1
            && t.logical == s.logical + {(key, logical)} && t.attempts[i].planned == s.attempts[i].planned
            && |t.attempts[i].records| == |s.attempts[i].records| + 1
            && t.attempts[i].records[..|s.attempts[i].records|] == s.attempts[i].records
            && t.attempts[i].records[|s.attempts[i].records|].logical == logical
  {
    SameIndex(s.attempts, Do(lim, s, OmissionOf(key, logical)).attempts, key);
  }

  lemma {:induction false} SameIndex(a: seq<Attempt>, b: seq<Attempt>, key: AttemptKey)
    requires |a| == |b| && forall k | 0 <= k < |a| :: a[k].planned == b[k].planned
    ensures IndexOfKey(a, key) == IndexOfKey(b, key)
  {
    if a != [] {
      SameIndex(a[1..], b[1..], key);
    }
  }

  lemma LetterIsAPath(letter: string)
    requires |letter| == 1 && 'a' <= letter[0] <= 'z'
    ensures ValidLogicalPath(letter)
  {
    var rest := Parts(letter[1..]);
    assert letter[1..] == "" && rest == [""] && [letter[0]] + rest[0] == letter;
    assert Parts(letter) == [[letter[0]] + rest[0]] + rest[1..];
    assert Parts(letter) == [letter];
  }

  lemma TwoOmissions(lim: Limits, s: Session, key: AttemptKey) returns (t: Session)
    requires s.state.Active? && IndexOfKey(s.attempts, key) < |s.attempts| && s.logical == {} && s.records == []
    requires s.attempts[IndexOfKey(s.attempts, key)].records == [] && lim.artifactsPerAttempt >= 2 && lim.artifactsPerBundle >= 2
    ensures t == Do(lim, Do(lim, s, OmissionOf(key, "b")), OmissionOf(key, "a"))
    ensures t.state.Active? && exists i {:trigger t.attempts[i]} :: 0 <= i < |t.attempts| && !R.RecordsInOrder(t.attempts[i].records)
  {
    var i, s1 := IndexOfKey(s.attempts, key), Do(lim, s, OmissionOf(key, "b"));
    t := Do(lim, s1, OmissionOf(key, "a"));
    LetterIsAPath("b");
    LetterIsAPath("a");
    OmissionIsRecorded(lim, s, key, "b", i);
    OmissionIsRecorded(lim, s1, key, "a", i);
    var records := t.attempts[i].records;
    assert records[0] == records[..1][0] && records[0].logical == "b" && records[1].logical == "a";
    assert !Before("b", "a");
  }

  /** Two artifacts of one attempt that are recorded against path order commit, too, and are rejected. */
  lemma OutOfOrderIsRejected(lim: Limits, plan: Plan, key: AttemptKey)
    requires Admissible(lim, plan) && lim.artifactsPerAttempt >= 2 && lim.artifactsPerBundle >= 2
    requires IndexOfKey(After(lim, plan, []).attempts, key) < |After(lim, plan, []).attempts|
    ensures var s := After(lim, plan, [OmissionOf(key, "b"), OmissionOf(key, "a")]);
            Commit(s, GivenUp(plan), true).1.Some? && !R.Accepts(Commit(s, GivenUp(plan), true).1.value, lim.maxAttempts)
  {
    var first, both := [OmissionOf(key, "b")], [OmissionOf(key, "b"), OmissionOf(key, "a")];
    var s := After(lim, plan, []);
    BeginIsFresh(lim, plan);
    BeginRecordsNothing(lim, plan);
    assert s.attempts[IndexOfKey(s.attempts, key)].records == [];
    var t := TwoOmissions(lim, s, key);
    AfterTwo(lim, plan, both[0], both[1]);
    GivingUpSucceeds(lim, plan, both);
    ReaderAgreesWithWriter(lim, plan, both, GivenUp(plan), true);
  }

  lemma BeginRecordsNothing(lim: Limits, plan: Plan)
    requires PlanAccepted(lim, plan)
    ensures Begin(lim, plan).value.logical == {}
  {
  }

  lemma AfterTwo(lim: Limits, plan: Plan, one: Call, two: Call)
    requires PlanAccepted(lim, plan)
    ensures After(lim, plan, [one, two]) == Do(lim, Do(lim, After(lim, plan, []), one), two)
  {
    assert [one, two][..1] == [one] && [one][..0] == [];
  }
}

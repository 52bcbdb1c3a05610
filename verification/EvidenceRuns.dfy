/** Every session of the evidence writer, whatever calls it gets: the invariant all calls keep, the
    events it holds, and what its logs and artifact records amount to. */
module EvidenceRuns {
  import opened EvidenceModel
  import opened EvidenceSession
  import opened EvidenceFiles
  import opened EvidenceEvents
  import opened EvidenceRecords

  ghost predicate SessionInv(lim: Limits, s: Session) {
    FilesOk(s) && LaidOut(s) && EventsInv(s) && Unfinished(s) && RecordsInv(s) && LogsInv(lim, s)
  }

  /** The call has kept the invariant, and the event files hold `more` events than before. */
  ghost predicate Kept(lim: Limits, s: Session, s': Session, more: seq<Event>) {
    && SessionInv(lim, s') && |s'.attempts| == |s.attempts| && s'.plan == s.plan
    && AllEvents(s', |s'.attempts|) == AllEvents(s, |s.attempts|) + more
  }

  // ---------------------------------------------------------------- what calls leave alone

  /** Of attempt `i` only log states change, and of the files only one of its logs. */
  ghost predicate TouchesLog(s: Session, s': Session, i: nat, stream: Stream)
    requires i < |s.attempts|
  {
    && |s'.attempts| == |s.attempts|
    && s' == s.(attempts := s.attempts[i := s'.attempts[i]], files := s'.files, entries := s'.entries, payloads := s'.payloads,
                totalLog := s'.totalLog, incomplete := s'.incomplete, state := s'.state, stray := s'.stray)
    && StrayObjects(s'.stray) == StrayObjects(s.stray)
    && SameRecords(s.attempts[i], s'.attempts[i]) && SameRange(s.attempts[i], s'.attempts[i])
    && s'.attempts[i].indexed == s.attempts[i].indexed && s'.attempts[i].result == s.attempts[i].result
    && (forall p | p != FileOf(s.attempts[i], LogFile(stream)) :: p in s'.files <==> p in s.files)
    && (forall p | p != FileOf(s.attempts[i], LogFile(stream)) && p in s.files :: s'.files[p] == s.files[p])
    && (s'.state.Active? ==> s.state.Active?) && (s.incomplete ==> s'.incomplete)
  }

  lemma TouchingLogLeavesRest(s: Session, s': Session, i: nat, stream: Stream)
    requires i < |s.attempts| && TouchesLog(s, s', i, stream)
    ensures LeavesRecords(s, s') && LeavesEvents(s, s') && (Unfinished(s) ==> Unfinished(s'))
  {
  }

  lemma OpenLogTouches(s: Session, key: AttemptKey, stream: Stream)
    requires IndexOfKey(s.attempts, key) < |s.attempts|
    ensures TouchesLog(s, OpenLog(s, key, stream), IndexOfKey(s.attempts, key), stream)
  {
    var i := IndexOfKey(s.attempts, key);
    if !s.state.Active? || LogAt(s.attempts[i], stream).Some? || FileOf(s.attempts[i], LogFile(stream)) in s.files {
      assert s.attempts[i := s.attempts[i]] == s.attempts;
    }
  }

  lemma WriteLogTouches(lim: Limits, s: Session, key: AttemptKey, stream: Stream, data: string)
    requires IndexOfKey(s.attempts, key) < |s.attempts|
    ensures TouchesLog(s, WriteLog(lim, s, key, stream, data), IndexOfKey(s.attempts, key), stream)
  {
    var i := IndexOfKey(s.attempts, key);
    if WriteLog(lim, s, key, stream, data) == s {
      assert s.attempts[i := s.attempts[i]] == s.attempts;
    } else {
      AppendLogTouches(lim, s, i, stream, data);
    }
  }

  lemma AppendLogTouches(lim: Limits, s: Session, i: nat, stream: Stream, data: string)
    requires i < |s.attempts| && LogAt(s.attempts[i], stream).Some?
    ensures TouchesLog(s, AppendLog(lim, s, i, stream, data), i, stream)
  {
  }

  lemma MarkTruncatedTouches(s: Session, key: AttemptKey, stream: Stream, n: int)
    requires IndexOfKey(s.attempts, key) < |s.attempts|
    ensures TouchesLog(s, MarkTruncated(s, key, stream, n), IndexOfKey(s.attempts, key), stream)
  {
  }

  lemma CloseLogTouches(s: Session, i: nat, stream: Stream, lists: bool)
    requires i < |s.attempts|
    ensures TouchesLog(s, CloseLog(s, i, stream, lists).0, i, stream)
  {
    CloseLogIs(s, i, stream, lists);
    StrayFilesAreNoObjects(s.stray, FileOf(s.attempts[i], LogFile(stream)));
  }

  lemma StrayFilesAreNoObjects(stray: set<Path>, p: Path)
    requires !p.ObjectPath?
    ensures StrayObjects(stray + {p}) == StrayObjects(stray)
  {
  }

  predicate SameRest(a: Attempt, a': Attempt) { SameRecords(a, a') && SameLogs(a, a') }

  /** Only event files and what the attempts say of them change. */
  ghost predicate TouchesEvents(s: Session, s': Session) {
    && |s'.attempts| == |s.attempts| && s'.plan == s.plan && s'.folders == s.folders && s'.records == s.records
    && s'.objects == s.objects && s'.logical == s.logical && s'.incomplete == s.incomplete && s'.totalLog == s.totalLog
    && StrayObjects(s'.stray) == StrayObjects(s.stray)
    && forall i {:trigger s'.attempts[i]} | 0 <= i < |s.attempts| :: SameRest(s.attempts[i], s'.attempts[i])
  }

  lemma MoveOnTouches(s: Session, i: nat, next: nat, lists: bool)
    requires s.current <= i < |s.attempts|
    ensures TouchesEvents(s, MoveOn(s, i, next, lists).0)
  {
    if i > s.current { CloseEventsTouches(s, s.current, lists); }
  }

  lemma CloseEventsTouches(s: Session, i: nat, lists: bool)
    requires i < |s.attempts|
    ensures TouchesEvents(s, CloseEvents(s, i, lists).0)
  {
    CloseEventsIs(s, i, lists);
    StrayFilesAreNoObjects(s.stray, FileOf(s.attempts[i], EventsFile));
  }

  lemma WriteEventTouches(lim: Limits, s: Session, i: nat, e: Event, fits: bool)
    requires i < |s.attempts| && e.sequence >= 0
    ensures TouchesEvents(s, WriteEvent(lim, s, i, e, fits))
  {
  }

  lemma TouchesTwice(s: Session, t: Session, u: Session)
    requires TouchesEvents(s, t) && TouchesEvents(t, u)
    ensures TouchesEvents(s, u)
  {
    forall i | 0 <= i < |s.attempts| ensures SameRest(s.attempts[i], u.attempts[i]) {
      assert SameRest(s.attempts[i], t.attempts[i]) && SameRest(t.attempts[i], u.attempts[i]);
    }
  }

  lemma FailTouches(s: Session)
    ensures TouchesEvents(s, Fail(s))
  {
  }

  lemma EmitTouches(lim: Limits, s: Session, e: Event, encodable: bool, fits: bool, lists: bool)
    ensures TouchesEvents(s, Emit(lim, s, e, encodable, fits, lists))
  {
    FailTouches(s);
    if s.state.Active? && encodable && e.valid && Routed(s, e) && s.current < |s.attempts| {
      var i := IndexOfKey(s.attempts, e.key);
      var (moved, ok) := MoveOn(s, i, e.sequence, lists);
      MoveOnTouches(s, i, e.sequence, lists);
      if ok {
        WriteEventTouches(lim, moved, i, e, fits);
        TouchesTwice(s, moved, WriteEvent(lim, moved, i, e, fits));
      } else {
        FailTouches(moved);
        TouchesTwice(s, moved, Fail(moved));
      }
    }
  }

  lemma RecordArtifactLeavesRest(s: Session, i: nat, r: Record)
    requires i < |s.attempts|
    ensures var s' := RecordArtifact(s, i, r); LeavesLogs(s, s') && LeavesEvents(s, s') && (Unfinished(s) ==> Unfinished(s'))
  {
  }

  lemma StoreObjectLeavesRest(s: Session, bytes: string, lists: bool)
    ensures var s' := StoreObject(s, bytes, lists).0;
            s'.attempts == s.attempts && LeavesLogs(s, s') && LeavesEvents(s, s') && s'.records == s.records
            && s'.logical == s.logical && s'.incomplete == s.incomplete && s'.state == s.state
            && s'.objects == s.objects + if StoreObject(s, bytes, lists).1 then {Digest(Raw(bytes))} else {}
  {
  }

  // ---------------------------------------------------------------- every call keeps the invariant

  lemma EmitIsKept(lim: Limits, s: Session, e: Event, encodable: bool, fits: bool, lists: bool)
    requires SessionInv(lim, s)
    ensures var s' := Emit(lim, s, e, encodable, fits, lists); Kept(lim, s, s', if s.state.Active? && s'.state.Active? then [e] else [])
  {
    var s' := Emit(lim, s, e, encodable, fits, lists);
    EmitKeeps(lim, s, e, encodable, fits, lists);
    EmitTouches(lim, s, e, encodable, fits, lists);
    assert SameLayout(s, s') by { assert forall i | 0 <= i < |s.attempts| :: SameRest(s.attempts[i], s'.attempts[i]); }
    LayoutStays(s, s');
    LeavingKeepsRecords(s, s');
    LeavingKeepsLogs(lim, s, s');
  }

  lemma LogCallIsKept(lim: Limits, s: Session, s': Session, i: nat, stream: Stream)
    requires SessionInv(lim, s) && i < |s.attempts| && TouchesLog(s, s', i, stream) && FilesOk(s') && LogsInv(lim, s')
    ensures Kept(lim, s, s', [])
  {
    TouchingLogLeavesRest(s, s', i, stream);
    LayoutStays(s, s');
    LeavingKeepsRecords(s, s');
    LeavingKeepsEvents(s, s');
  }

  lemma NothingIsKept(lim: Limits, s: Session)
    requires SessionInv(lim, s)
    ensures Kept(lim, s, s, [])
  {
  }

  lemma OpenLogIsKept(lim: Limits, s: Session, key: AttemptKey, stream: Stream)
    requires SessionInv(lim, s)
    ensures Kept(lim, s, OpenLog(s, key, stream), [])
  {
    if IndexOfKey(s.attempts, key) == |s.attempts| {
      NothingIsKept(lim, s);
    } else {
      OpenLogKeepsFiles(s, key, stream);
      OpenLogKeepsLogs(lim, s, key, stream);
      OpenLogTouches(s, key, stream);
      LogCallIsKept(lim, s, OpenLog(s, key, stream), IndexOfKey(s.attempts, key), stream);
    }
  }

  lemma WriteLogIsKept(lim: Limits, s: Session, key: AttemptKey, stream: Stream, data: string)
    requires SessionInv(lim, s)
    ensures Kept(lim, s, WriteLog(lim, s, key, stream, data), [])
  {
    if IndexOfKey(s.attempts, key) == |s.attempts| {
      NothingIsKept(lim, s);
    } else {
      WriteLogKeepsFiles(lim, s, key, stream, data);
      WriteLogKeepsLogs(lim, s, key, stream, data);
      WriteLogTouches(lim, s, key, stream, data);
      LogCallIsKept(lim, s, WriteLog(lim, s, key, stream, data), IndexOfKey(s.attempts, key), stream);
    }
  }

  lemma MarkTruncatedIsKept(lim: Limits, s: Session, key: AttemptKey, stream: Stream, n: int)
    requires SessionInv(lim, s)
    ensures Kept(lim, s, MarkTruncated(s, key, stream, n), [])
  {
    if IndexOfKey(s.attempts, key) == |s.attempts| {
      NothingIsKept(lim, s);
    } else {
      MarkTruncatedKeepsFiles(s, key, stream, n);
      MarkTruncatedKeepsLogs(lim, s, key, stream, n);
      MarkTruncatedTouches(s, key, stream, n);
      LogCallIsKept(lim, s, MarkTruncated(s, key, stream, n), IndexOfKey(s.attempts, key), stream);
    }
  }

  lemma CloseLogIsKept(lim: Limits, s: Session, key: AttemptKey, stream: Stream, lists: bool)
    requires SessionInv(lim, s)
    ensures Kept(lim, s, CloseLogOf(s, key, stream, lists), [])
  {
    var i := IndexOfKey(s.attempts, key);
    if i == |s.attempts| {
      NothingIsKept(lim, s);
    } else {
      CloseLogKeepsFiles(s, i, stream, lists);
      CloseLogKeepsLogs(lim, s, i, stream, lists);
      CloseLogTouches(s, i, stream, lists);
      LogCallIsKept(lim, s, CloseLog(s, i, stream, lists).0, i, stream);
    }
  }

  lemma ArtifactStepKeepsSession(lim: Limits, s: Session, s': Session, i: nat, r: Record)
    requires SessionInv(lim, s) && i < |s.attempts| && Records(s, s', i, r)
    requires FilesOk(s') && LaidOut(s') && LeavesEvents(s, s') && LeavesLogs(s, s') && Unfinished(s')
    ensures Kept(lim, s, s', [])
  {
    RecordingKeepsRecords(s, s', i, r);
    LeavingKeepsEvents(s, s');
    LeavingKeepsLogs(lim, s, s');
  }

  /** `known` is a session that has taken note of the logical path, and perhaps filed an object. */
  ghost predicate Knows(s: Session, known: Session, i: nat, r: Record)
    requires i < |s.attempts|
  {
    && known.attempts == s.attempts && known.records == s.records && known.incomplete == s.incomplete
    && known.logical == s.logical + {(r.attempt, r.logical)} && r.attempt == KeyAt(s, i) && (r.attempt, r.logical) !in s.logical
    && s.objects <= known.objects && (forall d | d in known.objects :: d in s.objects || References(r, d))
    && ShapeOk(known.objects, r) && FilesOk(known) && LaidOut(known) && LeavesEvents(s, known) && LeavesLogs(s, known)
  }

  lemma RecordingKeepsSession(lim: Limits, s: Session, known: Session, i: nat, r: Record)
    requires SessionInv(lim, s) && i < |s.attempts| && Knows(s, known, i, r)
    ensures Kept(lim, s, RecordArtifact(known, i, r), [])
  {
    var s' := RecordArtifact(known, i, r);
    RecordArtifactKeepsFiles(known, i, r);
    LayoutStays(known, s');
    RecordArtifactLeavesRest(known, i, r);
    LeavesTwice(s, known, s');
    ArtifactStepKeepsSession(lim, s, s', i, r);
  }

  lemma LeavesTwice(s: Session, t: Session, u: Session)
    requires LeavesEvents(s, t) && LeavesEvents(t, u) && LeavesLogs(s, t) && LeavesLogs(t, u)
    ensures LeavesEvents(s, u) && LeavesLogs(s, u)
  {
    forall i | 0 <= i < |s.attempts| ensures SameRange(s.attempts[i], u.attempts[i]) && EventsOf(u, i) == EventsOf(s, i) {
      assert SameRange(s.attempts[i], t.attempts[i]) && SameRange(t.attempts[i], u.attempts[i]);
      assert EventsOf(t, i) == EventsOf(s, i);
    }
    forall i | 0 <= i < |s.attempts| ensures SameLogs(s.attempts[i], u.attempts[i]) {
      assert SameLogs(s.attempts[i], t.attempts[i]) && SameLogs(t.attempts[i], u.attempts[i]);
    }
  }

  /** Only bookkeeping that no invariant of files or events reads. */
  lemma NotingIsHarmless(lim: Limits, s: Session, s': Session)
    requires SessionInv(lim, s) && s.logical <= s'.logical && (s'.state.Active? ==> s.state.Active?)
    requires s' == s.(logical := s'.logical, totalArtifact := s'.totalArtifact, state := s'.state)
    ensures Kept(lim, s, s', []) && LeavesEvents(s, s') && LeavesLogs(s, s')
  {
    SameFiles(s, s');
    LayoutStays(s, s');
    LeavingKeepsEvents(s, s');
    LeavingKeepsLogs(lim, s, s');
    LeavingKeepsRecords(s, s');
  }

  function StoredIn(known: Session, bytes: string): Session {
    var stored := StoreObject(known, bytes, true).0; stored.(totalArtifact := stored.totalArtifact + |bytes|)
  }

  lemma StoredInKeepsFiles(known: Session, bytes: string)
    requires FilesOk(known) && LaidOut(known)
    ensures FilesOk(StoredIn(known, bytes)) && LaidOut(StoredIn(known, bytes))
  {
    StoreObjectKeepsFiles(known, bytes, true);
    LayoutStays(StoreObject(known, bytes, true).0, StoredIn(known, bytes));
    SameFiles(StoreObject(known, bytes, true).0, StoredIn(known, bytes));
  }

  lemma StoredInLeavesRest(known: Session, bytes: string)
    requires StoreObject(known, bytes, true).1
    ensures var s' := StoredIn(known, bytes);
            s'.attempts == known.attempts && LeavesLogs(known, s') && LeavesEvents(known, s') && s'.records == known.records
            && s'.logical == known.logical && s'.incomplete == known.incomplete
            && s'.objects == known.objects + {Digest(Raw(bytes))}
  {
    var stored, s' := StoreObject(known, bytes, true).0, StoredIn(known, bytes);
    StoreObjectLeavesRest(known, bytes, true);
    assert forall k {:trigger EventsOf(s', k)} | 0 <= k < |stored.attempts| :: EventsOf(s', k) == EventsOf(stored, k);
  }

  lemma StoringKnows(lim: Limits, s: Session, known: Session, i: nat, input: ArtifactInput, bytes: string)
    requires SessionInv(lim, s) && i < |s.attempts| && input.key == KeyAt(s, i) && ValidLogicalPath(input.logical)
    requires known == s.(logical := s.logical + {(input.key, input.logical)}) && (input.key, input.logical) !in s.logical
    ensures Knows(s, StoredIn(known, bytes), i, StoredRecord(input, bytes))
  {
    NotingIsHarmless(lim, s, known);
    StoreObjectKeepsFiles(known, bytes, true);
    StoredInKeepsFiles(known, bytes);
    StoredInLeavesRest(known, bytes);
    LeavesTwice(s, known, StoredIn(known, bytes));
  }

  /** An object that a limit of the bundle keeps from being listed takes the session down. */
  lemma RefusingIsKept(lim: Limits, s: Session, known: Session, bytes: string)
    requires SessionInv(lim, s) && s.logical <= known.logical && known == s.(logical := known.logical)
    ensures Kept(lim, s, Fail(StoreObject(known, bytes, false).0), [])
  {
    var refused := StoreObject(known, bytes, false).0;
    NotingIsHarmless(lim, s, known);
    StoreObjectKeepsFiles(known, bytes, false);
    StoreObjectLeavesRest(known, bytes, false);
    LeavingKeepsEvents(known, refused);
    LeavingKeepsLogs(lim, known, refused);
    RefusedKeepsRecords(known, refused);
    assert Kept(lim, known, refused, []);
    NotingIsHarmless(lim, refused, Fail(refused));
  }

  lemma RefusedKeepsRecords(s: Session, s': Session)
    requires RecordsInv(s) && s'.attempts == s.attempts && s'.records == s.records && s'.logical == s.logical && s'.incomplete == s.incomplete
    requires s'.objects == s.objects
    ensures RecordsInv(s')
  {
    LeavingKeepsRecords(s, s');
  }

  lemma OmittingKnows(lim: Limits, s: Session, i: nat, r: Record)
    requires SessionInv(lim, s) && i < |s.attempts| && r.attempt == KeyAt(s, i) && ValidLogicalPath(r.logical)
    requires (r.attempt, r.logical) !in s.logical && !r.disposition.Stored? && r.digest.None? && r.objectPath.None?
    ensures Knows(s, s.(logical := s.logical + {(r.attempt, r.logical)}), i, r)
  {
    NotingIsHarmless(lim, s, s.(logical := s.logical + {(r.attempt, r.logical)}));
  }

  /** The session that has taken note of the artifact's path. */
  function Noted(s: Session, key: AttemptKey, logical: string): Session { s.(logical := s.logical + {(key, logical)}) }

  datatype Ending = Unchanged | Broken | Omitted(observed: nat) | Filed(bytes: string) | Refused(bytes: string)

  /** The session an artifact call ends in, `known` being the one that has taken note of the path. */
  function EndsIn(s: Session, known: Session, i: nat, input: ArtifactInput, end: Ending): Session
    requires i < |known.attempts|
  {
    match end
    case Unchanged => s
    case Broken => Fail(known)
    case Omitted(observed) => OmitForLimit(known, i, input, observed)
    case Filed(bytes) => RecordArtifact(StoredIn(known, bytes), i, StoredRecord(input, bytes))
    case Refused(bytes) => Fail(StoreObject(known, bytes, false).0)
  }

  lemma NotedKeepsFiles(s: Session, key: AttemptKey, logical: string)
    requires FilesOk(s) && LaidOut(s)
    ensures FilesOk(Noted(s, key, logical)) && LaidOut(Noted(s, key, logical))
  {
    SameFiles(s, Noted(s, key, logical));
    LayoutStays(s, Noted(s, key, logical));
  }

  /** An object is listed unless a limit of the bundle is met, and needs no listing if it is filed already. */
  ghost predicate ObjectsCanBeListed(s: Session) {
    forall bytes, lists {:trigger StoreObject(s, bytes, lists)} ::
      StoreObject(s, bytes, lists).1 == (lists || Digest(Raw(bytes)) in s.objects)
  }

  lemma ListingWorks(s: Session)
    requires FilesOk(s) && LaidOut(s)
    ensures ObjectsCanBeListed(s)
  {
    forall bytes, lists ensures StoreObject(s, bytes, lists).1 == (lists || Digest(Raw(bytes)) in s.objects) {
      StoreObjectKeepsFiles(s, bytes, lists);
    }
  }

  lemma KeepingEnds(s: Session, known: Session, i: nat, input: ArtifactInput, room: nat) returns (end: Ending)
    requires ObjectsCanBeListed(known) && i < |known.attempts|
    ensures KeepArtifact(known, i, input, room) == EndsIn(s, known, i, input, end) && !end.Unchanged?
  {
    var read := StreamArtifact(input.chunks, room, "");
    if read.over { return Omitted(read.observed); }
    if input.broken { return Broken; }
    assert StoreObject(known, read.bytes, input.lists).1 == (input.lists || Digest(Raw(read.bytes)) in known.objects);
    end := if input.lists || Digest(Raw(read.bytes)) in known.objects then Filed(read.bytes) else Refused(read.bytes);
  }

  /** The ways an artifact call can end. */
  lemma ArtifactEnds(lim: Limits, s: Session, input: ArtifactInput) returns (end: Ending)
    requires FilesOk(s) && LaidOut(s) && IndexOfKey(s.attempts, input.key) < |s.attempts|
    ensures AddArtifact(lim, s, input) == EndsIn(s, Noted(s, input.key, input.logical), IndexOfKey(s.attempts, input.key), input, end)
    ensures !end.Unchanged? ==> ValidLogicalPath(input.logical) && (input.key, input.logical) !in s.logical && s.state.Active?
  {
    if !s.state.Active? || !ValidLogicalPath(input.logical) || (input.key, input.logical) in s.logical { return Unchanged; }
    var i, room := IndexOfKey(s.attempts, input.key), ArtifactRoom(lim, s, input);
    if RecordsFull(lim, s, i) || room <= 0 || (input.meta.declared.Some? && input.meta.declared.value > room) { return Omitted(0); }
    NotedKeepsFiles(s, input.key, input.logical);
    ListingWorks(Noted(s, input.key, input.logical));
    end := KeepingEnds(s, Noted(s, input.key, input.logical), i, input, room);
  }

  lemma EndIsKept(lim: Limits, s: Session, i: nat, input: ArtifactInput, end: Ending)
    requires SessionInv(lim, s) && i < |s.attempts| && input.key == KeyAt(s, i)
    requires !end.Unchanged? ==> ValidLogicalPath(input.logical) && (input.key, input.logical) !in s.logical && s.state.Active?
    ensures Kept(lim, s, EndsIn(s, Noted(s, input.key, input.logical), i, input, end), [])
  {
    match end {
      case Unchanged => NothingIsKept(lim, s);
      case Broken => NotingIsHarmless(lim, s, Fail(Noted(s, input.key, input.logical)));
      case Omitted(observed) =>
        OmissionIsKept(lim, s, i, Omission(input.key, input.logical, OmittedLimit, observed, input.meta, ["artifact-omitted-limit"]));
      case Filed(bytes) => StoringIsKept(lim, s, i, input, bytes);
      case Refused(bytes) => RefusingIsKept(lim, s, Noted(s, input.key, input.logical), bytes);
    }
  }

  lemma AddArtifactIsKept(lim: Limits, s: Session, input: ArtifactInput)
    requires SessionInv(lim, s)
    ensures Kept(lim, s, AddArtifact(lim, s, input), [])
  {
    if IndexOfKey(s.attempts, input.key) == |s.attempts| {
      NothingIsKept(lim, s);
    } else {
      var end := ArtifactEnds(lim, s, input);
      EndIsKept(lim, s, IndexOfKey(s.attempts, input.key), input, end);
    }
  }

  lemma StoringIsKept(lim: Limits, s: Session, i: nat, input: ArtifactInput, bytes: string)
    requires SessionInv(lim, s) && i < |s.attempts| && input.key == KeyAt(s, i) && ValidLogicalPath(input.logical)
    requires (input.key, input.logical) !in s.logical
    ensures var known := Noted(s, input.key, input.logical);
            Kept(lim, s, RecordArtifact(StoredIn(known, bytes), i, StoredRecord(input, bytes)), [])
  {
    var known := s.(logical := s.logical + {(input.key, input.logical)});
    StoringKnows(lim, s, known, i, input, bytes);
    RecordingKeepsSession(lim, s, StoredIn(known, bytes), i, StoredRecord(input, bytes));
  }

  lemma OmissionIsKept(lim: Limits, s: Session, i: nat, r: Record)
    requires SessionInv(lim, s) && i < |s.attempts| && r.attempt == KeyAt(s, i) && ValidLogicalPath(r.logical)
    requires (r.attempt, r.logical) !in s.logical && !r.disposition.Stored? && r.digest.None? && r.objectPath.None?
    ensures Kept(lim, s, RecordArtifact(Noted(s, r.attempt, r.logical), i, r), [])
  {
    OmittingKnows(lim, s, i, r);
    RecordingKeepsSession(lim, s, s.(logical := s.logical + {(r.attempt, r.logical)}), i, r);
  }

  lemma RecordOmissionIsKept(lim: Limits, s: Session, key: AttemptKey, logical: string, disposition: Disposition, observed: nat,
                             meta: Meta, limitations: seq<string>)
    requires SessionInv(lim, s)
    ensures Kept(lim, s, RecordOmission(lim, s, key, logical, disposition, observed, meta, limitations), [])
  {
    var i, s' := IndexOfKey(s.attempts, key), RecordOmission(lim, s, key, logical, disposition, observed, meta, limitations);
    if s.state.Active? && i < |s.attempts| && !disposition.Stored? && ValidLogicalPath(logical)
       && (key, logical) !in s.logical && !RecordsFull(lim, s, i) {
      var r := Omission(key, logical, disposition, observed, meta, if limitations == [] then ["artifact was not stored"] else limitations);
      OmissionIsKept(lim, s, i, r);
      assert s' == RecordArtifact(Noted(s, r.attempt, r.logical), i, r);
    } else {
      NothingIsKept(lim, s);
      assert s' == s;
    }
  }

  lemma CollectionCompleteIsKept(lim: Limits, s: Session, key: AttemptKey)
    requires SessionInv(lim, s)
    ensures Kept(lim, s, MarkCollectionComplete(s, key), [])
  {
    var i, s' := IndexOfKey(s.attempts, key), MarkCollectionComplete(s, key);
    if !s.state.Active? || i == |s.attempts| || !s.attempts[i].artifacts.NotProvided? {
      NothingIsKept(lim, s);
      assert s' == s;
    } else {
      CollectionCompleteKeepsFiles(s, key);
      LayoutStays(s, s');
      CollectionCompleteKeepsRecords(s, i);
      CollectionCompleteLeavesRest(s, i);
      LeavingKeepsEvents(s, s');
      LeavingKeepsLogs(lim, s, s');
    }
  }

  lemma CollectionCompleteLeavesRest(s: Session, i: nat)
    requires i < |s.attempts|
    ensures var s' := Update(s, i, s.attempts[i].(artifacts := CapturedEmpty));
            LeavesEvents(s, s') && LeavesLogs(s, s') && (Unfinished(s) ==> Unfinished(s'))
  {
  }

  lemma CollectionCompleteKeepsRecords(s: Session, i: nat)
    requires RecordsInv(s) && i < |s.attempts| && s.attempts[i].artifacts.NotProvided?
    ensures RecordsInv(Update(s, i, s.attempts[i].(artifacts := CapturedEmpty)))
  {
    var s' := Update(s, i, s.attempts[i].(artifacts := CapturedEmpty));
    forall k | 0 <= k < |s'.attempts| ensures AttemptRecordsOk(s', k) { assert AttemptRecordsOk(s, k); }
    forall r | r in s'.records ensures RecordFound(s', r) {
      assert RecordFound(s, r);
      var k :| 0 <= k < |s.attempts| && r in s.attempts[k].records;
      assert r in s'.attempts[k].records;
    }
  }

  /** A call emits its event when the session is active before and after it. */
  function EmittedBy(s: Session, s': Session, call: Call): seq<Event> {
    if call.EmitCall? && s.state.Active? && s'.state.Active? then [call.event] else []
  }

  predicate OnLog(call: Call) { call.OpenLogCall? || call.WriteLogCall? || call.MarkTruncatedCall? || call.CloseLogCall? }

  lemma LogCallsAreKept(lim: Limits, s: Session, call: Call)
    requires SessionInv(lim, s) && OnLog(call)
    ensures Kept(lim, s, Do(lim, s, call), [])
  {
    match call
    case OpenLogCall(key, stream) => OpenLogIsKept(lim, s, key, stream);
    case WriteLogCall(key, stream, data) => WriteLogIsKept(lim, s, key, stream, data);
    case MarkTruncatedCall(key, stream, n) => MarkTruncatedIsKept(lim, s, key, stream, n);
    case CloseLogCall(key, stream, lists) => CloseLogIsKept(lim, s, key, stream, lists);
  }

  lemma ArtifactCallsAreKept(lim: Limits, s: Session, call: Call)
    requires SessionInv(lim, s) && !call.EmitCall? && !OnLog(call)
    ensures Kept(lim, s, Do(lim, s, call), [])
  {
    match call
    case AddArtifactCall(input) => AddArtifactIsKept(lim, s, input);
    case OmissionCall(key, logical, disposition, observed, meta, limitations) =>
      RecordOmissionIsKept(lim, s, key, logical, disposition, observed, meta, limitations);
    case CollectionCompleteCall(key) => CollectionCompleteIsKept(lim, s, key);
  }

  /** Every call keeps the invariant, and adds its event to what the files hold if it emits one. */
  lemma CallIsKept(lim: Limits, s: Session, call: Call)
    requires SessionInv(lim, s)
    ensures Kept(lim, s, Do(lim, s, call), EmittedBy(s, Do(lim, s, call), call))
  {
    if call.EmitCall? {
      EmitIsKept(lim, s, call.event, call.encodable, call.fits, call.lists);
    } else if OnLog(call) {
      LogCallsAreKept(lim, s, call);
    } else {
      ArtifactCallsAreKept(lim, s, call);
    }
  }

  // ---------------------------------------------------------------- theorems over all sessions

  predicate Admissible(lim: Limits, plan: Plan) { PlanAccepted(lim, plan) && lim.maxAttempts <= ABSOLUTE_MAX_ATTEMPTS }

  lemma {:induction false} FreshHasNothing(s: Session, n: nat)
    requires Fresh(s) && n <= |s.attempts|
    ensures AllEvents(s, n) == [] && Offset(s.attempts, n) == 0 && LogTotal(s.attempts[..n]) == 0
  {
    if n > 0 {
      FreshHasNothing(s, n - 1);
      assert s.attempts[..n][..n - 1] == s.attempts[..n - 1];
    }
  }

  ghost predicate Fresh(s: Session) {
    && s.attempts != [] && s.state.Active? && s.current == 0 && s.next == 0 && s.totalEvents == 0 && s.totalLog == 0
    && s.records == [] && s.objects == {}
    && (forall i {:trigger s.attempts[i]} | 0 <= i < |s.attempts| :: s.attempts[i] == NewAttempt(s.attempts[i].planned))
    && (forall i {:trigger EventsOf(s, i)} | 0 <= i < |s.attempts| :: EventsOf(s, i) == [])
  }

  lemma FreshIsSound(lim: Limits, s: Session)
    requires Fresh(s)
    ensures EventsInv(s) && RecordsInv(s) && LogsInv(lim, s) && Unfinished(s) && AllEvents(s, |s.attempts|) == []
  {
    var n := |s.attempts|;
    FreshHasNothing(s, n);
    assert s.attempts[..n] == s.attempts;
    forall i | 0 <= i < n ensures RangeOk(s, i) && AttemptRecordsOk(s, i) && AttemptLogsOk(lim, s, i) { FreshHasNothing(s, i); }
  }

  lemma BeginIsFresh(lim: Limits, plan: Plan)
    requires PlanAccepted(lim, plan)
    ensures Fresh(Begin(lim, plan).value)
  {
    BeginIs(lim, plan);
  }

  lemma BeginIsSound(lim: Limits, plan: Plan)
    requires Admissible(lim, plan)
    ensures SessionInv(lim, Begin(lim, plan).value) && AllEvents(Begin(lim, plan).value, |Begin(lim, plan).value.attempts|) == []
  {
    BeginKeepsFiles(lim, plan);
    BeginIsFresh(lim, plan);
    FreshIsSound(lim, Begin(lim, plan).value);
  }

  /** The events that were emitted, in order. */
  function Emitted(lim: Limits, plan: Plan, calls: seq<Call>): seq<Event>
    requires PlanAccepted(lim, plan)
  {
    if calls == [] then []
    else
      var s := After(lim, plan, calls[..|calls| - 1]); var call := calls[|calls| - 1];
      Emitted(lim, plan, calls[..|calls| - 1]) + EmittedBy(s, Do(lim, s, call), call)
  }

  /** Whatever is called, the session stays sound, and its event files together hold exactly the
      emitted events, in the order of emission. */
  lemma {:induction false} SessionsAreSound(lim: Limits, plan: Plan, calls: seq<Call>)
    requires Admissible(lim, plan)
    ensures var s := After(lim, plan, calls);
            SessionInv(lim, s) && s.plan == plan && AllEvents(s, |s.attempts|) == Emitted(lim, plan, calls)
  {
    if calls == [] {
      BeginIsSound(lim, plan);
    } else {
      SessionsAreSound(lim, plan, calls[..|calls| - 1]);
      CallIsKept(lim, After(lim, plan, calls[..|calls| - 1]), calls[|calls| - 1]);
    }
  }

  /** The ranges of the attempts tile 1..n: each begins right after the one before, and ends after as
      many events as the attempt has. */
  lemma RangesTile(lim: Limits, plan: Plan, calls: seq<Call>, i: nat)
    requires Admissible(lim, plan) && i < |After(lim, plan, calls).attempts|
    ensures var s := After(lim, plan, calls); var a := s.attempts[i];
            && |EventsOf(s, i)| == a.count
            && (a.count > 0 ==> a.first == Offset(s.attempts, i) + 1 && a.last == Offset(s.attempts, i + 1))
            && Offset(s.attempts, |s.attempts|) == |Emitted(lim, plan, calls)|
  {
    SessionsAreSound(lim, plan, calls);
    var s := After(lim, plan, calls);
    assert RangeOk(s, i);
    AllEventsCount(s, |s.attempts|);
  }

  lemma {:induction false} AllEventsCount(s: Session, n: nat)
    requires n <= |s.attempts| && EventsCore(s)
    ensures |AllEvents(s, n)| == Offset(s.attempts, n)
  {
    if n > 0 {
      AllEventsCount(s, n - 1);
      assert RangeOk(s, n - 1);
    }
  }

  /** Across all interleaved streams: a log stores a prefix of what was written to it, within its limit;
      it is truncated exactly when more was observed than stored, and then the evidence is incomplete;
      and the stored sizes add up to the session's total, within the limit of all logs. */
  lemma LogsAreFaithful(lim: Limits, plan: Plan, calls: seq<Call>, i: nat, stream: Stream)
    requires Admissible(lim, plan) && i < |After(lim, plan, calls).attempts| && LogAt(After(lim, plan, calls).attempts[i], stream).Some?
    ensures var s := After(lim, plan, calls); var log := LogAt(s.attempts[i], stream).value;
            && log.bytes <= log.offered && |log.bytes| <= lim.logPerStream
            && (log.truncated <==> log.observed > |log.bytes|) && (log.truncated ==> s.incomplete)
            && (!log.truncated ==> log.bytes == log.offered && log.observed == |log.offered|)
            && s.totalLog == LogTotal(s.attempts) <= lim.totalLog
  {
    SessionsAreSound(lim, plan, calls);
    assert AttemptLogsOk(lim, After(lim, plan, calls), i);
  }
}

/** What single calls of the evidence writer do to a sound session, said in the limits, the counts and the
    files; and what a log holds of all that was written to it. */
module EvidenceAnswers {
  import opened Options
  import opened EvidenceModel
  import opened EvidenceSession
  import opened EvidenceFiles
  import opened EvidenceEvents
  import opened EvidenceRecords
  import opened EvidenceRuns

  // ---------------------------------------------------------------- finding an attempt

  lemma FoundByKey(s: Session, i: nat)
    requires DirsApart(s) && i < |s.attempts|
    ensures IndexOfKey(s.attempts, KeyAt(s, i)) == i
  {
    var k := IndexOfKey(s.attempts, KeyAt(s, i));
    assert k <= i && DirOf(KeyAt(s, k)) == DirOf(KeyAt(s, i));
  }

  /** The position of the attempt with this key. */
  ghost predicate IsAttempt(s: Session, i: nat, key: AttemptKey) { i < |s.attempts| && s.attempts[i].planned.key == key }

  lemma AttemptIsFound(s: Session, i: nat, key: AttemptKey)
    requires DirsApart(s)
    ensures IsAttempt(s, i, key) <==> i == IndexOfKey(s.attempts, key) && i < |s.attempts|
  {
    if IsAttempt(s, i, key) { FoundByKey(s, i); }
  }

  // ---------------------------------------------------------------- events

  /** The event is the next of the run in every respect, it is for the current attempt or a later one, and
      no limit stands against it. */
  ghost predicate IsNextEvent(lim: Limits, s: Session, e: Event, lists: bool, i: nat) {
    && e.valid && e.run == s.plan.run && e.sequence == s.totalEvents + 1
    && e.id == EventId(Digest(PlanDoc(s.plan)), s.plan.run, s.totalEvents + 1)
    && IsAttempt(s, i, e.key) && s.current <= i
    && s.attempts[i].count < lim.eventsPerAttempt && s.totalEvents < lim.eventsPerBundle
    && (i == s.current || !s.attempts[s.current].eventsOpen || lists)
    && (s.attempts[i].eventsOpen || AttemptPath(DirOf(e.key), EventsFile) !in s.files)
  }

  lemma RoutedMeans(s: Session, e: Event, i: nat)
    requires s.state.Active? && EventsInv(s) && DirsApart(s) && IsAttempt(s, i, e.key)
    ensures Routed(s, e) <==>
              && e.run == s.plan.run && e.sequence == s.totalEvents + 1 && s.current <= i
              && e.id == EventId(Digest(PlanDoc(s.plan)), s.plan.run, s.totalEvents + 1)
    ensures IndexOfKey(s.attempts, e.key) == i
  {
    AttemptIsFound(s, i, e.key);
  }

  /** Going on to a later attempt works unless the file that is left behind cannot be listed. */
  lemma MovesOnUnlessUnlisted(s: Session, i: nat, next: nat, lists: bool)
    requires s.current <= i < |s.attempts| && NameOk(s, s.current, EventsFile)
    ensures MoveOn(s, i, next, lists).1 <==> i == s.current || !s.attempts[s.current].eventsOpen || lists
    ensures MoveOn(s, i, next, lists).1 ==> MovedTo(s, MoveOn(s, i, next, lists).0, i, next)
  {
    CloseEventsIs(s, s.current, lists);
  }

  lemma EventIsWritten(lim: Limits, s: Session, i: nat, e: Event, fits: bool)
    requires s.state.Active? && i < |s.attempts| && e.sequence >= 0
    ensures var s', a, p := WriteEvent(lim, s, i, e, fits), s.attempts[i], FileOf(s.attempts[i], EventsFile);
            && (s'.state.Active? <==> fits && (a.eventsOpen || p !in s.files)
                                      && a.count < lim.eventsPerAttempt && s.totalEvents < lim.eventsPerBundle)
            && (s'.state.Active? ==>
                  && |s'.attempts| == |s.attempts| && s'.current == s.current && s'.next == s.next && s'.totalEvents == s.totalEvents + 1
                  && s'.files == s.files[p := EventLines((if a.eventsOpen then EventsIn(s, p) else []) + [e])]
                  && s'.attempts[i] == a.(eventsOpen := true, events := Captured, count := a.count + 1,
                                          first := if a.first == 0 then e.sequence else a.first, last := e.sequence))
  {
  }

  lemma EmitGoesOn(lim: Limits, s: Session, e: Event, encodable: bool, fits: bool, lists: bool, i: nat)
    requires s.state.Active? && i == IndexOfKey(s.attempts, e.key) && s.current < |s.attempts|
    ensures var s' := Emit(lim, s, e, encodable, fits, lists);
            if encodable && e.valid && Routed(s, e) && MoveOn(s, i, e.sequence, lists).1 then
              s' == WriteEvent(lim, MoveOn(s, i, e.sequence, lists).0, i, e, fits)
            else s'.state == SessionFailed
  {
  }

  /** Of an emit of an event of attempt `i`: when it succeeds and what it then does. */
  lemma EmitOfAttempt(lim: Limits, s: Session, e: Event, encodable: bool, fits: bool, lists: bool, i: nat)
    requires s.state.Active? && EventsInv(s) && DirsApart(s) && IsAttempt(s, i, e.key) && NameOk(s, s.current, EventsFile)
    ensures Emit(lim, s, e, encodable, fits, lists).state.Active? <==> encodable && fits && IsNextEvent(lim, s, e, lists, i)
    ensures Emit(lim, s, e, encodable, fits, lists).state.Active? ==> Written(s, e, i, Emit(lim, s, e, encodable, fits, lists))
  {
    RoutedMeans(s, e, i);
    EmitGoesOn(lim, s, e, encodable, fits, lists, i);
    if Routed(s, e) {
      MovesOnUnlessUnlisted(s, i, e.sequence, lists);
      var moved := MoveOn(s, i, e.sequence, lists).0;
      if MoveOn(s, i, e.sequence, lists).1 { WritingAfterMoving(lim, s, moved, i, e, fits); }
    }
  }

  /** Moving on has changed nothing that the event is written to. */
  ghost predicate MovedTo(s: Session, moved: Session, i: nat, next: nat)
    requires i < |s.attempts|
  {
    && |moved.attempts| == |s.attempts| && moved.state == s.state && moved.files == s.files && moved.totalEvents == s.totalEvents
    && moved.attempts[i] == s.attempts[i] && moved.current == i && moved.next == next
  }

  lemma WritingAfterMoving(lim: Limits, s: Session, moved: Session, i: nat, e: Event, fits: bool)
    requires i < |s.attempts| && s.state.Active? && e.sequence >= 0 && MovedTo(s, moved, i, e.sequence)
    ensures var s', a := WriteEvent(lim, moved, i, e, fits), s.attempts[i];
            && (s'.state.Active? <==> fits && (a.eventsOpen || FileOf(a, EventsFile) !in s.files)
                                      && a.count < lim.eventsPerAttempt && s.totalEvents < lim.eventsPerBundle)
            && (s'.state.Active? ==> Written(s, e, i, s'))
  {
    EventIsWritten(lim, moved, i, e, fits);
  }

  /** The event is the next line of its attempt's file, which is opened if need be, and the next of its
      range; the session has gone on to its attempt. */
  ghost predicate Written(s: Session, e: Event, i: nat, s': Session)
    requires i < |s.attempts|
  {
    var a, p := s.attempts[i], AttemptPath(DirOf(s.attempts[i].planned.key), EventsFile);
    && |s'.attempts| == |s.attempts| && s'.current == i && s'.next == e.sequence && s'.totalEvents == s.totalEvents + 1
    && s'.files == s.files[p := EventLines((if a.eventsOpen then EventsIn(s, p) else []) + [e])]
    && s'.attempts[i] == a.(eventsOpen := true, events := Captured, count := a.count + 1,
                            first := if a.first == 0 then e.sequence else a.first, last := e.sequence)
  }

  /** An emit succeeds exactly when its event is the next one, and then writes it; it never changes a
      session that is not active any more. */
  lemma EmitAnswer(lim: Limits, s: Session, e: Event, encodable: bool, fits: bool, lists: bool)
    requires SessionInv(lim, s)
    ensures var s' := Emit(lim, s, e, encodable, fits, lists);
            && (!s.state.Active? ==> s' == s)
            && (s'.state.Active? <==> s.state.Active? && encodable && fits && exists i: nat :: IsNextEvent(lim, s, e, lists, i))
            && (s'.state.Active? ==> exists i: nat :: IsNextEvent(lim, s, e, lists, i) && Written(s, e, i, s'))
  {
    if s.state.Active? {
      var k := IndexOfKey(s.attempts, e.key);
      assert NameOk(s, s.current, EventsFile);
      forall i: nat | IsAttempt(s, i, e.key) ensures i == k { AttemptIsFound(s, i, e.key); }
      if k < |s.attempts| { EmitOfAttempt(lim, s, e, encodable, fits, lists, k); }
    }
  }

  // ---------------------------------------------------------------- logs

  ghost predicate TakesWrites(s: Session, i: nat, stream: Stream) {
    s.state.Active? && i < |s.attempts| && LogAt(s.attempts[i], stream).Some? && !LogAt(s.attempts[i], stream).value.closed
  }

  /** This many bytes are within both limits, and no more would be. */
  ghost predicate MostThatFits(lim: Limits, s: Session, log: Log, data: string, kept: nat) {
    && kept <= |data| && |log.bytes| + kept <= lim.logPerStream && s.totalLog + kept <= lim.totalLog
    && (kept == |data| || |log.bytes| + kept == lim.logPerStream || s.totalLog + kept == lim.totalLog)
  }

  /** The log after a write that kept this many bytes. */
  function Grown(log: Log, data: string, kept: nat): Log
    requires kept <= |data|
  {
    Log(log.bytes + data[..kept], log.observed + |data|, log.truncated || kept < |data|, false, log.offered + data)
  }

  lemma RoomIsUsed(lim: Limits, s: Session, log: Log, data: string) returns (kept: nat)
    requires |log.bytes| <= lim.logPerStream && s.totalLog <= lim.totalLog
    ensures MostThatFits(lim, s, log, data, kept)
    ensures EvidenceSession.Written(log, data, Room(lim, s, log)) == Grown(log, data, kept)
    ensures |data| > Room(lim, s, log) <==> kept < |data|
  {
    var room := Room(lim, s, log);
    kept := if |data| <= room then |data| else room;
    assert data[..|data|] == data && data[..0] == "";
  }

  /** The session after a write that kept this many bytes. */
  ghost predicate Logged(s: Session, s': Session, i: nat, stream: Stream, log: Log, kept: nat, dropped: bool)
    requires i < |s.attempts|
  {
    var a := s.attempts[i];
    s' == s.(attempts := s.attempts[i := if stream == Stdout then a.(out := Some(log)) else a.(err := Some(log))],
             files := s.files[AttemptPath(DirOf(a.planned.key), LogFile(stream)) := Raw(log.bytes)],
             totalLog := s.totalLog + kept, incomplete := s.incomplete || dropped)
  }

  lemma AppendingIs(lim: Limits, s: Session, i: nat, stream: Stream, data: string, kept: nat)
    requires i < |s.attempts| && LogAt(s.attempts[i], stream).Some? && kept <= |data|
    requires var log := LogAt(s.attempts[i], stream).value;
             && EvidenceSession.Written(log, data, Room(lim, s, log)) == Grown(log, data, kept)
             && (|data| > Room(lim, s, log) <==> kept < |data|)
    ensures Logged(s, AppendLog(lim, s, i, stream, data), i, stream, Grown(LogAt(s.attempts[i], stream).value, data, kept), kept, kept < |data|)
  {
  }

  /** A write to an open log keeps as many bytes as both limits allow, counts them all, and marks log and
      session when it drops any; it changes nothing else. */
  lemma WriteLogAnswer(lim: Limits, s: Session, key: AttemptKey, stream: Stream, data: string, i: nat)
    requires SessionInv(lim, s) && IsAttempt(s, i, key)
    ensures var s' := WriteLog(lim, s, key, stream, data);
            if !TakesWrites(s, i, stream) then s' == s
            else
              var log := LogAt(s.attempts[i], stream).value;
              exists kept: nat :: MostThatFits(lim, s, log, data, kept)
                                  && Logged(s, s', i, stream, Grown(log, data, kept), kept, kept < |data|)
  {
    AttemptIsFound(s, i, key);
    if TakesWrites(s, i, stream) {
      assert AttemptLogsOk(lim, s, i);
      var kept := RoomIsUsed(lim, s, LogAt(s.attempts[i], stream).value, data);
      AppendingIs(lim, s, i, stream, data, kept);
    }
  }

  /** What the call writes to the log, if it is one that takes writes. */
  function WrittenBy(s: Session, call: Call, i: nat, stream: Stream): string {
    if call.WriteLogCall? && call.stream == stream && s.state.Active? && i < |s.attempts| && s.attempts[i].planned.key == call.key
       && LogAt(s.attempts[i], stream).Some? && !LogAt(s.attempts[i], stream).value.closed then call.data else ""
  }

  /** All that was written to the log while it was open, in order. */
  function AllWritten(lim: Limits, plan: Plan, calls: seq<Call>, i: nat, stream: Stream): string
    requires PlanAccepted(lim, plan)
  {
    if calls == [] then ""
    else
      AllWritten(lim, plan, calls[..|calls| - 1], i, stream)
      + WrittenBy(After(lim, plan, calls[..|calls| - 1]), calls[|calls| - 1], i, stream)
  }

  /** The logs of the attempt are as they were. */
  ghost predicate LogsStay(s: Session, s': Session, i: nat)
    requires i < |s.attempts|
  {
    i < |s'.attempts| && s'.attempts[i].out == s.attempts[i].out && s'.attempts[i].err == s.attempts[i].err
  }

  lemma EmitLeavesLogs(lim: Limits, s: Session, e: Event, encodable: bool, fits: bool, lists: bool, i: nat)
    requires i < |s.attempts|
    ensures LogsStay(s, Emit(lim, s, e, encodable, fits, lists), i)
  {
    EmitTouches(lim, s, e, encodable, fits, lists);
    assert SameRest(s.attempts[i], Emit(lim, s, e, encodable, fits, lists).attempts[i]);
  }

  lemma RecordingLeavesLogs(s: Session, k: nat, r: Record, i: nat)
    requires k < |s.attempts| && i < |s.attempts|
    ensures LogsStay(s, RecordArtifact(s, k, r), i)
  {
  }

  lemma KeepingLeavesLogs(s: Session, k: nat, input: ArtifactInput, room: nat, i: nat)
    requires k < |s.attempts| && i < |s.attempts|
    ensures LogsStay(s, KeepArtifact(s, k, input, room), i)
  {
    var read := StreamArtifact(input.chunks, room, "");
    StoreObjectLeavesRest(s, read.bytes, input.lists);
    var stored := StoreObject(s, read.bytes, input.lists).0;
    RecordingLeavesLogs(stored.(totalArtifact := stored.totalArtifact + |read.bytes|), k, StoredRecord(input, read.bytes), i);
  }

  lemma ArtifactLeavesLogs(lim: Limits, s: Session, input: ArtifactInput, i: nat)
    requires i < |s.attempts|
    ensures LogsStay(s, AddArtifact(lim, s, input), i)
  {
    var k := IndexOfKey(s.attempts, input.key);
    if k < |s.attempts| && ArtifactRoom(lim, s, input) > 0 {
      KeepingLeavesLogs(s.(logical := s.logical + {(input.key, input.logical)}), k, input, ArtifactRoom(lim, s, input), i);
    }
  }

  /** What has been written to the log of the attempt after the call. */
  ghost predicate Offers(s: Session, i: nat, stream: Stream, written: string) {
    i < |s.attempts| && (match LogAt(s.attempts[i], stream) case None => written == "" case Some(log) => log.offered == written)
  }

  lemma WriteOffers(lim: Limits, s: Session, key: AttemptKey, other: Stream, data: string, i: nat, stream: Stream, written: string)
    requires DirsApart(s) && Offers(s, i, stream, written)
    ensures Offers(WriteLog(lim, s, key, other, data), i, stream, written + WrittenBy(s, WriteLogCall(key, other, data), i, stream))
  {
    assert written + "" == written;
    AttemptIsFound(s, i, key);
  }

  lemma OpeningOffers(s: Session, key: AttemptKey, other: Stream, i: nat, stream: Stream, written: string)
    requires Offers(s, i, stream, written)
    ensures Offers(OpenLog(s, key, other), i, stream, written)
  {
  }

  lemma MarkingOffers(s: Session, key: AttemptKey, other: Stream, n: int, i: nat, stream: Stream, written: string)
    requires Offers(s, i, stream, written)
    ensures Offers(MarkTruncated(s, key, other, n), i, stream, written)
  {
  }

  lemma ClosingOffers(s: Session, key: AttemptKey, other: Stream, lists: bool, i: nat, stream: Stream, written: string)
    requires Offers(s, i, stream, written)
    ensures Offers(CloseLogOf(s, key, other, lists), i, stream, written)
  {
    var k := IndexOfKey(s.attempts, key);
    if k < |s.attempts| { CloseLogIs(s, k, other, lists); }
  }

  lemma OmissionLeavesLogs(lim: Limits, s: Session, call: Call, i: nat)
    requires i < |s.attempts| && (call.OmissionCall? || call.CollectionCompleteCall?)
    ensures LogsStay(s, Do(lim, s, call), i)
  {
  }

  lemma CallOffers(lim: Limits, s: Session, call: Call, i: nat, stream: Stream, written: string)
    requires DirsApart(s) && Offers(s, i, stream, written)
    ensures Offers(Do(lim, s, call), i, stream, written + WrittenBy(s, call, i, stream))
  {
    assert written + "" == written;
    match call
    case EmitCall(e, encodable, fits, lists) => EmitLeavesLogs(lim, s, e, encodable, fits, lists, i);
    case AddArtifactCall(input) => ArtifactLeavesLogs(lim, s, input, i);
    case OpenLogCall(key, other) => OpeningOffers(s, key, other, i, stream, written);
    case WriteLogCall(key, other, data) => WriteOffers(lim, s, key, other, data, i, stream, written);
    case MarkTruncatedCall(key, other, n) => MarkingOffers(s, key, other, n, i, stream, written);
    case CloseLogCall(key, other, lists) => ClosingOffers(s, key, other, lists, i, stream, written);
    case _ => OmissionLeavesLogs(lim, s, call, i);
  }

  lemma {:induction false} LogsKnowWhatWasWritten(lim: Limits, plan: Plan, calls: seq<Call>, i: nat, stream: Stream)
    requires Admissible(lim, plan) && i < |Expand(plan)|
    ensures Offers(After(lim, plan, calls), i, stream, AllWritten(lim, plan, calls, i, stream))
  {
    if calls == [] {
      BeginIsFresh(lim, plan);
      SessionsAreSound(lim, plan, calls);
    } else {
      var before := calls[..|calls| - 1];
      LogsKnowWhatWasWritten(lim, plan, before, i, stream);
      SessionsAreSound(lim, plan, before);
      CallOffers(lim, After(lim, plan, before), calls[|calls| - 1], i, stream, AllWritten(lim, plan, before, i, stream));
    }
  }

  /** A log file holds the beginning of all that was written to it while it was open. It is all of that,
      unless its own limit or the limit of all logs is used up; and a log that is not truncated is whole. */
  lemma LogHoldsWhatWasWritten(lim: Limits, plan: Plan, calls: seq<Call>, i: nat, stream: Stream)
    requires Admissible(lim, plan) && i < |Expand(plan)|
    ensures var s, written := After(lim, plan, calls), AllWritten(lim, plan, calls, i, stream);
            && i < |s.attempts|
            && (LogAt(s.attempts[i], stream).None? ==> written == "")
            && (LogAt(s.attempts[i], stream).Some? ==>
                  var log, p := LogAt(s.attempts[i], stream).value, AttemptPath(DirOf(s.attempts[i].planned.key), LogFile(stream));
                  && p in s.files && s.files[p] == Raw(log.bytes) && log.bytes <= written
                  && (log.bytes == written || |log.bytes| == lim.logPerStream || s.totalLog == lim.totalLog)
                  && (!log.truncated ==> log.bytes == written))
  {
    SessionsAreSound(lim, plan, calls);
    LogsKnowWhatWasWritten(lim, plan, calls, i, stream);
    var s := After(lim, plan, calls);
    assert AttemptLogsOk(lim, s, i) && NameOk(s, i, LogFile(stream));
    if LogAt(s.attempts[i], stream).Some? { LogsAreFaithful(lim, plan, calls, i, stream); }
  }

  /** Opening a log puts an empty file in place; a log that is there already is left alone. */
  lemma OpenLogAnswer(lim: Limits, s: Session, key: AttemptKey, stream: Stream, i: nat)
    requires SessionInv(lim, s) && IsAttempt(s, i, key)
    ensures var s', a := OpenLog(s, key, stream), s.attempts[i]; var log := Log("", 0, false, false, "");
            s' == if s.state == Active && LogAt(a, stream).None? then
                    s.(attempts := s.attempts[i := if stream == Stdout then a.(out := Some(log), stdout := CapturedEmpty)
                                                   else a.(err := Some(log), stderr := CapturedEmpty)],
                       files := s.files[AttemptPath(DirOf(key), LogFile(stream)) := Raw("")])
                  else s
  {
    AttemptIsFound(s, i, key);
    assert NameOk(s, i, LogFile(stream));
  }

  /** A reported truncation is always of more than was written. */
  function Marked(log: Log, observedAtLeast: int): Log {
    log.(observed := if observedAtLeast > log.observed then observedAtLeast else log.observed + 1, truncated := true)
  }

  lemma MarkingIs(s: Session, key: AttemptKey, stream: Stream, observedAtLeast: int, i: nat)
    requires i == IndexOfKey(s.attempts, key) && TakesWrites(s, i, stream)
    ensures var log, a := Marked(LogAt(s.attempts[i], stream).value, observedAtLeast), s.attempts[i];
            MarkTruncated(s, key, stream, observedAtLeast)
            == s.(attempts := s.attempts[i := if stream == Stdout then a.(out := Some(log)) else a.(err := Some(log))], incomplete := true)
  {
  }

  lemma MarkTruncatedAnswer(lim: Limits, s: Session, key: AttemptKey, stream: Stream, observedAtLeast: int, i: nat)
    requires SessionInv(lim, s) && IsAttempt(s, i, key)
    ensures var s', a := MarkTruncated(s, key, stream, observedAtLeast), s.attempts[i];
            if !TakesWrites(s, i, stream) then s' == s
            else
              var log := Marked(LogAt(a, stream).value, observedAtLeast);
              s' == s.(attempts := s.attempts[i := if stream == Stdout then a.(out := Some(log)) else a.(err := Some(log))], incomplete := true)
  {
    AttemptIsFound(s, i, key);
    if TakesWrites(s, i, stream) { MarkingIs(s, key, stream, observedAtLeast, i); }
  }

  /** The log is closed, with the capture state that says what became of it. */
  predicate LogIsClosed(a: Attempt, a': Attempt, stream: Stream, log: Log, capture: Capture) {
    a' == if stream == Stdout then a.(out := Some(log.(closed := true)), stdout := capture)
          else a.(err := Some(log.(closed := true)), stderr := capture)
  }

  /** Closing lists a log once, as truncated, empty or captured; without room in the bundle the file stays
      in place unlisted. */
  lemma CloseLogAnswer(lim: Limits, s: Session, key: AttemptKey, stream: Stream, lists: bool, i: nat)
    requires SessionInv(lim, s) && IsAttempt(s, i, key)
    ensures var s', a := CloseLogOf(s, key, stream, lists), s.attempts[i];
            if LogAt(a, stream).None? || LogAt(a, stream).value.closed then s' == s
            else
              var log, p := LogAt(a, stream).value, AttemptPath(DirOf(key), LogFile(stream));
              var capture := if log.truncated then Truncated else if log.bytes == "" then CapturedEmpty else Captured;
              && |s'.attempts| == |s.attempts| && LogIsClosed(a, s'.attempts[i], stream, log, capture)
              && (if lists then s' == s.(attempts := s.attempts[i := s'.attempts[i]], payloads := s.payloads + {p},
                                         entries := s.entries + [Entry(p, LogRole(stream), Digest(Raw(log.bytes)), Some(key), capture)])
                  else s' == s.(attempts := s.attempts[i := s'.attempts[i]], stray := s.stray + {p}))
  {
    AttemptIsFound(s, i, key);
    assert NameOk(s, i, LogFile(stream));
    assert LogAt(s.attempts[i], stream).Some? && !LogAt(s.attempts[i], stream).value.closed ==> IsOpen(s.attempts[i], LogFile(stream));
  }

  // ---------------------------------------------------------------- artifacts

  /** All that the input holds. */
  function AllBytes(chunks: seq<string>): string { if chunks == [] then "" else chunks[0] + AllBytes(chunks[1..]) }

  lemma {:induction false} StreamIsWholeOrOver(chunks: seq<string>, max: nat, sofar: string)
    requires |sofar| <= max
    ensures var r, all := StreamArtifact(chunks, max, sofar), sofar + AllBytes(chunks);
            && (r.over <==> |all| > max) && (!r.over ==> r.bytes == all) && (r.over ==> max < r.observed <= |all|)
  {
    if chunks == [] {
      assert sofar + "" == sofar;
    } else {
      assert (sofar + chunks[0]) + AllBytes(chunks[1..]) == sofar + AllBytes(chunks);
      if |sofar| + |chunks[0]| <= max { StreamIsWholeOrOver(chunks[1..], max, sofar + chunks[0]); }
    }
  }

  /** The limit for this artifact: what the caller asks for, if that is less than the limit for any. */
  function SingleLimit(lim: Limits, input: ArtifactInput): nat {
    if 1 <= input.maxBytes < lim.singleArtifact then input.maxBytes else lim.singleArtifact
  }

  /** There may be another record, and the artifact is within its own limit and within what is left of the
      limit for all, in what it declares and in what it is; when nothing at all is left it is not taken either. */
  ghost predicate ArtifactFits(lim: Limits, s: Session, i: nat, input: ArtifactInput)
    requires i < |s.attempts|
  {
    var single, left := SingleLimit(lim, input), lim.totalArtifact - s.totalArtifact;
    && |s.attempts[i].records| < lim.artifactsPerAttempt && |s.records| < lim.artifactsPerBundle
    && 0 < single && 0 < left && |AllBytes(input.chunks)| <= single && |AllBytes(input.chunks)| <= left
    && (input.meta.declared.Some? ==> input.meta.declared.value <= single && input.meta.declared.value <= left)
  }

  /** The record is the last of its attempt and of the bundle. */
  ghost predicate RecordsThis(s: Session, s': Session, i: nat, r: Record)
    requires i < |s.attempts|
  {
    && |s'.attempts| == |s.attempts| && s'.records == s.records + [r] && s'.attempts[i].records == s.attempts[i].records + [r]
    && s'.state == s.state && s'.logical == s.logical + {(r.attempt, r.logical)}
    && s'.attempts[i].artifacts == (if r.disposition == Stored then Captured else OmittedByLimit)
    && (s'.incomplete <==> s.incomplete || r.disposition != Stored)
  }

  ghost predicate IsOmission(r: Record, input: ArtifactInput) {
    && r.logical == input.logical && r.attempt == input.key && r.disposition == OmittedLimit && r.digest == None
    && r.objectPath == None && r.meta == input.meta && r.observed <= |AllBytes(input.chunks)|
  }

  ghost predicate IsStoredWhole(r: Record, input: ArtifactInput) {
    var all := AllBytes(input.chunks);
    && r.logical == input.logical && r.attempt == input.key && r.disposition == Stored && r.meta == input.meta
    && r.digest == Some(Digest(Raw(all))) && r.objectPath == Some(ObjectPath(Digest(Raw(all)))) && r.size == |all|
  }

  /** The artifact can be placed: its object is there already, or the bundle has room to list it. */
  ghost predicate CanBeListed(s: Session, input: ArtifactInput) { Digest(Raw(AllBytes(input.chunks))) in s.objects || input.lists }

  /** What becomes of an artifact of attempt `i` whose path is valid and new: it is stored whole when it
      fits, and else recorded as omitted; an input that breaks, and an object that cannot be listed, fail
      the session without a record. */
  ghost predicate ArtifactAnswered(lim: Limits, s: Session, i: nat, input: ArtifactInput, s': Session)
    requires i < |s.attempts|
  {
    var all := AllBytes(input.chunks);
    if !ArtifactFits(lim, s, i, input) then
      s'.files == s.files && s'.totalArtifact == s.totalArtifact && exists r :: IsOmission(r, input) && RecordsThis(s, s', i, r)
    else if input.broken then s'.state == SessionFailed && s'.files == s.files && s'.records == s.records
    else if CanBeListed(s, input) then
      && s'.files == (if Digest(Raw(all)) in s.objects then s.files else s.files[ObjectPath(Digest(Raw(all))) := Raw(all)])
      && s'.totalArtifact == s.totalArtifact + |all| && exists r :: IsStoredWhole(r, input) && RecordsThis(s, s', i, r)
    else s'.state == SessionFailed && s'.records == s.records && s'.files == s.files[ObjectPath(Digest(Raw(all))) := Raw(all)]
  }

  lemma OmittingAnswers(lim: Limits, s: Session, i: nat, input: ArtifactInput, observed: nat)
    requires i < |s.attempts| && !ArtifactFits(lim, s, i, input) && observed <= |AllBytes(input.chunks)|
    ensures ArtifactAnswered(lim, s, i, input, OmitForLimit(s.(logical := s.logical + {(input.key, input.logical)}), i, input, observed))
  {
    var r := Omission(input.key, input.logical, OmittedLimit, observed, input.meta, ["artifact-omitted-limit"]);
    assert IsOmission(r, input);
    assert RecordsThis(s, OmitForLimit(s.(logical := s.logical + {(input.key, input.logical)}), i, input, observed), i, r);
  }

  lemma PlacingIs(s: Session, bytes: string, lists: bool)
    ensures var d := Digest(Raw(bytes)); var (s', ok) := StoreObject(s, bytes, lists);
            && (ok <==> d in s.objects || (lists && ObjectPath(d) !in s.payloads))
            && s'.files == (if d in s.objects then s.files else s.files[ObjectPath(d) := Raw(bytes)])
            && s' == s.(files := s'.files, folders := s'.folders, entries := s'.entries, payloads := s'.payloads,
                        objects := s'.objects, stray := s'.stray)
  {
  }

  lemma ListedIsFiled(s: Session, d: Digest)
    requires FilesOk(s) && ObjectPath(d) in s.payloads
    ensures d in s.objects
  {
    var p := ObjectPath(d);
    assert HasEntry(s.entries, p);
    var e :| e in s.entries && e.path == p;
    assert EntryOk(s, e) && PathOk(s, p);
    assert p in s.stray ==> StrayOk(s, p);
  }

  lemma StoringAnswers(lim: Limits, s: Session, i: nat, input: ArtifactInput)
    requires FilesOk(s) && i < |s.attempts| && ArtifactFits(lim, s, i, input) && !input.broken
    ensures var known := s.(logical := s.logical + {(input.key, input.logical)});
            var bytes := AllBytes(input.chunks); var (stored, ok) := StoreObject(known, bytes, input.lists);
            ArtifactAnswered(lim, s, i, input,
              if !ok then Fail(stored)
              else RecordArtifact(stored.(totalArtifact := stored.totalArtifact + |bytes|), i, StoredRecord(input, bytes)))
  {
    var known, bytes := s.(logical := s.logical + {(input.key, input.logical)}), AllBytes(input.chunks);
    var (stored, ok) := StoreObject(known, bytes, input.lists);
    var d, r := Digest(Raw(bytes)), StoredRecord(input, bytes);
    if ObjectPath(d) in s.payloads { ListedIsFiled(s, d); }
    PlacingIs(known, bytes, input.lists);
    if ok {
      assert IsStoredWhole(r, input);
      assert RecordsThis(s, RecordArtifact(stored.(totalArtifact := stored.totalArtifact + |bytes|), i, r), i, r);
    }
  }

  lemma KeepingAnswers(lim: Limits, s: Session, i: nat, input: ArtifactInput, room: nat)
    requires FilesOk(s) && i < |s.attempts| && ArtifactRoom(lim, s, input) == room > 0 && !RecordsFull(lim, s, i)
    requires input.meta.declared.Some? ==> input.meta.declared.value <= room
    ensures ArtifactAnswered(lim, s, i, input, KeepArtifact(s.(logical := s.logical + {(input.key, input.logical)}), i, input, room))
  {
    StreamIsWholeOrOver(input.chunks, room, "");
    assert "" + AllBytes(input.chunks) == AllBytes(input.chunks);
    var read := StreamArtifact(input.chunks, room, "");
    if read.over {
      OmittingAnswers(lim, s, i, input, read.observed);
    } else if !input.broken {
      StoringAnswers(lim, s, i, input);
    }
  }

  /** An artifact is answered only in an active session, for a valid path that has no record yet. */
  lemma AddArtifactAnswer(lim: Limits, s: Session, input: ArtifactInput, i: nat)
    requires SessionInv(lim, s) && IsAttempt(s, i, input.key)
    ensures var s' := AddArtifact(lim, s, input);
            if s.state.Active? && ValidLogicalPath(input.logical) && (input.key, input.logical) !in s.logical then
              ArtifactAnswered(lim, s, i, input, s')
            else s' == s
  {
    AttemptIsFound(s, i, input.key);
    if s.state.Active? && ValidLogicalPath(input.logical) && (input.key, input.logical) !in s.logical {
      var room := ArtifactRoom(lim, s, input);
      if RecordsFull(lim, s, i) || room <= 0 || (input.meta.declared.Some? && input.meta.declared.value > room) {
        OmittingAnswers(lim, s, i, input, 0);
      } else {
        KeepingAnswers(lim, s, i, input, room);
      }
    }
  }

  /** An omission is recorded once for a path, as it is reported; a record that says nothing gets a reason. */
  lemma OmissionAnswer(lim: Limits, s: Session, key: AttemptKey, logical: string, disposition: Disposition, observed: nat, meta: Meta,
                       limitations: seq<string>, i: nat)
    requires SessionInv(lim, s) && IsAttempt(s, i, key)
    ensures var s' := RecordOmission(lim, s, key, logical, disposition, observed, meta, limitations);
            if s.state == Active && disposition != Stored && ValidLogicalPath(logical) && (key, logical) !in s.logical
               && |s.attempts[i].records| < lim.artifactsPerAttempt && |s.records| < lim.artifactsPerBundle then
              && s'.files == s.files && s'.totalArtifact == s.totalArtifact
              && RecordsThis(s, s', i, Record(logical, key, disposition, None, 0, observed, None, meta,
                                              if limitations == [] then ["artifact was not stored"] else limitations))
            else s' == s
  {
    AttemptIsFound(s, i, key);
    if disposition != Stored {
      OmissionIs(lim, s, key, logical, disposition, observed, meta, limitations, i);
    }
  }

  lemma OmissionIs(lim: Limits, s: Session, key: AttemptKey, logical: string, disposition: Disposition, observed: nat, meta: Meta,
                   limitations: seq<string>, i: nat)
    requires i == IndexOfKey(s.attempts, key) < |s.attempts| && disposition != Stored
    ensures var s' := RecordOmission(lim, s, key, logical, disposition, observed, meta, limitations);
            var r := Record(logical, key, disposition, None, 0, observed, None, meta,
                            if limitations == [] then ["artifact was not stored"] else limitations);
            if s.state == Active && ValidLogicalPath(logical) && (key, logical) !in s.logical && !RecordsFull(lim, s, i) then
              s'.files == s.files && s'.totalArtifact == s.totalArtifact && RecordsThis(s, s', i, r)
            else s' == s
  {
  }

  /** A finished collection shows on an attempt that has no record yet. */
  lemma CollectionCompleteAnswer(lim: Limits, s: Session, key: AttemptKey, i: nat)
    requires SessionInv(lim, s) && IsAttempt(s, i, key)
    ensures MarkCollectionComplete(s, key)
            == if s.state == Active && s.attempts[i].artifacts == NotProvided then
                 s.(attempts := s.attempts[i := s.attempts[i].(artifacts := CapturedEmpty)])
               else s
  {
    AttemptIsFound(s, i, key);
  }
}

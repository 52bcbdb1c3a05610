/** The evidence writer's session as the program has it: an object whose methods change its fields in
    place. Every method is proved to do what the call of EvidenceSession does, so all that is proved
    of sessions holds of the object. */
module EvidenceWriter {
  import opened Options
  import opened EvidenceModel
  import opened EvidenceSession
  import opened EvidenceRuns

  class Writer {
    const limits: Limits
    const plan: Plan
    var state: SessionState
    var attempts: seq<Attempt>
    var current: nat
    var next: nat
    var files: map<Path, Content>
    var folders: set<Folder>
    var entries: seq<Entry>
    var payloads: set<Path>
    var records: seq<Record>
    var objects: set<Digest>
    var logical: set<(AttemptKey, string)>
    var incomplete: bool
    var totalEvents: nat
    var totalLog: nat
    var totalArtifact: nat
    /** The files that could not be listed. */
    var stray: set<Path>
    /** The calls so far. */
    ghost var calls: seq<Call>

    function View(): Session
      reads this
    {
      Session(state, plan, attempts, current, next, files, folders, entries, payloads, records, objects, logical, incomplete,
              totalEvents, totalLog, totalArtifact, stray)
    }

    /** The session is what its calls make of the plan. */
    ghost predicate Valid()
      reads this
    {
      Admissible(limits, plan) && View() == After(limits, plan, calls)
    }

    constructor (limits: Limits, plan: Plan)
      requires Admissible(limits, plan)
      ensures Valid() && this.limits == limits && this.plan == plan && calls == []
    {
      this.limits, this.plan := limits, plan;
      var planned := Expand(plan);
      state, current, next := Active, 0, 0;
      attempts := seq(|planned|, i requires 0 <= i < |planned| => NewAttempt(planned[i]));
      folders := FixedFolders() + AttemptFolders(planned);
      files := map[PlanPath := PlanDoc(plan)];
      entries, payloads := [Entry(PlanPath, PlanRole, Digest(PlanDoc(plan)), None, Captured)], {PlanPath};
      records, objects, logical, incomplete := [], {}, {}, false;
      totalEvents, totalLog, totalArtifact, stray := 0, 0, 0, {};
      calls := [];
    }

    /** Notes the call that has been made. */
    ghost method Note(before: Session, call: Call)
      requires Admissible(limits, plan) && before == After(limits, plan, calls) && View() == Do(limits, before, call)
      modifies this`calls
      ensures Valid() && calls == old(calls) + [call] && View() == old(View())
    {
      calls := calls + [call];
      assert calls[..|calls| - 1] == old(calls);
    }

    method AddEntry(e: Entry, lists: bool) returns (ok: bool)
      modifies this`entries, this`payloads, this`stray
      ensures (View(), ok) == EvidenceSession.AddEntry(old(View()), e, lists)
    {
      if e.path in payloads { return false; }
      if !lists {
        stray := stray + {e.path};
        return false;
      }
      entries, payloads := entries + [e], payloads + {e.path};
      return true;
    }

    // ---------------------------------------------------------------- events

    method CloseEvents(i: nat, lists: bool) returns (ok: bool)
      requires i < |attempts|
      modifies this`attempts, this`entries, this`payloads, this`stray
      ensures (View(), ok) == EvidenceSession.CloseEvents(old(View()), i, lists)
    {
      var a := attempts[i];
      if !a.eventsOpen { return true; }
      var p := FileOf(a, EventsFile);
      var lines := EventsIn(View(), p);
      var capture := if lines == [] then CapturedEmpty else Captured;
      attempts := attempts[i := a.(eventsOpen := false, events := capture)];
      ok := AddEntry(Entry(p, EventsRole, Digest(EventLines(lines)), Some(a.planned.key), capture), lists);
    }

    method Emit(event: Event, encodable: bool, fits: bool, lists: bool)
      requires Valid()
      modifies this
      ensures Valid() && calls == old(calls) + [EmitCall(event, encodable, fits, lists)]
      ensures View() == EvidenceSession.Emit(limits, old(View()), event, encodable, fits, lists)
    {
      ghost var before := View();
      EmitInPlace(event, encodable, fits, lists);
      Note(before, EmitCall(event, encodable, fits, lists));
    }

    method EmitInPlace(event: Event, encodable: bool, fits: bool, lists: bool)
      modifies this`state, this`attempts, this`current, this`next, this`files, this`entries, this`payloads, this`totalEvents, this`stray
      ensures View() == EvidenceSession.Emit(limits, old(View()), event, encodable, fits, lists)
    {
      if state != Active { return; }
      if !encodable || !event.valid || !Routed(View(), event) || current >= |attempts| {
        state := SessionFailed;
        return;
      }
      var i := IndexOfKey(attempts, event.key);
      var moved := GoOn(i, event.sequence, lists);
      if !moved {
        state := SessionFailed;
        return;
      }
      WriteEvent(i, event, fits);
    }

    /** Goes on to attempt `i`, closing the event file of the attempt it leaves. */
    method GoOn(i: nat, sequence: nat, lists: bool) returns (ok: bool)
      requires current <= i < |attempts|
      modifies this`attempts, this`entries, this`payloads, this`current, this`next, this`stray
      ensures (View(), ok) == MoveOn(old(View()), i, sequence, lists)
    {
      ok := true;
      if i > current { ok := CloseEvents(current, lists); }
      if ok { current, next := i, sequence; }
    }

    method OpenEventFile(i: nat)
      requires i < |attempts|
      modifies this`attempts, this`files
      ensures View() == OpenEvents(old(View()), i)
    {
      files := files[FileOf(attempts[i], EventsFile) := EventLines([])];
      attempts := attempts[i := attempts[i].(eventsOpen := true, events := CapturedEmpty)];
    }

    method WriteEvent(i: nat, event: Event, fits: bool)
      requires i < |attempts| && event.sequence >= 0
      modifies this`state, this`attempts, this`files, this`totalEvents
      ensures View() == EvidenceSession.WriteEvent(limits, old(View()), i, event, fits)
    {
      var p := FileOf(attempts[i], EventsFile);
      if !attempts[i].eventsOpen {
        if p in files {
          state := SessionFailed;
          return;
        }
        OpenEventFile(i);
      }
      if attempts[i].count >= limits.eventsPerAttempt || totalEvents >= limits.eventsPerBundle || !fits {
        state := SessionFailed;
        return;
      }
      AppendEventInPlace(i, event);
    }

    method AppendEventInPlace(i: nat, event: Event)
      requires i < |attempts| && event.sequence >= 0
      modifies this`attempts, this`files, this`totalEvents
      ensures View() == AppendEvent(old(View()), i, event)
    {
      var a := attempts[i];
      var p := FileOf(a, EventsFile);
      files := files[p := EventLines(EventsIn(View(), p) + [event])];
      totalEvents := totalEvents + 1;
      attempts := attempts[i := a.(count := a.count + 1, first := if a.first == 0 then event.sequence else a.first,
                                   last := event.sequence, events := Captured)];
    }

    // ---------------------------------------------------------------- logs

    method OpenLog(key: AttemptKey, stream: Stream)
      requires Valid()
      modifies this
      ensures Valid() && calls == old(calls) + [OpenLogCall(key, stream)]
      ensures View() == EvidenceSession.OpenLog(old(View()), key, stream)
    {
      ghost var before := View();
      OpenLogInPlace(key, stream);
      Note(before, OpenLogCall(key, stream));
    }

    method OpenLogInPlace(key: AttemptKey, stream: Stream)
      modifies this`state, this`attempts, this`files
      ensures View() == EvidenceSession.OpenLog(old(View()), key, stream)
    {
      var i := IndexOfKey(attempts, key);
      if state != Active || i == |attempts| || LogAt(attempts[i], stream).Some? { return; }
      var p := FileOf(attempts[i], LogFile(stream));
      if p in files {
        state := SessionFailed;
        return;
      }
      files := files[p := Raw("")];
      attempts := attempts[i := SetLog(attempts[i], stream, Log("", 0, false, false, ""), CapturedEmpty)];
    }

    /** Stores as much of the data as the limits leave room for. */
    method WriteLog(key: AttemptKey, stream: Stream, data: string)
      requires Valid()
      modifies this
      ensures Valid() && calls == old(calls) + [WriteLogCall(key, stream, data)]
      ensures View() == EvidenceSession.WriteLog(limits, old(View()), key, stream, data)
    {
      ghost var before := View();
      WriteLogInPlace(key, stream, data);
      Note(before, WriteLogCall(key, stream, data));
    }

    method WriteLogInPlace(key: AttemptKey, stream: Stream, data: string)
      modifies this`attempts, this`files, this`totalLog, this`incomplete
      ensures View() == EvidenceSession.WriteLog(limits, old(View()), key, stream, data)
    {
      var i := IndexOfKey(attempts, key);
      if state != Active || i == |attempts| || LogAt(attempts[i], stream).None? || LogAt(attempts[i], stream).value.closed { return; }
      Append(i, stream, data);
    }

    method StoreLog(i: nat, stream: Stream, log: Log)
      requires i < |attempts|
      modifies this`attempts, this`files
      ensures var s := old(View()); var a := s.attempts[i];
              View() == Update(s, i, SetLog(a, stream, log, LogCaptureAt(a, stream)))
                        .(files := s.files[FileOf(a, LogFile(stream)) := Raw(log.bytes)])
    {
      files := files[FileOf(attempts[i], LogFile(stream)) := Raw(log.bytes)];
      attempts := attempts[i := SetLog(attempts[i], stream, log, LogCaptureAt(attempts[i], stream))];
    }

    method Append(i: nat, stream: Stream, data: string)
      requires i < |attempts| && LogAt(attempts[i], stream).Some?
      modifies this`attempts, this`files, this`totalLog, this`incomplete
      ensures View() == AppendLog(limits, old(View()), i, stream, data)
    {
      var log := LogAt(attempts[i], stream).value;
      var remaining := Min(limits.logPerStream - |log.bytes|, limits.totalLog - totalLog);
      var longer := Extend(log, data, remaining);
      StoreLog(i, stream, longer);
      totalLog := totalLog + |longer.bytes| - |log.bytes|;
      if |data| > remaining { incomplete := true; }
    }

    method MarkTruncated(key: AttemptKey, stream: Stream, observedAtLeast: int)
      requires Valid()
      modifies this
      ensures Valid() && calls == old(calls) + [MarkTruncatedCall(key, stream, observedAtLeast)]
      ensures View() == EvidenceSession.MarkTruncated(old(View()), key, stream, observedAtLeast)
    {
      ghost var before := View();
      MarkTruncatedInPlace(key, stream, observedAtLeast);
      Note(before, MarkTruncatedCall(key, stream, observedAtLeast));
    }

    method MarkTruncatedInPlace(key: AttemptKey, stream: Stream, observedAtLeast: int)
      modifies this`attempts, this`incomplete
      ensures View() == EvidenceSession.MarkTruncated(old(View()), key, stream, observedAtLeast)
    {
      var i := IndexOfKey(attempts, key);
      if state != Active || i == |attempts| || LogAt(attempts[i], stream).None? || LogAt(attempts[i], stream).value.closed { return; }
      var log := LogAt(attempts[i], stream).value;
      var observed := observedAtLeast;
      if observed <= log.observed { observed := log.observed + 1; }
      attempts := attempts[i := SetLog(attempts[i], stream, log.(observed := observed, truncated := true), LogCaptureAt(attempts[i], stream))];
      incomplete := true;
    }

    method CloseLogAt(i: nat, stream: Stream, lists: bool) returns (ok: bool)
      requires i < |attempts|
      modifies this`attempts, this`entries, this`payloads, this`stray
      ensures (View(), ok) == EvidenceSession.CloseLog(old(View()), i, stream, lists)
    {
      var a := attempts[i];
      if LogAt(a, stream).None? || LogAt(a, stream).value.closed { return true; }
      var log := LogAt(a, stream).value;
      var capture := Captured;
      if log.bytes == "" { capture := CapturedEmpty; }
      if log.truncated { capture := Truncated; }
      attempts := attempts[i := SetLog(a, stream, log.(closed := true), capture)];
      ok := AddEntry(Entry(FileOf(a, LogFile(stream)), LogRole(stream), Digest(Raw(log.bytes)), Some(a.planned.key), capture), lists);
    }

    method CloseLog(key: AttemptKey, stream: Stream, lists: bool) returns (ok: bool)
      requires Valid()
      modifies this
      ensures Valid() && calls == old(calls) + [CloseLogCall(key, stream, lists)]
      ensures View() == CloseLogOf(old(View()), key, stream, lists)
    {
      ghost var before := View();
      var i := IndexOfKey(attempts, key);
      ok := false;
      if i < |attempts| { ok := CloseLogAt(i, stream, lists); }
      Note(before, CloseLogCall(key, stream, lists));
    }

    // ---------------------------------------------------------------- artifacts

    method Record(i: nat, r: EvidenceModel.Record)
      requires i < |attempts|
      modifies this`attempts, this`records, this`incomplete
      ensures View() == RecordArtifact(old(View()), i, r)
    {
      var a := attempts[i];
      var capture := Captured;
      if !r.disposition.Stored? {
        capture := OmittedByLimit;
        incomplete := true;
      }
      attempts := attempts[i := a.(records := a.records + [r], artifacts := capture)];
      records := records + [r];
    }

    method FileObject(bytes: string, lists: bool) returns (ok: bool)
      modifies this`files, this`folders, this`entries, this`payloads, this`objects, this`stray
      ensures (View(), ok) == StoreObject(old(View()), bytes, lists)
    {
      var d := Digest(Raw(bytes));
      if d in objects { return true; }
      folders := folders + {ShardFolder(Shard(d))};
      files := files[ObjectPath(d) := Raw(bytes)];
      ok := AddEntry(Entry(ObjectPath(d), ObjectRole, d, None, Captured), lists);
      if ok { objects, stray := objects + {d}, stray - {ObjectPath(d)}; }
    }

    method AddArtifact(input: ArtifactInput)
      requires Valid()
      modifies this
      ensures Valid() && calls == old(calls) + [AddArtifactCall(input)]
      ensures View() == EvidenceSession.AddArtifact(limits, old(View()), input)
    {
      ghost var before := View();
      AddArtifactInPlace(input);
      Note(before, AddArtifactCall(input));
    }

    method AddArtifactInPlace(input: ArtifactInput)
      modifies this
      ensures calls == old(calls)
      ensures View() == EvidenceSession.AddArtifact(limits, old(View()), input)
    {
      var i := IndexOfKey(attempts, input.key);
      if state != Active || i == |attempts| || !ValidLogicalPath(input.logical) || (input.key, input.logical) in logical { return; }
      var full, room := RecordsFull(limits, View(), i), ArtifactRoom(limits, View(), input);
      logical := logical + {(input.key, input.logical)};
      if full || room <= 0 || (input.meta.declared.Some? && input.meta.declared.value > room) {
        Record(i, Omission(input.key, input.logical, OmittedLimit, 0, input.meta, ["artifact-omitted-limit"]));
        return;
      }
      Keep(i, input, room);
    }

    /** Reads the artifact and files it, unless it turns out to be larger than there is room for. */
    method Keep(i: nat, input: ArtifactInput, room: nat)
      requires i < |attempts|
      modifies this
      ensures calls == old(calls)
      ensures View() == KeepArtifact(old(View()), i, input, room)
    {
      var read := ReadArtifact(input.chunks, room);
      if read.over {
        Record(i, Omission(input.key, input.logical, OmittedLimit, read.observed, input.meta, ["artifact-omitted-limit"]));
        return;
      }
      if input.broken {
        state := SessionFailed;
        return;
      }
      var stored := FileObject(read.bytes, input.lists);
      if !stored {
        state := SessionFailed;
        return;
      }
      totalArtifact := totalArtifact + |read.bytes|;
      Record(i, StoredRecord(input, read.bytes));
    }

    method RecordArtifactOmission(key: AttemptKey, path: string, disposition: Disposition, observed: nat, meta: Meta, limitations: seq<string>)
      requires Valid()
      modifies this
      ensures Valid() && calls == old(calls) + [OmissionCall(key, path, disposition, observed, meta, limitations)]
      ensures View() == RecordOmission(limits, old(View()), key, path, disposition, observed, meta, limitations)
    {
      ghost var before := View();
      RecordArtifactOmissionInPlace(key, path, disposition, observed, meta, limitations);
      Note(before, OmissionCall(key, path, disposition, observed, meta, limitations));
    }

    method RecordArtifactOmissionInPlace(key: AttemptKey, path: string, disposition: Disposition, observed: nat, meta: Meta, limitations: seq<string>)
      modifies this
      ensures calls == old(calls)
      ensures View() == RecordOmission(limits, old(View()), key, path, disposition, observed, meta, limitations)
    {
      var i := IndexOfKey(attempts, key);
      if state != Active || i == |attempts| || disposition.Stored? || !ValidLogicalPath(path) || (key, path) in logical
         || RecordsFull(limits, View(), i) { return; }
      logical := logical + {(key, path)};
      var reasons := limitations;
      if reasons == [] { reasons := ["artifact was not stored"]; }
      Record(i, Omission(key, path, disposition, observed, meta, reasons));
    }

    method MarkArtifactCollectionComplete(key: AttemptKey)
      requires Valid()
      modifies this
      ensures Valid() && calls == old(calls) + [CollectionCompleteCall(key)]
      ensures View() == MarkCollectionComplete(old(View()), key)
    {
      ghost var before := View();
      MarkArtifactCollectionCompleteInPlace(key);
      assert View() == Do(limits, before, CollectionCompleteCall(key));
      Note(before, CollectionCompleteCall(key));
    }

    method MarkArtifactCollectionCompleteInPlace(key: AttemptKey)
      modifies this`attempts
      ensures View() == MarkCollectionComplete(old(View()), key)
    {
      var i := IndexOfKey(attempts, key);
      if state != Active || i == |attempts| { return; }
      if attempts[i].artifacts == NotProvided { attempts := attempts[i := attempts[i].(artifacts := CapturedEmpty)]; }
    }

    // ---------------------------------------------------------------- committing

    method WritePayload(p: Path, role: Role, key: Option<AttemptKey>, content: Content) returns (ok: bool)
      modifies this`files, this`entries, this`payloads, this`stray
      ensures (View(), ok) == EvidenceSession.WritePayload(old(View()), p, role, key, content)
    {
      if p in files { return false; }
      files := files[p := content];
      ok := AddEntry(Entry(p, role, Digest(content), key, Captured), true);
    }

    method FinalizeOne(i: nat) returns (ok: bool)
      requires i < |attempts|
      modifies this`attempts, this`files, this`entries, this`payloads, this`stray
      ensures (View(), ok) == FinalizeAttempt(old(View()), i)
    {
      ok := CloseEvents(i, true);
      if !ok { return; }
      ok := CloseLogAt(i, Stdout, true);
      if !ok { return; }
      ok := CloseLogAt(i, Stderr, true);
      if !ok { return; }
      if NeedsIndex(attempts[i]) {
        var a := attempts[i];
        attempts := attempts[i := a.(indexed := true)];
        ok := WritePayload(FileOf(a, IndexFile), IndexRole, Some(a.planned.key), IndexDoc(a.planned.key, a.records));
      }
    }

    method FinalizeCaptures() returns (ok: bool)
      modifies this`attempts, this`files, this`entries, this`payloads, this`stray
      ensures (View(), ok) == Finalize(old(View()), old(|attempts|))
    {
      ghost var start := View();
      var n, i := |attempts|, 0;
      ok := true;
      while i < n && ok
        invariant 0 <= i <= n == |start.attempts| && |attempts| == n
        invariant (View(), ok) == Finalize(start, i)
      {
        NextFinalized(start, View(), i);
        ok := FinalizeOne(i);
        i := i + 1;
      }
      if !ok { FinalizeStaysFailed(start, i, n); }
    }

    method WriteResultOf(i: nat, results: seq<AttemptResult>) returns (ok: bool)
      requires i < |attempts|
      modifies this`attempts, this`files, this`entries, this`payloads, this`stray
      ensures (View(), ok) == WriteResult(old(View()), i, results)
    {
      var a := attempts[i];
      var found := ResultFor(results, a.planned.key);
      if found.None? { return true; }
      var r := found.value;
      if r.count != a.count || r.first != a.first || r.last != a.last { return false; }
      ok := WritePayload(FileOf(a, ResultFile), ResultRole, Some(a.planned.key), ResultDoc(r));
      if ok { attempts := attempts[i := a.(result := Captured)]; }
    }

    method WriteResults(results: seq<AttemptResult>) returns (ok: bool)
      modifies this`attempts, this`files, this`entries, this`payloads, this`stray
      ensures (View(), ok) == EvidenceSession.WriteResults(old(View()), old(|attempts|), results)
    {
      ghost var start := View();
      var n, i := |attempts|, 0;
      ok := true;
      while i < n && ok
        invariant 0 <= i <= n == |start.attempts| && |attempts| == n
        invariant (View(), ok) == EvidenceSession.WriteResults(start, i, results)
      {
        ok := WriteResultOf(i, results);
        i := i + 1;
      }
      if !ok { ResultsStayFailed(start, i, n, results); }
    }

    /** Everything that a commit writes before the manifest. */
    method WriteEverything(c: Completion) returns (ok: bool)
      modifies this
      ensures (View(), ok) == WriteAll(old(View()), c) && calls == old(calls)
    {
      ok := FinalizeCaptures();
      if ok {
        ok := c.plan == Digest(PlanDoc(plan)) && ResultsDistinct(c.attempts) && (c.complete ==> |c.attempts| == |attempts|);
        if ok { ok := WriteResults(c.attempts); }
        if ok { ok := WritePayload(ExecutionPath, ExecutionRole, None, ExecutionContent(ExecutionOf(View(), c))); }
      }
    }

    /** Publishes the bundle, or takes the session down. */
    method Commit(c: Completion, room: bool) returns (bundle: Option<Bundle>)
      requires Valid()
      modifies this
      ensures (View(), bundle) == EvidenceSession.Commit(old(View()), c, room)
    {
      if !((state == Active || (state == SessionFailed && c.incomplete)) && (c.incomplete || !incomplete)) { return None; }
      if !room {
        state := Aborted;
        return None;
      }
      var ok := WriteEverything(c);
      if !ok || (!c.incomplete && !EvidenceComplete(View(), c)) || (c.incomplete && c.failure == None) {
        state := Aborted;
        return None;
      }
      bundle := Some(Bundle(files, folders, ManifestOf(View(), c)));
      state := Committed;
    }
  }

  /** Appends as much of the data as `remaining` bytes leave room for. */
  method Extend(log: Log, data: string, remaining: int) returns (longer: Log)
    ensures longer == Written(log, data, remaining)
  {
    var bytes, truncated := log.bytes, log.truncated;
    if remaining > 0 {
      var chunk := data;
      if |chunk| > remaining {
        chunk := chunk[..remaining];
        truncated := true;
      }
      bytes := bytes + chunk;
    } else {
      assert bytes + "" == bytes;
    }
    if |data| > remaining { truncated := true; }
    return Log(bytes, log.observed + |data|, truncated, false, log.offered + data);
  }

  /** Reads chunk by chunk until the input ends or has shown more than `max` bytes. */
  method ReadArtifact(chunks: seq<string>, max: nat) returns (r: Streamed)
    ensures r == StreamArtifact(chunks, max, "")
  {
    var stored, i := "", 0;
    while i < |chunks|
      invariant i <= |chunks| && StreamArtifact(chunks[i..], max, stored) == StreamArtifact(chunks, max, "")
    {
      assert chunks[i..][1..] == chunks[i + 1..];
      if |stored| + |chunks[i]| > max { return Streamed(stored, |stored| + |chunks[i]|, true); }
      stored := stored + chunks[i];
      i := i + 1;
    }
    return Streamed(stored, |stored|, false);
  }

  lemma NextFinalized(s: Session, before: Session, i: nat)
    requires i < |s.attempts| && Finalize(s, i) == (before, true)
    ensures Finalize(s, i + 1) == FinalizeAttempt(before, i)
  {
  }

  lemma {:induction false} FinalizeStaysFailed(s: Session, i: nat, n: nat)
    requires i <= n <= |s.attempts| && !Finalize(s, i).1
    ensures Finalize(s, n) == Finalize(s, i)
  {
    if i < n { FinalizeStaysFailed(s, i, n - 1); }
  }

  lemma {:induction false} ResultsStayFailed(s: Session, i: nat, n: nat, results: seq<AttemptResult>)
    requires i <= n <= |s.attempts| && !WriteResults(s, i, results).1
    ensures WriteResults(s, n, results) == WriteResults(s, i, results)
  {
    if i < n { ResultsStayFailed(s, i, n - 1, results); }
  }
}

/** The evidence writer's session as functions on its state: what every call of the writer does to the
    staged files, to the manifest entries and to the capture states. The class in EvidenceWriter.dfy
    is proved against them. A limit of the whole bundle on entries or bytes can refuse to list a file
    that is in place already; which calls meet it is left open. Input and output errors are left out. */
module EvidenceSession {
  import opened Options
  import opened EvidenceModel

  // ---------------------------------------------------------------- state

  datatype Limits = Limits(maxAttempts: nat, eventsPerAttempt: nat, eventsPerBundle: nat, logPerStream: nat, totalLog: nat,
                           artifactsPerAttempt: nat, artifactsPerBundle: nat, singleArtifact: nat, totalArtifact: nat)

  const ABSOLUTE_MAX_ATTEMPTS: nat := 1280

  datatype SessionState = Active | SessionFailed | Committed | Aborted

  /** The program does not keep `offered`, all that was written to the log so far, nor whether an
      attempt's artifact index has been written. */
  datatype Log = Log(bytes: string, observed: nat, truncated: bool, closed: bool, offered: string)

  datatype Attempt = Attempt(planned: PlannedAttempt, eventsOpen: bool, count: nat, first: nat, last: nat,
                             events: Capture, stdout: Capture, stderr: Capture, artifacts: Capture, result: Capture,
                             out: Option<Log>, err: Option<Log>, records: seq<Record>, indexed: bool)

  /** The program does not keep `stray`, the files in place that no entry will list. */
  datatype Session = Session(state: SessionState, plan: Plan, attempts: seq<Attempt>, current: nat, next: nat,
                             files: map<Path, Content>, folders: set<Folder>, entries: seq<Entry>, payloads: set<Path>,
                             records: seq<Record>, objects: set<Digest>, logical: set<(AttemptKey, string)>,
                             incomplete: bool, totalEvents: nat, totalLog: nat, totalArtifact: nat, stray: set<Path>)

  function PlanDigest(s: Session): Digest { Digest(PlanDoc(s.plan)) }

  function KeyAt(s: Session, i: nat): AttemptKey
    requires i < |s.attempts|
  {
    s.attempts[i].planned.key
  }

  function FileOf(a: Attempt, name: FileName): Path { AttemptPath(DirOf(a.planned.key), name) }

  /** The position of an attempt, or the number of attempts. */
  function IndexOfKey(attempts: seq<Attempt>, key: AttemptKey): (i: nat)
    ensures i <= |attempts|
    ensures forall k | 0 <= k < i :: attempts[k].planned.key != key
    ensures i < |attempts| ==> attempts[i].planned.key == key
  {
    if attempts == [] || attempts[0].planned.key == key then 0 else 1 + IndexOfKey(attempts[1..], key)
  }

  function Fail(s: Session): Session { s.(state := SessionFailed) }

  function Update(s: Session, i: nat, a: Attempt): Session
    requires i < |s.attempts|
  {
    s.(attempts := s.attempts[i := a])
  }

  predicate Listed(s: Session, p: Path) { p in s.payloads }

  /** Lists a file in the manifest; a path is listed once. `lists` says that the bundle has room for the
      entry; without it the file stays where it is. */
  function AddEntry(s: Session, e: Entry, lists: bool): (Session, bool) {
    if Listed(s, e.path) then (s, false)
    else if !lists then (s.(stray := s.stray + {e.path}), false)
    else (s.(entries := s.entries + [e], payloads := s.payloads + {e.path}), true)
  }

  /** Writes a file that must not exist yet, and lists it. */
  function WritePayload(s: Session, p: Path, role: Role, key: Option<AttemptKey>, content: Content): (Session, bool) {
    if p in s.files then (s, false)
    else AddEntry(s.(files := s.files[p := content]), Entry(p, role, Digest(content), key, Captured), true)
  }

  // ---------------------------------------------------------------- beginning

  function NewAttempt(p: PlannedAttempt): Attempt {
    Attempt(p, false, 0, 0, 0, NotProvided, NotProvided, NotProvided, NotProvided, NotProvided, None, None, [], false)
  }

  predicate KeysDistinct(attempts: seq<PlannedAttempt>) {
    forall i, j | 0 <= i < j < |attempts| :: attempts[i].key != attempts[j].key
  }

  predicate PlanAccepted(lim: Limits, plan: Plan) {
    var attempts := Expand(plan);
    && plan.run != "" && 0 < |attempts| <= lim.maxAttempts
    && (forall a | a in attempts :: ValidKey(a.key)) && KeysDistinct(attempts)
  }

  function AttemptFolders(attempts: seq<PlannedAttempt>): set<Folder> {
    set i, f | 0 <= i < |attempts| && f in Parents(AttemptPath(DirOf(attempts[i].key), ResultFile)) :: f
  }

  /** A fresh session: folders for every attempt, and the plan as the only file. */
  function Begin(lim: Limits, plan: Plan): Option<Session> {
    if !PlanAccepted(lim, plan) then None
    else
      var planned := Expand(plan);
      var attempts := seq(|planned|, i requires 0 <= i < |planned| => NewAttempt(planned[i]));
      var empty := Session(Active, plan, attempts, 0, 0, map[], FixedFolders() + AttemptFolders(planned), [], {}, [], {}, {},
                           false, 0, 0, 0, {});
      Some(WritePayload(empty, PlanPath, PlanRole, None, PlanDoc(plan)).0)
  }

  // ---------------------------------------------------------------- events

  function EventsIn(s: Session, p: Path): seq<Event> {
    if p in s.files && s.files[p].EventLines? then s.files[p].events else []
  }

  /** Closes the event file of an attempt, if one is open, and lists it. */
  function CloseEvents(s: Session, i: nat, lists: bool): (r: (Session, bool))
    requires i < |s.attempts|
    ensures |r.0.attempts| == |s.attempts|
  {
    var a := s.attempts[i];
    var p := FileOf(a, EventsFile);
    if !a.eventsOpen then (s, true)
    else
      var capture := if EventsIn(s, p) == [] then CapturedEmpty else Captured;
      AddEntry(Update(s, i, a.(eventsOpen := false, events := capture)),
               Entry(p, EventsRole, Digest(EventLines(EventsIn(s, p))), Some(a.planned.key), capture), lists)
  }

  /** The event is the next of the run, carries its own id and belongs to the current or a later attempt. */
  predicate Routed(s: Session, e: Event) {
    var i := IndexOfKey(s.attempts, e.key);
    && e.run == s.plan.run && e.sequence == s.next + 1 && e.id == EventId(PlanDigest(s), s.plan.run, e.sequence)
    && s.current <= i < |s.attempts|
  }

  function OpenEvents(s: Session, i: nat): Session
    requires i < |s.attempts|
  {
    var a := s.attempts[i];
    Update(s, i, a.(eventsOpen := true, events := CapturedEmpty)).(files := s.files[FileOf(a, EventsFile) := EventLines([])])
  }

  function AppendEvent(s: Session, i: nat, e: Event): Session
    requires i < |s.attempts| && e.sequence >= 0
  {
    var a := s.attempts[i];
    var p := FileOf(a, EventsFile);
    Update(s, i, a.(count := a.count + 1, first := if a.first == 0 then e.sequence else a.first, last := e.sequence, events := Captured))
    .(files := s.files[p := EventLines(EventsIn(s, p) + [e])], totalEvents := s.totalEvents + 1)
  }

  /** Writes a routed event to the file of its attempt. `fits` says that the file has room for its line. */
  function WriteEvent(lim: Limits, s: Session, i: nat, e: Event, fits: bool): Session
    requires i < |s.attempts| && e.sequence >= 0
  {
    var a := s.attempts[i];
    if !a.eventsOpen && FileOf(a, EventsFile) in s.files then Fail(s)
    else
      var ready := if a.eventsOpen then s else OpenEvents(s, i);
      if a.count >= lim.eventsPerAttempt || s.totalEvents >= lim.eventsPerBundle || !fits then Fail(ready)
      else AppendEvent(ready, i, e)
  }

  /** Goes on to attempt `i`; an attempt that is left has its event file closed. */
  function MoveOn(s: Session, i: nat, next: nat, lists: bool): (r: (Session, bool))
    requires s.current <= i < |s.attempts|
    ensures |r.0.attempts| == |s.attempts|
  {
    if i == s.current then (s.(next := next), true)
    else
      var (closed, ok) := CloseEvents(s, s.current, lists);
      if ok then (closed.(current := i, next := next), true) else (closed, false)
  }

  /** `encodable` says that the event's envelope is complete and its JSON line within its limit, `lists`
      that the bundle has room for the event file that is left behind. */
  function Emit(lim: Limits, s: Session, e: Event, encodable: bool, fits: bool, lists: bool): Session {
    if !s.state.Active? then s
    else if !encodable || !e.valid || !Routed(s, e) || s.current >= |s.attempts| then Fail(s)
    else
      var i := IndexOfKey(s.attempts, e.key);
      var (moved, ok) := MoveOn(s, i, e.sequence, lists);
      if !ok then Fail(moved) else WriteEvent(lim, moved, i, e, fits)
  }

  // ---------------------------------------------------------------- logs

  function LogAt(a: Attempt, stream: Stream): Option<Log> { if stream.Stdout? then a.out else a.err }

  function LogCaptureAt(a: Attempt, stream: Stream): Capture { if stream.Stdout? then a.stdout else a.stderr }

  function SetLog(a: Attempt, stream: Stream, log: Log, capture: Capture): Attempt {
    if stream.Stdout? then a.(out := Some(log), stdout := capture) else a.(err := Some(log), stderr := capture)
  }

  function OpenLog(s: Session, key: AttemptKey, stream: Stream): Session {
    var i := IndexOfKey(s.attempts, key);
    if !s.state.Active? || i == |s.attempts| || LogAt(s.attempts[i], stream).Some? then s
    else
      var p := FileOf(s.attempts[i], LogFile(stream));
      if p in s.files then Fail(s)
      else Update(s, i, SetLog(s.attempts[i], stream, Log("", 0, false, false, ""), CapturedEmpty)).(files := s.files[p := Raw("")])
  }

  function Min(a: int, b: int): int { if a <= b then a else b }

  /** How much of a write the limits of the stream and of all logs leave room for. */
  function Room(lim: Limits, s: Session, log: Log): int { Min(lim.logPerStream - |log.bytes|, lim.totalLog - s.totalLog) }

  /** The log after a write that found this much room. */
  function Written(log: Log, data: string, room: int): Log {
    var chunk := if room <= 0 then "" else if |data| > room then data[..room] else data;
    Log(log.bytes + chunk, log.observed + |data|, log.truncated || |data| > room, false, log.offered + data)
  }

  function AppendLog(lim: Limits, s: Session, i: nat, stream: Stream, p: string): Session
    requires i < |s.attempts| && LogAt(s.attempts[i], stream).Some?
  {
    var log := LogAt(s.attempts[i], stream).value;
    var room := Room(lim, s, log);
    var log' := Written(log, p, room);
    Update(s, i, SetLog(s.attempts[i], stream, log', LogCaptureAt(s.attempts[i], stream)))
    .(files := s.files[FileOf(s.attempts[i], LogFile(stream)) := Raw(log'.bytes)],
      totalLog := s.totalLog + |log'.bytes| - |log.bytes|, incomplete := s.incomplete || |p| > room)
  }

  function WriteLog(lim: Limits, s: Session, key: AttemptKey, stream: Stream, p: string): Session {
    var i := IndexOfKey(s.attempts, key);
    if !s.state.Active? || i == |s.attempts| || LogAt(s.attempts[i], stream).None? || LogAt(s.attempts[i], stream).value.closed then s
    else AppendLog(lim, s, i, stream, p)
  }

  /** The observer says that it has seen more than it could hand over. */
  function MarkTruncated(s: Session, key: AttemptKey, stream: Stream, observedAtLeast: int): Session {
    var i := IndexOfKey(s.attempts, key);
    if !s.state.Active? || i == |s.attempts| || LogAt(s.attempts[i], stream).None? || LogAt(s.attempts[i], stream).value.closed then s
    else
      var log := LogAt(s.attempts[i], stream).value;
      var observed := if observedAtLeast <= log.observed then log.observed + 1 else observedAtLeast;
      Update(s, i, SetLog(s.attempts[i], stream, log.(observed := observed, truncated := true), LogCaptureAt(s.attempts[i], stream)))
      .(incomplete := true)
  }

  /** How a log is listed. */
  function CaptureOf(log: Log): Capture {
    if log.truncated then Truncated else if log.bytes == "" then CapturedEmpty else Captured
  }

  /** Closes a log, in whatever state the session is, and lists it with what became of it. */
  function CloseLog(s: Session, i: nat, stream: Stream, lists: bool): (r: (Session, bool))
    requires i < |s.attempts|
    ensures |r.0.attempts| == |s.attempts|
  {
    var a := s.attempts[i];
    if LogAt(a, stream).None? || LogAt(a, stream).value.closed then (s, true)
    else
      var log := LogAt(a, stream).value;
      var capture := CaptureOf(log);
      AddEntry(Update(s, i, SetLog(a, stream, log.(closed := true), capture)),
               Entry(FileOf(a, LogFile(stream)), LogRole(stream), Digest(Raw(log.bytes)), Some(a.planned.key), capture), lists)
  }

  // ---------------------------------------------------------------- what closing a file changes

  /** Nothing but the attempts, the entries and what is stray has changed. */
  predicate OnlyRelists(s: Session, t: Session) {
    |t.attempts| == |s.attempts| && t == s.(attempts := t.attempts, entries := t.entries, payloads := t.payloads, stray := t.stray)
  }

  /** At most this file has become stray, and not if there was room to list it. */
  predicate StraysAtMost(s: Session, t: Session, p: Path, lists: bool) {
    t.stray == s.stray || (t.stray == s.stray + {p} && !lists)
  }

  lemma CloseEventsIs(s: Session, i: nat, lists: bool)
    requires i < |s.attempts|
    ensures var t := CloseEvents(s, i, lists).0; var a, b := s.attempts[i], t.attempts[i];
            && OnlyRelists(s, t) && StraysAtMost(s, t, FileOf(a, EventsFile), lists) && t.attempts == s.attempts[i := b]
            && b == a.(eventsOpen := false, events := b.events) && (a.events == b.events || b.events.Captured? || b.events.CapturedEmpty?)
            && (!a.eventsOpen ==> b == a) && (a.eventsOpen ==> !b.events.NotProvided?)
  {
    if !s.attempts[i].eventsOpen { assert s.attempts[i := s.attempts[i]] == s.attempts; }
  }

  lemma CloseLogIs(s: Session, i: nat, stream: Stream, lists: bool)
    requires i < |s.attempts|
    ensures var t := CloseLog(s, i, stream, lists).0; var a, b := s.attempts[i], t.attempts[i]; var log := LogAt(a, stream);
            && OnlyRelists(s, t) && StraysAtMost(s, t, FileOf(a, LogFile(stream)), lists) && t.attempts == s.attempts[i := b]
            && b == if log.None? || log.value.closed then a else SetLog(a, stream, log.value.(closed := true), CaptureOf(log.value))
  {
    if LogAt(s.attempts[i], stream).None? || LogAt(s.attempts[i], stream).value.closed { assert s.attempts[i := s.attempts[i]] == s.attempts; }
  }

  // ---------------------------------------------------------------- artifacts

  datatype ArtifactInput = ArtifactInput(key: AttemptKey, logical: string, maxBytes: int, chunks: seq<string>, broken: bool, lists: bool,
                                         meta: Meta)

  datatype Streamed = Streamed(bytes: string, observed: nat, over: bool)

  /** Reads chunk by chunk until the input ends or has shown more than `max` bytes. */
  function StreamArtifact(chunks: seq<string>, max: nat, sofar: string): Streamed {
    if chunks == [] then Streamed(sofar, |sofar|, false)
    else if |sofar| + |chunks[0]| > max then Streamed(sofar, |sofar| + |chunks[0]|, true)
    else StreamArtifact(chunks[1..], max, sofar + chunks[0])
  }

  function RecordArtifact(s: Session, i: nat, r: Record): Session
    requires i < |s.attempts|
  {
    var omitted := !r.disposition.Stored?;
    var a := s.attempts[i];
    Update(s, i, a.(records := a.records + [r], artifacts := if omitted then OmittedByLimit else Captured))
    .(records := s.records + [r], incomplete := s.incomplete || omitted)
  }

  function Omission(key: AttemptKey, logical: string, disposition: Disposition, observed: nat, meta: Meta, limitations: seq<string>): Record {
    Record(logical, key, disposition, None, 0, observed, None, meta, limitations)
  }

  function OmitForLimit(s: Session, i: nat, input: ArtifactInput, observed: nat): Session
    requires i < |s.attempts|
  {
    RecordArtifact(s, i, Omission(input.key, input.logical, OmittedLimit, observed, input.meta, ["artifact-omitted-limit"]))
  }

  function StoredRecord(input: ArtifactInput, bytes: string): Record {
    var d := Digest(Raw(bytes));
    Record(input.logical, input.key, Stored, Some(d), |bytes|, 0, Some(ObjectPath(d)), input.meta, [])
  }

  /** Files the bytes under their digest, unless they are filed already. */
  function StoreObject(s: Session, bytes: string, lists: bool): (Session, bool) {
    var d := Digest(Raw(bytes));
    if d in s.objects then (s, true)
    else
      var (listed, ok) := AddEntry(s.(folders := s.folders + {ShardFolder(Shard(d))}, files := s.files[ObjectPath(d) := Raw(bytes)]),
                                   Entry(ObjectPath(d), ObjectRole, d, None, Captured), lists);
      if ok then (listed.(objects := listed.objects + {d}, stray := listed.stray - {ObjectPath(d)}), true) else (listed, false)
  }

  predicate RecordsFull(lim: Limits, s: Session, i: nat)
    requires i < |s.attempts|
  {
    |s.attempts[i].records| >= lim.artifactsPerAttempt || |s.records| >= lim.artifactsPerBundle
  }

  /** How many bytes of the artifact may be stored. */
  function ArtifactRoom(lim: Limits, s: Session, input: ArtifactInput): int {
    var single := if input.maxBytes <= 0 || input.maxBytes > lim.singleArtifact then lim.singleArtifact else input.maxBytes;
    Min(lim.totalArtifact - s.totalArtifact, single)
  }

  /** Reads the artifact and files it, unless it turns out to be larger than there is room for. */
  function KeepArtifact(s: Session, i: nat, input: ArtifactInput, room: nat): Session
    requires i < |s.attempts|
  {
    var read := StreamArtifact(input.chunks, room, "");
    if read.over then OmitForLimit(s, i, input, read.observed)
    else if input.broken then Fail(s)
    else
      var (stored, ok) := StoreObject(s, read.bytes, input.lists);
      if !ok then Fail(stored)
      else RecordArtifact(stored.(totalArtifact := stored.totalArtifact + |read.bytes|), i, StoredRecord(input, read.bytes))
  }

  function AddArtifact(lim: Limits, s: Session, input: ArtifactInput): Session {
    var i := IndexOfKey(s.attempts, input.key);
    if !s.state.Active? || i == |s.attempts| || !ValidLogicalPath(input.logical) || (input.key, input.logical) in s.logical then s
    else
      var known := s.(logical := s.logical + {(input.key, input.logical)});
      var room := ArtifactRoom(lim, s, input);
      if RecordsFull(lim, s, i) || room <= 0 || (input.meta.declared.Some? && input.meta.declared.value > room) then
        OmitForLimit(known, i, input, 0)
      else KeepArtifact(known, i, input, room)
  }

  function RecordOmission(lim: Limits, s: Session, key: AttemptKey, logical: string, disposition: Disposition, observed: nat,
                          meta: Meta, limitations: seq<string>): Session {
    var i := IndexOfKey(s.attempts, key);
    if !s.state.Active? || i == |s.attempts| || disposition.Stored? || !ValidLogicalPath(logical)
       || (key, logical) in s.logical || RecordsFull(lim, s, i) then s
    else RecordArtifact(s.(logical := s.logical + {(key, logical)}), i,
                        Omission(key, logical, disposition, observed, meta,
                                 if limitations == [] then ["artifact was not stored"] else limitations))
  }

  function MarkCollectionComplete(s: Session, key: AttemptKey): Session {
    var i := IndexOfKey(s.attempts, key);
    if !s.state.Active? || i == |s.attempts| || !s.attempts[i].artifacts.NotProvided? then s
    else Update(s, i, s.attempts[i].(artifacts := CapturedEmpty))
  }

  // ---------------------------------------------------------------- committing

  datatype Completion = Completion(plan: Digest, runner: Runner, complete: bool, attempts: seq<AttemptResult>, total: nat,
                                   failure: Option<Failure>, incomplete: bool)

  predicate NeedsIndex(a: Attempt) { a.records != [] || a.artifacts.CapturedEmpty? || a.artifacts.OmittedByLimit? }

  function WriteIndex(s: Session, i: nat): (Session, bool)
    requires i < |s.attempts|
  {
    var a := s.attempts[i];
    WritePayload(Update(s, i, a.(indexed := true)), FileOf(a, IndexFile), IndexRole, Some(a.planned.key), IndexDoc(a.planned.key, a.records))
  }

  /** Closes whatever is open of one attempt, and writes its artifact index. */
  function FinalizeAttempt(s: Session, i: nat): (r: (Session, bool))
    requires i < |s.attempts|
    ensures |r.0.attempts| == |s.attempts|
  {
    var (s1, ok1) := CloseEvents(s, i, true);
    if !ok1 then (s1, false) else
    var (s2, ok2) := CloseLog(s1, i, Stdout, true);
    if !ok2 then (s2, false) else
    var (s3, ok3) := CloseLog(s2, i, Stderr, true);
    if !ok3 then (s3, false) else if NeedsIndex(s3.attempts[i]) then WriteIndex(s3, i) else (s3, true)
  }

  function Finalize(s: Session, n: nat): (r: (Session, bool))
    requires n <= |s.attempts|
    ensures |r.0.attempts| == |s.attempts|
  {
    if n == 0 then (s, true)
    else
      var (before, ok) := Finalize(s, n - 1);
      if !ok then (before, false) else FinalizeAttempt(before, n - 1)
  }

  function ResultFor(results: seq<AttemptResult>, key: AttemptKey): Option<AttemptResult> {
    if results == [] then None
    else if results[0].key == key then Some(results[0])
    else ResultFor(results[1..], key)
  }

  predicate ResultsDistinct(results: seq<AttemptResult>) {
    forall i, j | 0 <= i < j < |results| :: results[i].key != results[j].key
  }

  /** Writes the result of one attempt, if there is one; its event range must be what was written. */
  function WriteResult(s: Session, i: nat, results: seq<AttemptResult>): (r: (Session, bool))
    requires i < |s.attempts|
    ensures |r.0.attempts| == |s.attempts|
  {
    var a := s.attempts[i];
    match ResultFor(results, a.planned.key)
    case None => (s, true)
    case Some(result) =>
      if result.count != a.count || result.first != a.first || result.last != a.last then (s, false)
      else
        var (written, ok) := WritePayload(s, FileOf(a, ResultFile), ResultRole, Some(a.planned.key), ResultDoc(result));
        if ok then (Update(written, i, a.(result := Captured)), true) else (written, false)
  }

  function WriteResults(s: Session, n: nat, results: seq<AttemptResult>): (r: (Session, bool))
    requires n <= |s.attempts|
    ensures |r.0.attempts| == |s.attempts|
  {
    if n == 0 then (s, true)
    else
      var (before, ok) := WriteResults(s, n - 1, results);
      if !ok then (before, false) else WriteResult(before, n - 1, results)
  }

  predicate EvidenceComplete(s: Session, c: Completion) { !s.incomplete && c.complete && !c.incomplete }

  function ExecutionOf(s: Session, c: Completion): ExecutionDoc {
    ExecutionDoc(s.plan.run, PlanDigest(s), c.runner, c.complete, EvidenceComplete(s, c), true, c.total, c.attempts, c.failure)
  }

  function AttemptEntryOf(a: Attempt): AttemptEntry {
    AttemptEntry(a.planned, DirOf(a.planned.key), a.events, a.stdout, a.stderr, a.artifacts, a.result, a.first, a.last, a.count)
  }

  function ManifestOf(s: Session, c: Completion): Manifest {
    Manifest(s.plan.run, PlanDigest(s), c.complete, EvidenceComplete(s, c), true, s.entries, s.records,
             seq(|s.attempts|, i requires 0 <= i < |s.attempts| => AttemptEntryOf(s.attempts[i])), c.failure)
  }

  /** Everything that is written before the manifest. */
  function WriteAll(s: Session, c: Completion): (Session, bool) {
    var (closed, ok1) := Finalize(s, |s.attempts|);
    if !ok1 || c.plan != PlanDigest(s) || !ResultsDistinct(c.attempts) || (c.complete && |c.attempts| != |s.attempts|) then (closed, false)
    else
      var (results, ok2) := WriteResults(closed, |closed.attempts|, c.attempts);
      if !ok2 then (results, false)
      else WritePayload(results, ExecutionPath, ExecutionRole, None, ExecutionContent(ExecutionOf(results, c)))
  }

  predicate MayCommit(s: Session, c: Completion) {
    (s.state.Active? || (s.state.SessionFailed? && c.incomplete)) && (c.incomplete || !s.incomplete)
  }

  /** A bundle, or none. A commit that fails on the way takes the whole session down, and what is staged
      with it. `room` says that all the commit writes keeps within the limits of the bundle, its manifest
      and its indexes. */
  function Commit(s: Session, c: Completion, room: bool): (Session, Option<Bundle>) {
    if !MayCommit(s, c) then (s, None)
    else if !room then (s.(state := Aborted), None)
    else
      var (written, ok) := WriteAll(s, c);
      if !ok || (!c.incomplete && !EvidenceComplete(written, c)) || (c.incomplete && c.failure.None?) then
        (written.(state := Aborted), None)
      else
        (written.(state := Committed), Some(Bundle(written.files, written.folders, ManifestOf(written, c))))
  }

  // ---------------------------------------------------------------- runs

  datatype Call =
    | EmitCall(event: Event, encodable: bool, fits: bool, lists: bool)
    | OpenLogCall(key: AttemptKey, stream: Stream)
    | WriteLogCall(key: AttemptKey, stream: Stream, data: string)
    | MarkTruncatedCall(key: AttemptKey, stream: Stream, observedAtLeast: int)
    | CloseLogCall(key: AttemptKey, stream: Stream, lists: bool)
    | AddArtifactCall(input: ArtifactInput)
    | OmissionCall(key: AttemptKey, logical: string, disposition: Disposition, observed: nat, meta: Meta, limitations: seq<string>)
    | CollectionCompleteCall(key: AttemptKey)

  function CloseLogOf(s: Session, key: AttemptKey, stream: Stream, lists: bool): Session {
    var i := IndexOfKey(s.attempts, key);
    if i == |s.attempts| then s else CloseLog(s, i, stream, lists).0
  }

  function Do(lim: Limits, s: Session, call: Call): Session {
    match call
    case EmitCall(e, encodable, fits, lists) => Emit(lim, s, e, encodable, fits, lists)
    case OpenLogCall(key, stream) => OpenLog(s, key, stream)
    case WriteLogCall(key, stream, data) => WriteLog(lim, s, key, stream, data)
    case MarkTruncatedCall(key, stream, n) => MarkTruncated(s, key, stream, n)
    case CloseLogCall(key, stream, lists) => CloseLogOf(s, key, stream, lists)
    case AddArtifactCall(input) => AddArtifact(lim, s, input)
    case OmissionCall(key, logical, disposition, observed, meta, limitations) =>
      RecordOmission(lim, s, key, logical, disposition, observed, meta, limitations)
    case CollectionCompleteCall(key) => MarkCollectionComplete(s, key)
  }

  /** The session after any calls on a plan that it accepted. */
  function After(lim: Limits, plan: Plan, calls: seq<Call>): Session
    requires PlanAccepted(lim, plan)
  {
    if calls == [] then Begin(lim, plan).value
    else Do(lim, After(lim, plan, calls[..|calls| - 1]), calls[|calls| - 1])
  }
}

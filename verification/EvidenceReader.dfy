/** The evidence reader's checks: independent of how a bundle was written, they decide whether its
    files, folders and manifest fit together. */
module EvidenceReader {
  import opened Options
  import opened EvidenceModel
  import opened GoText

  // ---------------------------------------------------------------- looking things up

  predicate Lists(m: Manifest, p: Path) { exists e | e in m.entries :: e.path == p }

  predicate ListsAs(m: Manifest, p: Path, role: Role) { exists e | e in m.entries :: e.path == p && e.role == role }

  /** The manifest's entry of this role for this attempt is there. */
  predicate HasFile(m: Manifest, role: Role, key: AttemptKey) {
    exists e | e in m.entries :: e.role == role && e.key == Some(key)
  }

  function AttemptAt(attempts: seq<AttemptEntry>, key: AttemptKey): (i: nat)
    ensures i <= |attempts|
    ensures forall k | 0 <= k < i :: attempts[k].planned.key != key
    ensures i < |attempts| ==> attempts[i].planned.key == key
  {
    if attempts == [] || attempts[0].planned.key == key then 0 else 1 + AttemptAt(attempts[1..], key)
  }

  // ---------------------------------------------------------------- manifest, layout, payloads

  /** The path of an entry is the one its role and its attempt call for. */
  predicate RolePathOk(e: Entry) {
    match e.role
    case PlanRole => e.path == PlanPath
    case ExecutionRole => e.path == ExecutionPath
    case ResultRole => e.key.Some? && e.path == AttemptPath(DirOf(e.key.value), ResultFile)
    case EventsRole => e.key.Some? && e.path == AttemptPath(DirOf(e.key.value), EventsFile)
    case LogRole(stream) => e.key.Some? && e.path == AttemptPath(DirOf(e.key.value), LogFile(stream))
    case IndexRole => e.key.Some? && e.path == AttemptPath(DirOf(e.key.value), IndexFile)
    case ObjectRole => e.path == ObjectPath(e.digest)
  }

  predicate PathsDistinct(entries: seq<Entry>) {
    forall i, j | 0 <= i < j < |entries| :: entries[i].path != entries[j].path
  }

  predicate ManifestOk(m: Manifest) {
    && m.transactionValid && m.run != "" && PathsDistinct(m.entries)
    && (forall e | e in m.entries :: e.path != ManifestPath && RolePathOk(e))
    && (forall a | a in m.attempts :: a.planned.ordinal > 0 && ValidKey(a.planned.key) && a.dir == DirOf(a.planned.key))
    && (forall i, j | 0 <= i < j < |m.attempts| :: m.attempts[i].planned.key != m.attempts[j].planned.key)
  }

  function PathsOf(entries: seq<Entry>): set<Path> { set i | 0 <= i < |entries| :: entries[i].path }

  function FoldersOf(paths: set<Path>): set<Folder> { set p, f | p in paths && f in Parents(p) :: f }

  /** Exactly the listed files are there, in exactly the folders they need and the fixed ones. */
  predicate LayoutOk(b: Bundle) {
    && b.files.Keys == PathsOf(b.manifest.entries)
    && b.folders == FoldersOf(b.files.Keys) + FixedFolders()
  }

  predicate PayloadsOk(b: Bundle) {
    forall e | e in b.manifest.entries :: e.path in b.files && e.digest == Digest(b.files[e.path])
  }

  // ---------------------------------------------------------------- plan, execution, results

  predicate PlanOk(b: Bundle, maxAttempts: nat) {
    && ListsAs(b.manifest, PlanPath, PlanRole) && PlanPath in b.files && b.files[PlanPath].PlanDoc?
    && var plan := b.files[PlanPath].plan;
       plan.run == b.manifest.run && plan.run != "" && b.manifest.plan == Digest(b.files[PlanPath])
       && 0 < |Expand(plan)| <= maxAttempts
  }

  predicate OutcomeOk(o: Outcome) {
    && o.duration >= 0
    && match o.status
       case Succeeded => o.exitCode == Some(0)
       case TargetFailed => o.exitCode.Some? && o.exitCode.value != 0
       case TimedOut | ResourceLimited => o.exitCode != Some(0)
       case UnknownStatus => false
  }

  predicate ResultIs(r: AttemptResult, a: PlannedAttempt) { r.key == a.key && r.id == a.id && OutcomeOk(r.outcome) }

  /** The manifest knows the attempt as planned, and its result is there, if it has to be, and agrees. */
  predicate AttemptResultOk(b: Bundle, a: PlannedAttempt, complete: bool) {
    var k := AttemptAt(b.manifest.attempts, a.key); var p := AttemptPath(DirOf(a.key), ResultFile);
    && k < |b.manifest.attempts| && b.manifest.attempts[k].planned == a
    && if !Lists(b.manifest, p) then !complete
       else
         && p in b.files && b.files[p].ResultDoc? && ResultIs(b.files[p].result, a)
         && var r := b.files[p].result; var m := b.manifest.attempts[k];
            r.count == m.count && r.first == m.first && r.last == m.last
  }

  const MAX_RUNNER_TEXT: nat := 128

  predicate BoundedText(s: string) { 0 < |s| <= MAX_RUNNER_TEXT && forall c | c in s :: ' ' <= c && c != 0x7f as char }

  /** A fake runner must not run the target, and must say that its evidence is synthetic. */
  predicate RunnerOk(r: Runner) {
    && BoundedText(r.name) && BoundedText(r.version) && !r.tier.UnknownTier?
    && (r.tier.FakeTier? ==> !r.executesTarget && r.synthetic)
  }

  predicate ExecutionOk(b: Bundle, expected: seq<PlannedAttempt>) {
    && ListsAs(b.manifest, ExecutionPath, ExecutionRole) && ExecutionPath in b.files && b.files[ExecutionPath].ExecutionContent?
    && var doc := b.files[ExecutionPath].doc;
       && doc.run == b.manifest.run && doc.plan == b.manifest.plan && doc.transactionValid && RunnerOk(doc.runner)
       && |doc.attempts| <= |expected| && (doc.complete ==> |doc.attempts| == |expected|)
       && (forall i | 0 <= i < |doc.attempts| :: ResultIs(doc.attempts[i], expected[i]))
       && (forall i | 0 <= i < |expected| :: AttemptResultOk(b, expected[i], doc.complete))
  }

  // ---------------------------------------------------------------- artifacts

  predicate RecordOk(m: Manifest, r: Record) {
    && ValidLogicalPath(r.logical)
    && match r.disposition
       case Stored =>
         && r.digest.Some? && r.digest.value.content.Raw? && r.objectPath == Some(ObjectPath(r.digest.value))
         && r.size == |r.digest.value.content.bytes|
         && exists e | e in m.entries :: e.path == r.objectPath.value && e.role == ObjectRole && e.digest == r.digest.value
       case _ => r.digest.None? && r.objectPath.None?
  }

  /** Strictly in path order, hence without duplicates. */
  predicate RecordsInOrder(records: seq<Record>) {
    forall j | 0 < j < |records| :: Before(records[j - 1].logical, records[j].logical)
  }

  predicate RecordsDistinct(records: seq<Record>) {
    forall i, j | 0 <= i < j < |records| :: records[i].logical != records[j].logical
  }

  predicate IndexOk(b: Bundle, p: Path) {
    && p in b.files && b.files[p].IndexDoc?
    && p == AttemptPath(DirOf(b.files[p].attempt), IndexFile)
    && var records := b.files[p].records;
       && RecordsInOrder(records) && RecordsDistinct(records)
       && forall r | r in records :: RecordOk(b.manifest, r) && r.attempt == b.files[p].attempt
  }

  /** The record stands in some listed index. */
  predicate Indexed(b: Bundle, r: Record) {
    exists e | e in b.manifest.entries :: e.role == IndexRole && e.path in b.files && b.files[e.path].IndexDoc?
                                          && r in b.files[e.path].records
  }

  predicate Referenced(b: Bundle, d: Digest) {
    exists e | e in b.manifest.entries :: e.role == IndexRole && e.path in b.files && b.files[e.path].IndexDoc?
      && exists r | r in b.files[e.path].records :: r.disposition.Stored? && r.digest == Some(d)
  }

  predicate ArtifactsOk(b: Bundle) {
    && (forall e | e in b.manifest.entries && e.role == IndexRole :: IndexOk(b, e.path))
    && (forall e | e in b.manifest.entries && e.role == ObjectRole :: Referenced(b, e.digest))
  }

  // ---------------------------------------------------------------- events

  datatype Range = Range(count: nat, first: nat, last: nat)

  predicate EventOk(e: Event, key: AttemptKey, plan: Digest, run: string, sequence: int) {
    e.sequence == sequence && e.id == EventId(plan, run, sequence) && e.run == run && e.key == key && e.valid
  }

  /** The lines of an event file follow sequence number `prior` one by one. */
  predicate LinesOk(events: seq<Event>, key: AttemptKey, plan: Digest, run: string, prior: nat) {
    forall j {:trigger events[j]} | 0 <= j < |events| :: EventOk(events[j], key, plan, run, prior + j + 1)
  }

  predicate Bounded(events: seq<Event>) {
    events != [] ==> events[0].kind.ScenarioStarted? && events[|events| - 1].kind.ScenarioCompleted?
  }

  /** The range of an event file whose first event must follow sequence number `prior`. */
  function ParseEvents(events: seq<Event>, key: AttemptKey, plan: Digest, run: string, complete: bool, prior: nat): Option<Range> {
    if events == [] then Some(Range(0, 0, 0))
    else if !LinesOk(events, key, plan, run, prior) || (complete && !Bounded(events)) then None
    else Some(Range(|events|, prior + 1, prior + |events|))
  }

  /** The event file of the attempt is there, and its lines decode. */
  predicate EventsReadable(b: Bundle, key: AttemptKey) {
    var p := AttemptPath(DirOf(key), EventsFile);
    p in b.files && b.files[p].EventLines?
  }

  function EventsAt(b: Bundle, key: AttemptKey): seq<Event> {
    if EventsReadable(b, key) then b.files[AttemptPath(DirOf(key), EventsFile)].events else []
  }

  /** Reads the event file of one attempt, if it has one, and checks it against the manifest. */
  function ReadAttempt(b: Bundle, key: AttemptKey, global: nat, total: nat): Option<(nat, nat)> {
    var m := b.manifest;
    var k := AttemptAt(m.attempts, key);
    if k == |m.attempts| then None
    else if !HasFile(m, EventsRole, key) then
      if m.attempts[k].count > 0 || m.evidenceComplete then None else Some((global, total))
    else if !EventsReadable(b, key) then None
    else
      match ParseEvents(EventsAt(b, key), key, m.plan, m.run, m.executionComplete, global)
      case None => None
      case Some(r) =>
        if r != Range(m.attempts[k].count, m.attempts[k].first, m.attempts[k].last) then None
        else Some((r.last, total + r.count))
  }

  /** Reads the event files of the first `n` attempts: the last sequence number seen, and how many events. */
  function ReadEvents(b: Bundle, expected: seq<PlannedAttempt>, n: nat): Option<(nat, nat)>
    requires n <= |expected|
  {
    if n == 0 then Some((0, 0))
    else
      match ReadEvents(b, expected, n - 1)
      case None => None
      case Some((global, total)) => ReadAttempt(b, expected[n - 1].key, global, total)
  }

  predicate EventsOk(b: Bundle, expected: seq<PlannedAttempt>, total: nat) {
    var read := ReadEvents(b, expected, |expected|);
    read.Some? && read.value.1 == total
  }

  // ---------------------------------------------------------------- completion

  predicate NeedsFile(c: Capture) { !c.NotProvided? }

  predicate CapturesOk(m: Manifest, a: AttemptEntry) {
    var key := a.planned.key;
    && NeedsFile(a.events) == HasFile(m, EventsRole, key)
    && NeedsFile(a.stdout) == HasFile(m, LogRole(Stdout), key)
    && NeedsFile(a.stderr) == HasFile(m, LogRole(Stderr), key)
    && NeedsFile(a.artifacts) == Lists(m, AttemptPath(DirOf(key), IndexFile))
    && NeedsFile(a.result) == Lists(m, AttemptPath(DirOf(key), ResultFile))
  }

  function IndexedRecords(b: Bundle): set<Record> {
    set i, r | 0 <= i < |b.manifest.entries| && b.manifest.entries[i].role == IndexRole && b.manifest.entries[i].path in b.files
               && b.files[b.manifest.entries[i].path].IndexDoc? && r in b.files[b.manifest.entries[i].path].records :: r
  }

  /** The manifest repeats exactly the records of the indexes. */
  predicate TopLevelOk(b: Bundle) {
    |IndexedRecords(b)| == |b.manifest.records| && forall r | r in b.manifest.records :: r in IndexedRecords(b)
  }

  predicate NothingMissing(a: AttemptEntry) {
    && !a.events.Truncated? && !a.stdout.Truncated? && !a.stderr.Truncated?
    && !a.artifacts.OmittedByLimit? && !a.result.CaptureFailed?
  }

  predicate CompletionOk(b: Bundle, doc: ExecutionDoc) {
    var m := b.manifest;
    && m.transactionValid && doc.transactionValid
    && m.executionComplete == doc.complete && m.evidenceComplete == doc.evidenceComplete
    && (forall a | a in m.attempts :: CapturesOk(m, a))
    && TopLevelOk(b)
    && (m.evidenceComplete ==> m.executionComplete)
    && (m.evidenceComplete ==> forall a | a in m.attempts :: NothingMissing(a))
    && (!(m.executionComplete && m.evidenceComplete) ==> m.failure.Some?)
  }

  // ---------------------------------------------------------------- the verdict

  predicate Accepts(b: Bundle, maxAttempts: nat) {
    && ManifestOk(b.manifest) && LayoutOk(b) && PayloadsOk(b) && PlanOk(b, maxAttempts)
    && var expected := Expand(b.files[PlanPath].plan);
       && ExecutionOk(b, expected) && ArtifactsOk(b)
       && EventsOk(b, expected, b.files[ExecutionPath].doc.total)
       && CompletionOk(b, b.files[ExecutionPath].doc)
  }

  /** What a walk over the events of a bundle visits: the event files in plan order. */
  function Walk(b: Bundle, expected: seq<PlannedAttempt>, n: nat): seq<Event>
    requires n <= |expected|
  {
    if n == 0 then []
    else Walk(b, expected, n - 1)
         + if HasFile(b.manifest, EventsRole, expected[n - 1].key) then EventsAt(b, expected[n - 1].key) else []
  }
}

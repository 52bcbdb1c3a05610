/** What an evidence bundle is made of: attempts and where they keep their files, events, artifact
    records, manifest entries, and the documents that are stored as JSON. A SHA-256 digest is the
    content it is taken of, and a JSON document is the value it encodes. */
module EvidenceModel {
  import opened GoText
  import opened Options

  // ---------------------------------------------------------------- attempts

  datatype Revision = Base | Head

  datatype AttemptKey = AttemptKey(revision: Revision, scenario: string, repetition: nat)

  datatype AttemptId = AttemptId(revision: Revision, scenario: string, repetition: nat)

  datatype ScenarioPlan = ScenarioPlan(id: string, repetitions: int)

  datatype Plan = Plan(run: string, scenarios: seq<ScenarioPlan>)

  datatype PlannedAttempt = PlannedAttempt(key: AttemptKey, id: AttemptId, ordinal: nat)

  predicate ValidScenarioId(s: string) {
    && 0 < |s| <= 64 && 'a' <= s[0] <= 'z'
    && forall c | c in s :: 'a' <= c <= 'z' || '0' <= c <= '9' || c == '.' || c == '_' || c == '-'
  }

  predicate ValidKey(key: AttemptKey) { ValidScenarioId(key.scenario) && key.repetition > 0 }

  /** The repetitions of one scenario, then of the next, and so on; ordinals count on from `base`. */
  function ExpandScenarios(revision: Revision, scenarios: seq<ScenarioPlan>, base: nat): seq<PlannedAttempt> {
    if scenarios == [] then []
    else
      var here := ExpandScenario(revision, scenarios[0], 1, base);
      here + ExpandScenarios(revision, scenarios[1..], base + |here|)
  }

  function ExpandScenario(revision: Revision, s: ScenarioPlan, repetition: nat, base: nat): seq<PlannedAttempt>
    decreases s.repetitions - repetition
  {
    if repetition > s.repetitions then []
    else
      [PlannedAttempt(AttemptKey(revision, s.id, repetition), AttemptId.AttemptId(revision, s.id, repetition), base + 1)]
      + ExpandScenario(revision, s, repetition + 1, base + 1)
  }

  /** All attempts of a plan in order: the base revision first. */
  function Expand(plan: Plan): seq<PlannedAttempt> {
    var base := ExpandScenarios(Base, plan.scenarios, 0);
    base + ExpandScenarios(Head, plan.scenarios, |base|)
  }

  // ---------------------------------------------------------------- paths

  /** The directory attempts/<revision>/<scenario>/<repetition>. */
  datatype AttemptDir = AttemptDir(revision: Revision, scenario: string, repetition: string)

  function Digit(n: nat): char
    requires n < 10
  {
    '0' + n as char
  }

  function Decimal(n: nat): string {
    if n < 10 then [Digit(n)] else Decimal(n / 10) + [Digit(n % 10)]
  }

  function ZeroPad4(n: nat): string {
    if n > 9999 then "repetition-overflow" else var s := "0000" + Decimal(n); s[|s| - 4..]
  }

  function RepetitionDir(n: nat): string { "repetition-" + ZeroPad4(n) }

  function DirOf(key: AttemptKey): AttemptDir { AttemptDir(key.revision, key.scenario, RepetitionDir(key.repetition)) }

  datatype Stream = Stdout | Stderr

  datatype FileName = EventsFile | LogFile(stream: Stream) | IndexFile | ResultFile

  datatype Path = PlanPath | ExecutionPath | ManifestPath | AttemptPath(dir: AttemptDir, name: FileName) | ObjectPath(digest: Digest)

  datatype Folder =
    | AttemptsFolder | RevisionFolder(revision: Revision) | ScenarioFolder(revision: Revision, scenario: string)
    | AttemptFolder(dir: AttemptDir) | ObjectsFolder | Sha256Folder | ShardFolder(shard: nat)

  /** The first byte of a digest; which function of the content it is does not matter to anything. */
  function Shard(d: Digest): nat { if d.content.Raw? then |d.content.bytes| % 256 else 0 }

  /** The folders above a file. */
  function Parents(p: Path): set<Folder> {
    match p
    case AttemptPath(dir, _) =>
      {AttemptsFolder, RevisionFolder(dir.revision), ScenarioFolder(dir.revision, dir.scenario), AttemptFolder(dir)}
    case ObjectPath(digest) => {ObjectsFolder, Sha256Folder, ShardFolder(Shard(digest))}
    case _ => {}
  }

  /** The folders that every bundle has. */
  function FixedFolders(): set<Folder> {
    {AttemptsFolder, RevisionFolder(Base), RevisionFolder(Head), ObjectsFolder, Sha256Folder}
  }

  // ---------------------------------------------------------------- events

  datatype EventKind = ScenarioStarted | ScenarioCompleted | OtherKind

  datatype EventId = EventId(plan: Digest, run: string, sequence: int)

  /** `body` is the rest of the event, and `valid` says that its payload passes the draft checks. */
  datatype Event = Event(id: EventId, run: string, sequence: int, key: AttemptKey, kind: EventKind, valid: bool, body: string)

  // ---------------------------------------------------------------- artifacts

  datatype Disposition = Stored | OmittedLimit | OmittedSymlink | OmittedSpecial | DispositionFailed

  datatype Meta = Meta(declared: Option<int>, mediaType: string, executable: bool, mode: int)

  datatype Record = Record(logical: string, attempt: AttemptKey, disposition: Disposition, digest: Option<Digest>, size: nat,
                           observed: nat, objectPath: Option<Path>, meta: Meta, limitations: seq<string>)

  /** A clean path without control characters and backslashes; it may be absolute. */
  predicate ValidLogicalPath(p: string) {
    && 0 < |p| <= 4096 && (forall c | c in p :: ' ' <= c && c != 0x7f as char && c != '\\')
    && var parts := Parts(if p[0] == '/' then p[1..] else p); forall part | part in parts :: part != "" && part != "." && part != ".."
  }

  // ---------------------------------------------------------------- documents and contents

  datatype Status = Succeeded | TargetFailed | TimedOut | ResourceLimited | UnknownStatus

  datatype Outcome = Outcome(status: Status, exitCode: Option<int>, duration: int)

  datatype AttemptResult = AttemptResult(key: AttemptKey, id: AttemptId, outcome: Outcome, first: nat, last: nat, count: nat,
                                         limitations: seq<string>)

  datatype Failure = Failure(code: string, stage: string)

  datatype Tier = FakeTier | DevelopmentOnly | HardenedContainer | MicroVM | UnknownTier

  /** Of a runner's capabilities only what is ever checked. */
  datatype Runner = Runner(name: string, version: string, tier: Tier, executesTarget: bool, synthetic: bool)

  datatype ExecutionDoc = ExecutionDoc(run: string, plan: Digest, runner: Runner, complete: bool, evidenceComplete: bool, transactionValid: bool,
                                       total: nat, attempts: seq<AttemptResult>, failure: Option<Failure>)

  datatype Content =
    | Raw(bytes: string)
    | EventLines(events: seq<Event>)
    | PlanDoc(plan: Plan)
    | ResultDoc(result: AttemptResult)
    | IndexDoc(attempt: AttemptKey, records: seq<Record>)
    | ExecutionContent(doc: ExecutionDoc)

  datatype Digest = Digest(content: Content)

  // ---------------------------------------------------------------- the manifest

  datatype Capture = NotProvided | CapturedEmpty | Captured | Truncated | CaptureFailed | OmittedByLimit

  datatype Role = PlanRole | ExecutionRole | ResultRole | EventsRole | LogRole(stream: Stream) | IndexRole | ObjectRole

  datatype Entry = Entry(path: Path, role: Role, digest: Digest, key: Option<AttemptKey>, capture: Capture)

  datatype AttemptEntry = AttemptEntry(planned: PlannedAttempt, dir: AttemptDir,
                                       events: Capture, stdout: Capture, stderr: Capture, artifacts: Capture, result: Capture,
                                       first: nat, last: nat, count: nat)

  datatype Manifest = Manifest(run: string, plan: Digest, executionComplete: bool, evidenceComplete: bool, transactionValid: bool,
                               entries: seq<Entry>, records: seq<Record>, attempts: seq<AttemptEntry>, failure: Option<Failure>)

  datatype Bundle = Bundle(files: map<Path, Content>, folders: set<Folder>, manifest: Manifest)
}

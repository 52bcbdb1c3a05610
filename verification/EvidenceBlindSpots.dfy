/** One bundle that the reader accepts although its events are numbered twice, its manifest leaves a record
    out, and its execution disagrees with a result: what the reader does not compare. */
module EvidenceBlindSpots {
  import opened Options
  import opened EvidenceModel
  import opened GoText
  import opened EvidenceSoundness
  import R = EvidenceReader

  // ---------------------------------------------------------------- the bundle

  const PLAN: Plan := Plan("r", [ScenarioPlan("a", 1), ScenarioPlan("b", 1)])

  function Attempt(revision: Revision, scenario: string, ordinal: nat): PlannedAttempt {
    PlannedAttempt(AttemptKey(revision, scenario, 1), AttemptId.AttemptId(revision, scenario, 1), ordinal)
  }

  const ATTEMPTS: seq<PlannedAttempt> :=
    [Attempt(Base, "a", 1), Attempt(Base, "b", 2), Attempt(Head, "a", 3), Attempt(Head, "b", 4)]

  function Key(i: nat): AttemptKey
    requires i < 4
  {
    ATTEMPTS[i].key
  }

  function FirstEvent(key: AttemptKey): Event {
    Event(EventId(Digest(PlanDoc(PLAN)), "r", 1), "r", 1, key, ScenarioStarted, true, "")
  }

  function Link(path: string): Record {
    Record(path, Key(0), OmittedSymlink, None, 0, 0, None, Meta(None, "", false, 0), [])
  }

  function Result(outcome: Outcome): AttemptResult { AttemptResult(Key(0), ATTEMPTS[0].id, outcome, 1, 1, 1, []) }

  const EXECUTION: ExecutionDoc :=
    ExecutionDoc("r", Digest(PlanDoc(PLAN)), Runner("x", "1", DevelopmentOnly, true, false), false, false, true, 2,
                 [Result(Outcome(Succeeded, Some(0), 0))], Some(Failure("f", "s")))

  /** The files: plan and execution, the event files of three attempts, and result and index of the first. */
  function PathAt(i: nat): Path {
    match i
    case 0 => PlanPath
    case 1 => ExecutionPath
    case 2 => AttemptPath(DirOf(Key(0)), EventsFile)
    case 3 => AttemptPath(DirOf(Key(1)), EventsFile)
    case 4 => AttemptPath(DirOf(Key(2)), EventsFile)
    case 5 => AttemptPath(DirOf(Key(0)), ResultFile)
    case _ => AttemptPath(DirOf(Key(0)), IndexFile)
  }

  function ContentAt(i: nat): Content {
    match i
    case 0 => PlanDoc(PLAN)
    case 1 => ExecutionContent(EXECUTION)
    case 2 => EventLines([FirstEvent(Key(0))])
    case 3 => EventLines([])
    case 4 => EventLines([FirstEvent(Key(2))])
    case 5 => ResultDoc(Result(Outcome(TargetFailed, Some(1), 0)))
    case _ => IndexDoc(Key(0), [Link("a"), Link("b")])
  }

  function RoleAt(i: nat): Role {
    match i
    case 0 => PlanRole
    case 1 => ExecutionRole
    case 2 | 3 | 4 => EventsRole
    case 5 => ResultRole
    case _ => IndexRole
  }

  function KeyAt(i: nat): Option<AttemptKey> {
    match i
    case 0 | 1 => None
    case 3 => Some(Key(1))
    case 4 => Some(Key(2))
    case _ => Some(Key(0))
  }

  lemma PathsDiffer7(i: nat, j: nat)
    requires i < j < 7
    ensures PathAt(i) != PathAt(j)
  {
  }

  function Files(): (files: map<Path, Content>)
    ensures forall i: nat | i < 7 :: PathAt(i) in files && files[PathAt(i)] == ContentAt(i)
    ensures forall p | p in files :: exists i: nat :: i < 7 && PathAt(i) == p
  {
    assert forall i: nat, j: nat | i < 7 && j < 7 && PathAt(i) == PathAt(j) :: i == j by {
      forall i: nat, j: nat | i < j < 7 ensures PathAt(i) != PathAt(j) { PathsDiffer7(i, j); }
    }
    map i: nat | 0 <= i < 7 :: PathAt(i) := ContentAt(i)
  }

  function Entries(): seq<Entry> { seq(7, i requires 0 <= i < 7 => Entry(PathAt(i), RoleAt(i), Digest(ContentAt(i)), KeyAt(i), Captured)) }

  /** The last attempt has no event file, and the second one an empty one. */
  function Known(i: nat): AttemptEntry
    requires i < 4
  {
    var events := if i == 1 then CapturedEmpty else if i == 3 then NotProvided else Captured;
    var rest := if i == 0 then Captured else NotProvided;
    var count := if i == 0 || i == 2 then 1 else 0;
    AttemptEntry(ATTEMPTS[i], DirOf(Key(i)), events, NotProvided, NotProvided, rest, rest, count, count, count)
  }

  function TheManifest(): Manifest {
    Manifest("r", Digest(PlanDoc(PLAN)), false, false, true, Entries(), [Link("a"), Link("a")],
             seq(4, i requires 0 <= i < 4 => Known(i)), Some(Failure("f", "s")))
  }

  function TheBundle(): Bundle { Bundle(Files(), R.FoldersOf(Files().Keys) + FixedFolders(), TheManifest()) }

  // ---------------------------------------------------------------- it is accepted

  lemma {:induction false} OneRepetition(revision: Revision, scenario: string, base: nat)
    ensures ExpandScenario(revision, ScenarioPlan(scenario, 1), 1, base) == [Attempt(revision, scenario, base + 1)]
  {
    var s := ScenarioPlan(scenario, 1);
    assert ExpandScenario(revision, s, 2, base + 1) == [];
    assert ExpandScenario(revision, s, 1, base) == [Attempt(revision, scenario, base + 1)] + ExpandScenario(revision, s, 2, base + 1);
  }

  lemma TwoScenarios(revision: Revision, base: nat)
    ensures ExpandScenarios(revision, PLAN.scenarios, base) == [Attempt(revision, "a", base + 1), Attempt(revision, "b", base + 2)]
  {
    OneRepetition(revision, "a", base);
    OneRepetition(revision, "b", base + 1);
    var b := ScenarioPlan("b", 1);
    assert PLAN.scenarios[0] == ScenarioPlan("a", 1) && PLAN.scenarios[1..] == [b] && [b][1..] == [];
    assert ExpandScenarios(revision, [], base + 2) == [];
    assert ExpandScenarios(revision, [b], base + 1) == [Attempt(revision, "b", base + 2)] + ExpandScenarios(revision, [], base + 2);
  }

  lemma PlanExpands()
    ensures Expand(PLAN) == ATTEMPTS
  {
    TwoScenarios(Base, 0);
    TwoScenarios(Head, 2);
  }

  lemma EntriesAreFiles()
    ensures PathsDiffer(TheManifest()) && FilesListed(TheBundle())
  {
    forall i: nat, j: nat | i < j < 7 ensures PathAt(i) != PathAt(j) { PathsDiffer7(i, j); }
    forall i: nat | i < 7 ensures RoleFits(Entries()[i]) {}
    forall p | p in Files() ensures exists e :: e in Entries() && e.path == p {
      var i: nat :| i < 7 && PathAt(i) == p;
      assert Entries()[i] in Entries();
    }
  }

  lemma FilesAreListed()
    ensures FilesFit(TheBundle())
  {
    EntriesAreFiles();
    var b := TheBundle();
    forall f ensures f in R.FoldersOf(b.files.Keys) <==> exists p :: p in b.files && f in Parents(p) {}
  }

  lemma AttemptsAreKnown()
    ensures AttemptsFit(TheManifest())
  {
    forall i: nat, j: nat | i < j < 4 ensures Key(i) != Key(j) {}
  }

  lemma PlanIsThere()
    ensures PlanFits(TheBundle(), 4) && TheBundle().files[PlanPath].plan == PLAN
  {
    assert PathAt(0) == PlanPath;
    PlanExpands();
  }

  /** Result and index are those of the first attempt alone. */
  lemma OneResultOneIndex(p: Path)
    requires p in Files() && p.AttemptPath? && (p.name == ResultFile || p.name == IndexFile)
    ensures p == PathAt(if p.name == ResultFile then 5 else 6)
  {
    var k: nat :| k < 7 && PathAt(k) == p;
  }

  lemma AttemptIsThere(i: nat)
    requires i < 4
    ensures AttemptFits(TheBundle(), ATTEMPTS[i], false)
  {
    var m, p := TheManifest().attempts[i], AttemptPath(DirOf(Key(i)), ResultFile);
    assert m in TheManifest().attempts && m == Known(i);
    assert PathAt(5) in Files();
    if p in Files() {
      OneResultOneIndex(p);
      assert i == 0;
    }
  }

  lemma DocumentFits()
    ensures ProperRunner(EXECUTION.runner) && Plausible(EXECUTION.attempts[0].outcome)
  {
  }

  lemma ExecutionIsThere()
    ensures ExecutionPath in TheBundle().files && TheBundle().files[ExecutionPath] == ExecutionContent(EXECUTION)
  {
    assert PathAt(1) == ExecutionPath;
  }

  lemma ExecutionFitsPlan()
    ensures ExecutionFits(TheBundle(), ATTEMPTS)
  {
    ExecutionIsThere();
    DocumentFits();
    forall i: nat | i < 4 ensures AttemptFits(TheBundle(), ATTEMPTS[i], false) { AttemptIsThere(i); }
  }

  lemma OneLetterIsAPath(c: char)
    requires 'a' <= c <= 'z'
    ensures ValidLogicalPath([c])
  {
    var p := [c];
    var rest := Parts(p[1..]);
    assert p[1..] == "" && rest == [""] && rest[1..] == [] && [p[0]] + rest[0] == [c];
    assert Parts(p) == [[c]];
  }

  lemma RecordsAreFit(path: string)
    requires ValidLogicalPath(path)
    ensures RecordFits(TheBundle(), Link(path))
  {
  }

  lemma IndexIsFit()
    ensures PathAt(6) in Files() && IsIndex(PathAt(6)) && IndexFits(TheBundle(), PathAt(6))
  {
    OneLetterIsAPath('a');
    OneLetterIsAPath('b');
    RecordsAreFit("a");
    RecordsAreFit("b");
    assert Before("a", "b");
    assert TheBundle().files[PathAt(6)] == IndexDoc(Key(0), [Link("a"), Link("b")]);
  }

  lemma PathIsNoObject(k: nat)
    ensures !PathAt(k).ObjectPath?
  {
  }

  lemma NoObjects()
    ensures forall p | p in Files() :: !p.ObjectPath?
  {
    forall p | p in Files() ensures !p.ObjectPath? {
      var k: nat :| k < 7 && PathAt(k) == p;
      PathIsNoObject(k);
    }
  }

  lemma OneIndex(p: Path)
    ensures p in Files() && IsIndex(p) ==> p == PathAt(6)
  {
    if p in Files() && IsIndex(p) { OneResultOneIndex(p); }
  }

  lemma ArtifactsAreThere()
    ensures ArtifactsFit(TheBundle())
  {
    IndexIsFit();
    forall p ensures p in Files() && IsIndex(p) ==> p == PathAt(6) { OneIndex(p); }
    NoObjects();
  }

  /** What the manifest lists for an attempt. */
  predicate ListsFor(role: Role, i: nat) { (role == EventsRole && i < 3) || (i == 0 && (role == ResultRole || role == IndexRole)) }

  lemma EntryIsListed(k: nat, i: nat, role: Role)
    requires k < 7 && i < 4 && RoleAt(k) == role && KeyAt(k) == Some(Key(i))
    ensures ListsFor(role, i)
  {
    assert Key(0) != Key(1) && Key(0) != Key(2) && Key(0) != Key(3) && Key(1) != Key(2) && Key(1) != Key(3) && Key(2) != Key(3);
  }

  lemma ListedIsEntry(i: nat, role: Role) returns (k: nat)
    requires i < 4 && ListsFor(role, i)
    ensures k < 7 && RoleAt(k) == role && KeyAt(k) == Some(Key(i))
  {
    k := if role == EventsRole then i + 2 else if role == ResultRole then 5 else 6;
  }

  lemma FilesOf(i: nat, role: Role)
    requires i < 4
    ensures HasFile(TheManifest(), role, Key(i)) <==> ListsFor(role, i)
  {
    var entries := TheManifest().entries;
    if HasFile(TheManifest(), role, Key(i)) {
      var e :| e in entries && e.role == role && e.key == Some(Key(i));
      var k :| 0 <= k < 7 && entries[k] == e;
      EntryIsListed(k, i, role);
    }
    if ListsFor(role, i) {
      var k := ListedIsEntry(i, role);
      assert entries[k] in entries;
    }
  }

  lemma EventsOfAttempt(i: nat)
    requires i < 4
    ensures HasEvents(TheBundle(), Key(i)) <==> i < 3
    ensures i < 3 ==> EventFile(Key(i)) in Files() && Files()[EventFile(Key(i))].EventLines?
    ensures i < 3 ==> EventsIn(TheBundle(), Key(i)) == if i == 1 then [] else [FirstEvent(Key(i))]
  {
    FilesOf(i, EventsRole);
    if i < 3 { assert PathAt(i + 2) == EventFile(Key(i)); }
  }

  lemma EventCounts(n: nat)
    requires n <= 4
    ensures Count(TheBundle(), ATTEMPTS, n) == (if n == 0 then 0 else if n < 3 then 1 else 2)
    ensures CountSince(TheBundle(), ATTEMPTS, n) == (if n == 1 || n > 2 then 1 else 0)
  {
    if n > 0 {
      EventCounts(n - 1);
      EventsOfAttempt(n - 1);
      CountsOneMore(TheBundle(), ATTEMPTS, n - 1);
    }
  }

  lemma EventsFitAttempt(i: nat)
    requires i < 4
    ensures EventsFitAt(TheBundle(), Key(i), 0)
  {
    EventsOfAttempt(i);
    assert TheManifest().attempts[i] in TheManifest().attempts && TheManifest().attempts[i] == Known(i);
    if i < 3 { assert EventFileFits(TheBundle(), Known(i), 0); }
  }

  /** The second event file is empty, so the third one begins with number 1 again. */
  lemma EventsAreThere()
    ensures EventsFitAt(TheBundle(), Key(1), 1) && EventsFitAt(TheBundle(), Key(3), 1)
    ensures EventsFit(TheBundle(), ATTEMPTS, 4)
  {
    EventsOfAttempt(1);
    EventsOfAttempt(3);
    assert TheManifest().attempts[1] in TheManifest().attempts && TheManifest().attempts[3] in TheManifest().attempts;
    assert EventFileFits(TheBundle(), Known(1), 1);
    forall i: nat | i < 4 ensures EventsFitAt(TheBundle(), ATTEMPTS[i].key, CountSince(TheBundle(), ATTEMPTS, i)) {
      EventCounts(i);
      EventsFitAttempt(i);
    }
  }

  lemma ResultAndIndexOf(i: nat)
    requires i < 4
    ensures AttemptPath(DirOf(Key(i)), ResultFile) in Files() <==> i == 0
    ensures AttemptPath(DirOf(Key(i)), IndexFile) in Files() <==> i == 0
  {
    assert PathAt(5) in Files() && PathAt(6) in Files();
    var result, index := AttemptPath(DirOf(Key(i)), ResultFile), AttemptPath(DirOf(Key(i)), IndexFile);
    if result in Files() { OneResultOneIndex(result); }
    if index in Files() { OneResultOneIndex(index); }
  }

  lemma CapturesOf(i: nat)
    requires i < 4
    ensures CapturesFit(TheBundle(), Known(i))
  {
    FilesOf(i, EventsRole);
    FilesOf(i, LogRole(Stdout));
    FilesOf(i, LogRole(Stderr));
    ResultAndIndexOf(i);
  }

  lemma IndexedAre()
    ensures Indexed(TheBundle()) == {Link("a"), Link("b")}
  {
    IndexIsFit();
    assert Files()[PathAt(6)] == IndexDoc(Key(0), [Link("a"), Link("b")]);
    forall p ensures p in Files() && IsIndex(p) ==> p == PathAt(6) { OneIndex(p); }
    assert Link("a") in Files()[PathAt(6)].records && Link("b") in Files()[PathAt(6)].records;
  }

  lemma CompletionIsThere()
    ensures CompletionFits(TheBundle(), EXECUTION)
  {
    IndexedAre();
    assert Link("a").logical != Link("b").logical;
    forall a | a in TheManifest().attempts ensures CapturesFit(TheBundle(), a) {
      var i :| 0 <= i < 4 && TheManifest().attempts[i] == a;
      CapturesOf(i);
    }
  }

  lemma TheBundleIsAccepted()
    ensures R.Accepts(TheBundle(), 4) && Expand(TheBundle().files[PlanPath].plan) == ATTEMPTS
    ensures ExecutionPath in TheBundle().files && TheBundle().files[ExecutionPath] == ExecutionContent(EXECUTION)
  {
    FilesAreListed();
    AttemptsAreKnown();
    PlanIsThere();
    PlanExpands();
    ExecutionIsThere();
    ExecutionFitsPlan();
    ArtifactsAreThere();
    EventsAreThere();
    EventCounts(4);
    CompletionIsThere();
    AcceptedExactlyWhenSound(TheBundle(), 4);
  }

  lemma NumbersRestart()
    ensures RestartsAt(TheBundle(), ATTEMPTS, 1)
  {
    EventsOfAttempt(1);
    EventCounts(1);
    EventCounts(4);
  }

  lemma OneRecordIsMissing()
    ensures Link("b") in Indexed(TheBundle()) && Link("b") !in TheBundle().manifest.records
  {
    IndexedAre();
    assert Link("a").logical != Link("b").logical;
  }

  lemma ResultSaysFailed()
    ensures var p := AttemptPath(DirOf(Key(0)), ResultFile);
            p in TheBundle().files && TheBundle().files[p].ResultDoc? && TheBundle().files[p].result.outcome.status == TargetFailed
  {
    assert PathAt(5) in Files();
  }

  /** What acceptance does not promise. The reader accepts this bundle, in which two events have number 1,
      the manifest leaves out a record of an index, and the execution reports as succeeded the attempt
      whose own result says that it has failed. */
  lemma AcceptedThoughInconsistent()
    ensures R.Accepts(TheBundle(), 4)
    ensures RestartsAt(TheBundle(), ATTEMPTS, 1)
    ensures Link("b") in Indexed(TheBundle()) && Link("b") !in TheBundle().manifest.records
    ensures EXECUTION.attempts[0].key == Key(0) && EXECUTION.attempts[0].outcome.status == Succeeded
    ensures var p := AttemptPath(DirOf(Key(0)), ResultFile);
            p in TheBundle().files && TheBundle().files[p].ResultDoc? && TheBundle().files[p].result.outcome.status == TargetFailed
  {
    TheBundleIsAccepted();
    NumbersRestart();
    OneRecordIsMissing();
    ResultSaysFailed();
  }
}

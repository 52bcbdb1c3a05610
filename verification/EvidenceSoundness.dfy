/** What acceptance by the reader means, of any bundle, whoever wrote it: the files that a manifest can
    be accepted with, what every document of an accepted bundle says, and the two places where the
    reader does not say as much as it seems to. */
module EvidenceSoundness {
  import opened Options
  import opened EvidenceModel
  import opened GoText
  import R = EvidenceReader

  // ---------------------------------------------------------------- files and folders

  function RoleOfName(name: FileName): Role {
    match name
    case EventsFile => EventsRole
    case LogFile(stream) => LogRole(stream)
    case IndexFile => IndexRole
    case ResultFile => ResultRole
  }

  /** The path of an entry says which role it has, and whose it is. */
  predicate RoleFits(e: Entry) {
    match e.path
    case PlanPath => e.role == PlanRole
    case ExecutionPath => e.role == ExecutionRole
    case AttemptPath(dir, name) => e.key.Some? && dir == DirOf(e.key.value) && e.role == RoleOfName(name)
    case ObjectPath(digest) => digest == e.digest && e.role == ObjectRole
    case ManifestPath => false
  }

  ghost predicate PathsDiffer(m: Manifest) { forall i, j | 0 <= i < j < |m.entries| :: m.entries[i].path != m.entries[j].path }

  /** Exactly the files of the manifest are there, each with its role and its digest. */
  ghost predicate FilesListed(b: Bundle) {
    && (forall p :: p in b.files <==> exists e :: e in b.manifest.entries && e.path == p)
    && (forall e | e in b.manifest.entries :: RoleFits(e) && e.path in b.files && e.digest == Digest(b.files[e.path]))
  }

  ghost predicate FoldersFit(b: Bundle) {
    forall f :: f in b.folders <==> f in FixedFolders() || exists p :: p in b.files && f in Parents(p)
  }

  /** The manifest lists every file once, under its role and with its digest, and the folders are those
      that the files need. */
  ghost predicate FilesFit(b: Bundle) { PathsDiffer(b.manifest) && FilesListed(b) && FoldersFit(b) }

  /** The manifest names a run, and knows each of its attempts once, in the attempt's own folder. */
  ghost predicate AttemptsFit(m: Manifest) {
    && m.transactionValid && m.run != ""
    && (forall a | a in m.attempts :: 1 <= a.planned.ordinal && a.planned.key.repetition >= 1
          && ValidScenarioId(a.planned.key.scenario) && a.dir == DirOf(a.planned.key))
    && (forall i, j | 0 <= i < j < |m.attempts| :: m.attempts[i].planned.key != m.attempts[j].planned.key)
  }

  lemma LayoutIsExact(b: Bundle)
    ensures R.ManifestOk(b.manifest) && R.LayoutOk(b) && R.PayloadsOk(b) <==> FilesFit(b) && AttemptsFit(b.manifest)
  {
    forall e ensures RoleFits(e) <==> e.path != ManifestPath && R.RolePathOk(e) {}
    forall p ensures p in R.PathsOf(b.manifest.entries) <==> exists e :: e in b.manifest.entries && e.path == p {
      if p in R.PathsOf(b.manifest.entries) { var i :| 0 <= i < |b.manifest.entries| && b.manifest.entries[i].path == p; assert b.manifest.entries[i] in b.manifest.entries; }
    }
    assert R.LayoutOk(b) <==> b.files.Keys == R.PathsOf(b.manifest.entries) && b.folders == R.FoldersOf(b.files.Keys) + FixedFolders();
  }

  lemma ManifestSettlesFiles(a: Bundle, b: Bundle)
    requires FilesListed(a) && FilesListed(b) && a.manifest == b.manifest
    ensures a.files == b.files
  {
    assert a.files.Keys == b.files.Keys;
    forall p | p in a.files ensures a.files[p] == b.files[p] {
      var e :| e in a.manifest.entries && e.path == p;
    }
  }

  lemma FilesSettleFolders(a: Bundle, b: Bundle)
    requires FoldersFit(a) && FoldersFit(b) && a.files == b.files
    ensures a.folders == b.folders
  {
    forall f ensures f in a.folders <==> f in b.folders {}
  }

  /** A manifest is accepted with one set of files only: once a bundle is accepted, whatever is changed,
      added or taken away without its manifest, file or folder, the result is rejected. */
  lemma OnlyItsOwnFilesAreAccepted(a: Bundle, b: Bundle, maxAttempts: nat)
    requires R.Accepts(a, maxAttempts) && b.manifest == a.manifest
    ensures R.Accepts(b, maxAttempts) <==> b == a
  {
    LayoutIsExact(a);
    LayoutIsExact(b);
    if R.Accepts(b, maxAttempts) {
      ManifestSettlesFiles(a, b);
      FilesSettleFolders(a, b);
    }
  }

  // ---------------------------------------------------------------- plan, execution, results

  ghost predicate PlanFits(b: Bundle, maxAttempts: nat) {
    && PlanPath in b.files && b.files[PlanPath].PlanDoc? && b.manifest.plan == Digest(b.files[PlanPath])
    && b.files[PlanPath].plan.run == b.manifest.run && 1 <= |Expand(b.files[PlanPath].plan)| <= maxAttempts
  }

  /** A known status that agrees with the exit code. */
  ghost predicate Plausible(o: Outcome) {
    && 0 <= o.duration && o.status != UnknownStatus
    && (o.exitCode == Some(0) <==> o.status == Succeeded) && (o.status == TargetFailed ==> o.exitCode.Some?)
  }

  ghost predicate Printable(s: string) { 1 <= |s| <= 128 && forall i | 0 <= i < |s| :: ' ' <= s[i] && s[i] != 0x7f as char }

  /** A runner that names itself and its tier; a fake one has executed nothing and says so. */
  ghost predicate ProperRunner(r: Runner) {
    && Printable(r.name) && Printable(r.version) && r.tier != UnknownTier
    && (r.tier == FakeTier ==> r.synthetic && !r.executesTarget)
  }

  /** The result file of the attempt is its own, and has the event range that the manifest has. */
  ghost predicate ResultFits(c: Content, m: AttemptEntry) {
    && c.ResultDoc? && c.result.key == m.planned.key && c.result.id == m.planned.id && Plausible(c.result.outcome)
    && c.result.count == m.count && c.result.first == m.first && c.result.last == m.last
  }

  /** The manifest knows the attempt as it is planned, and its result fits, which only an incomplete
      execution may go without. */
  ghost predicate AttemptFits(b: Bundle, a: PlannedAttempt, complete: bool) {
    exists m :: m in b.manifest.attempts && m.planned == a
      && var p := AttemptPath(DirOf(a.key), ResultFile);
         (complete ==> p in b.files) && (p in b.files ==> ResultFits(b.files[p], m))
  }

  ghost predicate ExecutionFits(b: Bundle, planned: seq<PlannedAttempt>) {
    && ExecutionPath in b.files && b.files[ExecutionPath].ExecutionContent?
    && var doc := b.files[ExecutionPath].doc;
       && doc.run == b.manifest.run && doc.plan == b.manifest.plan && doc.transactionValid && ProperRunner(doc.runner)
       && |doc.attempts| <= |planned| && (doc.complete ==> |doc.attempts| == |planned|)
       && (forall i | 0 <= i < |doc.attempts| ::
             doc.attempts[i].key == planned[i].key && doc.attempts[i].id == planned[i].id && Plausible(doc.attempts[i].outcome))
       && (forall i {:trigger planned[i]} | 0 <= i < |planned| :: AttemptFits(b, planned[i], doc.complete))
  }

  lemma OutcomesAreExact(o: Outcome)
    ensures R.OutcomeOk(o) <==> Plausible(o)
  {
  }

  lemma RunnersAreExact(r: Runner)
    ensures R.RunnerOk(r) <==> ProperRunner(r)
  {
    TextsAreExact(r.name);
    TextsAreExact(r.version);
  }

  lemma TextsAreExact(s: string)
    ensures R.BoundedText(s) <==> Printable(s)
  {
    assert R.BoundedText(s) ==> forall i | 0 <= i < |s| :: s[i] in s;
  }

  lemma ResultsAreExact(b: Bundle, a: PlannedAttempt, complete: bool)
    requires FilesListed(b) && AttemptsFit(b.manifest)
    ensures R.AttemptResultOk(b, a, complete) <==> AttemptFits(b, a, complete)
  {
    var k := R.AttemptAt(b.manifest.attempts, a.key);
    forall m | m in b.manifest.attempts && m.planned == a ensures k < |b.manifest.attempts| && m == b.manifest.attempts[k] {
      var j :| 0 <= j < |b.manifest.attempts| && b.manifest.attempts[j] == m;
    }
    forall o ensures R.OutcomeOk(o) <==> Plausible(o) { OutcomesAreExact(o); }
  }

  lemma ExecutionIsExact(b: Bundle, planned: seq<PlannedAttempt>)
    requires FilesListed(b) && AttemptsFit(b.manifest)
    ensures R.ExecutionOk(b, planned) <==> ExecutionFits(b, planned)
  {
    if ExecutionPath in b.files && b.files[ExecutionPath].ExecutionContent? {
      var doc := b.files[ExecutionPath].doc;
      RunnersAreExact(doc.runner);
      forall o ensures R.OutcomeOk(o) <==> Plausible(o) { OutcomesAreExact(o); }
      forall i | 0 <= i < |planned| ensures R.AttemptResultOk(b, planned[i], doc.complete) <==> AttemptFits(b, planned[i], doc.complete) {
        ResultsAreExact(b, planned[i], doc.complete);
      }
    }
  }

  // ---------------------------------------------------------------- artifacts

  /** A stored record has its object, with exactly its digest and size; no other one names an object. */
  ghost predicate RecordFits(b: Bundle, r: Record) {
    && ValidLogicalPath(r.logical)
    && if r.disposition == Stored then
         && r.digest.Some? && r.objectPath == Some(ObjectPath(r.digest.value)) && ObjectPath(r.digest.value) in b.files
         && b.files[ObjectPath(r.digest.value)] == r.digest.value.content
         && r.digest.value.content.Raw? && r.size == |r.digest.value.content.bytes|
       else r.digest == None && r.objectPath == None
  }

  predicate IsIndex(p: Path) { p.AttemptPath? && p.name == IndexFile }

  /** The index lies in the folder of its attempt and holds records of this attempt alone, in path order. */
  ghost predicate IndexFits(b: Bundle, p: Path)
    requires IsIndex(p) && p in b.files
  {
    && b.files[p].IndexDoc? && p.dir == DirOf(b.files[p].attempt)
    && var records := b.files[p].records;
       && (forall j, k {:trigger records[j], records[k]} | 0 <= j < k < |records| :: Before(records[j].logical, records[k].logical))
       && forall r | r in records :: r.attempt == b.files[p].attempt && RecordFits(b, r)
  }

  /** Some index has the object stored. */
  ghost predicate IsStored(b: Bundle, d: Digest) {
    exists p, r :: p in b.files && IsIndex(p) && b.files[p].IndexDoc? && r in b.files[p].records
                   && r.disposition == Stored && r.digest == Some(d)
  }

  ghost predicate ArtifactsFit(b: Bundle) {
    && (forall p | p in b.files && IsIndex(p) :: IndexFits(b, p))
    && (forall d | ObjectPath(d) in b.files :: IsStored(b, d))
  }

  lemma {:induction false} OrderIsExact(records: seq<Record>)
    ensures R.RecordsInOrder(records) && R.RecordsDistinct(records) <==>
              forall j, k {:trigger records[j], records[k]} | 0 <= j < k < |records| :: Before(records[j].logical, records[k].logical)
  {
    if R.RecordsInOrder(records) {
      forall j, k | 0 <= j < k < |records| ensures Before(records[j].logical, records[k].logical) { OrderReaches(records, j, k); }
    }
    forall j, k | 0 <= j < k < |records| && records[j].logical == records[k].logical
      ensures !Before(records[j].logical, records[k].logical)
    {
      BeforeIsTotal(records[j].logical, records[k].logical);
    }
  }

  lemma {:induction false} OrderReaches(records: seq<Record>, j: nat, k: nat)
    requires R.RecordsInOrder(records) && j < k < |records|
    ensures Before(records[j].logical, records[k].logical)
  {
    if j < k - 1 {
      OrderReaches(records, j, k - 1);
      BeforeIsTransitive(records[j].logical, records[k - 1].logical, records[k].logical);
    }
  }

  lemma ObjectEntryIsExact(b: Bundle, d: Digest)
    requires FilesListed(b)
    ensures (exists e :: e in b.manifest.entries && e.path == ObjectPath(d) && e.role == ObjectRole && e.digest == d)
              <==> ObjectPath(d) in b.files
    ensures ObjectPath(d) in b.files ==> b.files[ObjectPath(d)] == d.content
  {
    if ObjectPath(d) in b.files {
      var e :| e in b.manifest.entries && e.path == ObjectPath(d);
      assert RoleFits(e);
    }
  }

  lemma RecordIsExact(b: Bundle, r: Record)
    requires FilesListed(b)
    ensures R.RecordOk(b.manifest, r) <==> RecordFits(b, r)
  {
    if r.disposition == Stored && r.digest.Some? { ObjectEntryIsExact(b, r.digest.value); }
  }

  lemma IndexIsExact(b: Bundle, p: Path)
    ensures FilesListed(b) && p in b.files && IsIndex(p) ==> (R.IndexOk(b, p) <==> IndexFits(b, p))
  {
    if FilesListed(b) && p in b.files && IsIndex(p) && b.files[p].IndexDoc? {
      OrderIsExact(b.files[p].records);
      forall r | r in b.files[p].records { RecordIsExact(b, r); }
    }
  }

  lemma EntryOfRole(b: Bundle, e: Entry)
    requires FilesListed(b) && e in b.manifest.entries
    ensures e.path in b.files
    ensures e.role == IndexRole <==> IsIndex(e.path)
    ensures e.role == ObjectRole <==> e.path == ObjectPath(e.digest)
  {
    assert RoleFits(e);
  }

  /** The index entries of the manifest are for the index files. */
  lemma IndexEntries(b: Bundle)
    requires FilesListed(b)
    ensures forall p :: p in b.files && IsIndex(p) <==> exists e :: e in b.manifest.entries && e.role == IndexRole && e.path == p
  {
    forall e | e in b.manifest.entries { EntryOfRole(b, e); }
  }

  /** And its objects are for the object files. */
  lemma ObjectEntries(b: Bundle)
    requires FilesListed(b)
    ensures forall d :: ObjectPath(d) in b.files <==> exists e :: e in b.manifest.entries && e.role == ObjectRole && e.digest == d
  {
    forall e | e in b.manifest.entries ensures e.path in b.files && (e.role == ObjectRole <==> e.path == ObjectPath(e.digest)) {
      EntryOfRole(b, e);
    }
    forall d | ObjectPath(d) in b.files
      ensures exists e :: e in b.manifest.entries && e.role == ObjectRole && e.digest == d
    {
      ObjectEntryIsExact(b, d);
    }
  }

  lemma ReferencesAreExact(b: Bundle, d: Digest)
    ensures FilesListed(b) ==> (R.Referenced(b, d) <==> IsStored(b, d))
  {
    if FilesListed(b) { IndexEntries(b); }
    if FilesListed(b) && IsStored(b, d) {
      var p, r :| p in b.files && IsIndex(p) && b.files[p].IndexDoc? && r in b.files[p].records && r.disposition == Stored && r.digest == Some(d);
      var e :| e in b.manifest.entries && e.role == IndexRole && e.path == p;
    }
    if FilesListed(b) && R.Referenced(b, d) {
      var e :| e in b.manifest.entries && e.role == IndexRole && e.path in b.files && b.files[e.path].IndexDoc?
               && exists r | r in b.files[e.path].records :: r.disposition.Stored? && r.digest == Some(d);
      assert IsIndex(e.path);
    }
  }

  lemma IndexesAreExact(b: Bundle)
    requires FilesListed(b)
    ensures (forall e | e in b.manifest.entries && e.role == IndexRole :: R.IndexOk(b, e.path))
              <==> (forall p | p in b.files && IsIndex(p) :: IndexFits(b, p))
  {
    IndexEntries(b);
    forall p ensures FilesListed(b) && p in b.files && IsIndex(p) ==> (R.IndexOk(b, p) <==> IndexFits(b, p)) { IndexIsExact(b, p); }
  }

  lemma ObjectsAreExact(b: Bundle)
    requires FilesListed(b)
    ensures (forall e | e in b.manifest.entries && e.role == ObjectRole :: R.Referenced(b, e.digest))
              <==> (forall d | ObjectPath(d) in b.files :: IsStored(b, d))
  {
    ObjectEntries(b);
    forall d ensures FilesListed(b) ==> (R.Referenced(b, d) <==> IsStored(b, d)) { ReferencesAreExact(b, d); }
  }

  lemma ArtifactsAreExact(b: Bundle)
    requires FilesListed(b)
    ensures R.ArtifactsOk(b) <==> ArtifactsFit(b)
  {
    IndexesAreExact(b);
    ObjectsAreExact(b);
  }

  // ---------------------------------------------------------------- events

  ghost predicate HasEvents(b: Bundle, key: AttemptKey) {
    exists e :: e in b.manifest.entries && e.role == EventsRole && e.key == Some(key)
  }

  function EventFile(key: AttemptKey): Path { AttemptPath(DirOf(key), EventsFile) }

  function EventsIn(b: Bundle, key: AttemptKey): seq<Event> {
    if EventFile(key) in b.files && b.files[EventFile(key)].EventLines? then b.files[EventFile(key)].events else []
  }

  /** How many events the first `n` attempts have. */
  ghost function Count(b: Bundle, planned: seq<PlannedAttempt>, n: nat): nat
    requires n <= |planned|
  {
    if n == 0 then 0
    else Count(b, planned, n - 1) + if HasEvents(b, planned[n - 1].key) then |EventsIn(b, planned[n - 1].key)| else 0
  }

  /** How many of them come after the last event file that is empty: there the numbers start again. */
  ghost function CountSince(b: Bundle, planned: seq<PlannedAttempt>, n: nat): nat
    requires n <= |planned|
  {
    if n == 0 then 0
    else if !HasEvents(b, planned[n - 1].key) then CountSince(b, planned, n - 1)
    else if EventsIn(b, planned[n - 1].key) == [] then 0
    else CountSince(b, planned, n - 1) + |EventsIn(b, planned[n - 1].key)|
  }

  /** The events of the attempt's file go on from number `prior`, with its ids, run and key; the manifest
      has their range, and a complete execution starts and completes its scenario. */
  ghost predicate EventFileFits(b: Bundle, m: AttemptEntry, prior: nat) {
    var key, events := m.planned.key, EventsIn(b, m.planned.key);
    && EventFile(key) in b.files && b.files[EventFile(key)].EventLines?
    && (forall j {:trigger events[j]} | 0 <= j < |events| ::
          && events[j].sequence == prior + j + 1 && events[j].id == EventId(b.manifest.plan, b.manifest.run, prior + j + 1)
          && events[j].run == b.manifest.run && events[j].key == key && events[j].valid)
    && m.count == |events| && m.first == (if events == [] then 0 else prior + 1) && m.last == (if events == [] then 0 else prior + |events|)
    && (b.manifest.executionComplete && events != [] ==>
          events[0].kind == ScenarioStarted && events[|events| - 1].kind == ScenarioCompleted)
  }

  ghost predicate EventsFitAt(b: Bundle, key: AttemptKey, prior: nat) {
    exists m :: m in b.manifest.attempts && m.planned.key == key
      && if HasEvents(b, key) then EventFileFits(b, m, prior) else m.count == 0 && !b.manifest.evidenceComplete
  }

  ghost predicate EventsFit(b: Bundle, planned: seq<PlannedAttempt>, n: nat)
    requires n <= |planned|
  {
    forall i {:trigger planned[i]} | 0 <= i < n :: EventsFitAt(b, planned[i].key, CountSince(b, planned, i))
  }

  /** The manifest's one entry for the attempt decides. */
  lemma EntryDecides(b: Bundle, key: AttemptKey, prior: nat)
    requires AttemptsFit(b.manifest)
    ensures var m, k := b.manifest, R.AttemptAt(b.manifest.attempts, key);
            EventsFitAt(b, key, prior) <==>
              k < |m.attempts|
              && if HasEvents(b, key) then EventFileFits(b, m.attempts[k], prior) else m.attempts[k].count == 0 && !m.evidenceComplete
  {
    var k := R.AttemptAt(b.manifest.attempts, key);
    forall m | m in b.manifest.attempts && m.planned.key == key ensures k < |b.manifest.attempts| && m == b.manifest.attempts[k] {
      var j :| 0 <= j < |b.manifest.attempts| && b.manifest.attempts[j] == m;
    }
  }

  /** What has been seen after the attempt, if it is in order. */
  ghost function Reading(b: Bundle, key: AttemptKey, prior: nat, total: nat): Option<(nat, nat)> {
    var events := EventsIn(b, key);
    if !EventsFitAt(b, key, prior) then None
    else if !HasEvents(b, key) then Some((prior, total))
    else Some((if events == [] then 0 else prior + |events|, total + |events|))
  }

  /** Reading an attempt that the manifest knows: nothing without a file, and else what its lines give. */
  lemma ReadingKnownAttempt(b: Bundle, m: AttemptEntry, prior: nat, total: nat)
    requires var k := R.AttemptAt(b.manifest.attempts, m.planned.key); k < |b.manifest.attempts| && b.manifest.attempts[k] == m
    ensures var key, events := m.planned.key, EventsIn(b, m.planned.key);
            R.ReadAttempt(b, key, prior, total) ==
              if !HasEvents(b, key) then if m.count == 0 && !b.manifest.evidenceComplete then Some((prior, total)) else None
              else if EventFileFits(b, m, prior) then Some((if events == [] then 0 else prior + |events|, total + |events|))
              else None
  {
    if R.EventsReadable(b, m.planned.key) { ParsingIsExact(b, m, prior); }
  }

  lemma ReadingIsExact(b: Bundle, key: AttemptKey, prior: nat, total: nat)
    requires AttemptsFit(b.manifest)
    ensures R.ReadAttempt(b, key, prior, total) == Reading(b, key, prior, total)
  {
    EntryDecides(b, key, prior);
    var k := R.AttemptAt(b.manifest.attempts, key);
    if k < |b.manifest.attempts| { ReadingKnownAttempt(b, b.manifest.attempts[k], prior, total); }
  }

  lemma ParsingIsExact(b: Bundle, m: AttemptEntry, prior: nat)
    requires R.EventsReadable(b, m.planned.key)
    ensures var events := EventsIn(b, m.planned.key);
            var range := R.Range(|events|, if events == [] then 0 else prior + 1, if events == [] then 0 else prior + |events|);
            EventFileFits(b, m, prior) <==>
              && R.ParseEvents(events, m.planned.key, b.manifest.plan, b.manifest.run, b.manifest.executionComplete, prior) == Some(range)
              && range == R.Range(m.count, m.first, m.last)
  {
  }

  /** What the reader has seen after `n` attempts, if all was in order. */
  ghost function Seen(b: Bundle, planned: seq<PlannedAttempt>, n: nat): Option<(nat, nat)>
    requires n <= |planned|
  {
    if EventsFit(b, planned, n) then Some((CountSince(b, planned, n), Count(b, planned, n))) else None
  }

  lemma SeenOneMore(b: Bundle, planned: seq<PlannedAttempt>, n: nat)
    requires n < |planned|
    ensures Seen(b, planned, n + 1) ==
              if Seen(b, planned, n).None? then None
              else Reading(b, planned[n].key, CountSince(b, planned, n), Count(b, planned, n))
  {
    FitOneMore(b, planned, n);
    CountsOneMore(b, planned, n);
  }

  lemma FitOneMore(b: Bundle, planned: seq<PlannedAttempt>, n: nat)
    requires n < |planned|
    ensures EventsFit(b, planned, n + 1) <==> EventsFit(b, planned, n) && EventsFitAt(b, planned[n].key, CountSince(b, planned, n))
  {
  }

  lemma CountsOneMore(b: Bundle, planned: seq<PlannedAttempt>, n: nat)
    requires n < |planned|
    ensures var events := EventsIn(b, planned[n].key);
            if !HasEvents(b, planned[n].key) then
              CountSince(b, planned, n + 1) == CountSince(b, planned, n) && Count(b, planned, n + 1) == Count(b, planned, n)
            else
              && CountSince(b, planned, n + 1) == (if events == [] then 0 else CountSince(b, planned, n) + |events|)
              && Count(b, planned, n + 1) == Count(b, planned, n) + |events|
  {
  }

  /** The reader makes of the attempt what there is to make of it. */
  ghost predicate ReadsExactly(b: Bundle, key: AttemptKey, prior: nat, total: nat) {
    R.ReadAttempt(b, key, prior, total) == Reading(b, key, prior, total)
  }

  ghost predicate AddsUp(b: Bundle, planned: seq<PlannedAttempt>, n: nat)
    requires n <= |planned|
  {
    R.ReadEvents(b, planned, n) == Seen(b, planned, n)
  }

  lemma NothingAddsUp(b: Bundle, planned: seq<PlannedAttempt>)
    ensures AddsUp(b, planned, 0)
  {
  }

  lemma OneMoreAddsUp(b: Bundle, planned: seq<PlannedAttempt>, n: nat)
    requires n < |planned| && AddsUp(b, planned, n)
    requires ReadsExactly(b, planned[n].key, CountSince(b, planned, n), Count(b, planned, n))
    ensures AddsUp(b, planned, n + 1)
  {
    SeenOneMore(b, planned, n);
  }

  lemma {:induction false} ReadsAddUp(b: Bundle, planned: seq<PlannedAttempt>, n: nat)
    requires n <= |planned|
    requires forall key: AttemptKey, prior: nat, total: nat {:trigger ReadsExactly(b, key, prior, total)} :: ReadsExactly(b, key, prior, total)
    ensures AddsUp(b, planned, n)
  {
    if n == 0 {
      NothingAddsUp(b, planned);
    } else {
      ReadsAddUp(b, planned, n - 1);
      OneMoreAddsUp(b, planned, n - 1);
    }
  }

  lemma EventsAreExact(b: Bundle, planned: seq<PlannedAttempt>)
    requires AttemptsFit(b.manifest)
    ensures R.ReadEvents(b, planned, |planned|) == Seen(b, planned, |planned|)
  {
    forall key: AttemptKey, prior: nat, total: nat ensures ReadsExactly(b, key, prior, total) { ReadingIsExact(b, key, prior, total); }
    ReadsAddUp(b, planned, |planned|);
  }

  // ---------------------------------------------------------------- completion

  ghost predicate HasFile(m: Manifest, role: Role, key: AttemptKey) {
    exists e :: e in m.entries && e.role == role && e.key == Some(key)
  }

  /** A capture state says that there is a file exactly when there is one. */
  ghost predicate CapturesFit(b: Bundle, a: AttemptEntry) {
    var key := a.planned.key;
    && (a.events != NotProvided <==> HasFile(b.manifest, EventsRole, key))
    && (a.stdout != NotProvided <==> HasFile(b.manifest, LogRole(Stdout), key))
    && (a.stderr != NotProvided <==> HasFile(b.manifest, LogRole(Stderr), key))
    && (a.artifacts != NotProvided <==> AttemptPath(DirOf(key), IndexFile) in b.files)
    && (a.result != NotProvided <==> AttemptPath(DirOf(key), ResultFile) in b.files)
  }

  /** The records of all indexes. */
  function Indexed(b: Bundle): set<Record> {
    set p, r | p in b.files && IsIndex(p) && b.files[p].IndexDoc? && r in b.files[p].records :: r
  }

  /** Manifest and execution say the same of completeness. Evidence is complete only for a complete
      execution, and only with nothing cut short; whatever is incomplete comes with a failure. */
  ghost predicate CompletionFits(b: Bundle, doc: ExecutionDoc) {
    var m := b.manifest;
    && m.executionComplete == doc.complete && m.evidenceComplete == doc.evidenceComplete
    && (forall a | a in m.attempts :: CapturesFit(b, a))
    && |m.records| == |Indexed(b)| && (forall r | r in m.records :: r in Indexed(b))
    && (m.evidenceComplete ==>
          && m.executionComplete
          && forall a | a in m.attempts ::
               && a.events != Truncated && a.stdout != Truncated && a.stderr != Truncated
               && a.artifacts != OmittedByLimit && a.result != CaptureFailed)
    && (m.failure == None ==> m.executionComplete && m.evidenceComplete)
  }

  lemma IndexedIsExact(b: Bundle)
    requires FilesListed(b)
    ensures R.IndexedRecords(b) == Indexed(b)
  {
    IndexEntries(b);
    forall r | r in Indexed(b) ensures r in R.IndexedRecords(b) {
      var p :| p in b.files && IsIndex(p) && b.files[p].IndexDoc? && r in b.files[p].records;
      var e :| e in b.manifest.entries && e.role == IndexRole && e.path == p;
      var i :| 0 <= i < |b.manifest.entries| && b.manifest.entries[i] == e;
    }
    forall r | r in R.IndexedRecords(b) ensures r in Indexed(b) {
      var i :| 0 <= i < |b.manifest.entries| && b.manifest.entries[i].role == IndexRole && b.manifest.entries[i].path in b.files
               && b.files[b.manifest.entries[i].path].IndexDoc? && r in b.files[b.manifest.entries[i].path].records;
      assert b.manifest.entries[i] in b.manifest.entries;
      assert IsIndex(b.manifest.entries[i].path);
    }
  }

  lemma CapturesAreExact(b: Bundle, a: AttemptEntry)
    requires FilesListed(b)
    ensures R.CapturesOk(b.manifest, a) <==> CapturesFit(b, a)
  {
    forall role ensures R.HasFile(b.manifest, role, a.planned.key) <==> HasFile(b.manifest, role, a.planned.key) {}
    forall p ensures R.Lists(b.manifest, p) <==> p in b.files {}
  }

  lemma CompletionIsExact(b: Bundle, doc: ExecutionDoc)
    requires FilesListed(b) && AttemptsFit(b.manifest) && doc.transactionValid
    ensures R.CompletionOk(b, doc) <==> CompletionFits(b, doc)
  {
    IndexedIsExact(b);
    forall a ensures R.CapturesOk(b.manifest, a) <==> CapturesFit(b, a) { CapturesAreExact(b, a); }
  }

  // ---------------------------------------------------------------- the whole verdict

  /** What an accepted bundle is, document by document. */
  ghost predicate Sound(b: Bundle, maxAttempts: nat) {
    && FilesFit(b) && AttemptsFit(b.manifest) && PlanFits(b, maxAttempts)
    && var planned := Expand(b.files[PlanPath].plan);
       && ExecutionFits(b, planned) && ArtifactsFit(b) && CompletionFits(b, b.files[ExecutionPath].doc)
       && EventsFit(b, planned, |planned|) && Count(b, planned, |planned|) == b.files[ExecutionPath].doc.total
  }

  lemma PlanIsExact(b: Bundle, maxAttempts: nat)
    requires FilesListed(b) && AttemptsFit(b.manifest)
    ensures R.PlanOk(b, maxAttempts) <==> PlanFits(b, maxAttempts)
    ensures R.ListsAs(b.manifest, ExecutionPath, ExecutionRole) <==> ExecutionPath in b.files
  {
    if PlanPath in b.files { var e :| e in b.manifest.entries && e.path == PlanPath; assert RoleFits(e); }
    if ExecutionPath in b.files { var e :| e in b.manifest.entries && e.path == ExecutionPath; assert RoleFits(e); }
  }

  /** The reader accepts a bundle exactly when its documents say what they should of each other. */
  lemma AcceptedExactlyWhenSound(b: Bundle, maxAttempts: nat)
    ensures R.Accepts(b, maxAttempts) <==> Sound(b, maxAttempts)
  {
    LayoutIsExact(b);
    if FilesFit(b) && AttemptsFit(b.manifest) {
      PlanIsExact(b, maxAttempts);
      if PlanFits(b, maxAttempts) {
        var planned := Expand(b.files[PlanPath].plan);
        ExecutionIsExact(b, planned);
        ArtifactsAreExact(b);
        EventsAreExact(b, planned);
        if ExecutionFits(b, planned) { CompletionIsExact(b, b.files[ExecutionPath].doc); }
      }
    }
  }

  // ---------------------------------------------------------------- how the events are numbered

  ghost predicate Gapless(events: seq<Event>) { forall j {:trigger events[j]} | 0 <= j < |events| :: events[j].sequence == j + 1 }

  /** The events of the attempt stand at the place in the walk that their numbers say. */
  ghost predicate InPlace(b: Bundle, planned: seq<PlannedAttempt>, i: nat)
    requires i < |planned|
  {
    HasEvents(b, planned[i].key) && EventsIn(b, planned[i].key) != [] ==> CountSince(b, planned, i) == Count(b, planned, i)
  }

  /** The events that the walk visits in the attempt. */
  ghost function VisitedIn(b: Bundle, key: AttemptKey): seq<Event> { if HasEvents(b, key) then EventsIn(b, key) else [] }

  lemma WalkOneMore(b: Bundle, planned: seq<PlannedAttempt>, n: nat)
    requires n < |planned|
    ensures R.Walk(b, planned, n + 1) == R.Walk(b, planned, n) + VisitedIn(b, planned[n].key)
    ensures Count(b, planned, n + 1) == Count(b, planned, n) + |VisitedIn(b, planned[n].key)|
  {
  }

  /** What is known of every single event. */
  ghost predicate IsOfRun(m: Manifest, e: Event) { e.id == EventId(m.plan, m.run, e.sequence) && e.run == m.run && e.valid }

  /** These events carry the numbers that follow `prior`. */
  ghost predicate NumberedFrom(m: Manifest, events: seq<Event>, prior: nat) {
    forall j {:trigger events[j]} | 0 <= j < |events| :: events[j].sequence == prior + j + 1 && IsOfRun(m, events[j])
  }

  lemma VisitedAreNumbered(b: Bundle, planned: seq<PlannedAttempt>, i: nat)
    requires i < |planned| && EventsFit(b, planned, |planned|)
    ensures NumberedFrom(b.manifest, VisitedIn(b, planned[i].key), CountSince(b, planned, i))
  {
    assert EventsFitAt(b, planned[i].key, CountSince(b, planned, i));
  }

  /** A walk is numbered without gap exactly when each file's events are in place. */
  ghost predicate NumbersAgree(b: Bundle, planned: seq<PlannedAttempt>, n: nat)
    requires n <= |planned|
  {
    var events := R.Walk(b, planned, n);
    && |events| == Count(b, planned, n) && (forall e | e in events :: IsOfRun(b.manifest, e))
    && (Gapless(events) <==> forall i {:trigger InPlace(b, planned, i)} | 0 <= i < n :: InPlace(b, planned, i))
  }

  lemma AppendedNumbers(m: Manifest, all: seq<Event>, more: seq<Event>, prior: nat)
    requires NumberedFrom(m, more, prior) && forall e | e in all :: IsOfRun(m, e)
    ensures forall e | e in all + more :: IsOfRun(m, e)
    ensures Gapless(all + more) <==> Gapless(all) && (more != [] ==> prior == |all|)
  {
    assert forall j | 0 <= j < |more| :: (all + more)[|all| + j] == more[j];
    assert forall j | 0 <= j < |all| :: (all + more)[j] == all[j];
    if more != [] && Gapless(all + more) {
      assert (all + more)[|all|] == more[0];
    }
  }

  lemma NumbersAgreeOneMore(b: Bundle, planned: seq<PlannedAttempt>, n: nat)
    requires n < |planned| && NumbersAgree(b, planned, n) && NumberedAt(b, planned, n)
    ensures NumbersAgree(b, planned, n + 1)
  {
    WalkOneMore(b, planned, n);
    AppendedNumbers(b.manifest, R.Walk(b, planned, n), VisitedIn(b, planned[n].key), CountSince(b, planned, n));
    assert (forall i | 0 <= i < n + 1 :: InPlace(b, planned, i)) <==> (forall i | 0 <= i < n :: InPlace(b, planned, i)) && InPlace(b, planned, n);
  }

  ghost predicate NumberedAt(b: Bundle, planned: seq<PlannedAttempt>, i: nat)
    requires i < |planned|
  {
    NumberedFrom(b.manifest, VisitedIn(b, planned[i].key), CountSince(b, planned, i))
  }

  lemma NothingIsNumbered(b: Bundle, planned: seq<PlannedAttempt>)
    ensures NumbersAgree(b, planned, 0)
  {
  }

  lemma {:induction false} NumbersAddUp(b: Bundle, planned: seq<PlannedAttempt>, n: nat)
    requires n <= |planned|
    requires forall i {:trigger NumberedAt(b, planned, i)} | 0 <= i < |planned| :: NumberedAt(b, planned, i)
    ensures NumbersAgree(b, planned, n)
  {
    if n == 0 {
      NothingIsNumbered(b, planned);
    } else {
      NumbersAddUp(b, planned, n - 1);
      assert NumberedAt(b, planned, n - 1);
      NumbersAgreeOneMore(b, planned, n - 1);
    }
  }

  /** Attempt `k` has an empty event file. */
  ghost predicate EmptyAt(b: Bundle, planned: seq<PlannedAttempt>, k: nat) {
    k < |planned| && HasEvents(b, planned[k].key) && EventsIn(b, planned[k].key) == []
  }

  lemma {:induction false} CountGrows(b: Bundle, planned: seq<PlannedAttempt>, i: nat, n: nat)
    requires i <= n <= |planned|
    ensures Count(b, planned, i) <= Count(b, planned, n)
  {
    if i < n { CountGrows(b, planned, i, n - 1); }
  }

  /** After an empty file at `k` only what comes later is counted. */
  lemma {:induction false} CountStartsAgain(b: Bundle, planned: seq<PlannedAttempt>, k: nat, n: nat)
    requires EmptyAt(b, planned, k) && k < n <= |planned|
    ensures CountSince(b, planned, n) <= Count(b, planned, n) - Count(b, planned, k)
  {
    if n > k + 1 {
      CountStartsAgain(b, planned, k, n - 1);
      CountGrows(b, planned, k, n - 1);
    }
  }

  /** Only an empty file with events before it sets the two counts apart. */
  lemma {:induction false} CountsDifferOnlyAfterEmpty(b: Bundle, planned: seq<PlannedAttempt>, n: nat)
    requires n <= |planned|
    ensures CountSince(b, planned, n) == Count(b, planned, n)
            || exists k: nat :: k < n && EmptyAt(b, planned, k) && 0 < Count(b, planned, k)
  {
    if n > 0 {
      CountsDifferOnlyAfterEmpty(b, planned, n - 1);
      CountsOneMore(b, planned, n - 1);
      if EmptyAt(b, planned, n - 1) && 0 < Count(b, planned, n - 1) { assert n - 1 < n; }
    }
  }

  /** An empty event file with events before it and after it. */
  ghost predicate RestartsAt(b: Bundle, planned: seq<PlannedAttempt>, k: nat) {
    EmptyAt(b, planned, k) && 0 < Count(b, planned, k) < Count(b, planned, |planned|)
  }

  lemma AfterEmptyComesAnEvent(b: Bundle, planned: seq<PlannedAttempt>, k: nat, n: nat) returns (i: nat)
    requires k < n <= |planned| && EmptyAt(b, planned, k) && Count(b, planned, k) < Count(b, planned, n)
    ensures k < i < n && VisitedIn(b, planned[i].key) != []
  {
    CountsOneMore(b, planned, n - 1);
    if VisitedIn(b, planned[n - 1].key) != [] {
      i := n - 1;
    } else {
      i := AfterEmptyComesAnEvent(b, planned, k, n - 1);
    }
  }

  lemma InPlaceUnlessRestarted(b: Bundle, planned: seq<PlannedAttempt>)
    ensures (forall i {:trigger InPlace(b, planned, i)} | 0 <= i < |planned| :: InPlace(b, planned, i))
              <==> !exists k: nat {:trigger RestartsAt(b, planned, k)} :: RestartsAt(b, planned, k)
  {
    forall i | 0 <= i < |planned| && !InPlace(b, planned, i) ensures exists k: nat :: RestartsAt(b, planned, k) {
      CountsDifferOnlyAfterEmpty(b, planned, i);
      var k: nat :| k < i && EmptyAt(b, planned, k) && 0 < Count(b, planned, k);
      CountGrows(b, planned, k, i);
      CountsOneMore(b, planned, i);
      CountGrows(b, planned, i + 1, |planned|);
      assert RestartsAt(b, planned, k);
    }
    forall k: nat | RestartsAt(b, planned, k) ensures exists i :: 0 <= i < |planned| && !InPlace(b, planned, i) {
      var i := AfterEmptyComesAnEvent(b, planned, k, |planned|);
      CountStartsAgain(b, planned, k, i);
      assert !InPlace(b, planned, i);
    }
  }

  lemma FittingEventsAreNumbered(b: Bundle, planned: seq<PlannedAttempt>)
    requires EventsFit(b, planned, |planned|)
    ensures var events := R.Walk(b, planned, |planned|);
            && |events| == Count(b, planned, |planned|) && (forall e | e in events :: IsOfRun(b.manifest, e))
            && (Gapless(events) <==> !exists k: nat {:trigger RestartsAt(b, planned, k)} :: RestartsAt(b, planned, k))
  {
    forall i | 0 <= i < |planned| ensures NumberedAt(b, planned, i) { VisitedAreNumbered(b, planned, i); }
    NumbersAddUp(b, planned, |planned|);
    InPlaceUnlessRestarted(b, planned);
  }

  /** What is known of every event of an accepted bundle: its id is that of its number, and there are as
      many as the execution says. In plan order they are numbered 1, 2, 3 and so on without a gap, unless
      an empty event file stands between two events: there the reader has the numbers start again. */
  lemma AcceptedEventsAreNumbered(b: Bundle, maxAttempts: nat)
    requires R.Accepts(b, maxAttempts)
    ensures var planned := Expand(b.files[PlanPath].plan); var events := R.Walk(b, planned, |planned|);
            && |events| == b.files[ExecutionPath].doc.total
            && (forall e | e in events :: IsOfRun(b.manifest, e))
            && (Gapless(events) <==> !exists k: nat {:trigger RestartsAt(b, planned, k)} :: RestartsAt(b, planned, k))
  {
    AcceptedExactlyWhenSound(b, maxAttempts);
    FittingEventsAreNumbered(b, Expand(b.files[PlanPath].plan));
  }

  // ---------------------------------------------------------------- which records the manifest repeats

  ghost predicate NoRecordTwice(records: seq<Record>) { forall i, j | 0 <= i < j < |records| :: records[i] != records[j] }

  lemma {:induction false} CountingRecords(records: seq<Record>)
    ensures |(set r | r in records)| <= |records|
    ensures |(set r | r in records)| == |records| <==> NoRecordTwice(records)
  {
    if records != [] {
      var init, last := records[..|records| - 1], records[|records| - 1];
      CountingRecords(init);
      assert records == init + [last];
      assert (set r | r in records) == (set r | r in init) + {last};
      assert NoRecordTwice(records) <==> NoRecordTwice(init) && last !in init;
    }
  }

  lemma SubsetsOfOneSize(a: set<Record>, b: set<Record>)
    requires a <= b
    ensures a == b <==> |a| == |b|
  {
    assert |b| == |a| + |b - a| by { assert b == a + (b - a); }
  }

  lemma RepeatedRecordsHideOthers(records: seq<Record>, indexed: set<Record>)
    requires |records| == |indexed| && forall r | r in records :: r in indexed
    ensures (forall r | r in indexed :: r in records) <==> NoRecordTwice(records)
  {
    var all := set r | r in records;
    CountingRecords(records);
    SubsetsOfOneSize(all, indexed);
    assert all == indexed <==> forall r | r in indexed :: r in records;
  }

  /** The records of an accepted manifest stand in the indexes. They are all the records that stand there
      exactly when the manifest has none of them twice: the reader compares only the number. */
  lemma AcceptedRecordsAreIndexed(b: Bundle, maxAttempts: nat)
    requires R.Accepts(b, maxAttempts)
    ensures (forall r | r in b.manifest.records :: r in Indexed(b)) && |b.manifest.records| == |Indexed(b)|
    ensures (forall r | r in Indexed(b) :: r in b.manifest.records) <==> NoRecordTwice(b.manifest.records)
  {
    AcceptedExactlyWhenSound(b, maxAttempts);
    RepeatedRecordsHideOthers(b.manifest.records, Indexed(b));
  }
}

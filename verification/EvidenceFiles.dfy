/** What every call of the writer keeps about its staged files: which files exist follows from the
    state of the attempts, and exactly the closed ones are listed, as the reader wants them listed. */
module EvidenceFiles {
  import opened Options
  import opened EvidenceModel
  import opened EvidenceSession
  import opened EvidencePaths
  import R = EvidenceReader

  // ---------------------------------------------------------------- one file of one attempt

  predicate Has(a: Attempt, name: FileName) {
    match name
    case EventsFile => !a.events.NotProvided?
    case LogFile(stream) => LogAt(a, stream).Some?
    case IndexFile => a.indexed
    case ResultFile => !a.result.NotProvided?
  }

  predicate IsOpen(a: Attempt, name: FileName) {
    match name
    case EventsFile => a.eventsOpen
    case LogFile(stream) => LogAt(a, stream).Some? && !LogAt(a, stream).value.closed
    case _ => false
  }

  predicate ContentOk(a: Attempt, name: FileName, c: Content) {
    match name
    case EventsFile => c.EventLines?
    case LogFile(stream) => LogAt(a, stream).Some? && c == Raw(LogAt(a, stream).value.bytes)
    case IndexFile => c == IndexDoc(a.planned.key, a.records)
    case ResultFile => c.ResultDoc? && c.result.key == a.planned.key
                       && c.result.count == a.count && c.result.first == a.first && c.result.last == a.last
  }

  ghost predicate NameOk(s: Session, i: nat, name: FileName)
    requires i < |s.attempts|
  {
    var a := s.attempts[i]; var p := FileOf(a, name);
    && (p in s.files <==> Has(a, name))
    && (Listed(s, p) <==> Has(a, name) && !IsOpen(a, name) && p !in s.stray) && (p in s.stray ==> !IsOpen(a, name))
    && (p in s.files ==> ContentOk(a, name, s.files[p]))
  }

  ghost predicate Owned(s: Session, dir: AttemptDir) { exists i :: 0 <= i < |s.attempts| && DirOf(KeyAt(s, i)) == dir }

  ghost predicate Planned(s: Session, key: AttemptKey) { exists i :: 0 <= i < |s.attempts| && KeyAt(s, i) == key }

  ghost predicate EntryOk(s: Session, e: Entry) {
    && e.path in s.payloads && e.path in s.files && e.digest == Digest(s.files[e.path]) && R.RolePathOk(e)
    && (e.path.AttemptPath? ==> e.key.Some? && Planned(s, e.key.value))
  }

  ghost predicate PathOk(s: Session, p: Path)
    requires p in s.files
  {
    match p
    case PlanPath => s.files[p] == PlanDoc(s.plan) && Listed(s, p)
    case ExecutionPath => s.files[p].ExecutionContent? && Listed(s, p)
    case ManifestPath => false
    case AttemptPath(dir, _) => Owned(s, dir)
    case ObjectPath(d) => s.files[p] == d.content && d.content.Raw? && if d in s.objects then Listed(s, p) else p in s.stray
  }

  /** No two attempts share a directory. */
  ghost predicate DirsApart(s: Session) {
    (forall i, j {:trigger DirOf(KeyAt(s, i)), DirOf(KeyAt(s, j))} | 0 <= i < |s.attempts| && 0 <= j < |s.attempts|
          && DirOf(KeyAt(s, i)) == DirOf(KeyAt(s, j)) :: i == j)
  }

  ghost predicate NamesOk(s: Session) {
    forall i: nat, name {:trigger NameOk(s, i, name)} | i < |s.attempts| :: NameOk(s, i, name)
  }

  ghost predicate HasEntry(entries: seq<Entry>, p: Path) { exists e | e in entries :: e.path == p }

  ghost predicate EntriesOk(s: Session) {
    && R.PathsDistinct(s.entries) && (forall e {:trigger EntryOk(s, e)} | e in s.entries :: EntryOk(s, e))
    && (forall p {:trigger HasEntry(s.entries, p)} | p in s.payloads :: HasEntry(s.entries, p))
  }

  /** A stray file is in place and not listed. */
  ghost predicate StrayOk(s: Session, p: Path) { p in s.files && !Listed(s, p) }

  function StrayObjects(stray: set<Path>): set<Digest> { set p | p in stray && p.ObjectPath? :: p.digest }

  function ShardFolders(objects: set<Digest>): set<Folder> { set d | d in objects :: ShardFolder(Shard(d)) }

  ghost predicate FilesOk(s: Session) {
    && DirsApart(s) && NamesOk(s) && EntriesOk(s)
    && (forall p {:trigger PathOk(s, p)} | p in s.files :: PathOk(s, p))
    && (forall p {:trigger StrayOk(s, p)} | p in s.stray :: StrayOk(s, p))
    && PlanPath in s.files && (forall d | d in s.objects :: ObjectPath(d) in s.files)
  }

  /** The objects in place, listed or not. */
  function InPlace(s: Session): set<Digest> { s.objects + StrayObjects(s.stray) }

  /** The attempts are those of the plan, and the folders are theirs, those of the objects and the fixed ones. */
  ghost predicate LaidOut(s: Session) {
    && |s.attempts| == |Expand(s.plan)|
    && (forall i {:trigger Expand(s.plan)[i]} | 0 <= i < |s.attempts| :: s.attempts[i].planned == Expand(s.plan)[i])
    && s.folders == FixedFolders() + AttemptFolders(Expand(s.plan)) + ShardFolders(InPlace(s))
  }

  /** Nothing that the layout depends on has changed. */
  ghost predicate SameLayout(s: Session, t: Session) {
    && t.plan == s.plan && t.folders == s.folders && InPlace(t) == InPlace(s) && |t.attempts| == |s.attempts|
    && forall i {:trigger t.attempts[i]} | 0 <= i < |s.attempts| :: t.attempts[i].planned == s.attempts[i].planned
  }

  lemma LayoutStays(s: Session, t: Session)
    requires LaidOut(s) && SameLayout(s, t)
    ensures LaidOut(t)
  {
  }

  // ---------------------------------------------------------------- kinds of changes

  /** The change of an attempt leaves another of its files as it is. */
  predicate KeepsFile(a: Attempt, a': Attempt, name: FileName) {
    && Has(a', name) == Has(a, name) && IsOpen(a', name) == IsOpen(a, name)
    && match name
       case EventsFile => true
       case LogFile(stream) => LogAt(a, stream).Some? ==> LogAt(a', stream).value.bytes == LogAt(a, stream).value.bytes
       case IndexFile => a.indexed ==> a'.records == a.records
       case ResultFile => Has(a, ResultFile) ==> a'.count == a.count && a'.first == a.first && a'.last == a.last
  }

  /** Only attempt `i` changes, and of its files only the given one. */
  ghost predicate ChangesOnly(s: Session, s': Session, i: nat, name: FileName)
    requires i < |s.attempts|
  {
    && s'.plan == s.plan && |s'.attempts| == |s.attempts| && s'.objects == s.objects && s'.folders == s.folders
    && (forall k {:trigger s'.attempts[k]} | 0 <= k < |s.attempts| && k != i :: s'.attempts[k] == s.attempts[k])
    && s'.attempts[i].planned == s.attempts[i].planned
    && (forall n {:trigger KeepsFile(s.attempts[i], s'.attempts[i], n)} | n != name :: KeepsFile(s.attempts[i], s'.attempts[i], n))
  }

  /** The entry that lists a file of an attempt in the state it is in. */
  ghost predicate Lists(s: Session, i: nat, name: FileName, e: Entry)
    requires i < |s.attempts|
  {
    var p := FileOf(s.attempts[i], name);
    && e.path == p && p in s.files && e.digest == Digest(s.files[p]) && e.key == Some(KeyAt(s, i)) && R.RolePathOk(e)
  }

  lemma EntriesAfter(s: Session, s': Session, e: Option<Entry>)
    requires EntriesOk(s) && s'.entries == s.entries + (if e.Some? then [e.value] else [])
    requires s'.payloads == s.payloads + (if e.Some? then {e.value.path} else {}) && (e.Some? ==> e.value.path !in s.payloads)
    ensures R.PathsDistinct(s'.entries) && (forall x | x in s'.entries :: x in s.entries || e == Some(x))
    ensures forall p {:trigger HasEntry(s'.entries, p)} | p in s'.payloads :: HasEntry(s'.entries, p)
  {
    forall k | 0 <= k < |s.entries| ensures s.entries[k].path in s.payloads { assert EntryOk(s, s.entries[k]); }
    forall p | p in s'.payloads ensures HasEntry(s'.entries, p) {
      if p in s.payloads {
        assert HasEntry(s.entries, p);
        var x :| x in s.entries && x.path == p;
        assert x in s'.entries;
      } else {
        assert e.value == s'.entries[|s.entries|];
      }
    }
  }

  /** What is listed is there. */
  lemma ListedIsThere(s: Session, p: Path)
    requires EntriesOk(s) && p in s.payloads
    ensures p in s.files
  {
    assert HasEntry(s.entries, p);
    var e :| e in s.entries && e.path == p;
    assert EntryOk(s, e);
  }

  lemma OwnersStay(s: Session, s': Session, i: nat, name: FileName)
    requires i < |s.attempts| && DirsApart(s) && ChangesOnly(s, s', i, name)
    ensures DirsApart(s')
    ensures forall dir {:trigger Owned(s', dir)} | Owned(s, dir) :: Owned(s', dir)
    ensures forall key {:trigger Planned(s', key)} | Planned(s, key) :: Planned(s', key)
  {
    assert forall k {:trigger KeyAt(s', k)} | 0 <= k < |s.attempts| :: KeyAt(s', k) == KeyAt(s, k);
    forall dir | Owned(s, dir) ensures Owned(s', dir) {
      var k :| 0 <= k < |s.attempts| && DirOf(KeyAt(s, k)) == dir;
      assert DirOf(KeyAt(s', k)) == dir;
    }
    forall key | Planned(s, key) ensures Planned(s', key) {
      var k :| 0 <= k < |s.attempts| && KeyAt(s, k) == key;
      assert KeyAt(s', k) == key;
    }
  }

  /** One file of one attempt is written, or closed and listed by `e`, or closed and left stray. */
  ghost predicate Moves(s: Session, s': Session, i: nat, name: FileName, e: Option<Entry>)
    requires i < |s.attempts|
  {
    var p := FileOf(s.attempts[i], name);
    && ChangesOnly(s, s', i, name)
    && s'.files.Keys == s.files.Keys + {p} && (forall q | q in s.files && q != p :: s'.files[q] == s.files[q])
    && ContentOk(s'.attempts[i], name, s'.files[p])
    && Has(s'.attempts[i], name) && (e.Some? ==> !IsOpen(s'.attempts[i], name))
    && s'.stray == s.stray + (if e.None? && !IsOpen(s'.attempts[i], name) then {p} else {})
    && s'.entries == s.entries + (if e.Some? then [e.value] else [])
    && s'.payloads == s.payloads + (if e.Some? then {e.value.path} else {})
    && (e.Some? ==> Lists(s', i, name, e.value))
  }

  /** What is not there is not stray. */
  lemma NotStray(s: Session, p: Path)
    requires FilesOk(s) && p !in s.files
    ensures p !in s.stray
  {
    assert p in s.stray ==> StrayOk(s, p);
  }

  lemma StraysAfter(s: Session, s': Session, i: nat, name: FileName, e: Option<Entry>)
    requires FilesOk(s) && i < |s.attempts| && Moves(s, s', i, name, e)
    requires !Listed(s, FileOf(s.attempts[i], name)) && FileOf(s.attempts[i], name) !in s.stray
    ensures forall q {:trigger StrayOk(s', q)} | q in s'.stray :: StrayOk(s', q)
  {
    forall q | q in s'.stray ensures StrayOk(s', q) { assert q in s.stray ==> StrayOk(s, q); }
  }

  lemma FileMoves(s: Session, s': Session, i: nat, name: FileName, e: Option<Entry>)
    requires FilesOk(s) && i < |s.attempts| && Moves(s, s', i, name, e)
    requires !Listed(s, FileOf(s.attempts[i], name)) && FileOf(s.attempts[i], name) !in s.stray
    ensures FilesOk(s')
  {
    var p := FileOf(s.attempts[i], name);
    StraysAfter(s, s', i, name, e);
    OwnersStay(s, s', i, name);
    EntriesAfter(s, s', e);
    forall k: nat, n | k < |s'.attempts| ensures NameOk(s', k, n) {
      assert NameOk(s, k, n);
      if k == i && n != name { assert KeepsFile(s.attempts[i], s'.attempts[i], n); }
      if k != i { assert DirOf(KeyAt(s, k)) != DirOf(KeyAt(s, i)); }
    }
    forall x | x in s'.entries ensures EntryOk(s', x) {
      if x in s.entries {
        assert EntryOk(s, x) && Listed(s, x.path);
      } else {
        assert KeyAt(s', i) == KeyAt(s, i);
        assert Planned(s', KeyAt(s', i));
      }
    }
    forall q | q in s'.files ensures PathOk(s', q) {
      assert q in s.files ==> PathOk(s, q);
      assert q == p ==> Owned(s', p.dir) by { assert DirOf(KeyAt(s', i)) == p.dir; }
      assert Listed(s, q) ==> Listed(s', q);
    }
  }

  /** The attempt changes, its files do not. */
  ghost predicate Stays(s: Session, s': Session, i: nat)
    requires i < |s.attempts|
  {
    && ChangesOnly(s, s', i, EventsFile) && KeepsFile(s.attempts[i], s'.attempts[i], EventsFile)
    && s'.files == s.files && s'.entries == s.entries && s'.payloads == s.payloads && s'.stray == s.stray
  }

  lemma FilesStay(s: Session, s': Session, i: nat)
    requires FilesOk(s) && i < |s.attempts| && Stays(s, s', i)
    ensures FilesOk(s')
  {
    OwnersStay(s, s', i, EventsFile);
    assert forall p :: Listed(s', p) == Listed(s, p);
    forall k: nat, n | k < |s'.attempts| ensures NameOk(s', k, n) {
      assert NameOk(s, k, n);
      if k == i { assert KeepsFile(s.attempts[i], s'.attempts[i], n); }
    }
    forall x | x in s'.entries ensures EntryOk(s', x) { assert EntryOk(s, x); }
    forall q | q in s'.files ensures PathOk(s', q) { assert PathOk(s, q); }
    forall q | q in s'.stray ensures StrayOk(s', q) { assert StrayOk(s, q); }
  }

  // ---------------------------------------------------------------- what the calls change

  /** The entry with which a call lists a file, if it does. */
  function LastIf(listed: bool, s: Session, s': Session): Option<Entry>
    requires listed ==> |s.entries| < |s'.entries|
  {
    if listed then Some(s'.entries[|s.entries|]) else None
  }

  lemma CloseEventsMoves(s: Session, i: nat, lists: bool)
    requires i < |s.attempts| && s.attempts[i].eventsOpen && Has(s.attempts[i], EventsFile)
    requires var p := FileOf(s.attempts[i], EventsFile); p in s.files && s.files[p].EventLines? && !Listed(s, p)
    ensures CloseEvents(s, i, lists).1 == lists
    ensures var s' := CloseEvents(s, i, lists).0;
            (lists ==> |s.entries| < |s'.entries|) && Moves(s, s', i, EventsFile, LastIf(lists, s, s'))
  {
  }

  /** A change of one log leaves the other files of the attempt. */
  lemma SetLogKeepsOthers(a: Attempt, stream: Stream, log: Log, capture: Capture, name: FileName)
    requires name != LogFile(stream)
    ensures KeepsFile(a, SetLog(a, stream, log, capture), name)
  {
  }

  lemma SetLogChangesOnly(s: Session, i: nat, stream: Stream, log: Log, capture: Capture)
    requires i < |s.attempts|
    ensures ChangesOnly(s, Update(s, i, SetLog(s.attempts[i], stream, log, capture)), i, LogFile(stream))
  {
    var a := s.attempts[i];
    forall name | name != LogFile(stream) ensures KeepsFile(a, SetLog(a, stream, log, capture), name) {
      SetLogKeepsOthers(a, stream, log, capture, name);
    }
  }

  lemma CloseLogMoves(s: Session, i: nat, stream: Stream, lists: bool)
    requires i < |s.attempts| && IsOpen(s.attempts[i], LogFile(stream))
    requires var p := FileOf(s.attempts[i], LogFile(stream));
             p in s.files && ContentOk(s.attempts[i], LogFile(stream), s.files[p]) && !Listed(s, p)
    ensures CloseLog(s, i, stream, lists).1 == lists
    ensures var s' := CloseLog(s, i, stream, lists).0;
            (lists ==> |s.entries| < |s'.entries|) && Moves(s, s', i, LogFile(stream), LastIf(lists, s, s'))
  {
    var log := LogAt(s.attempts[i], stream).value;
    CloseLogIs(s, i, stream, lists);
    SetLogChangesOnly(s, i, stream, log.(closed := true), CaptureOf(log));
  }

  lemma OpenEventsMoves(s: Session, i: nat)
    requires i < |s.attempts|
    ensures Moves(s, OpenEvents(s, i), i, EventsFile, None)
  {
  }

  lemma AppendEventMoves(s: Session, i: nat, e: Event)
    requires i < |s.attempts| && e.sequence >= 0
    requires s.attempts[i].eventsOpen && !Has(s.attempts[i], ResultFile)
    ensures Moves(s, AppendEvent(s, i, e), i, EventsFile, None)
  {
  }

  lemma OpenLogMoves(s: Session, key: AttemptKey, stream: Stream)
    requires var i := IndexOfKey(s.attempts, key);
             && s.state.Active? && i < |s.attempts| && LogAt(s.attempts[i], stream).None?
             && FileOf(s.attempts[i], LogFile(stream)) !in s.files
    ensures Moves(s, OpenLog(s, key, stream), IndexOfKey(s.attempts, key), LogFile(stream), None)
  {
  }

  lemma AppendLogMoves(lim: Limits, s: Session, i: nat, stream: Stream, data: string)
    requires i < |s.attempts| && IsOpen(s.attempts[i], LogFile(stream))
    ensures Moves(s, AppendLog(lim, s, i, stream, data), i, LogFile(stream), None)
  {
  }

  lemma MarkTruncatedStays(s: Session, key: AttemptKey, stream: Stream, n: int)
    requires IndexOfKey(s.attempts, key) < |s.attempts|
    ensures Stays(s, MarkTruncated(s, key, stream, n), IndexOfKey(s.attempts, key))
  {
    var i, s' := IndexOfKey(s.attempts, key), MarkTruncated(s, key, stream, n);
    forall name ensures KeepsFile(s.attempts[i], s'.attempts[i], name) {
    }
  }

  lemma CollectionCompleteStays(s: Session, key: AttemptKey)
    requires IndexOfKey(s.attempts, key) < |s.attempts|
    ensures Stays(s, MarkCollectionComplete(s, key), IndexOfKey(s.attempts, key))
  {
  }

  lemma RecordArtifactStays(s: Session, i: nat, r: Record)
    requires i < |s.attempts| && !s.attempts[i].indexed
    ensures Stays(s, RecordArtifact(s, i, r), i)
  {
  }

  lemma WriteIndexMoves(s: Session, i: nat)
    requires i < |s.attempts| && !s.attempts[i].indexed
    requires FileOf(s.attempts[i], IndexFile) !in s.files && !Listed(s, FileOf(s.attempts[i], IndexFile))
    ensures WriteIndex(s, i).1
    ensures var s' := WriteIndex(s, i).0; |s.entries| < |s'.entries| && Moves(s, s', i, IndexFile, Some(s'.entries[|s.entries|]))
  {
  }

  lemma WriteResultMoves(s: Session, i: nat, results: seq<AttemptResult>)
    requires i < |s.attempts| && ResultFor(results, KeyAt(s, i)).Some? && WriteResult(s, i, results).1
    requires !Listed(s, FileOf(s.attempts[i], ResultFile))
    ensures var s' := WriteResult(s, i, results).0; |s.entries| < |s'.entries| && Moves(s, s', i, ResultFile, Some(s'.entries[|s.entries|]))
  {
    ResultForIsOfKey(results, KeyAt(s, i));
    var a, s' := s.attempts[i], WriteResult(s, i, results).0;
    var p, content := FileOf(a, ResultFile), ResultDoc(ResultFor(results, KeyAt(s, i)).value);
    assert s'.files == s.files[p := content] && s'.attempts == s.attempts[i := a.(result := Captured)];
    assert s'.entries == s.entries + [Entry(p, ResultRole, Digest(content), Some(a.planned.key), Captured)];
  }

  // ---------------------------------------------------------------- every call keeps the files in order

  /** Closing never meets a path that is listed already: only a limit of the bundle can refuse it. */
  lemma CloseEventsKeepsFiles(s: Session, i: nat, lists: bool)
    requires FilesOk(s) && i < |s.attempts| && (s.attempts[i].eventsOpen ==> Has(s.attempts[i], EventsFile))
    ensures CloseEvents(s, i, lists).1 == (lists || !s.attempts[i].eventsOpen) && FilesOk(CloseEvents(s, i, lists).0)
  {
    var a := s.attempts[i];
    if a.eventsOpen {
      assert NameOk(s, i, EventsFile);
      CloseEventsMoves(s, i, lists);
      var s' := CloseEvents(s, i, lists).0;
      FileMoves(s, s', i, EventsFile, LastIf(lists, s, s'));
    }
  }

  lemma CloseLogKeepsFiles(s: Session, i: nat, stream: Stream, lists: bool)
    requires FilesOk(s) && i < |s.attempts|
    ensures CloseLog(s, i, stream, lists).1 == (lists || !IsOpen(s.attempts[i], LogFile(stream))) && FilesOk(CloseLog(s, i, stream, lists).0)
  {
    var a := s.attempts[i];
    if IsOpen(a, LogFile(stream)) {
      assert NameOk(s, i, LogFile(stream));
      CloseLogMoves(s, i, stream, lists);
      var s' := CloseLog(s, i, stream, lists).0;
      FileMoves(s, s', i, LogFile(stream), LastIf(lists, s, s'));
    }
  }

  lemma OpenEventsKeepsFiles(s: Session, i: nat)
    requires FilesOk(s) && i < |s.attempts| && FileOf(s.attempts[i], EventsFile) !in s.files
    ensures FilesOk(OpenEvents(s, i))
  {
    assert NameOk(s, i, EventsFile);
    NotStray(s, FileOf(s.attempts[i], EventsFile));
    OpenEventsMoves(s, i);
    FileMoves(s, OpenEvents(s, i), i, EventsFile, None);
  }

  lemma AppendEventKeepsFiles(s: Session, i: nat, e: Event)
    requires FilesOk(s) && i < |s.attempts| && e.sequence >= 0
    requires s.attempts[i].eventsOpen && Has(s.attempts[i], EventsFile) && !Has(s.attempts[i], ResultFile)
    ensures FilesOk(AppendEvent(s, i, e))
  {
    assert NameOk(s, i, EventsFile);
    AppendEventMoves(s, i, e);
    FileMoves(s, AppendEvent(s, i, e), i, EventsFile, None);
  }

  lemma OpenLogKeepsFiles(s: Session, key: AttemptKey, stream: Stream)
    requires FilesOk(s)
    ensures FilesOk(OpenLog(s, key, stream))
  {
    var i := IndexOfKey(s.attempts, key);
    if i < |s.attempts| && s.state.Active? && LogAt(s.attempts[i], stream).None? {
      assert NameOk(s, i, LogFile(stream));
      NotStray(s, FileOf(s.attempts[i], LogFile(stream)));
      OpenLogMoves(s, key, stream);
      FileMoves(s, OpenLog(s, key, stream), i, LogFile(stream), None);
    }
  }

  lemma WriteLogKeepsFiles(lim: Limits, s: Session, key: AttemptKey, stream: Stream, data: string)
    requires FilesOk(s)
    ensures FilesOk(WriteLog(lim, s, key, stream, data))
  {
    var i := IndexOfKey(s.attempts, key);
    if i < |s.attempts| && s.state.Active? && IsOpen(s.attempts[i], LogFile(stream)) {
      assert NameOk(s, i, LogFile(stream));
      AppendLogMoves(lim, s, i, stream, data);
      FileMoves(s, AppendLog(lim, s, i, stream, data), i, LogFile(stream), None);
    }
  }

  lemma MarkTruncatedKeepsFiles(s: Session, key: AttemptKey, stream: Stream, n: int)
    requires FilesOk(s)
    ensures FilesOk(MarkTruncated(s, key, stream, n))
  {
    var i := IndexOfKey(s.attempts, key);
    if i < |s.attempts| {
      MarkTruncatedStays(s, key, stream, n);
      FilesStay(s, MarkTruncated(s, key, stream, n), i);
    }
  }

  lemma RecordArtifactKeepsFiles(s: Session, i: nat, r: Record)
    requires FilesOk(s) && i < |s.attempts| && !s.attempts[i].indexed
    ensures FilesOk(RecordArtifact(s, i, r))
  {
    RecordArtifactStays(s, i, r);
    FilesStay(s, RecordArtifact(s, i, r), i);
  }

  lemma CollectionCompleteKeepsFiles(s: Session, key: AttemptKey)
    requires FilesOk(s)
    ensures FilesOk(MarkCollectionComplete(s, key))
  {
    var i := IndexOfKey(s.attempts, key);
    if i < |s.attempts| {
      CollectionCompleteStays(s, key);
      FilesStay(s, MarkCollectionComplete(s, key), i);
    }
  }

  /** Files do not depend on where the session stands. */
  lemma SameFiles(s: Session, s': Session)
    requires FilesOk(s) && s'.plan == s.plan && s'.attempts == s.attempts && s'.files == s.files && s'.entries == s.entries && s'.payloads == s.payloads
    requires s'.objects == s.objects && s'.folders == s.folders && s'.stray == s.stray
    ensures FilesOk(s')
  {
    KeysStay(s, s');
    assert DirsApart(s') by { assert forall k {:trigger KeyAt(s', k)} | 0 <= k < |s.attempts| :: KeyAt(s', k) == KeyAt(s, k); }
    forall k: nat, n | k < |s'.attempts| ensures NameOk(s', k, n) { assert NameOk(s, k, n); }
    forall x | x in s'.entries ensures EntryOk(s', x) { assert EntryOk(s, x); }
    forall q | q in s'.files ensures PathOk(s', q) { assert PathOk(s, q); }
    forall q | q in s'.stray ensures StrayOk(s', q) { assert StrayOk(s, q); }
  }

  /** A file that belongs to no attempt is written and listed. */
  ghost predicate Adds(s: Session, s': Session, e: Entry) {
    && s'.plan == s.plan && s'.attempts == s.attempts
    && !e.path.AttemptPath? && R.RolePathOk(e) && s'.files == s.files[e.path := e.digest.content]
    && s'.entries == s.entries + [e] && s'.payloads == s.payloads + {e.path} && s'.stray == s.stray - {e.path}
    && match e.path
       case ObjectPath(d) => e.digest == d && d.content.Raw? && s'.objects == s.objects + {d}
                             && s'.folders == s.folders + {ShardFolder(Shard(d))}
       case ExecutionPath => e.digest.content.ExecutionContent? && s'.objects == s.objects && s'.folders == s.folders
       case _ => false
  }

  lemma FileAdds(s: Session, s': Session, e: Entry)
    requires FilesOk(s) && Adds(s, s', e) && !Listed(s, e.path)
    ensures FilesOk(s')
  {
    var p := e.path;
    forall q | q in s'.stray ensures StrayOk(s', q) { assert StrayOk(s, q); }
    EntriesAfter(s, s', Some(e));
    KeysStay(s, s');
    assert DirsApart(s') by { assert forall k {:trigger KeyAt(s', k)} | 0 <= k < |s.attempts| :: KeyAt(s', k) == KeyAt(s, k); }
    forall k: nat, n | k < |s'.attempts| ensures NameOk(s', k, n) { assert NameOk(s, k, n); }
    forall x | x in s'.entries ensures EntryOk(s', x) { assert x in s.entries ==> EntryOk(s, x); }
    forall q | q in s'.files ensures PathOk(s', q) {
      assert q in s.files ==> PathOk(s, q);
      assert Listed(s, q) ==> Listed(s', q);
    }
  }

  /** One object more is in place. */
  lemma PlacingLaysOut(s: Session, s': Session, d: Digest)
    requires LaidOut(s) && s'.plan == s.plan && s'.attempts == s.attempts
    requires s'.folders == s.folders + {ShardFolder(Shard(d))} && InPlace(s') == InPlace(s) + {d}
    ensures LaidOut(s')
  {
    assert ShardFolders(InPlace(s')) == ShardFolders(InPlace(s)) + {ShardFolder(Shard(d))};
  }

  /** An object is put in place and not listed. */
  ghost predicate Strays(s: Session, s': Session, d: Digest) {
    s' == s.(folders := s.folders + {ShardFolder(Shard(d))}, files := s.files[ObjectPath(d) := d.content], stray := s.stray + {ObjectPath(d)})
  }

  lemma FileStrays(s: Session, s': Session, d: Digest)
    requires FilesOk(s) && Strays(s, s', d) && d.content.Raw? && d !in s.objects && !Listed(s, ObjectPath(d))
    ensures FilesOk(s')
  {
    KeysStay(s, s');
    assert DirsApart(s') by { assert forall k {:trigger KeyAt(s', k)} | 0 <= k < |s.attempts| :: KeyAt(s', k) == KeyAt(s, k); }
    forall k: nat, n | k < |s'.attempts| ensures NameOk(s', k, n) { assert NameOk(s, k, n); }
    forall x | x in s'.entries ensures EntryOk(s', x) { assert EntryOk(s, x); }
    forall q | q in s'.files ensures PathOk(s', q) { assert q in s.files ==> PathOk(s, q); }
    forall q | q in s'.stray ensures StrayOk(s', q) { assert q in s.stray ==> StrayOk(s, q); }
  }

  lemma StoreObjectIs(s: Session, bytes: string, lists: bool)
    requires var d := Digest(Raw(bytes)); d !in s.objects && !Listed(s, ObjectPath(d))
    ensures StoreObject(s, bytes, lists).1 == lists
    ensures var d, s' := Digest(Raw(bytes)), StoreObject(s, bytes, lists).0;
            if lists then Adds(s, s', Entry(ObjectPath(d), ObjectRole, d, None, Captured)) else Strays(s, s', d)
  {
  }

  lemma ObjectIsInPlace(s: Session, s': Session, d: Digest)
    requires || (s'.objects == s.objects + {d} && s'.stray == s.stray - {ObjectPath(d)})
             || (s'.objects == s.objects && s'.stray == s.stray + {ObjectPath(d)})
    ensures InPlace(s') == InPlace(s) + {d}
  {
    forall x ensures x in InPlace(s') <==> x in InPlace(s) + {d} {
      assert ObjectPath(x) in s.stray ==> x in StrayObjects(s.stray);
      assert ObjectPath(x) in s'.stray ==> x in StrayObjects(s'.stray);
    }
  }

  /** An object is filed once, under a path of its own; only a limit of the bundle can keep it from being listed. */
  lemma StoreObjectKeepsFiles(s: Session, bytes: string, lists: bool)
    requires FilesOk(s) && LaidOut(s)
    ensures var (s', ok) := StoreObject(s, bytes, lists);
            ok == (lists || Digest(Raw(bytes)) in s.objects) && FilesOk(s') && LaidOut(s')
  {
    var d := Digest(Raw(bytes));
    var p := ObjectPath(d);
    if d !in s.objects {
      assert !Listed(s, p) by {
        if p in s.payloads {
          ListedIsThere(s, p);
          assert PathOk(s, p) && StrayOk(s, p);
        }
      }
      StoreObjectIs(s, bytes, lists);
      var s' := StoreObject(s, bytes, lists).0;
      ObjectIsInPlace(s, s', d);
      PlacingLaysOut(s, s', d);
      if lists {
        FileAdds(s, s', Entry(p, ObjectRole, d, None, Captured));
      } else {
        FileStrays(s, s', d);
      }
    }
  }

  lemma KeysStay(s: Session, s': Session)
    requires s'.attempts == s.attempts
    ensures forall dir :: Owned(s, dir) ==> Owned(s', dir)
    ensures forall key :: Planned(s, key) ==> Planned(s', key)
  {
    forall dir | Owned(s, dir) ensures Owned(s', dir) {
      var k :| 0 <= k < |s.attempts| && DirOf(KeyAt(s, k)) == dir;
      assert DirOf(KeyAt(s', k)) == dir;
    }
    forall key | Planned(s, key) ensures Planned(s', key) {
      var k :| 0 <= k < |s.attempts| && KeyAt(s, k) == key;
      assert KeyAt(s', k) == key;
    }
  }

  lemma WriteIndexKeepsFiles(s: Session, i: nat)
    requires FilesOk(s) && i < |s.attempts| && !s.attempts[i].indexed
    ensures WriteIndex(s, i).1 && FilesOk(WriteIndex(s, i).0)
  {
    assert NameOk(s, i, IndexFile);
    NotStray(s, FileOf(s.attempts[i], IndexFile));
    WriteIndexMoves(s, i);
    var s' := WriteIndex(s, i).0;
    FileMoves(s, s', i, IndexFile, Some(s'.entries[|s.entries|]));
  }

  /** Writing a result succeeds exactly when its event range is the one that was written. */
  lemma WriteResultKeepsFiles(s: Session, i: nat, results: seq<AttemptResult>)
    requires FilesOk(s) && i < |s.attempts| && !Has(s.attempts[i], ResultFile)
    ensures WriteResult(s, i, results).1 ==> FilesOk(WriteResult(s, i, results).0)
  {
    var a := s.attempts[i];
    var result := ResultFor(results, a.planned.key);
    if result.Some? && WriteResult(s, i, results).1 {
      assert NameOk(s, i, ResultFile);
      NotStray(s, FileOf(s.attempts[i], ResultFile));
      WriteResultMoves(s, i, results);
      var s' := WriteResult(s, i, results).0;
      FileMoves(s, s', i, ResultFile, Some(s'.entries[|s.entries|]));
    }
  }

  lemma ResultForIsOfKey(results: seq<AttemptResult>, key: AttemptKey)
    ensures ResultFor(results, key).Some? ==> ResultFor(results, key).value.key == key && ResultFor(results, key).value in results
  {
  }

  lemma BeginIs(lim: Limits, plan: Plan)
    requires PlanAccepted(lim, plan)
    ensures var s := Begin(lim, plan).value; var planned := Expand(plan);
            && s.plan == plan && s.state.Active? && s.current == 0 && s.next == 0
            && |s.attempts| == |planned| && (forall i | 0 <= i < |planned| :: s.attempts[i] == NewAttempt(planned[i]))
            && s.files == map[PlanPath := PlanDoc(plan)] && s.objects == {} && s.records == [] && s.logical == {}
            && s.entries == [Entry(PlanPath, PlanRole, Digest(PlanDoc(plan)), None, Captured)] && s.payloads == {PlanPath}
            && s.folders == FixedFolders() + AttemptFolders(planned) && s.stray == {}
            && !s.incomplete && s.totalEvents == 0 && s.totalLog == 0 && s.totalArtifact == 0
  {
  }

  lemma BeginKeepsFiles(lim: Limits, plan: Plan)
    requires PlanAccepted(lim, plan) && lim.maxAttempts <= ABSOLUTE_MAX_ATTEMPTS
    ensures FilesOk(Begin(lim, plan).value) && LaidOut(Begin(lim, plan).value)
  {
    var s := Begin(lim, plan).value;
    BeginIs(lim, plan);
    assert DirsApart(s) by {
      forall i, j | 0 <= i < |s.attempts| && 0 <= j < |s.attempts| && DirOf(KeyAt(s, i)) == DirOf(KeyAt(s, j)) ensures i == j {
        AcceptedPlanDirsDiffer(lim, plan, i, j);
      }
    }
    assert s.entries[0].path == PlanPath;
    assert Listed(s, PlanPath);
    forall k: nat, n | k < |s.attempts| ensures NameOk(s, k, n) {}
    assert ShardFolders({}) == {};
  }
}

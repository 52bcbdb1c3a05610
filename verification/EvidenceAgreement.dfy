/** Writer and reader agree: a bundle that the writer commits passes the reader's independent checks
    exactly when no file was kept from being listed, its artifacts were recorded in path order and the
    completion tells the truth. */
module EvidenceAgreement {
  import opened Options
  import opened EvidenceModel
  import opened EvidenceSession
  import opened EvidencePaths
  import opened EvidenceFiles
  import opened EvidenceRuns
  import R = EvidenceReader

  function Published(f: Session, c: Completion): Bundle { Bundle(f.files, f.folders, ManifestOf(f, c)) }

  /** All files are closed. */
  ghost predicate Closed(f: Session) {
    FilesOk(f) && LaidOut(f) && forall i, name {:trigger IsOpen(f.attempts[i], name)} | 0 <= i < |f.attempts| :: !IsOpen(f.attempts[i], name)
  }

  /** All files are closed and listed. */
  ghost predicate Settled(f: Session) { Closed(f) && f.stray == {} }

  function RoleOf(name: FileName): Role {
    match name
    case EventsFile => EventsRole
    case LogFile(stream) => LogRole(stream)
    case IndexFile => IndexRole
    case ResultFile => ResultRole
  }

  // ---------------------------------------------------------------- what the manifest lists

  lemma ListedIsListed(f: Session, c: Completion, p: Path)
    requires EntriesOk(f)
    ensures R.Lists(ManifestOf(f, c), p) == Listed(f, p)
  {
    if Listed(f, p) { assert HasEntry(f.entries, p); }
    if R.Lists(ManifestOf(f, c), p) {
      var e :| e in f.entries && e.path == p;
      assert EntryOk(f, e);
    }
  }

  lemma ListsWhatThereIs(f: Session, c: Completion, i: nat, name: FileName)
    requires Settled(f) && i < |f.attempts|
    ensures R.Lists(ManifestOf(f, c), FileOf(f.attempts[i], name)) == Has(f.attempts[i], name)
    ensures FileOf(f.attempts[i], name) in f.files <==> Has(f.attempts[i], name)
  {
    assert NameOk(f, i, name) && !IsOpen(f.attempts[i], name);
    ListedIsListed(f, c, FileOf(f.attempts[i], name));
  }

  /** An entry at a path of an attempt has the role of the file and names the attempt. */
  lemma EntryNamesAttempt(f: Session, e: Entry, i: nat, name: FileName)
    requires FilesOk(f) && e in f.entries && i < |f.attempts| && e.path == FileOf(f.attempts[i], name)
    ensures e.role == RoleOf(name) && e.key == Some(KeyAt(f, i))
  {
    assert EntryOk(f, e) && Planned(f, e.key.value);
    var k :| 0 <= k < |f.attempts| && KeyAt(f, k) == e.key.value;
    assert DirOf(KeyAt(f, k)) == DirOf(KeyAt(f, i));
  }

  lemma HasFileWhenThere(f: Session, c: Completion, i: nat, name: FileName)
    requires Settled(f) && i < |f.attempts|
    ensures R.HasFile(ManifestOf(f, c), RoleOf(name), KeyAt(f, i)) == Has(f.attempts[i], name)
  {
    var m, p := ManifestOf(f, c), FileOf(f.attempts[i], name);
    ListsWhatThereIs(f, c, i, name);
    if Has(f.attempts[i], name) {
      var e :| e in m.entries && e.path == p;
      EntryNamesAttempt(f, e, i, name);
    }
    if R.HasFile(m, RoleOf(name), KeyAt(f, i)) {
      var e :| e in m.entries && e.role == RoleOf(name) && e.key == Some(KeyAt(f, i));
      assert EntryOk(f, e);
      assert e.path == p;
      assert R.Lists(m, p);
    }
  }

  lemma EveryFileIsListed(f: Session, p: Path)
    requires Settled(f) && p in f.files
    ensures Listed(f, p)
  {
    assert PathOk(f, p);
    if p.AttemptPath? {
      assert Owned(f, p.dir);
      var i :| 0 <= i < |f.attempts| && DirOf(KeyAt(f, i)) == p.dir;
      assert p == FileOf(f.attempts[i], p.name);
      assert NameOk(f, i, p.name) && !IsOpen(f.attempts[i], p.name);
    }
  }

  lemma KeysDiffer(f: Session, i: nat, j: nat)
    requires FilesOk(f) && i < |f.attempts| && j < |f.attempts| && KeyAt(f, i) == KeyAt(f, j)
    ensures i == j
  {
    assert DirOf(KeyAt(f, i)) == DirOf(KeyAt(f, j));
  }

  lemma AttemptAtIs(f: Session, c: Completion, i: nat)
    requires FilesOk(f) && i < |f.attempts|
    ensures R.AttemptAt(ManifestOf(f, c).attempts, KeyAt(f, i)) == i
  {
    var m := ManifestOf(f, c);
    var k := R.AttemptAt(m.attempts, KeyAt(f, i));
    assert m.attempts[i].planned.key == KeyAt(f, i);
    if k < |m.attempts| {
      assert m.attempts[k].planned.key == KeyAt(f, k);
      KeysDiffer(f, k, i);
    }
  }

  // ---------------------------------------------------------------- manifest, layout, payloads, plan

  lemma ManifestIsOk(lim: Limits, f: Session, c: Completion)
    requires FilesOk(f) && LaidOut(f) && Admissible(lim, f.plan)
    ensures R.ManifestOk(ManifestOf(f, c))
  {
    var m := ManifestOf(f, c);
    forall e | e in m.entries ensures e.path != ManifestPath && R.RolePathOk(e) { assert EntryOk(f, e) && PathOk(f, e.path); }
    forall a | a in m.attempts ensures a.planned.ordinal > 0 && ValidKey(a.planned.key) && a.dir == DirOf(a.planned.key) {
      var i :| 0 <= i < |m.attempts| && m.attempts[i] == a;
      assert f.attempts[i].planned == Expand(f.plan)[i];
      assert Expand(f.plan)[i] in Expand(f.plan);
      PlanCounts(f.plan, i);
    }
    forall i, j | 0 <= i < j < |m.attempts| ensures m.attempts[i].planned.key != m.attempts[j].planned.key {
      assert m.attempts[i].planned.key == KeyAt(f, i) && m.attempts[j].planned.key == KeyAt(f, j);
      if KeyAt(f, i) == KeyAt(f, j) { KeysDiffer(f, i, j); }
    }
  }

  lemma PayloadsAreOk(f: Session, c: Completion)
    requires FilesOk(f)
    ensures R.PayloadsOk(Published(f, c))
  {
    forall e | e in ManifestOf(f, c).entries ensures e.path in f.files && e.digest == Digest(f.files[e.path]) { assert EntryOk(f, e); }
  }

  lemma PlanIsOk(lim: Limits, f: Session, c: Completion)
    requires Settled(f) && Admissible(lim, f.plan)
    ensures R.PlanOk(Published(f, c), lim.maxAttempts)
  {
    assert PathOk(f, PlanPath);
    EveryFileIsListed(f, PlanPath);
    assert HasEntry(f.entries, PlanPath);
    var e :| e in f.entries && e.path == PlanPath;
    assert EntryOk(f, e);
  }

  lemma PathsAreListed(f: Session, c: Completion)
    requires Settled(f)
    ensures f.files.Keys == R.PathsOf(ManifestOf(f, c).entries)
  {
    var m := ManifestOf(f, c);
    forall p | p in f.files ensures p in R.PathsOf(m.entries) {
      EveryFileIsListed(f, p);
      assert HasEntry(f.entries, p);
      var e :| e in f.entries && e.path == p;
      var k :| 0 <= k < |m.entries| && m.entries[k] == e;
    }
    forall p | p in R.PathsOf(m.entries) ensures p in f.files {
      var k :| 0 <= k < |m.entries| && m.entries[k].path == p;
      assert EntryOk(f, m.entries[k]);
    }
  }

  ghost predicate HasSome(a: Attempt) { exists name :: Has(a, name) }

  /** Every attempt has some file. */
  ghost predicate NoneEmpty(f: Session) {
    forall i {:trigger HasSome(f.attempts[i])} | 0 <= i < |f.attempts| :: HasSome(f.attempts[i])
  }

  lemma FoldersNeeded(f: Session, folder: Folder)
    requires Settled(f) && folder in R.FoldersOf(f.files.Keys) + FixedFolders()
    ensures folder in f.folders
  {
    if folder in R.FoldersOf(f.files.Keys) {
      var p :| p in f.files && folder in Parents(p);
      assert PathOk(f, p);
      if p.AttemptPath? {
        var i :| 0 <= i < |f.attempts| && DirOf(KeyAt(f, i)) == p.dir;
        assert f.attempts[i].planned == Expand(f.plan)[i];
        assert folder in Parents(AttemptPath(DirOf(Expand(f.plan)[i].key), ResultFile));
      }
    }
  }

  lemma FoldersPresent(f: Session, folder: Folder)
    requires Settled(f) && NoneEmpty(f) && folder in f.folders
    ensures folder in R.FoldersOf(f.files.Keys) + FixedFolders()
  {
    if folder in AttemptFolders(Expand(f.plan)) {
      var i :| 0 <= i < |Expand(f.plan)| && folder in Parents(AttemptPath(DirOf(Expand(f.plan)[i].key), ResultFile));
      assert f.attempts[i].planned == Expand(f.plan)[i];
      assert HasSome(f.attempts[i]);
      var name :| Has(f.attempts[i], name);
      assert NameOk(f, i, name);
      assert FileOf(f.attempts[i], name) in f.files && folder in Parents(FileOf(f.attempts[i], name));
    } else if folder in ShardFolders(f.objects) {
      var d :| d in f.objects && folder == ShardFolder(Shard(d));
      assert ObjectPath(d) in f.files && folder in Parents(ObjectPath(d));
    }
  }

  lemma LayoutNeedsFiles(f: Session, i: nat)
    requires Settled(f) && f.folders == R.FoldersOf(f.files.Keys) + FixedFolders() && i < |f.attempts|
    ensures HasSome(f.attempts[i])
  {
    var dir := DirOf(KeyAt(f, i));
    assert f.attempts[i].planned == Expand(f.plan)[i];
    assert AttemptFolder(dir) in Parents(AttemptPath(DirOf(Expand(f.plan)[i].key), ResultFile));
    assert AttemptFolder(dir) in AttemptFolders(Expand(f.plan));
    var p :| p in f.files && AttemptFolder(dir) in Parents(p);
    assert p == FileOf(f.attempts[i], p.name);
    assert NameOk(f, i, p.name);
  }

  /** A stray file is not in the manifest. */
  lemma StrayIsMissing(f: Session, c: Completion)
    requires FilesOk(f) && f.stray != {}
    ensures f.files.Keys != R.PathsOf(ManifestOf(f, c).entries)
  {
    var p :| p in f.stray;
    assert StrayOk(f, p);
    forall k | 0 <= k < |f.entries| ensures f.entries[k].path != p { assert EntryOk(f, f.entries[k]); }
    assert p !in R.PathsOf(ManifestOf(f, c).entries);
  }

  /** The layout is accepted exactly when every file is listed and no attempt is left without a file. */
  lemma LayoutAgrees(f: Session, c: Completion)
    requires Closed(f)
    ensures R.LayoutOk(Published(f, c)) <==> f.stray == {} && NoneEmpty(f)
  {
    if f.stray == {} {
      SettledLayoutAgrees(f, c);
    } else {
      StrayIsMissing(f, c);
    }
  }

  lemma SettledLayoutAgrees(f: Session, c: Completion)
    requires Settled(f)
    ensures R.LayoutOk(Published(f, c)) <==> NoneEmpty(f)
  {
    PathsAreListed(f, c);
    var needed := R.FoldersOf(f.files.Keys) + FixedFolders();
    if NoneEmpty(f) {
      forall folder | folder in f.folders ensures folder in needed { FoldersPresent(f, folder); }
      forall folder | folder in needed ensures folder in f.folders { FoldersNeeded(f, folder); }
      assert f.folders == needed;
    }
    if f.folders == needed {
      forall i | 0 <= i < |f.attempts| ensures HasSome(f.attempts[i]) { LayoutNeedsFiles(f, i); }
    }
  }
}

/** What is reported of every single variant, said in the components of its facts and of its profile. */
module ComparatorAnswers {
  import opened Options
  import opened ComparatorFacts
  import opened OccurrenceProfiles
  import opened ComparatorVariants
  import opened Comparator
  import opened ComparatorLaws
  import opened ComparatorMirror

  // ---------------------------------------------------------------- facts

  /** The payload is the one that the kind calls for. */
  predicate PayloadFits(kind: string, p: Payload) {
    match p
    case Process(_, _, _, _) => kind in {"process-start", "process-exit"}
    case File(_, _, _, _, _, _, _) => kind in {"filesystem-create", "filesystem-read", "filesystem-write", "filesystem-delete",
                                               "filesystem-rename", "filesystem-chmod"}
    case Network(_, _, _, _, _, _, _, _) => kind in {"dns-query", "network-connection"}
    case Artifact(_, _, _, _, _) => kind == "artifact-activity"
    case Scenario(_, _, _) => kind in {"scenario-started", "scenario-completed"}
    case Warning(_, _, _) => kind in {"observer-warning", "unsupported-observation"}
    case Resource(_, _, _, _, _) => kind == "resource-limit"
  }

  predicate SamePath(p: FactPath, q: FactPath) {
    && p.space == q.space && p.root == q.root && p.relative == q.relative && p.display == q.display
    && (p.literal == q.literal || p.space in {"workdir-root", "collection-root"})
  }

  /** Two payloads are of one thing, which may have changed. */
  predicate SameThing(p: Payload, q: Payload) {
    match p
    case Process(stable, operation, _, _) => q.Process? && stable == q.stable && operation == q.operation
    case File(operation, path, _, _, _, _, _) => q.File? && operation == q.operation && SamePath(path, q.path)
    case Network(operation, protocol, query, host, port, _, _, _) =>
      q.Network? && operation == q.operation && protocol == q.protocol && query == q.query && host == q.host && port == q.port
    case Artifact(_, path, _, _, _) => q.Artifact? && SamePath(path, q.path)
    case Scenario(status, _, _) => q.Scenario? && status == q.status
    case Warning(code, _, _) => q.Warning? && code == q.code
    case Resource(limitKind, _, _, _, _) => q.Resource? && limitKind == q.limitKind
  }

  /** A component that is compared differs. */
  predicate Differ(p: Payload, q: Payload) {
    match p
    case File(_, _, digest, mode, size, executable, truncated) =>
      q.File? && (digest != q.digest || mode != q.mode || size != q.size || executable != q.executable || truncated != q.truncated)
    case Artifact(operation, _, digest, size, executable) =>
      q.Artifact? && (operation != q.operation || digest != q.digest || size != q.size || executable != q.executable)
    case Network(_, _, _, _, _, result, duration, resolved) =>
      q.Network? && (result != q.result || duration != q.duration || Joined(resolved) != Joined(q.resolved))
    case Scenario(status, message, duration) => q.Scenario? && (status != q.status || message != q.message || duration != q.duration)
    case Warning(_, message, unsupported) => q.Warning? && (message != q.message || unsupported != q.unsupported)
    case Resource(_, limit, _, observed, exceeded) =>
      q.Resource? && (limit != q.limit || observed != q.observed || exceeded != q.exceeded)
    case Process(_, _, exitCode, duration) => q.Process? && (exitCode != q.exitCode || duration != q.duration)
  }

  /** The set names exactly the compared components that differ. */
  predicate NamesDifferences(changed: set<string>, p: Payload, q: Payload) {
    match p
    case File(_, _, digest, mode, size, executable, truncated) =>
      && q.File?
      && changed <= {"filesystem.digest", "filesystem.mode", "filesystem.sizeBytes", "filesystem.executable", "filesystem.truncated"}
      && ("filesystem.digest" in changed <==> digest != q.digest) && ("filesystem.mode" in changed <==> mode != q.mode)
      && ("filesystem.sizeBytes" in changed <==> size != q.size)
      && ("filesystem.executable" in changed <==> executable != q.executable)
      && ("filesystem.truncated" in changed <==> truncated != q.truncated)
    case Artifact(operation, _, digest, size, executable) =>
      && q.Artifact? && changed <= {"artifact.digest", "artifact.sizeBytes", "artifact.executable", "artifact.operation"}
      && ("artifact.digest" in changed <==> digest != q.digest) && ("artifact.sizeBytes" in changed <==> size != q.size)
      && ("artifact.executable" in changed <==> executable != q.executable)
      && ("artifact.operation" in changed <==> operation != q.operation)
    case Network(_, _, _, _, _, result, duration, resolved) =>
      && q.Network? && changed <= {"network.result", "network.durationMillis", "network.resolvedAddresses"}
      && ("network.result" in changed <==> result != q.result) && ("network.durationMillis" in changed <==> duration != q.duration)
      && ("network.resolvedAddresses" in changed <==> Joined(resolved) != Joined(q.resolved))
    case Scenario(status, message, duration) =>
      && q.Scenario? && changed <= {"scenario.status", "scenario.durationMillis", "scenario.message"}
      && ("scenario.status" in changed <==> status != q.status) && ("scenario.durationMillis" in changed <==> duration != q.duration)
      && ("scenario.message" in changed <==> message != q.message)
    case Warning(_, message, unsupported) =>
      && q.Warning? && changed <= {"warning.message", "warning.unsupported"}
      && ("warning.message" in changed <==> message != q.message) && ("warning.unsupported" in changed <==> unsupported != q.unsupported)
    case Resource(_, limit, _, observed, exceeded) =>
      && q.Resource? && changed <= {"resource.limitValue", "resource.observedValue", "resource.exceeded"}
      && ("resource.limitValue" in changed <==> limit != q.limit) && ("resource.observedValue" in changed <==> observed != q.observed)
      && ("resource.exceeded" in changed <==> exceeded != q.exceeded)
    case Process(_, _, exitCode, duration) =>
      && q.Process? && changed <= {"process.exitCode", "process.durationMillis"}
      && ("process.exitCode" in changed <==> exitCode != q.exitCode) && ("process.durationMillis" in changed <==> duration != q.duration)
  }

  lemma FileFieldsAreNamed(p: Payload, q: Payload)
    requires p.File? && q.File?
    ensures NamesDifferences(Changed(FileGroup, p, q), p, q)
  {
    assert |"filesystem.mode"| < |"filesystem.digest"| < |"filesystem.sizeBytes"| == |"filesystem.truncated"| < |"filesystem.executable"|;
    assert "filesystem.sizeBytes"[11] != "filesystem.truncated"[11];
  }

  lemma ArtifactFieldsAreNamed(p: Payload, q: Payload)
    requires p.Artifact? && q.Artifact?
    ensures NamesDifferences(Changed(ArtifactGroup, p, q), p, q)
  {
    assert |"artifact.digest"| < |"artifact.sizeBytes"| == |"artifact.operation"| < |"artifact.executable"|;
    assert "artifact.sizeBytes"[9] != "artifact.operation"[9];
  }

  lemma NetworkFieldsAreNamed(p: Payload, q: Payload)
    requires p.Network? && q.Network?
    ensures NamesDifferences(Changed(NetworkGroup, p, q), p, q)
  {
    assert |"network.result"| < |"network.durationMillis"| < |"network.resolvedAddresses"|;
  }

  lemma ScenarioFieldsAreNamed(p: Payload, q: Payload)
    requires p.Scenario? && q.Scenario?
    ensures NamesDifferences(Changed(ScenarioGroup, p, q), p, q)
  {
    assert |"scenario.status"| < |"scenario.message"| < |"scenario.durationMillis"|;
  }

  lemma ResourceFieldsAreNamed(p: Payload, q: Payload)
    requires p.Resource? && q.Resource?
    ensures NamesDifferences(Changed(ResourceGroup, p, q), p, q)
  {
    assert |"resource.exceeded"| < |"resource.limitValue"| < |"resource.observedValue"|;
  }

  lemma OtherFieldsAreNamed(p: Payload, q: Payload)
    ensures p.Warning? && q.Warning? ==> NamesDifferences(Changed(WarningGroup, p, q), p, q)
    ensures p.Process? && q.Process? ==> NamesDifferences(Changed(ProcessGroup, p, q), p, q)
  {
    assert |"warning.message"| < |"warning.unsupported"| && |"process.exitCode"| < |"process.durationMillis"|;
  }

  /** The group of payloads that this one belongs to. */
  function GroupFor(p: Payload): Group {
    match p
    case Process(_, _, _, _) => ProcessGroup
    case File(_, _, _, _, _, _, _) => FileGroup
    case Network(_, _, _, _, _, _, _, _) => NetworkGroup
    case Artifact(_, _, _, _, _) => ArtifactGroup
    case Scenario(_, _, _) => ScenarioGroup
    case Warning(_, _, _) => WarningGroup
    case Resource(_, _, _, _, _) => ResourceGroup
  }

  lemma SpelledOut(kind: string)
    ensures kind in {"process-start", "process-exit"} <==> ProcessKind(kind)
    ensures kind in {"dns-query", "network-connection"} <==> NetworkKind(kind)
    ensures kind in {"scenario-started", "scenario-completed"} <==> ScenarioKind(kind)
    ensures kind in {"observer-warning", "unsupported-observation"} <==> WarningKind(kind)
    ensures FileKind(kind) <==> kind in {"filesystem-create", "filesystem-read", "filesystem-write", "filesystem-delete",
                                         "filesystem-rename", "filesystem-chmod"}
  {
  }

  lemma FirstLetterTells(kind: string)
    ensures FileKind(kind) ==> kind[..1] == "f"
    ensures ProcessKind(kind) ==> kind[..1] == "p"
    ensures NetworkKind(kind) ==> kind[..1] == "d" || kind[..1] == "n"
    ensures ArtifactKind(kind) ==> kind[..1] == "a"
    ensures ScenarioKind(kind) ==> kind[..1] == "s"
    ensures WarningKind(kind) ==> kind[..1] == "o" || kind[..1] == "u"
    ensures ResourceKind(kind) ==> kind[..1] == "r"
  {
  }

  lemma KindTellsGroup(kind: string, p: Payload)
    ensures PayloadFits(kind, p) <==> GroupOf(kind) == GroupFor(p)
  {
    SpelledOut(kind);
    FirstLetterTells(kind);
    assert "f"[0] != "p"[0];
  }

  /** A fact is anchored when it has the payload of its kind; only a warning without a code has no anchor
      to be correlated by. */
  lemma AnchoredWhenPayloadFits(f: Fact)
    ensures AnchorOf(f).Some? <==> PayloadFits(f.kind, f.payload)
    ensures PayloadFits(f.kind, f.payload) ==> (AnchorOf(f) == Some(NO_ANCHOR) <==> f.payload.Warning? && f.payload.code == "")
  {
    KindTellsGroup(f.kind, f.payload);
  }

  lemma IdentityIsOfOneThing(f: Fact, g: Fact)
    requires f.kind == g.kind && PayloadFits(f.kind, f.payload) && PayloadFits(g.kind, g.payload)
    ensures IdentityOf(f).Some? && IdentityOf(g).Some?
    ensures IdentityOf(f) == IdentityOf(g) <==> SameThing(f.payload, g.payload)
  {
    KindTellsGroup(f.kind, f.payload);
    KindTellsGroup(g.kind, g.payload);
    IdentityTellsThing(f.payload, g.payload);
  }

  lemma PathPartsTell(p: FactPath, q: FactPath)
    ensures PathParts(p) == PathParts(q) <==> SamePath(p, q)
  {
    var x, y := PathParts(p), PathParts(q);
    assert x == y <==> x[0] == y[0] && x[1] == y[1] && x[2] == y[2] && x[3] == y[3] && x[4] == y[4];
  }

  lemma ListsOfFive(a: string, b: string, c: string, d: string, e: string, x: seq<string>)
    requires |x| == 5
    ensures [a, b, c, d, e] == x <==> a == x[0] && b == x[1] && c == x[2] && d == x[3] && e == x[4]
  {
  }

  lemma IdentityTellsThing(p: Payload, q: Payload)
    requires GroupFor(p) == GroupFor(q)
    ensures Identity(GroupFor(p), p).Some? && Identity(GroupFor(q), q).Some?
    ensures Identity(GroupFor(p), p) == Identity(GroupFor(q), q) <==> SameThing(p, q)
  {
    var x, y := Identity(GroupFor(p), p).value, Identity(GroupFor(q), q).value;
    match p
    case File(_, path, _, _, _, _, _) =>
      PathPartsTell(path, q.path);
      assert x[0] == p.operation && y[0] == q.operation && x[1..] == PathParts(path) && y[1..] == PathParts(q.path);
      assert x == [x[0]] + x[1..] && y == [y[0]] + y[1..];
    case Artifact(_, path, _, _, _) => PathPartsTell(path, q.path);
    case Network(operation, protocol, query, host, port, _, _, _) => ListsOfFive(operation, protocol, query, host, port, y);
    case Process(_, _, _, _) => assert x[0] == p.stable && x[1] == p.operation && y[0] == q.stable && y[1] == q.operation;
    case Scenario(_, _, _) => assert x[0] == p.status && y[0] == q.status;
    case Warning(_, _, _) => assert x[0] == p.code && y[0] == q.code;
    case Resource(_, _, _, _, _) => assert x[0] == p.limitKind && y[0] == q.limitKind;
  }

  /** Two facts share an anchor exactly when kind and source agree and both are of one thing. */
  lemma AnchorIsOfOneThing(f: Fact, g: Fact)
    requires AnchorOf(f).Some? && AnchorOf(g).Some? && AnchorOf(f).value != NO_ANCHOR && AnchorOf(g).value != NO_ANCHOR
    ensures AnchorOf(f) == AnchorOf(g) <==> f.kind == g.kind && f.source == g.source && SameThing(f.payload, g.payload)
  {
    AnchoredWhenPayloadFits(f);
    AnchoredWhenPayloadFits(g);
    AnchorTellsIdentity(f, g);
    if f.kind == g.kind { IdentityIsOfOneThing(f, g); }
  }

  /** The changed fields of two facts of one kind are exactly the compared components that differ. */
  lemma ChangedFieldsAreTheDifferences(f: Fact, g: Fact)
    requires f.kind == g.kind && PayloadFits(f.kind, f.payload) && PayloadFits(g.kind, g.payload)
    ensures NamesDifferences(ChangedFields(f, g), f.payload, g.payload)
    ensures ChangedFields(f, g) == {} <==> !Differ(f.payload, g.payload)
  {
    var p, q := f.payload, g.payload;
    KindTellsGroup(f.kind, p);
    KindTellsGroup(g.kind, q);
    match p
    case File(_, _, _, _, _, _, _) => FileFieldsAreNamed(p, q);
    case Artifact(_, _, _, _, _) => ArtifactFieldsAreNamed(p, q);
    case Network(_, _, _, _, _, _, _, _) => NetworkFieldsAreNamed(p, q);
    case Scenario(_, _, _) => ScenarioFieldsAreNamed(p, q);
    case Resource(_, _, _, _, _) => ResourceFieldsAreNamed(p, q);
    case _ => OtherFieldsAreNamed(p, q);
  }

  lemma JoinShows(xs: seq<string>)
    ensures |xs| >= 2 ==> NUL in Joined(xs)
    ensures |xs| == 1 ==> Joined(xs) == xs[0] && xs[0] in xs
  {
    if |xs| >= 2 { assert Joined(xs)[|xs[0]|] == NUL; }
  }

  /** Joining with NUL settles a list of addresses that have none, apart from the empty list and the list
      of one empty address. */
  lemma {:induction false} JoinedSettlesAddresses(xs: seq<string>, ys: seq<string>)
    requires forall x | x in xs + ys :: NUL !in x
    ensures Joined(xs) == Joined(ys) <==> xs == ys || (xs in {[], [""]} && ys in {[], [""]})
  {
    JoinShows(xs);
    JoinShows(ys);
    assert forall x | x in xs || x in ys :: x in xs + ys;
    assert (|xs| == 1 ==> xs == [xs[0]]) && (|ys| == 1 ==> ys == [ys[0]]);
    if |xs| >= 2 && |ys| >= 2 {
      assert xs == [xs[0]] + xs[1..] && ys == [ys[0]] + ys[1..];
      JoinedSettlesAddresses(xs[1..], ys[1..]);
      assert xs[1..] != [] && ys[1..] != [];
      if Joined(xs) == Joined(ys) {
        SplitAtSeparator(xs[0], Joined(xs[1..]), ys[0], Joined(ys[1..]));
      }
    }
  }

  // ---------------------------------------------------------------- pairs

  /** Each variant has its facts' key and kind, and can be anchored. */
  ghost predicate Anchored(own: Side) {
    Keyed(own) && forall k | k in own :: PayloadFits(own[k].kind, own[k].facts[0].payload)
  }

  /** Two variants that the other side lacks, with one kind, one source and one anchor, under which
      neither side has another variant that the other lacks. */
  ghost predicate OneToOne(b: Side, h: Side, i: string, j: string) {
    && i in b && i !in h && j in h && j !in b
    && b[i].kind == h[j].kind && b[i].source == h[j].source && b[i].anchor == h[j].anchor && b[i].anchor != ""
    && (forall k | k in b && k !in h && b[k].anchor == b[i].anchor :: k == i)
    && (forall k | k in h && k !in b && h[k].anchor == h[j].anchor :: k == j)
  }

  /** What the first facts of the two variants say differs. */
  ghost predicate HasChanged(v: Variant, w: Variant) { v.facts != [] && w.facts != [] && Differ(v.facts[0].payload, w.facts[0].payload) }

  lemma OnlyMember(keys: set<string>, k: string)
    requires k in keys && forall j | j in keys :: j == k
    ensures |keys| == 1 && Only(keys) == k
  {
    assert keys == {k};
  }

  lemma OneToOneIsCorrelated(b: Side, h: Side, i: string, j: string)
    requires OneToOne(b, h, i, j)
    ensures Correlated(b, h, b[i].anchor) && Only(Rivals(b, h, b[i].anchor)) == i && Only(Rivals(h, b, b[i].anchor)) == j
  {
    OnlyMember(Rivals(b, h, b[i].anchor), i);
    OnlyMember(Rivals(h, b, b[i].anchor), j);
  }

  lemma CorrelatedIsOneToOne(b: Side, h: Side, i: string) returns (j: string)
    requires i in b && i !in h && b[i].anchor != NO_ANCHOR && Correlated(b, h, b[i].anchor)
    ensures OneToOne(b, h, i, j)
  {
    var a := b[i].anchor;
    j := Only(Rivals(h, b, a));
    assert i in Rivals(b, h, a) && j in Rivals(h, b, a);
    forall k | k in b && k !in h && b[k].anchor == a ensures k == i { assert k in Rivals(b, h, a); }
    forall k | k in h && k !in b && h[k].anchor == h[j].anchor ensures k == j { assert k in Rivals(h, b, a); }
  }

  lemma PairIsModified(b: Side, h: Side, i: string, j: string)
    requires Anchored(b) && Anchored(h) && OneToOne(b, h, i, j)
    ensures Modifies(b, h, b[i].anchor) <==> HasChanged(b[i], h[j])
    ensures HasChanged(b[i], h[j]) ==>
              && Modification(b, h, b[i].anchor) == [PairDelta(Modified, b[i], h[j], ChangedFields(b[i].facts[0], h[j].facts[0]))]
              && NamesDifferences(ChangedFields(b[i].facts[0], h[j].facts[0]), b[i].facts[0].payload, h[j].facts[0].payload)
  {
    OneToOneIsCorrelated(b, h, i, j);
    ChangedFieldsAreTheDifferences(b[i].facts[0], h[j].facts[0]);
  }

  // ---------------------------------------------------------------- which records there are

  lemma {:induction false} ExactIsIncluded(b: Side, h: Side, keys: seq<string>, k: string)
    requires k in keys && Recounted(b, h, k)
    ensures ExactDelta(b, h, k)[0] in ExactDeltas(b, h, keys)
  {
    var front, last := keys[..|keys| - 1], keys[|keys| - 1];
    assert keys == front + [last];
    if k in front { ExactIsIncluded(b, h, front, k); }
  }

  lemma {:induction false} ModificationIsIncluded(b: Side, h: Side, anchors: seq<string>, a: string)
    requires a in anchors && Modifies(b, h, a)
    ensures Modification(b, h, a)[0] in Modifications(b, h, anchors)
  {
    var front, last := anchors[..|anchors| - 1], anchors[|anchors| - 1];
    assert anchors == front + [last];
    if a in front { ModificationIsIncluded(b, h, front, a); }
  }

  lemma {:induction false} LeftoverIsIncluded(ofBase: bool, own: Side, other: Side, complete: bool, keys: seq<string>, k: string)
    requires k in keys && k in own && LeftOver(own, other, k)
    ensures Leftover(ofBase, own, other, complete, k)[0] in Leftovers(ofBase, own, other, complete, keys)
  {
    var front, last := keys[..|keys| - 1], keys[|keys| - 1];
    assert keys == front + [last];
    if k in front { LeftoverIsIncluded(ofBase, own, other, complete, front, k); }
  }

  /** This record, and no other one, names the variant. */
  ghost predicate OnlyRecordOf(ofBase: bool, ds: seq<Delta>, k: string, d: Delta) {
    forall e :: e in ds && Names(ofBase, e, k) <==> e == d
  }

  lemma CountedIsOnly(ofBase: bool, ds: seq<Delta>, k: string, d: Delta)
    requires d in ds && Names(ofBase, d, k) && CountNaming(ofBase, ds, k) == 1
    ensures OnlyRecordOf(ofBase, ds, k, d)
  {
    forall e | e in ds && Names(ofBase, e, k) ensures e == d { NamedOnce(ofBase, ds, d, e, k); }
  }

  lemma PartsAreIncluded(b: Side, h: Side, bc: bool, hc: bool, l: Listing)
    ensures forall d | d in ExactDeltas(b, h, l.keys) || d in Modifications(b, h, l.anchors) || d in Leftovers(true, b, h, hc, l.bases)
                       || d in Leftovers(false, h, b, bc, l.heads) :: d in VariantDeltas(b, h, bc, hc, l)
  {
  }

  // ---------------------------------------------------------------- what each of them says

  /** What the profiles of two variants let a record of both rest on: variable counts first, then what was
      not observed completely, then single samples. */
  ghost predicate RestsOnBoth(basis: Basis, p: Profile, q: Profile) {
    var variable := p.repeatability == Variable || q.repeatability == Variable;
    var partial := p.coverage != AllAssessed || q.coverage != AllAssessed;
    var single := p.repeatability == SingleSample || q.repeatability == SingleSample;
    && (basis == RepetitionVariable <==> variable)
    && (basis == CoverageLimited <==> !variable && partial)
    && (basis == SingleSampleOnly <==> !variable && !partial && single)
    && (basis == CompleteObservation <==> !variable && !partial && !single)
  }

  /** What a record of one variant rests on: here incomplete observation of either side comes first. */
  ghost predicate RestsOnOne(basis: Basis, otherComplete: bool, p: Profile) {
    var limited := !otherComplete || p.coverage != AllAssessed;
    && (basis == CoverageLimited <==> limited)
    && (basis == SingleSampleOnly <==> !limited && p.repeatability == SingleSample)
    && (basis == RepetitionVariable <==> !limited && p.repeatability == Variable)
    && (basis == CompleteObservation <==> !limited && p.repeatability != SingleSample && p.repeatability != Variable)
  }

  /** The record shows the variant with its facts and its profile. */
  predicate Shows(o: Observation, v: Variant) { o == Observed(v.semantic, v.facts, v.profile) }

  /** The record shows both variants, as these are on the head. */
  ghost predicate ShowsBoth(d: Delta, v: Variant, w: Variant) {
    && d.VariantDelta? && d.factKind == w.kind && d.source == w.source && d.anchor == w.anchor && !d.ambiguous
    && Shows(d.base, v) && Shows(d.head, w) && RestsOnBoth(d.basis, v.profile, w.profile)
  }

  ghost predicate ShowsOne(d: Delta, ofBase: bool, v: Variant, otherComplete: bool) {
    && d.VariantDelta? && d.factKind == v.kind && d.source == v.source && d.anchor == v.anchor && d.changed == {}
    && (if ofBase then Shows(d.base, v) && d.head == Unobserved else d.base == Unobserved && Shows(d.head, v))
    && RestsOnOne(d.basis, otherComplete, v.profile)
  }

  lemma FirstFactNames(own: Side, k: string)
    requires Keyed(own) && k in own
    ensures own[k].facts != [] && KeyText(own[k].facts[0]) == k
  {
    assert own[k].facts[0] in own[k].facts;
  }

  /** A variant of both sides that occurred differently is reported once: as a change of stability when it
      is repeatable in another way, and else as a change of count. */
  lemma RecountedIsReported(b: Side, h: Side, bc: bool, hc: bool, l: Listing, k: string) returns (d: Delta)
    requires Keyed(b) && Keyed(h) && ListsAll(l, b, h) && k in b && k in h && b[k].profile != h[k].profile
    ensures var ds := VariantDeltas(b, h, bc, hc, l); OnlyRecordOf(true, ds, k, d) && OnlyRecordOf(false, ds, k, d)
    ensures ShowsBoth(d, b[k], h[k]) && d.changed == {}
    ensures d.kind == if b[k].profile.repeatability == h[k].profile.repeatability then CountChanged else StabilityChanged
  {
    d := ExactDelta(b, h, k)[0];
    PairShowsBoth(d.kind, b[k], h[k], {});
    ExactIsOnly(true, b, h, bc, hc, l, k);
    ExactIsOnly(false, b, h, bc, hc, l, k);
  }

  lemma ExactIsOnly(ofBase: bool, b: Side, h: Side, bc: bool, hc: bool, l: Listing, k: string)
    requires Keyed(b) && Keyed(h) && ListsAll(l, b, h) && Recounted(b, h, k)
    ensures OnlyRecordOf(ofBase, VariantDeltas(b, h, bc, hc, l), k, ExactDelta(b, h, k)[0])
  {
    ExactIsIncluded(b, h, l.keys, k);
    PartsAreIncluded(b, h, bc, hc, l);
    assert Names(ofBase, ExactDelta(b, h, k)[0], k) by {
      FirstFactNames(b, k);
      FirstFactNames(h, k);
    }
    EveryVariantOnce(ofBase, b, h, bc, hc, l, k);
    CountedIsOnly(ofBase, VariantDeltas(b, h, bc, hc, l), k, ExactDelta(b, h, k)[0]);
  }

  lemma PairIsShown(b: Side, h: Side, i: string, j: string) returns (d: Delta)
    requires Anchored(b) && Anchored(h) && OneToOne(b, h, i, j) && HasChanged(b[i], h[j])
    ensures Modifies(b, h, b[i].anchor) && d == Modification(b, h, b[i].anchor)[0]
    ensures ShowsBoth(d, b[i], h[j]) && d.kind == Modified
    ensures NamesDifferences(d.changed, b[i].facts[0].payload, h[j].facts[0].payload)
    ensures Names(true, d, i) && Names(false, d, j)
  {
    PairIsModified(b, h, i, j);
    d := PairDelta(Modified, b[i], h[j], ChangedFields(b[i].facts[0], h[j].facts[0]));
    PairShowsBoth(Modified, b[i], h[j], d.changed);
    assert Names(true, d, i) by { FirstFactNames(b, i); }
    assert Names(false, d, j) by { FirstFactNames(h, j); }
  }

  lemma PairShowsBoth(kind: DeltaKind, v: Variant, w: Variant, changed: set<string>)
    ensures ShowsBoth(PairDelta(kind, v, w, changed), v, w)
  {
  }

  lemma ModificationIsOnly(ofBase: bool, b: Side, h: Side, bc: bool, hc: bool, l: Listing, a: string, k: string)
    requires Keyed(b) && Keyed(h) && ListsAll(l, b, h) && Modifies(b, h, a) && a in l.anchors
    requires Names(ofBase, Modification(b, h, a)[0], k) && k in Own(ofBase, b, h) && k !in Own(!ofBase, b, h)
    ensures OnlyRecordOf(ofBase, VariantDeltas(b, h, bc, hc, l), k, Modification(b, h, a)[0])
  {
    ModificationIsIncluded(b, h, l.anchors, a);
    PartsAreIncluded(b, h, bc, hc, l);
    EveryVariantOnce(ofBase, b, h, bc, hc, l, k);
    CountedIsOnly(ofBase, VariantDeltas(b, h, bc, hc, l), k, Modification(b, h, a)[0]);
  }

  /** Two variants that are each other's only rivals are reported as one modification exactly when a
      compared component of them differs, and then the record names exactly those components. */
  lemma PairIsReported(b: Side, h: Side, bc: bool, hc: bool, l: Listing, i: string, j: string) returns (d: Delta)
    requires Anchored(b) && Anchored(h) && ListsAll(l, b, h) && OneToOne(b, h, i, j) && HasChanged(b[i], h[j])
    ensures var ds := VariantDeltas(b, h, bc, hc, l); OnlyRecordOf(true, ds, i, d) && OnlyRecordOf(false, ds, j, d)
    ensures ShowsBoth(d, b[i], h[j]) && d.kind == Modified
    ensures NamesDifferences(d.changed, b[i].facts[0].payload, h[j].facts[0].payload)
  {
    d := PairIsShown(b, h, i, j);
    assert b[i].anchor in l.anchors by { assert i in Rivals(b, h, b[i].anchor); }
    ModificationIsOnly(true, b, h, bc, hc, l, b[i].anchor, i);
    ModificationIsOnly(false, b, h, bc, hc, l, b[i].anchor, j);
  }

  /** The variant is one of a pair that is reported as modified. */
  ghost predicate InModifiedPair(ofBase: bool, b: Side, h: Side, k: string) {
    if ofBase then exists j :: OneToOne(b, h, k, j) && HasChanged(b[k], h[j])
    else exists i :: OneToOne(b, h, i, k) && HasChanged(b[i], h[k])
  }

  /** The other side has a variant with the same anchor, but none that is its only partner of one kind and
      source. */
  ghost predicate RivalsWithoutPartner(own: Side, other: Side, k: string)
    requires k in own
  {
    && own[k].anchor != "" && (exists j :: j in other && j !in own && other[j].anchor == own[k].anchor)
    && !exists j :: OneToOne(own, other, k, j)
  }

  lemma OneToOneTurns(b: Side, h: Side, i: string, j: string)
    ensures OneToOne(b, h, i, j) <==> OneToOne(h, b, j, i)
  {
  }

  lemma ChangeTurns(v: Variant, w: Variant)
    ensures HasChanged(v, w) <==> HasChanged(w, v)
  {
  }

  lemma PairedFromEitherSide(ofBase: bool, b: Side, h: Side, k: string)
    ensures var own, other := Own(ofBase, b, h), Own(!ofBase, b, h);
            InModifiedPair(ofBase, b, h, k) <==> exists j :: OneToOne(own, other, k, j) && HasChanged(own[k], other[j])
  {
    if !ofBase {
      forall j ensures OneToOne(h, b, k, j) <==> OneToOne(b, h, j, k) { OneToOneTurns(h, b, k, j); }
      forall v, w ensures HasChanged(v, w) <==> HasChanged(w, v) { ChangeTurns(v, w); }
    }
  }

  lemma UnpairedIsLeftOver(own: Side, other: Side, k: string)
    requires Anchored(own) && Anchored(other) && k in own && k !in other
    requires !exists j :: OneToOne(own, other, k, j) && HasChanged(own[k], other[j])
    ensures LeftOver(own, other, k)
  {
    if own[k].anchor != NO_ANCHOR && Correlated(own, other, own[k].anchor) {
      var j := CorrelatedIsOneToOne(own, other, k);
      PairIsModified(own, other, k, j);
    }
  }

  lemma ContestedWithoutPartner(own: Side, other: Side, k: string)
    requires k in own && k !in other && own[k].anchor != NO_ANCHOR
    ensures Contested(own, other, own[k].anchor) <==> RivalsWithoutPartner(own, other, k)
  {
    var a := own[k].anchor;
    assert k in Rivals(own, other, a);
    assert Rivals(other, own, a) != {} <==> exists j :: j in other && j !in own && other[j].anchor == a by {
      if Rivals(other, own, a) != {} { var j :| j in Rivals(other, own, a); }
      if j :| j in other && j !in own && other[j].anchor == a { assert j in Rivals(other, own, a); }
    }
    if Correlated(own, other, a) { var j := CorrelatedIsOneToOne(own, other, k); }
    if j :| OneToOne(own, other, k, j) { OneToOneIsCorrelated(own, other, k, j); }
  }

  /** Every other variant that the other side lacks is reported alone: as added or removed if the other side
      was observed completely, and else as a change of coverage; as ambiguous when its anchor is contested. */
  lemma UnpairedIsReported(ofBase: bool, b: Side, h: Side, bc: bool, hc: bool, l: Listing, k: string) returns (d: Delta)
    requires Anchored(b) && Anchored(h) && ListsAll(l, b, h)
    requires k in Own(ofBase, b, h) && k !in Own(!ofBase, b, h) && !InModifiedPair(ofBase, b, h, k)
    ensures OnlyRecordOf(ofBase, VariantDeltas(b, h, bc, hc, l), k, d)
    ensures var otherComplete := if ofBase then hc else bc;
            && ShowsOne(d, ofBase, Own(ofBase, b, h)[k], otherComplete)
            && d.kind == (if !otherComplete then CoverageChanged else if ofBase then Removed else Added)
    ensures d.ambiguous <==> RivalsWithoutPartner(Own(ofBase, b, h), Own(!ofBase, b, h), k)
  {
    var own, other, complete := Own(ofBase, b, h), Own(!ofBase, b, h), if ofBase then hc else bc;
    PairedFromEitherSide(ofBase, b, h, k);
    UnpairedIsLeftOver(own, other, k);
    LeftoverIsShown(ofBase, own, other, complete, k);
    d := Leftover(ofBase, own, other, complete, k)[0];
    LeftoverIsOnly(ofBase, b, h, bc, hc, l, k);
  }

  /** The record of a variant that is left over. */
  lemma LeftoverIsShown(ofBase: bool, own: Side, other: Side, complete: bool, k: string)
    requires k in own && LeftOver(own, other, k)
    ensures var d := Leftover(ofBase, own, other, complete, k)[0];
            && ShowsOne(d, ofBase, own[k], complete)
            && d.kind == (if !complete then CoverageChanged else if ofBase then Removed else Added)
            && (d.ambiguous <==> RivalsWithoutPartner(own, other, k))
  {
    if own[k].anchor != NO_ANCHOR { ContestedWithoutPartner(own, other, k); }
  }

  lemma PartnerIsUnique(b: Side, h: Side, i: string, j: string, k: string)
    ensures OneToOne(b, h, i, j) && OneToOne(b, h, i, k) ==> j == k
    ensures OneToOne(b, h, i, j) && OneToOne(b, h, k, j) ==> i == k
  {
  }

  /** A pair in which nothing that is compared differs is no modification: both variants are left alone. */
  lemma UnchangedPairIsReportedApart(b: Side, h: Side, bc: bool, hc: bool, l: Listing, i: string, j: string) returns (d: Delta, e: Delta)
    requires Anchored(b) && Anchored(h) && ListsAll(l, b, h) && OneToOne(b, h, i, j) && !HasChanged(b[i], h[j])
    ensures var ds := VariantDeltas(b, h, bc, hc, l); OnlyRecordOf(true, ds, i, d) && OnlyRecordOf(false, ds, j, e)
    ensures ShowsOne(d, true, b[i], hc) && !d.ambiguous && d.kind == (if hc then Removed else CoverageChanged)
    ensures ShowsOne(e, false, h[j], bc) && !e.ambiguous && e.kind == (if bc then Added else CoverageChanged)
  {
    forall k
      ensures (OneToOne(b, h, i, k) ==> k == j) && (OneToOne(b, h, k, j) ==> k == i)
      ensures OneToOne(h, b, j, k) <==> OneToOne(b, h, k, j)
    {
      PartnerIsUnique(b, h, i, j, k);
      OneToOneTurns(h, b, j, k);
    }
    d := UnpairedIsReported(true, b, h, bc, hc, l, i);
    e := UnpairedIsReported(false, b, h, bc, hc, l, j);
  }

  lemma LeftoverIsOnly(ofBase: bool, b: Side, h: Side, bc: bool, hc: bool, l: Listing, k: string)
    requires Keyed(b) && Keyed(h) && ListsAll(l, b, h)
    requires var own, other := Own(ofBase, b, h), Own(!ofBase, b, h); k in own && k !in other && LeftOver(own, other, k)
    ensures var d := Leftover(ofBase, Own(ofBase, b, h), Own(!ofBase, b, h), if ofBase then hc else bc, k)[0];
            OnlyRecordOf(ofBase, VariantDeltas(b, h, bc, hc, l), k, d)
  {
    var own, other, complete := Own(ofBase, b, h), Own(!ofBase, b, h), if ofBase then hc else bc;
    var d := Leftover(ofBase, own, other, complete, k)[0];
    assert d in VariantDeltas(b, h, bc, hc, l) by {
      LeftoverIsIncluded(ofBase, own, other, complete, if ofBase then l.bases else l.heads, k);
      PartsAreIncluded(b, h, bc, hc, l);
    }
    assert Names(ofBase, d, k) by { FirstFactNames(own, k); }
    EveryVariantOnce(ofBase, b, h, bc, hc, l, k);
    CountedIsOnly(ofBase, VariantDeltas(b, h, bc, hc, l), k, d);
  }

  // ---------------------------------------------------------------- a whole scenario

  lemma VariantsAreAnchored(attempts: seq<Attempt>)
    requires Anchorable(attempts)
    ensures Anchored(Variants(attempts))
  {
    VariantsAreKeyed(attempts);
    forall k | k in Variants(attempts) ensures PayloadFits(Variants(attempts)[k].kind, Variants(attempts)[k].facts[0].payload) {
      AnchoredWhenPayloadFits(Variants(attempts)[k].facts[0]);
    }
  }

  /** At least two repetitions, all observed completely, and all in this one order. */
  ghost predicate AlwaysInOrder(attempts: seq<Attempt>, order: seq<string>) {
    |attempts| >= 2 && forall a | a in attempts :: a.coverage == Complete && SequenceOf(a) == order
  }

  lemma OrderIsStable(attempts: seq<Attempt>, order: seq<string>)
    ensures AlwaysInOrder(attempts, order) <==> StableOrder(attempts) && SequenceOf(attempts[0]) == order
  {
    if AlwaysInOrder(attempts, order) {
      assert forall i | 0 <= i < |attempts| :: attempts[i] in attempts;
    }
  }

  /** The order record: each side has an order of its own in all of its repetitions, and the two orders are
      different ones of the same facts, each as often. */
  lemma OrderIsReported(base: seq<Attempt>, head: seq<Attempt>, l: Listing, before: seq<string>, after: seq<string>)
    requires Anchorable(base) && Anchorable(head)
    ensures OrderDelta(before, after) in ScenarioDeltas(base, head, l) <==>
              AlwaysInOrder(base, before) && AlwaysInOrder(head, after) && multiset(before) == multiset(after) && before != after
  {
    var b, h, bc, hc := Variants(base), Variants(head), AttemptsComplete(base), AttemptsComplete(head);
    VariantsAreKeyed(base);
    VariantsAreKeyed(head);
    OrderIsStable(base, before);
    OrderIsStable(head, after);
    forall d | d in VariantDeltas(b, h, bc, hc, l) ensures d.VariantDelta? { VariantSays(b, h, bc, hc, l, d); }
  }

  /** A scenario's records of variants are those of its two sides, and its order records come besides. */
  lemma ScenarioHasVariantRecords(base: seq<Attempt>, head: seq<Attempt>, l: Listing, d: Delta)
    requires Anchorable(base) && Anchorable(head)
    ensures d in VariantDeltas(Variants(base), Variants(head), AttemptsComplete(base), AttemptsComplete(head), l)
            <==> (d in ScenarioDeltas(base, head, l) && d.VariantDelta?)
  {
    var b, h, bc, hc := Variants(base), Variants(head), AttemptsComplete(base), AttemptsComplete(head);
    VariantsAreKeyed(base);
    VariantsAreKeyed(head);
    if d in VariantDeltas(b, h, bc, hc, l) { VariantSays(b, h, bc, hc, l, d); }
  }

  /** The record names a variant of this side that the other side has not, or has otherwise. */
  ghost predicate NamesLoud(ofBase: bool, d: Delta, k: string, b: Side, h: Side) {
    Names(ofBase, d, k) && k in Own(ofBase, b, h) && !Quiet(Own(ofBase, b, h), Own(!ofBase, b, h), k)
  }

  lemma ExactNamesLoud(b: Side, h: Side, k: string)
    requires Keyed(b) && Recounted(b, h, k)
    ensures NamesLoud(true, ExactDelta(b, h, k)[0], k, b, h)
  {
    FirstFactNames(b, k);
  }

  lemma ModificationNamesLoud(b: Side, h: Side, a: string) returns (k: string)
    requires Keyed(b) && Modifies(b, h, a)
    ensures NamesLoud(true, Modification(b, h, a)[0], k, b, h)
  {
    k := Only(Rivals(b, h, a));
    assert k in Rivals(b, h, a);
    FirstFactNames(b, k);
  }

  lemma LeftoverNamesLoud(ofBase: bool, b: Side, h: Side, complete: bool, k: string)
    requires Keyed(b) && Keyed(h) && k in Own(ofBase, b, h) && LeftOver(Own(ofBase, b, h), Own(!ofBase, b, h), k)
    ensures NamesLoud(ofBase, Leftover(ofBase, Own(ofBase, b, h), Own(!ofBase, b, h), complete, k)[0], k, b, h)
  {
    FirstFactNames(Own(ofBase, b, h), k);
  }

  lemma RecordNamesLoud(b: Side, h: Side, bc: bool, hc: bool, l: Listing, d: Delta) returns (ofBase: bool, k: string)
    requires Keyed(b) && Keyed(h) && d in VariantDeltas(b, h, bc, hc, l)
    ensures NamesLoud(ofBase, d, k, b, h)
  {
    ofBase := true;
    if d in ExactDeltas(b, h, l.keys) {
      k := FromExact(b, h, l.keys, d);
      ExactNamesLoud(b, h, k);
    } else if d in Modifications(b, h, l.anchors) {
      var a := FromModification(b, h, l.anchors, d);
      k := ModificationNamesLoud(b, h, a);
    } else if d in Leftovers(true, b, h, hc, l.bases) {
      k := FromLeftover(true, b, h, hc, l.bases, d);
      LeftoverNamesLoud(true, b, h, hc, k);
    } else {
      ofBase := false;
      k := FromLeftover(false, h, b, bc, l.heads, d);
      LeftoverNamesLoud(false, b, h, bc, k);
    }
  }

  /** Every record of a scenario that is not about order names a variant of one side: one that occurred
      differently, one of a changed pair, or one left alone. So the reports above are all there are. */
  lemma EveryRecordNamesAVariant(base: seq<Attempt>, head: seq<Attempt>, l: Listing, d: Delta) returns (ofBase: bool, k: string)
    requires Anchorable(base) && Anchorable(head) && d in ScenarioDeltas(base, head, l) && d.VariantDelta?
    ensures NamesLoud(ofBase, d, k, Variants(base), Variants(head))
  {
    VariantsAreKeyed(base);
    VariantsAreKeyed(head);
    ScenarioHasVariantRecords(base, head, l, d);
    ofBase, k := RecordNamesLoud(Variants(base), Variants(head), AttemptsComplete(base), AttemptsComplete(head), l, d);
  }

  // ---------------------------------------------------------------- what a variant is made of

  /** How many facts come before those of attempt `n`. */
  function FactsBefore(attempts: seq<Attempt>, n: nat): nat
    requires n <= |attempts|
  {
    if n == 0 then 0 else FactsBefore(attempts, n - 1) + |attempts[n - 1].facts|
  }

  lemma {:induction false} SightingsCount(attempts: seq<Attempt>)
    ensures |Sightings(attempts)| == FactsBefore(attempts, |attempts|)
  {
    if attempts != [] {
      var front := attempts[..|attempts| - 1];
      SightingsCount(front);
      FactsBeforeOfFront(attempts, |front|);
    }
  }

  lemma {:induction false} FactsBeforeOfFront(attempts: seq<Attempt>, n: nat)
    requires n < |attempts|
    ensures FactsBefore(attempts[..|attempts| - 1], n) == FactsBefore(attempts, n)
  {
    if n > 0 { FactsBeforeOfFront(attempts, n - 1); }
  }

  /** Every fact of every attempt is sighted once, in trace order, in the repetition of its attempt. */
  lemma {:induction false} EveryFactIsSighted(attempts: seq<Attempt>, i: nat, m: nat)
    requires i < |attempts| && m < |attempts[i].facts|
    ensures FactsBefore(attempts, i) + m < |Sightings(attempts)| == FactsBefore(attempts, |attempts|)
    ensures Sightings(attempts)[FactsBefore(attempts, i) + m] == Sighting(attempts[i].repetition, attempts[i].facts[m])
  {
    var front := attempts[..|attempts| - 1];
    SightingsCount(attempts);
    SightingsCount(front);
    FactsBeforeOfFront(attempts, i);
    FactsBeforeOfFront(attempts, |front|);
    if i < |front| { EveryFactIsSighted(front, i, m); }
  }

  /** A variant holds the facts with its key in trace order: each stands where the number of earlier facts
      with that key says. */
  lemma {:induction false} FactStandsInOrder(seen: seq<Sighting>, n: nat)
    requires n < |seen|
    ensures var k := KeyText(seen[n].fact); var facts, before := FactsWith(seen, k), CountOf(Facts(seen[..n]), k);
            before < |facts| && facts[before] == seen[n].fact
  {
    var k, front := KeyText(seen[n].fact), seen[..|seen| - 1];
    if n < |front| {
      FactStandsInOrder(front, n);
      assert front[..n] == seen[..n];
    } else {
      FactsAreCounted(front, k);
      assert seen[..n] == front;
    }
  }

  lemma {:induction false} FactsAreCounted(seen: seq<Sighting>, k: string)
    ensures |FactsWith(seen, k)| == CountOf(Facts(seen), k)
  {
    if seen != [] {
      var front := seen[..|seen| - 1];
      FactsAreCounted(front, k);
      assert Facts(seen)[..|seen| - 1] == Facts(front);
    }
  }

  /** There is a variant for exactly the keys of the facts. It holds the facts with its key; kind, source,
      digest and anchor are those of the first one. */
  lemma VariantIsItsFacts(attempts: seq<Attempt>, k: string)
    requires Anchorable(attempts)
    ensures k in Variants(attempts) <==> exists n :: 0 <= n < |Sightings(attempts)| && KeyText(Sightings(attempts)[n].fact) == k
    ensures k in Variants(attempts) ==>
              var v := Variants(attempts)[k];
              && v.facts == FactsWith(Sightings(attempts), k) != [] && v.kind == v.facts[0].kind && v.source == v.facts[0].source
              && v.semantic == v.facts[0].semantic && AnchorOf(v.facts[0]) == Some(v.anchor)
  {
    KeysAreSighted(Sightings(attempts), k);
  }

  lemma {:induction false} KeysAreSighted(seen: seq<Sighting>, k: string)
    ensures k in Keys(seen) <==> exists n :: 0 <= n < |seen| && KeyText(seen[n].fact) == k
  {
    if seen != [] {
      var front := seen[..|seen| - 1];
      KeysAreSighted(front, k);
      assert forall n | 0 <= n < |front| :: front[n] == seen[n];
    }
  }

  /** The first fact with this key has the payload of its kind. */
  ghost predicate FirstFits(attempts: seq<Attempt>, k: string)
    requires k in Keys(Sightings(attempts))
  {
    var f := FactsWith(Sightings(attempts), k)[0]; PayloadFits(f.kind, f.payload)
  }

  /** The comparison fails exactly when some first fact of a key has not the payload of its kind. */
  lemma ComparableWhenPayloadsFit(attempts: seq<Attempt>)
    ensures Anchorable(attempts) <==> forall k | k in Keys(Sightings(attempts)) :: FirstFits(attempts, k)
  {
    var built := Collected(Sightings(attempts));
    forall k | k in Keys(Sightings(attempts)) ensures k in built && (AnchorOf(built[k].facts[0]).Some? <==> FirstFits(attempts, k)) {
      AnchoredWhenPayloadFits(FactsWith(Sightings(attempts), k)[0]);
    }
  }
}

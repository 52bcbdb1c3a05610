/** What the comparator compares: facts, the key under which equal facts are counted, the typed
    anchor by which a changed fact is recognised, and the fields it may report as changed. */
module ComparatorFacts {
  import opened Options

  predicate ProcessKind(k: string) { k == "process-start" || k == "process-exit" }

  predicate FileKind(k: string) {
    k == "filesystem-create" || k == "filesystem-read" || k == "filesystem-write" || k == "filesystem-delete"
    || k == "filesystem-rename" || k == "filesystem-chmod"
  }

  predicate NetworkKind(k: string) { k == "dns-query" || k == "network-connection" }

  predicate ArtifactKind(k: string) { k == "artifact-activity" }

  predicate ScenarioKind(k: string) { k == "scenario-started" || k == "scenario-completed" }

  predicate WarningKind(k: string) { k == "observer-warning" || k == "unsupported-observation" }

  predicate ResourceKind(k: string) { k == "resource-limit" }

  datatype Coverage = Complete | Incomplete | NotStarted

  /** The root index is kept in decimal text. */
  datatype FactPath = FactPath(space: string, root: string, relative: string, literal: string, display: string)

  /** A fact has exactly one typed payload; the fields that neither anchor nor comparison reads are left out. */
  datatype Payload =
    | Process(stable: string, operation: string, exitCode: Option<int>, duration: int)
    | File(operation: string, path: FactPath, digest: string, mode: string, size: int, executable: bool, truncated: bool)
    | Network(operation: string, protocol: string, query: string, host: string, port: string, result: string, duration: int,
              resolved: seq<string>)
    | Artifact(operation: string, path: FactPath, digest: string, size: int, executable: bool)
    | Scenario(status: string, message: string, duration: int)
    | Warning(code: string, message: string, unsupported: bool)
    | Resource(limitKind: string, limit: int, unit: string, observed: int, exceeded: bool)

  datatype Fact = Fact(id: string, semantic: string, kind: string, source: string, payload: Payload)

  datatype Attempt = Attempt(repetition: nat, coverage: Coverage, facts: seq<Fact>)

  // ---------------------------------------------------------------- keys

  const NUL: char := '\0'

  /** The exact-match key. */
  function KeyText(f: Fact): string { f.semantic + [NUL] + f.kind + [NUL] + f.source }

  /** Which payload a kind carries. */
  datatype Group = ProcessGroup | FileGroup | NetworkGroup | ArtifactGroup | ScenarioGroup | WarningGroup | ResourceGroup | NoGroup

  function GroupOf(kind: string): Group {
    if ProcessKind(kind) then ProcessGroup
    else if FileKind(kind) then FileGroup
    else if NetworkKind(kind) then NetworkGroup
    else if ArtifactKind(kind) then ArtifactGroup
    else if ScenarioKind(kind) then ScenarioGroup
    else if WarningKind(kind) then WarningGroup
    else if ResourceKind(kind) then ResourceGroup
    else NoGroup
  }

  predicate SupportedKind(kind: string) { GroupOf(kind) != NoGroup }

  predicate IsHex(c: char) { '0' <= c <= '9' || 'a' <= c <= 'f' }

  predicate ValidDigest(d: string) {
    |d| == 71 && "sha256:" <= d && forall c | c in d[7..] :: IsHex(c)
  }

  /** What the trace checks establish for every fact. */
  predicate ValidFact(f: Fact) { ValidDigest(f.semantic) && SupportedKind(f.kind) }

  /** Where a text ends at its first separator. */
  lemma SeparatorEnds(a: string, rest: string, k: nat)
    requires NUL !in a && k <= |a|
    ensures (a + [NUL] + rest)[k] == NUL <==> k == |a|
  {
  }

  lemma SplitAtSeparator(a: string, restA: string, b: string, restB: string)
    requires NUL !in a && NUL !in b && a + [NUL] + restA == b + [NUL] + restB
    ensures a == b && restA == restB
  {
    var whole := a + [NUL] + restA;
    SeparatorEnds(a, restA, if |b| < |a| then |b| else |a|);
    SeparatorEnds(b, restB, if |b| < |a| then |b| else |a|);
    assert whole[..|a|] == a && whole[..|b|] == b && whole[|a| + 1..] == restA && (b + [NUL] + restB)[|b| + 1..] == restB;
  }

  lemma FileKindHasNoSeparator(kind: string)
    requires FileKind(kind)
    ensures NUL !in kind
  {
  }

  lemma ReportedKindHasNoSeparator(kind: string)
    requires ScenarioKind(kind) || WarningKind(kind) || ResourceKind(kind)
    ensures NUL !in kind
  {
  }

  lemma ObservedKindHasNoSeparator(kind: string)
    requires ProcessKind(kind) || NetworkKind(kind) || ArtifactKind(kind)
    ensures NUL !in kind
  {
  }

  lemma KindHasNoSeparator(kind: string)
    requires SupportedKind(kind)
    ensures NUL !in kind
  {
    match GroupOf(kind)
    case FileGroup => FileKindHasNoSeparator(kind);
    case ProcessGroup | NetworkGroup | ArtifactGroup => ObservedKindHasNoSeparator(kind);
    case _ => ReportedKindHasNoSeparator(kind);
  }

  lemma KeySplits(f: Fact, g: Fact)
    requires |f.semantic| == |g.semantic| && NUL !in f.kind && NUL !in g.kind && KeyText(f) == KeyText(g)
    ensures f.semantic == g.semantic && f.kind == g.kind && f.source == g.source
  {
    var n := |f.semantic|;
    assert KeyText(f)[..n] == f.semantic && KeyText(g)[..n] == g.semantic;
    assert KeyText(f)[n + 1..] == f.kind + [NUL] + f.source && KeyText(g)[n + 1..] == g.kind + [NUL] + g.source;
    SplitAtSeparator(f.kind, f.source, g.kind, g.source);
  }

  /** Valid facts share a key exactly when digest, kind and source agree: nothing is counted together
      that the source keeps apart. */
  lemma KeyTellsFactsApart(f: Fact, g: Fact)
    requires ValidFact(f) && ValidFact(g)
    ensures KeyText(f) == KeyText(g) <==> f.semantic == g.semantic && f.kind == g.kind && f.source == g.source
  {
    KindHasNoSeparator(f.kind);
    KindHasNoSeparator(g.kind);
    if KeyText(f) == KeyText(g) {
      KeySplits(f, g);
    }
  }

  // ---------------------------------------------------------------- anchors

  /** A digest of a list of texts stands for the list: each text is written so that its end shows. */
  function Quoted(s: string): string {
    if s == "" then "." else ['+', s[0]] + Quoted(s[1..])
  }

  function Digest(parts: seq<string>): string {
    if parts == [] then "" else Quoted(parts[0]) + Digest(parts[1..])
  }

  lemma {:induction false} QuotedEndShows(s: string, x: string, t: string, y: string)
    requires Quoted(s) + x == Quoted(t) + y
    ensures s == t && x == y
  {
    var left, right := Quoted(s) + x, Quoted(t) + y;
    assert left[0] == right[0];
    if s != "" {
      assert left[1] == right[1];
      assert left[2..] == Quoted(s[1..]) + x && right[2..] == Quoted(t[1..]) + y;
      QuotedEndShows(s[1..], x, t[1..], y);
      assert s == [s[0]] + s[1..] && t == [t[0]] + t[1..];
    } else {
      assert left[1..] == x && right[1..] == y;
    }
  }

  lemma {:induction false} DigestIsInjective(a: seq<string>, b: seq<string>)
    requires Digest(a) == Digest(b)
    ensures a == b
  {
    if a != [] && b != [] {
      QuotedEndShows(a[0], Digest(a[1..]), b[0], Digest(b[1..]));
      DigestIsInjective(a[1..], b[1..]);
      assert a == [a[0]] + a[1..] && b == [b[0]] + b[1..];
    }
  }

  function PathParts(p: FactPath): seq<string> {
    [p.space, p.root, p.relative, if p.space == "workdir-root" || p.space == "collection-root" then "" else p.literal, p.display]
  }

  const NO_ANCHOR: string := ""

  /** What identifies a fact across a modification; None when the payload is not that of its kind. */
  function Identity(group: Group, p: Payload): Option<seq<string>> {
    match group
    case ProcessGroup => if p.Process? then Some([p.stable, p.operation]) else None
    case FileGroup => if p.File? then Some([p.operation] + PathParts(p.path)) else None
    case NetworkGroup => if p.Network? then Some([p.operation, p.protocol, p.query, p.host, p.port]) else None
    case ArtifactGroup => if p.Artifact? then Some(PathParts(p.path)) else None
    case ScenarioGroup => if p.Scenario? then Some([p.status]) else None
    case WarningGroup => if p.Warning? then Some([p.code]) else None
    case ResourceGroup => if p.Resource? then Some([p.limitKind]) else None
    case NoGroup => None
  }

  function IdentityOf(f: Fact): Option<seq<string>> { Identity(GroupOf(f.kind), f.payload) }

  /** The anchor, None being an error. A warning without a code has the empty anchor and is never correlated. */
  function AnchorOf(f: Fact): Option<string> {
    match IdentityOf(f)
    case None => None
    case Some(parts) => if f.payload.Warning? && f.payload.code == "" then Some(NO_ANCHOR) else Some(Digest([f.kind, f.source] + parts))
  }

  /** Anchors agree exactly when kind, source and identity do. */
  lemma AnchorTellsIdentity(f: Fact, g: Fact)
    requires AnchorOf(f).Some? && AnchorOf(g).Some? && AnchorOf(f).value != NO_ANCHOR && AnchorOf(g).value != NO_ANCHOR
    ensures AnchorOf(f) == AnchorOf(g) <==> f.kind == g.kind && f.source == g.source && IdentityOf(f) == IdentityOf(g)
  {
    var partsF, partsG := [f.kind, f.source] + IdentityOf(f).value, [g.kind, g.source] + IdentityOf(g).value;
    if Digest(partsF) == Digest(partsG) {
      DigestIsInjective(partsF, partsG);
      assert partsF[0] == f.kind && partsF[1] == f.source && partsF[2..] == IdentityOf(f).value;
      assert partsG[0] == g.kind && partsG[1] == g.source && partsG[2..] == IdentityOf(g).value;
    }
  }

  // ---------------------------------------------------------------- changed fields

  function Field(name: string, same: bool): set<string> { if same then {} else {name} }

  /** `strings.Join(xs, "\x00")` */
  function Joined(xs: seq<string>): string {
    if xs == [] then "" else if |xs| == 1 then xs[0] else xs[0] + [NUL] + Joined(xs[1..])
  }

  /** The fields of two payloads of one group that differ, and are compared. */
  function Changed(group: Group, p: Payload, q: Payload): set<string> {
    match group
    case FileGroup =>
      if !p.File? || !q.File? then {}
      else Field("filesystem.digest", p.digest == q.digest) + Field("filesystem.mode", p.mode == q.mode)
           + Field("filesystem.sizeBytes", p.size == q.size) + Field("filesystem.executable", p.executable == q.executable)
           + Field("filesystem.truncated", p.truncated == q.truncated)
    case ArtifactGroup =>
      if !p.Artifact? || !q.Artifact? then {}
      else Field("artifact.digest", p.digest == q.digest) + Field("artifact.sizeBytes", p.size == q.size)
           + Field("artifact.executable", p.executable == q.executable) + Field("artifact.operation", p.operation == q.operation)
    case NetworkGroup =>
      if !p.Network? || !q.Network? then {}
      else Field("network.result", p.result == q.result) + Field("network.durationMillis", p.duration == q.duration)
           + Field("network.resolvedAddresses", Joined(p.resolved) == Joined(q.resolved))
    case ScenarioGroup =>
      if !p.Scenario? || !q.Scenario? then {}
      else Field("scenario.status", p.status == q.status) + Field("scenario.durationMillis", p.duration == q.duration)
           + Field("scenario.message", p.message == q.message)
    case WarningGroup =>
      if !p.Warning? || !q.Warning? then {}
      else Field("warning.message", p.message == q.message) + Field("warning.unsupported", p.unsupported == q.unsupported)
    case ResourceGroup =>
      if !p.Resource? || !q.Resource? then {}
      else Field("resource.limitValue", p.limit == q.limit) + Field("resource.observedValue", p.observed == q.observed)
           + Field("resource.exceeded", p.exceeded == q.exceeded)
    case ProcessGroup =>
      if !p.Process? || !q.Process? then {}
      else Field("process.exitCode", p.exitCode == q.exitCode) + Field("process.durationMillis", p.duration == q.duration)
    case NoGroup => {}
  }

  function ChangedFields(a: Fact, b: Fact): set<string> { Changed(GroupOf(a.kind), a.payload, b.payload) }

  /** What changed does not depend on which side comes first. */
  lemma ChangeIsSymmetric(group: Group, p: Payload, q: Payload)
    ensures Changed(group, p, q) == Changed(group, q, p)
  {
  }

  /** The documentation lists a scenario's outcome among the modifications, but the outcome is part of
      the anchor: two scenario facts that are correlated never differ in it. */
  lemma OutcomeIsNeverAModification(a: Fact, b: Fact)
    requires GroupOf(a.kind) == ScenarioGroup && a.kind == b.kind
    requires AnchorOf(a).Some? && AnchorOf(a) == AnchorOf(b) && AnchorOf(a).value != NO_ANCHOR
    ensures "scenario.status" !in ChangedFields(a, b)
  {
    AnchorTellsIdentity(a, b);
    assert IdentityOf(a).value[0] == a.payload.status && IdentityOf(b).value[0] == b.payload.status;
    assert |"scenario.status"| < |"scenario.message"| < |"scenario.durationMillis"|;
  }

  /** The unit of a resource limit is not compared, so a fact that changed only in its unit is correlated
      with nothing to report. */
  lemma UnitIsNotCompared(a: Fact, unit: string)
    requires GroupOf(a.kind) == ResourceGroup && a.payload.Resource?
    ensures var b := a.(payload := a.payload.(unit := unit)); ChangedFields(a, b) == {} && AnchorOf(a) == AnchorOf(b)
  {
  }

  // ---------------------------------------------------------------- semantic digests

  /** The literal text of a path below an aliased root is not hashed. */
  function HashedPath(p: FactPath): FactPath {
    if p.space == "workdir-root" || p.space == "collection-root" then p.(literal := "") else p
  }

  /** What the semantic digest is computed of, besides kind, source and the fields that no payload here has. */
  function Hashed(p: Payload): Payload {
    if p.File? || p.Artifact? then p.(path := HashedPath(p.path)) else p
  }

  /** SHA-256 is taken to have no collision: facts of one semantic digest were hashed from one content. */
  predicate DigestsSettle(f: Fact, g: Fact) {
    f.semantic == g.semantic ==> f.kind == g.kind && f.source == g.source && Hashed(f.payload) == Hashed(g.payload)
  }

  lemma HashedSettlesIdentity(group: Group, p: Payload, q: Payload)
    requires Hashed(p) == Hashed(q)
    ensures Identity(group, p) == Identity(group, q) && Changed(group, p, q) == {}
  {
    assert p.File? || p.Artifact? ==> HashedPath(p.path) == HashedPath(q.path) && PathParts(p.path) == PathParts(q.path);
  }

  /** Facts counted under one key have one anchor and differ in no compared field. */
  lemma KeySettlesAnchor(f: Fact, g: Fact)
    requires ValidFact(f) && ValidFact(g) && DigestsSettle(f, g) && KeyText(f) == KeyText(g)
    ensures AnchorOf(f) == AnchorOf(g) && ChangedFields(f, g) == {}
  {
    KeyTellsFactsApart(f, g);
    HashedSettlesIdentity(GroupOf(f.kind), f.payload, g.payload);
  }
}

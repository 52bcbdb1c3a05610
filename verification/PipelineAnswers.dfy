/** Which changes are reported, said of each field, list and item of the two pipelines; and that none is
    reported twice. */
module PipelineAnswers {
  import opened GoText
  import opened PipelineChange
  import opened PipelineChangeLaws

  // ---------------------------------------------------------------- what a change says

  /** The text differs, and the change shows both. */
  predicate TextDiffers(c: Change, before: string, after: string, effect: Effect) {
    before != after && c.kind == Modified && c.effect == effect && c.before == Text(before) && c.after == Text(after)
  }

  /** The number differs, the change shows both, and its effect is that of the direction. */
  predicate NumberDiffers(c: Change, before: int, after: int, more: Effect, less: Effect) {
    && c.kind == Modified && c.before == Number(before) && c.after == Number(after)
    && ((before < after && c.effect == more) || (before > after && c.effect == less))
  }

  /** The script differs; of it only digest and length are shown. */
  predicate ScriptDiffers(c: Change, before: string, after: string) {
    && before != after && c.kind == Modified && c.effect == ExecutionDefinitionChange
    && c.before == RunDigest(before, |before|) && c.after == RunDigest(after, |after|)
  }

  predicate ShowsNothing(c: Change) { c.before == NoValue && c.after == NoValue }

  predicate Rearranged(base: seq<string>, head: seq<string>) { base != head && multiset(base) == multiset(head) }

  /** The same strings come in another order. */
  predicate OrderDiffers(c: Change, base: seq<string>, head: seq<string>) {
    Rearranged(base, head) && c.kind == Reordered && c.effect == Informational && ShowsNothing(c)
  }

  /** The lists differ at this place, unless they are the same strings in another order. */
  predicate PlaceDiffers(c: Change, i: nat, base: seq<string>, head: seq<string>, added: Effect, removed: Effect) {
    && !Rearranged(base, head) && ShowsNothing(c)
    && ((i < |base| && i < |head| && base[i] != head[i] && c.kind == Modified && c.effect == UnknownEffect)
        || (|head| <= i < |base| && c.kind == Removed && c.effect == removed)
        || (|base| <= i < |head| && c.kind == Added && c.effect == added))
  }

  /** One side alone has this key. */
  predicate KeyDiffers(c: Change, id: string, base: seq<string>, head: seq<string>, removed: Effect, added: Effect) {
    && ShowsNothing(c)
    && ((id in base && id !in head && c.kind == Removed && c.effect == removed)
        || (id !in base && id in head && c.kind == Added && c.effect == added))
  }

  /** A field of the scenario that both sides have under this id. */
  predicate ScenarioDiffers(c: Change, field: string, s: Scenario, t: Scenario) {
    || (field == "name" && TextDiffers(c, s.name, t.name, Informational))
    || (field == "shell" && TextDiffers(c, s.shell, t.shell, ExecutionDefinitionChange))
    || (field == "run" && ScriptDiffers(c, s.run, t.run))
    || (field == "timeoutMillis" && NumberDiffers(c, s.timeout, t.timeout, PrivilegeIncrease, PrivilegeDecrease))
  }

  // ---------------------------------------------------------------- which changes there are to report

  predicate HeaderDiffers(b: Pipeline, h: Pipeline, c: Change) {
    || (c.path == Field("metadata.name") && TextDiffers(c, b.name, h.name, Informational))
    || (c.path == Field("spec.environment.image") && TextDiffers(c, b.image, h.image, ExecutionDefinitionChange))
    || (c.path == Field("spec.environment.imageDigest") && TextDiffers(c, b.imageDigest, h.imageDigest, ExecutionDefinitionChange))
    || (c.path == Field("spec.environment.workdir") && TextDiffers(c, b.workdir, h.workdir, ExecutionDefinitionChange))
  }

  /** More of a resource is more privilege. */
  predicate ResourcesDiffer(b: Resources, h: Resources, c: Change) {
    || (c.path == Field("spec.resources.cpu") && NumberDiffers(c, b.cpu, h.cpu, PrivilegeIncrease, PrivilegeDecrease))
    || (c.path == Field("spec.resources.memoryBytes") && NumberDiffers(c, b.memory, h.memory, PrivilegeIncrease, PrivilegeDecrease))
    || (c.path == Field("spec.resources.diskBytes") && NumberDiffers(c, b.disk, h.disk, PrivilegeIncrease, PrivilegeDecrease))
    || (c.path == Field("spec.resources.processCount") && NumberDiffers(c, b.processes, h.processes, PrivilegeIncrease, PrivilegeDecrease))
    || (c.path == Field("spec.resources.timeoutMillis") && NumberDiffers(c, b.timeout, h.timeout, PrivilegeIncrease, PrivilegeDecrease))
  }

  /** Leaving "deny" is more privilege, coming back to it less, and between two other modes it is unknown. */
  predicate NetworkDiffers(b: Pipeline, h: Pipeline, c: Change) {
    || (c.path == Field("spec.network.mode")
        && TextDiffers(c, b.networkMode, h.networkMode,
                       if b.networkMode == "deny" then PrivilegeIncrease else if h.networkMode == "deny" then PrivilegeDecrease
                       else UnknownEffect))
    || ListDiffers(c, "spec.network.allow", b.networkAllow, h.networkAllow, PrivilegeIncrease, PrivilegeDecrease)
  }

  predicate ListDiffers(c: Change, name: string, base: seq<string>, head: seq<string>, added: Effect, removed: Effect) {
    || (c.path == Field(name) && OrderDiffers(c, base, head))
    || (c.path.At? && c.path.name == name && PlaceDiffers(c, c.path.index, base, head, added, removed))
  }

  predicate KeysDiffer(c: Change, section: Section, name: string, base: seq<string>, head: seq<string>, removed: Effect, added: Effect) {
    || (c.path == Field(name) && OrderDiffers(c, base, head))
    || (c.path.Item? && c.path.section == section && c.path.field == "" && KeyDiffers(c, c.path.id, base, head, removed, added))
  }

  /** A scenario that is gone, new or different changes what is executed. */
  predicate ScenariosDiffer(base: seq<Scenario>, head: seq<Scenario>, c: Change) {
    || KeysDiffer(c, Scenarios, "spec.scenarios", Ids(base), Ids(head), ExecutionDefinitionChange, ExecutionDefinitionChange)
    || (c.path.Item? && c.path.section == Scenarios
        && exists s, t :: s in base && t in head && s.id == t.id == c.path.id && ScenarioDiffers(c, c.path.field, s, t))
  }

  /** More is collected from more artifacts and from larger ones. */
  predicate ArtifactsDiffer(base: seq<Artifact>, head: seq<Artifact>, c: Change) {
    || KeysDiffer(c, Artifacts, "spec.collect.artifacts", Paths(base), Paths(head), ObservationWeakened, ObservationStrengthened)
    || (c.path.Item? && c.path.section == Artifacts && c.path.field == "maxBytes"
        && exists s, t :: s in base && t in head && s.path == t.path == c.path.id
                          && NumberDiffers(c, s.maxBytes, t.maxBytes, ObservationStrengthened, ObservationWeakened))
  }

  predicate CollectDiffers(b: Pipeline, h: Pipeline, c: Change) {
    || ListDiffers(c, "spec.collect.filesystem.roots", b.roots, h.roots, ObservationStrengthened, ObservationWeakened)
    || (c.path == Field("spec.collect.filesystem.contents")
        && TextDiffers(c, b.contents, h.contents,
                       if b.contents == "metadata-and-digests" then ObservationWeakened
                       else if h.contents == "metadata-and-digests" then ObservationStrengthened else UnknownEffect))
    || ArtifactsDiffer(b.artifacts, h.artifacts, c)
    || (c.path == Field("spec.collect.logs.maxBytesPerStream")
        && NumberDiffers(c, b.logBytes, h.logBytes, ObservationStrengthened, ObservationWeakened))
  }

  /** Ignoring a field more is observing less. */
  predicate CompareDiffers(b: Pipeline, h: Pipeline, c: Change) {
    || KeysDiffer(c, IgnoreFields, "spec.compare.ignore", b.ignore, h.ignore, ObservationStrengthened, ObservationWeakened)
    || (c.path == Field("spec.compare.repetitions")
        && NumberDiffers(c, b.repetitions, h.repetitions, ObservationStrengthened, ObservationWeakened))
    || (c.path == Field("spec.policy.profile") && TextDiffers(c, b.policy, h.policy, PolicyChange))
  }

  predicate Differs(b: Pipeline, h: Pipeline, c: Change) {
    || HeaderDiffers(b, h, c) || ResourcesDiffer(b.resources, h.resources, c) || NetworkDiffers(b, h, c)
    || ScenariosDiffer(b.scenarios, h.scenarios, c) || CollectDiffers(b, h, c) || CompareDiffers(b, h, c)
  }

  // ---------------------------------------------------------------- section by section

  lemma TextIsReported(path: Path, before: string, after: string, effect: Effect, c: Change)
    ensures c in StringChange(path, before, after, effect) <==> c.path == path && TextDiffers(c, before, after, effect)
  {
  }

  lemma NumberIsReported(path: Path, before: int, after: int, more: Effect, less: Effect, c: Change)
    ensures c in IntChange(path, before, after, more, less) <==> c.path == path && NumberDiffers(c, before, after, more, less)
  {
  }

  lemma HeaderIsReported(b: Pipeline, h: Pipeline, c: Change)
    ensures c in HeaderChanges(b, h) <==> HeaderDiffers(b, h, c)
  {
    TextIsReported(Field("metadata.name"), b.name, h.name, Informational, c);
    TextIsReported(Field("spec.environment.image"), b.image, h.image, ExecutionDefinitionChange, c);
    TextIsReported(Field("spec.environment.imageDigest"), b.imageDigest, h.imageDigest, ExecutionDefinitionChange, c);
    TextIsReported(Field("spec.environment.workdir"), b.workdir, h.workdir, ExecutionDefinitionChange, c);
  }

  lemma ResourceIsReported(b: Resources, h: Resources, c: Change)
    ensures c in ResourceChanges(b, h) <==> ResourcesDiffer(b, h, c)
  {
    NumberIsReported(Field("spec.resources.cpu"), b.cpu, h.cpu, PrivilegeIncrease, PrivilegeDecrease, c);
    NumberIsReported(Field("spec.resources.memoryBytes"), b.memory, h.memory, PrivilegeIncrease, PrivilegeDecrease, c);
    NumberIsReported(Field("spec.resources.diskBytes"), b.disk, h.disk, PrivilegeIncrease, PrivilegeDecrease, c);
    NumberIsReported(Field("spec.resources.processCount"), b.processes, h.processes, PrivilegeIncrease, PrivilegeDecrease, c);
    NumberIsReported(Field("spec.resources.timeoutMillis"), b.timeout, h.timeout, PrivilegeIncrease, PrivilegeDecrease, c);
  }

  lemma {:induction false} ModifiedPlaces(name: string, base: seq<string>, head: seq<string>, n: nat, c: Change)
    requires n <= |base| && n <= |head|
    ensures c in ModifiedAt(name, base, head, n) <==>
              && c.path.At? && c.path.name == name && c.path.index < n && base[c.path.index] != head[c.path.index]
              && c.kind == Modified && c.effect == UnknownEffect && ShowsNothing(c)
  {
    if n > 0 { ModifiedPlaces(name, base, head, n - 1, c); }
  }

  lemma {:induction false} PlacesBeyond(name: string, from: nat, n: nat, kind: Kind, effect: Effect, c: Change)
    requires from <= n
    ensures c in Beyond(name, from, n, kind, effect) <==>
              && c.path.At? && c.path.name == name && from <= c.path.index < n
              && c.kind == kind && c.effect == effect && ShowsNothing(c)
    decreases n
  {
    if from < n { PlacesBeyond(name, from, n - 1, kind, effect, c); }
  }

  lemma ListIsReported(name: string, base: seq<string>, head: seq<string>, added: Effect, removed: Effect, c: Change)
    ensures c in ListChanges(name, base, head, added, removed) <==> ListDiffers(c, name, base, head, added, removed)
  {
    var m := MinLength(base, head);
    ModifiedPlaces(name, base, head, m, c);
    PlacesBeyond(name, m, |base|, Removed, removed, c);
    PlacesBeyond(name, m, |head|, Added, added, c);
  }

  lemma NetworkIsReported(b: Pipeline, h: Pipeline, c: Change)
    ensures c in NetworkChanges(b, h) <==> NetworkDiffers(b, h, c)
  {
    TextIsReported(Field("spec.network.mode"), b.networkMode, h.networkMode, NetworkEffect(b.networkMode, h.networkMode), c);
    ListIsReported("spec.network.allow", b.networkAllow, h.networkAllow, PrivilegeIncrease, PrivilegeDecrease, c);
  }

  lemma {:induction false} GoneIsReported(section: Section, own: seq<string>, other: seq<string>, kind: Kind, effect: Effect, c: Change)
    ensures c in Gone(section, own, other, kind, effect) <==>
              && c.path.Item? && c.path.section == section && c.path.field == "" && c.path.id in own && c.path.id !in other
              && c.kind == kind && c.effect == effect && ShowsNothing(c)
  {
    if own != [] {
      var front := own[..|own| - 1];
      assert own == front + [own[|own| - 1]];
      GoneIsReported(section, front, other, kind, effect, c);
    }
  }

  lemma OrderIsReported(name: string, base: seq<string>, head: seq<string>, c: Change)
    ensures c in Reorder(name, base, head) <==> c.path == Field(name) && OrderDiffers(c, base, head)
  {
  }

  lemma KeysAreReported(section: Section, name: string, base: seq<string>, head: seq<string>, removed: Effect, added: Effect, c: Change)
    ensures c in KeyChanges(section, name, base, head, removed, added) <==> KeysDiffer(c, section, name, base, head, removed, added)
  {
    GoneIsReported(section, base, head, Removed, removed, c);
    GoneIsReported(section, head, base, Added, added, c);
    OrderIsReported(name, base, head, c);
    InThree(Gone(section, base, head, Removed, removed), Gone(section, head, base, Added, added), Reorder(name, base, head), c);
  }

  lemma InThree(x: seq<Change>, y: seq<Change>, z: seq<Change>, c: Change)
    ensures c in x + y + z <==> c in x || c in y || c in z
  {
  }

  lemma {:induction false} OrderedChanges(ids: seq<string>, changes: map<string, seq<Change>>, c: Change)
    ensures c in InOrder(ids, changes) <==> exists id :: id in ids && c in Of(id, changes)
  {
    if ids != [] {
      var front := ids[..|ids| - 1];
      assert ids == front + [ids[|ids| - 1]];
      OrderedChanges(front, changes, c);
    }
  }

  lemma FieldsAreReported(id: string, s: Scenario, t: Scenario, c: Change)
    ensures c in ScenarioFields(id, s, t) <==>
              c.path.Item? && c.path.section == Scenarios && c.path.id == id && ScenarioDiffers(c, c.path.field, s, t)
  {
    TextIsReported(Item(Scenarios, id, "name"), s.name, t.name, Informational, c);
    TextIsReported(Item(Scenarios, id, "shell"), s.shell, t.shell, ExecutionDefinitionChange, c);
    NumberIsReported(Item(Scenarios, id, "timeoutMillis"), s.timeout, t.timeout, PrivilegeIncrease, PrivilegeDecrease, c);
  }

  lemma ScenarioLookedUp(scenarios: seq<Scenario>, s: Scenario)
    requires NoRepeats(Ids(scenarios)) && s in scenarios
    ensures s.id in ById(scenarios) && ById(scenarios)[s.id] == s && s.id in Ids(scenarios)
  {
    var i :| 0 <= i < |scenarios| && scenarios[i] == s;
    LookUpScenario(scenarios, i);
    assert Ids(scenarios)[i] == s.id;
  }

  lemma {:induction false} LookedUpScenario(scenarios: seq<Scenario>, id: string)
    requires id in ById(scenarios)
    ensures ById(scenarios)[id] in scenarios && ById(scenarios)[id].id == id
  {
    var front := scenarios[..|scenarios| - 1];
    if id != scenarios[|scenarios| - 1].id { LookedUpScenario(front, id); }
  }

  lemma SharedScenarioIsReported(base: seq<Scenario>, head: seq<Scenario>, c: Change)
    requires NoRepeats(Ids(base)) && NoRepeats(Ids(head))
    ensures c in InOrder(Ids(base), SharedScenarios(ById(base), ById(head))) <==>
              && c.path.Item? && c.path.section == Scenarios
              && exists s, t :: s in base && t in head && s.id == t.id == c.path.id && ScenarioDiffers(c, c.path.field, s, t)
  {
    var b, h := ById(base), ById(head);
    OrderedChanges(Ids(base), SharedScenarios(b, h), c);
    forall id | id in b && id in h
      ensures b[id] in base && h[id] in head && b[id].id == h[id].id == id
      ensures c in Of(id, SharedScenarios(b, h)) <==>
                c.path.Item? && c.path.section == Scenarios && c.path.id == id && ScenarioDiffers(c, c.path.field, b[id], h[id])
    {
      LookedUpScenario(base, id);
      LookedUpScenario(head, id);
      FieldsAreReported(id, b[id], h[id], c);
    }
    forall s | s in base ensures s.id in b && b[s.id] == s && s.id in Ids(base) { ScenarioLookedUp(base, s); }
    forall t | t in head ensures t.id in h && h[t.id] == t { ScenarioLookedUp(head, t); }
  }

  lemma ScenarioIsReported(base: seq<Scenario>, head: seq<Scenario>, c: Change)
    requires NoRepeats(Ids(base)) && NoRepeats(Ids(head))
    ensures c in ScenarioChanges(base, head) <==> ScenariosDiffer(base, head, c)
  {
    KeysAreReported(Scenarios, "spec.scenarios", Ids(base), Ids(head), ExecutionDefinitionChange, ExecutionDefinitionChange, c);
    SharedScenarioIsReported(base, head, c);
  }

  lemma ArtifactLookedUp(artifacts: seq<Artifact>, s: Artifact)
    requires NoRepeats(Paths(artifacts)) && s in artifacts
    ensures s.path in ByPath(artifacts) && ByPath(artifacts)[s.path] == s && s.path in Paths(artifacts)
  {
    var i :| 0 <= i < |artifacts| && artifacts[i] == s;
    LookUpArtifact(artifacts, i);
    assert Paths(artifacts)[i] == s.path;
  }

  lemma {:induction false} LookedUpArtifact(artifacts: seq<Artifact>, p: string)
    requires p in ByPath(artifacts)
    ensures ByPath(artifacts)[p] in artifacts && ByPath(artifacts)[p].path == p
  {
    var front := artifacts[..|artifacts| - 1];
    if p != artifacts[|artifacts| - 1].path { LookedUpArtifact(front, p); }
  }

  lemma SharedArtifactIsReported(base: seq<Artifact>, head: seq<Artifact>, c: Change)
    requires NoRepeats(Paths(base)) && NoRepeats(Paths(head))
    ensures c in InOrder(Paths(base), SharedArtifacts(ByPath(base), ByPath(head))) <==>
              && c.path.Item? && c.path.section == Artifacts && c.path.field == "maxBytes"
              && exists s, t :: s in base && t in head && s.path == t.path == c.path.id
                                && NumberDiffers(c, s.maxBytes, t.maxBytes, ObservationStrengthened, ObservationWeakened)
  {
    var b, h := ByPath(base), ByPath(head);
    OrderedChanges(Paths(base), SharedArtifacts(b, h), c);
    forall p | p in b && p in h
      ensures b[p] in base && h[p] in head && b[p].path == h[p].path == p
      ensures c in Of(p, SharedArtifacts(b, h)) <==>
                c.path == Item(Artifacts, p, "maxBytes") && NumberDiffers(c, b[p].maxBytes, h[p].maxBytes, ObservationStrengthened, ObservationWeakened)
    {
      LookedUpArtifact(base, p);
      LookedUpArtifact(head, p);
      NumberIsReported(Item(Artifacts, p, "maxBytes"), b[p].maxBytes, h[p].maxBytes, ObservationStrengthened, ObservationWeakened, c);
    }
    forall s | s in base ensures s.path in b && b[s.path] == s && s.path in Paths(base) { ArtifactLookedUp(base, s); }
    forall t | t in head ensures t.path in h && h[t.path] == t { ArtifactLookedUp(head, t); }
  }

  lemma ArtifactIsReported(base: seq<Artifact>, head: seq<Artifact>, c: Change)
    requires NoRepeats(Paths(base)) && NoRepeats(Paths(head))
    ensures c in ArtifactChanges(base, head) <==> ArtifactsDiffer(base, head, c)
  {
    KeysAreReported(Artifacts, "spec.collect.artifacts", Paths(base), Paths(head), ObservationWeakened, ObservationStrengthened, c);
    SharedArtifactIsReported(base, head, c);
  }

  lemma CollectIsReported(b: Pipeline, h: Pipeline, c: Change)
    requires Validated(b) && Validated(h)
    ensures c in CollectChanges(b, h) <==> CollectDiffers(b, h, c)
  {
    ListIsReported("spec.collect.filesystem.roots", b.roots, h.roots, ObservationStrengthened, ObservationWeakened, c);
    TextIsReported(Field("spec.collect.filesystem.contents"), b.contents, h.contents, ContentsEffect(b.contents, h.contents), c);
    ArtifactIsReported(b.artifacts, h.artifacts, c);
    NumberIsReported(Field("spec.collect.logs.maxBytesPerStream"), b.logBytes, h.logBytes, ObservationStrengthened, ObservationWeakened, c);
  }

  lemma CompareIsReported(b: Pipeline, h: Pipeline, c: Change)
    ensures c in CompareChanges(b, h) <==> CompareDiffers(b, h, c)
  {
    KeysAreReported(IgnoreFields, "spec.compare.ignore", b.ignore, h.ignore, ObservationStrengthened, ObservationWeakened, c);
    NumberIsReported(Field("spec.compare.repetitions"), b.repetitions, h.repetitions, ObservationStrengthened, ObservationWeakened, c);
    TextIsReported(Field("spec.policy.profile"), b.policy, h.policy, PolicyChange, c);
  }

  /** The report holds exactly the changes that there are: a change for each field, place, key and item
      that differs, with its path, its two values and the effect of its direction, and nothing else. */
  lemma ExactlyTheDifferencesAreReported(b: Pipeline, h: Pipeline, c: Change)
    requires Validated(b) && Validated(h)
    ensures c in PipelineChanges(b, h) <==> Differs(b, h, c)
  {
    HeaderIsReported(b, h, c);
    ResourceIsReported(b.resources, h.resources, c);
    NetworkIsReported(b, h, c);
    ScenarioIsReported(b.scenarios, h.scenarios, c);
    CollectIsReported(b, h, c);
    CompareIsReported(b, h, c);
  }

  // ---------------------------------------------------------------- no path twice

  ghost predicate Once(cs: seq<Change>) { forall i, j | 0 <= i < j < |cs| :: cs[i].path != cs[j].path }

  ghost predicate Apart(x: seq<Change>, y: seq<Change>) { forall c, d | c in x && d in y :: c.path != d.path }

  lemma OnceTogether(x: seq<Change>, y: seq<Change>)
    requires Once(x) && Once(y) && Apart(x, y)
    ensures Once(x + y)
  {
    forall i, j | 0 <= i < j < |x + y| ensures (x + y)[i].path != (x + y)[j].path {
      if i < |x| <= j { assert x[i] in x && y[j - |x|] in y; }
    }
  }

  /** What a field's name begins with tells its section; "spec." and "metadata." are passed over. */
  function ClassOf(name: string): nat {
    if |name| <= 7 then 0
    else if name[5] == 'a' || name[5] == 'e' then 1
    else if name[5] == 'r' then 2
    else if name[5] == 'n' then 3
    else if name[5] == 's' then 4
    else if name[5] == 'c' && name[7] == 'l' then 5
    else 6
  }

  function Class(p: Path): nat {
    match p
    case Field(name) => ClassOf(name)
    case At(name, _) => ClassOf(name)
    case Item(section, _, _) => if section.Scenarios? then 4 else if section.Artifacts? then 5 else 6
  }

  ghost predicate OfClass(cs: seq<Change>, n: nat) { forall c | c in cs :: Class(c.path) == n }

  ghost predicate ClassBelow(cs: seq<Change>, n: nat) { forall c | c in cs :: Class(c.path) < n }

  lemma NextSection(x: seq<Change>, y: seq<Change>, n: nat)
    requires Once(x) && Once(y) && ClassBelow(x, n) && OfClass(y, n)
    ensures Once(x + y) && ClassBelow(x + y, n + 1)
  {
    OnceTogether(x, y);
  }

  lemma HeaderOnce(b: Pipeline, h: Pipeline)
    ensures Once(HeaderChanges(b, h)) && OfClass(HeaderChanges(b, h), 1)
  {
    forall c | c in HeaderChanges(b, h) ensures Class(c.path) == 1 { HeaderIsReported(b, h, c); }
    assert |"metadata.name"| < |"spec.environment.image"| < |"spec.environment.workdir"| < |"spec.environment.imageDigest"|;
  }

  lemma ResourceClasses()
    ensures ClassOf("spec.resources.cpu") == ClassOf("spec.resources.memoryBytes") == ClassOf("spec.resources.diskBytes") == 2
    ensures ClassOf("spec.resources.processCount") == ClassOf("spec.resources.timeoutMillis") == 2
  {
  }

  lemma ResourceClass(b: Resources, h: Resources)
    ensures OfClass(ResourceChanges(b, h), 2)
  {
    ResourceClasses();
  }

  lemma ResourcesOnce(b: Resources, h: Resources)
    ensures Once(ResourceChanges(b, h)) && OfClass(ResourceChanges(b, h), 2)
  {
    ResourceClass(b, h);
    assert |"spec.resources.cpu"| < |"spec.resources.diskBytes"| < |"spec.resources.memoryBytes"| < |"spec.resources.processCount"|
         < |"spec.resources.timeoutMillis"|;
  }

  lemma {:induction false} ModifiedOnce(name: string, base: seq<string>, head: seq<string>, n: nat)
    requires n <= |base| && n <= |head|
    ensures Once(ModifiedAt(name, base, head, n))
  {
    if n > 0 {
      ModifiedOnce(name, base, head, n - 1);
      forall c ensures c in ModifiedAt(name, base, head, n - 1) ==> c.path.At? && c.path.index < n - 1 {
        ModifiedPlaces(name, base, head, n - 1, c);
      }
      if base[n - 1] != head[n - 1] {
        OnceTogether(ModifiedAt(name, base, head, n - 1), [Change(At(name, n - 1), Modified, UnknownEffect, NoValue, NoValue)]);
      }
    }
  }

  lemma {:induction false} BeyondOnce(name: string, from: nat, n: nat, kind: Kind, effect: Effect)
    requires from <= n
    ensures Once(Beyond(name, from, n, kind, effect))
    decreases n
  {
    if from < n {
      BeyondOnce(name, from, n - 1, kind, effect);
      forall c ensures c in Beyond(name, from, n - 1, kind, effect) ==> c.path.At? && c.path.index < n - 1 {
        PlacesBeyond(name, from, n - 1, kind, effect, c);
      }
      OnceTogether(Beyond(name, from, n - 1, kind, effect), [Change(At(name, n - 1), kind, effect, NoValue, NoValue)]);
    }
  }

  lemma ListOnce(name: string, base: seq<string>, head: seq<string>, added: Effect, removed: Effect)
    ensures Once(ListChanges(name, base, head, added, removed))
    ensures forall c | c in ListChanges(name, base, head, added, removed) :: c.path == Field(name) || (c.path.At? && c.path.name == name)
  {
    var m := MinLength(base, head);
    var x, y, z := ModifiedAt(name, base, head, m), Beyond(name, m, |base|, Removed, removed), Beyond(name, m, |head|, Added, added);
    ModifiedOnce(name, base, head, m);
    BeyondOnce(name, m, |base|, Removed, removed);
    BeyondOnce(name, m, |head|, Added, added);
    forall c
      ensures c in x ==> c.path.At? && c.path.index < m
      ensures (c in y || c in z) ==> c.path.At? && m <= c.path.index
    {
      ModifiedPlaces(name, base, head, m, c);
      PlacesBeyond(name, m, |base|, Removed, removed, c);
      PlacesBeyond(name, m, |head|, Added, added, c);
    }
    OnceTogether(x, y);
    assert y == [] || z == [];
    OnceTogether(x + y, z);
    forall c | c in ListChanges(name, base, head, added, removed) ensures c.path == Field(name) || (c.path.At? && c.path.name == name) {
      ListIsReported(name, base, head, added, removed, c);
    }
  }

  lemma NetworkOnce(b: Pipeline, h: Pipeline)
    ensures Once(NetworkChanges(b, h)) && OfClass(NetworkChanges(b, h), 3)
  {
    ListOnce("spec.network.allow", b.networkAllow, h.networkAllow, PrivilegeIncrease, PrivilegeDecrease);
    assert |"spec.network.mode"| < |"spec.network.allow"|;
    OnceTogether(StringChange(Field("spec.network.mode"), b.networkMode, h.networkMode, NetworkEffect(b.networkMode, h.networkMode)),
                 ListChanges("spec.network.allow", b.networkAllow, h.networkAllow, PrivilegeIncrease, PrivilegeDecrease));
  }

  lemma {:induction false} GoneOnce(section: Section, own: seq<string>, other: seq<string>, kind: Kind, effect: Effect)
    requires NoRepeats(own)
    ensures Once(Gone(section, own, other, kind, effect))
  {
    if own != [] {
      var front, last := own[..|own| - 1], own[|own| - 1];
      GoneOnce(section, front, other, kind, effect);
      forall c ensures c in Gone(section, front, other, kind, effect) ==> c.path.Item? && c.path.id in front {
        GoneIsReported(section, front, other, kind, effect, c);
      }
      if last !in other {
        OnceTogether(Gone(section, front, other, kind, effect), [Change(Item(section, last, ""), kind, effect, NoValue, NoValue)]);
      }
    }
  }

  lemma KeysOnce(section: Section, name: string, base: seq<string>, head: seq<string>, removed: Effect, added: Effect)
    requires NoRepeats(base) && NoRepeats(head)
    ensures Once(KeyChanges(section, name, base, head, removed, added))
    ensures forall c | c in KeyChanges(section, name, base, head, removed, added) ::
              c.path == Field(name) || (c.path.Item? && c.path.section == section && c.path.field == "")
  {
    var x, y, z := Gone(section, base, head, Removed, removed), Gone(section, head, base, Added, added), Reorder(name, base, head);
    GoneOnce(section, base, head, Removed, removed);
    GoneOnce(section, head, base, Added, added);
    forall c
      ensures c in x ==> c.path.Item? && c.path.id !in head
      ensures c in y ==> c.path.Item? && c.path.id in head
    {
      GoneIsReported(section, base, head, Removed, removed, c);
      GoneIsReported(section, head, base, Added, added, c);
    }
    OnceTogether(x, y);
    OnceTogether(x + y, z);
    forall c | c in KeyChanges(section, name, base, head, removed, added)
      ensures c.path == Field(name) || (c.path.Item? && c.path.section == section && c.path.field == "")
    {
      KeysAreReported(section, name, base, head, removed, added, c);
    }
  }

  /** Each item's changes are at its own paths, each once. */
  ghost predicate ItemsOnce(section: Section, changes: map<string, seq<Change>>) {
    forall id | id in changes ::
      Once(changes[id]) && forall c | c in changes[id] :: c.path.Item? && c.path.section == section && c.path.id == id && c.path.field != ""
  }

  lemma {:induction false} InOrderOnce(section: Section, ids: seq<string>, changes: map<string, seq<Change>>)
    requires NoRepeats(ids) && ItemsOnce(section, changes)
    ensures Once(InOrder(ids, changes))
    ensures forall c | c in InOrder(ids, changes) :: c.path.Item? && c.path.section == section && c.path.field != "" && c.path.id in ids
  {
    if ids != [] {
      var front, last := ids[..|ids| - 1], ids[|ids| - 1];
      InOrderOnce(section, front, changes);
      OnceTogether(InOrder(front, changes), Of(last, changes));
    }
  }

  lemma ScenarioFieldsOnce(id: string, s: Scenario, t: Scenario)
    ensures Once(ScenarioFields(id, s, t))
    ensures forall c | c in ScenarioFields(id, s, t) :: c.path.Item? && c.path.section == Scenarios && c.path.id == id && c.path.field != ""
  {
    assert |"run"| < |"name"| < |"shell"| < |"timeoutMillis"|;
  }

  lemma ScenariosOnce(base: seq<Scenario>, head: seq<Scenario>)
    requires NoRepeats(Ids(base)) && NoRepeats(Ids(head))
    ensures Once(ScenarioChanges(base, head)) && OfClass(ScenarioChanges(base, head), 4)
  {
    var shared := SharedScenarios(ById(base), ById(head));
    KeysOnce(Scenarios, "spec.scenarios", Ids(base), Ids(head), ExecutionDefinitionChange, ExecutionDefinitionChange);
    forall id | id in shared { ScenarioFieldsOnce(id, ById(base)[id], ById(head)[id]); }
    InOrderOnce(Scenarios, Ids(base), shared);
    OnceTogether(KeyChanges(Scenarios, "spec.scenarios", Ids(base), Ids(head), ExecutionDefinitionChange, ExecutionDefinitionChange),
                 InOrder(Ids(base), shared));
  }

  lemma ArtifactsOnce(base: seq<Artifact>, head: seq<Artifact>)
    requires NoRepeats(Paths(base)) && NoRepeats(Paths(head))
    ensures Once(ArtifactChanges(base, head))
    ensures forall c | c in ArtifactChanges(base, head) :: c.path == Field("spec.collect.artifacts") || (c.path.Item? && c.path.section == Artifacts)
  {
    var shared := SharedArtifacts(ByPath(base), ByPath(head));
    KeysOnce(Artifacts, "spec.collect.artifacts", Paths(base), Paths(head), ObservationWeakened, ObservationStrengthened);
    InOrderOnce(Artifacts, Paths(base), shared);
    OnceTogether(KeyChanges(Artifacts, "spec.collect.artifacts", Paths(base), Paths(head), ObservationWeakened, ObservationStrengthened),
                 InOrder(Paths(base), shared));
  }

  lemma CollectNamesDiffer()
    ensures "spec.collect.artifacts" != "spec.collect.filesystem.roots"
    ensures "spec.collect.filesystem.roots" != "spec.collect.filesystem.contents"
    ensures "spec.collect.artifacts" != "spec.collect.filesystem.contents"
    ensures "spec.collect.logs.maxBytesPerStream" != "spec.collect.artifacts"
    ensures "spec.collect.logs.maxBytesPerStream" != "spec.collect.filesystem.roots"
    ensures "spec.collect.logs.maxBytesPerStream" != "spec.collect.filesystem.contents"
  {
    assert |"spec.collect.artifacts"| < |"spec.collect.filesystem.roots"| < |"spec.collect.filesystem.contents"|
         < |"spec.collect.logs.maxBytesPerStream"|;
  }

  lemma FourOnce(w: seq<Change>, x: seq<Change>, y: seq<Change>, z: seq<Change>)
    requires Once(w) && Once(x) && Once(y) && Once(z)
    requires Apart(w, x) && Apart(w, y) && Apart(x, y) && Apart(w, z) && Apart(x, z) && Apart(y, z)
    ensures Once(w + x + y + z)
  {
    OnceTogether(w, x);
    OnceTogether(w + x, y);
    OnceTogether(w + x + y, z);
  }

  lemma CollectClasses()
    ensures ClassOf("spec.collect.artifacts") == ClassOf("spec.collect.filesystem.roots") == 5
    ensures ClassOf("spec.collect.filesystem.contents") == ClassOf("spec.collect.logs.maxBytesPerStream") == 5
  {
  }

  lemma CollectClass(b: Pipeline, h: Pipeline)
    requires Validated(b) && Validated(h)
    ensures OfClass(CollectChanges(b, h), 5)
  {
    CollectClasses();
    ListOnce("spec.collect.filesystem.roots", b.roots, h.roots, ObservationStrengthened, ObservationWeakened);
    ArtifactsOnce(b.artifacts, h.artifacts);
  }

  lemma CollectOnce(b: Pipeline, h: Pipeline)
    requires Validated(b) && Validated(h)
    ensures Once(CollectChanges(b, h))
  {
    ListOnce("spec.collect.filesystem.roots", b.roots, h.roots, ObservationStrengthened, ObservationWeakened);
    ArtifactsOnce(b.artifacts, h.artifacts);
    CollectNamesDiffer();
    FourOnce(RootChanges(b, h), ContentChanges(b, h), ArtifactChanges(b.artifacts, h.artifacts), LogChanges(b, h));
  }

  lemma CompareClasses()
    ensures ClassOf("spec.compare.ignore") == ClassOf("spec.policy.profile") == ClassOf("spec.compare.repetitions") == 6
  {
  }

  lemma CompareClass(b: Pipeline, h: Pipeline)
    requires Validated(b) && Validated(h)
    ensures OfClass(CompareChanges(b, h), 6)
  {
    CompareClasses();
    KeysOnce(IgnoreFields, "spec.compare.ignore", b.ignore, h.ignore, ObservationStrengthened, ObservationWeakened);
  }

  lemma CompareNamesDiffer()
    ensures "spec.compare.ignore" != "spec.policy.profile" && "spec.policy.profile" != "spec.compare.repetitions"
    ensures "spec.compare.ignore" != "spec.compare.repetitions"
  {
    assert |"spec.compare.ignore"| == |"spec.policy.profile"| < |"spec.compare.repetitions"| && "spec.compare.ignore"[5] != "spec.policy.profile"[5];
  }

  lemma CompareOnce(b: Pipeline, h: Pipeline)
    requires Validated(b) && Validated(h)
    ensures Once(CompareChanges(b, h))
  {
    KeysOnce(IgnoreFields, "spec.compare.ignore", b.ignore, h.ignore, ObservationStrengthened, ObservationWeakened);
    CompareNamesDiffer();
    var x := IgnoreChanges(b.ignore, h.ignore);
    var y := Observation("spec.compare.repetitions", b.repetitions, h.repetitions);
    var z := StringChange(Field("spec.policy.profile"), b.policy, h.policy, PolicyChange);
    OnceTogether(x, y);
    OnceTogether(x + y, z);
  }

  /** No path is reported twice. */
  lemma EveryPathIsReportedOnce(b: Pipeline, h: Pipeline, i: nat, j: nat)
    requires Validated(b) && Validated(h) && i < j < |PipelineChanges(b, h)|
    ensures PipelineChanges(b, h)[i].path != PipelineChanges(b, h)[j].path
  {
    var u, v, w, x := HeaderChanges(b, h), ResourceChanges(b.resources, h.resources), NetworkChanges(b, h), ScenarioChanges(b.scenarios, h.scenarios);
    HeaderOnce(b, h);
    ResourcesOnce(b.resources, h.resources);
    NetworkOnce(b, h);
    ScenariosOnce(b.scenarios, h.scenarios);
    CollectOnce(b, h);
    CollectClass(b, h);
    CompareOnce(b, h);
    CompareClass(b, h);
    NextSection(u, v, 2);
    NextSection(u + v, w, 3);
    NextSection(u + v + w, x, 4);
    NextSection(u + v + w + x, CollectChanges(b, h), 5);
    NextSection(u + v + w + x + CollectChanges(b, h), CompareChanges(b, h), 6);
    assert Once(PipelineChanges(b, h));
  }
}

/** The change analysis of two validated pipelines. The changes are a function of the two pipelines;
    the class below appends them one by one, as the source does. */
module PipelineChange {

  datatype Kind = Added | Removed | Modified | Reordered

  datatype Effect = PrivilegeIncrease | PrivilegeDecrease | ExecutionDefinitionChange | ObservationWeakened
                  | ObservationStrengthened | PolicyChange | Informational | UnknownEffect

  datatype Section = Scenarios | Artifacts | IgnoreFields

  /** Where a change is: a field, a place in a list, or an item of a section and a field of it. */
  datatype Path = Field(name: string) | At(name: string, index: nat) | Item(section: Section, id: string, field: string)

  /** A run script is shown by digest and length; a digest stands for what it is taken of. */
  datatype Value = NoValue | Text(text: string) | Number(n: int) | RunDigest(run: string, bytes: nat)

  datatype Change = Change(path: Path, kind: Kind, effect: Effect, before: Value, after: Value)

  datatype Scenario = Scenario(id: string, name: string, shell: string, run: string, timeout: int)

  datatype Artifact = Artifact(path: string, maxBytes: int)

  datatype Resources = Resources(cpu: int, memory: int, disk: int, processes: int, timeout: int)

  datatype Pipeline = Pipeline(name: string, image: string, imageDigest: string, workdir: string, resources: Resources,
                               networkMode: string, networkAllow: seq<string>, scenarios: seq<Scenario>, roots: seq<string>,
                               contents: string, artifacts: seq<Artifact>, logBytes: int, ignore: seq<string>, repetitions: int,
                               policy: string)

  // ---------------------------------------------------------------- single fields

  function StringChange(path: Path, before: string, after: string, effect: Effect): seq<Change> {
    if before == after then [] else [Change(path, Modified, effect, Text(before), Text(after))]
  }

  function IntChange(path: Path, before: int, after: int, increase: Effect, decrease: Effect): seq<Change> {
    if before == after then []
    else [Change(path, Modified, if after > before then increase else decrease, Number(before), Number(after))]
  }

  function RunChange(path: Path, before: string, after: string): seq<Change> {
    if before == after then []
    else [Change(path, Modified, ExecutionDefinitionChange, RunDigest(before, |before|), RunDigest(after, |after|))]
  }

  function DirectionalEffect(strict: string, before: string, after: string, loosened: Effect, tightened: Effect): Effect {
    if before == after then Informational
    else if before == strict && after != strict then loosened
    else if before != strict && after == strict then tightened
    else UnknownEffect
  }

  const DENY := "deny"
  const METADATA := "metadata-and-digests"

  function NetworkEffect(before: string, after: string): Effect {
    DirectionalEffect(DENY, before, after, PrivilegeIncrease, PrivilegeDecrease)
  }

  function ContentsEffect(before: string, after: string): Effect {
    DirectionalEffect(METADATA, before, after, ObservationWeakened, ObservationStrengthened)
  }

  // ---------------------------------------------------------------- lists

  function Reorder(name: string, base: seq<string>, head: seq<string>): seq<Change> {
    if multiset(base) == multiset(head) && base != head then [Change(Field(name), Reordered, Informational, NoValue, NoValue)] else []
  }

  function MinLength(base: seq<string>, head: seq<string>): nat { if |head| < |base| then |head| else |base| }

  function ModifiedAt(name: string, base: seq<string>, head: seq<string>, n: nat): seq<Change>
    requires n <= |base| && n <= |head|
  {
    if n == 0 then []
    else
      ModifiedAt(name, base, head, n - 1)
      + if base[n - 1] != head[n - 1] then [Change(At(name, n - 1), Modified, UnknownEffect, NoValue, NoValue)] else []
  }

  function Beyond(name: string, from: nat, n: nat, kind: Kind, effect: Effect): seq<Change>
    requires from <= n
  {
    if from == n then [] else Beyond(name, from, n - 1, kind, effect) + [Change(At(name, n - 1), kind, effect, NoValue, NoValue)]
  }

  function ListChanges(name: string, base: seq<string>, head: seq<string>, added: Effect, removed: Effect): seq<Change> {
    if Reorder(name, base, head) != [] then Reorder(name, base, head)
    else
      var m := MinLength(base, head);
      ModifiedAt(name, base, head, m) + Beyond(name, m, |base|, Removed, removed) + Beyond(name, m, |head|, Added, added)
  }

  /** The items of one list that the other does not have. */
  function Gone(section: Section, own: seq<string>, other: seq<string>, kind: Kind, effect: Effect): seq<Change> {
    if own == [] then []
    else
      var id := own[|own| - 1];
      Gone(section, own[..|own| - 1], other, kind, effect)
      + if id in other then [] else [Change(Item(section, id, ""), kind, effect, NoValue, NoValue)]
  }

  /** What is gone, what is new, and whether the same keys come in another order. */
  function KeyChanges(section: Section, name: string, base: seq<string>, head: seq<string>, removed: Effect, added: Effect): seq<Change> {
    Gone(section, base, head, Removed, removed) + Gone(section, head, base, Added, added) + Reorder(name, base, head)
  }

  function Ids(scenarios: seq<Scenario>): seq<string> { seq(|scenarios|, i requires 0 <= i < |scenarios| => scenarios[i].id) }

  function Paths(artifacts: seq<Artifact>): seq<string> { seq(|artifacts|, i requires 0 <= i < |artifacts| => artifacts[i].path) }

  function ById(scenarios: seq<Scenario>): map<string, Scenario> {
    if scenarios == [] then map[]
    else ById(scenarios[..|scenarios| - 1])[scenarios[|scenarios| - 1].id := scenarios[|scenarios| - 1]]
  }

  function ByPath(artifacts: seq<Artifact>): map<string, Artifact> {
    if artifacts == [] then map[]
    else ByPath(artifacts[..|artifacts| - 1])[artifacts[|artifacts| - 1].path := artifacts[|artifacts| - 1]]
  }

  function ScenarioFields(id: string, b: Scenario, h: Scenario): seq<Change> {
    StringChange(Item(Scenarios, id, "name"), b.name, h.name, Informational)
    + StringChange(Item(Scenarios, id, "shell"), b.shell, h.shell, ExecutionDefinitionChange)
    + RunChange(Item(Scenarios, id, "run"), b.run, h.run)
    + IntChange(Item(Scenarios, id, "timeoutMillis"), b.timeout, h.timeout, PrivilegeIncrease, PrivilegeDecrease)
  }

  /** The changes of each item that both sides have. */
  function SharedScenarios(b: map<string, Scenario>, h: map<string, Scenario>): map<string, seq<Change>> {
    map id | id in b && id in h :: ScenarioFields(id, b[id], h[id])
  }

  function Of(id: string, changes: map<string, seq<Change>>): seq<Change> { if id in changes then changes[id] else [] }

  /** The items' changes in the order of the keys. */
  function InOrder(ids: seq<string>, changes: map<string, seq<Change>>): seq<Change> {
    if ids == [] then [] else InOrder(ids[..|ids| - 1], changes) + Of(ids[|ids| - 1], changes)
  }

  function ScenarioChanges(base: seq<Scenario>, head: seq<Scenario>): seq<Change> {
    KeyChanges(Scenarios, "spec.scenarios", Ids(base), Ids(head), ExecutionDefinitionChange, ExecutionDefinitionChange)
    + InOrder(Ids(base), SharedScenarios(ById(base), ById(head)))
  }

  function SharedArtifacts(b: map<string, Artifact>, h: map<string, Artifact>): map<string, seq<Change>> {
    map p | p in b && p in h ::
      IntChange(Item(Artifacts, p, "maxBytes"), b[p].maxBytes, h[p].maxBytes, ObservationStrengthened, ObservationWeakened)
  }

  function ArtifactChanges(base: seq<Artifact>, head: seq<Artifact>): seq<Change> {
    KeyChanges(Artifacts, "spec.collect.artifacts", Paths(base), Paths(head), ObservationWeakened, ObservationStrengthened)
    + InOrder(Paths(base), SharedArtifacts(ByPath(base), ByPath(head)))
  }

  function IgnoreChanges(base: seq<string>, head: seq<string>): seq<Change> {
    KeyChanges(IgnoreFields, "spec.compare.ignore", base, head, ObservationStrengthened, ObservationWeakened)
  }

  // ---------------------------------------------------------------- the whole pipeline

  function HeaderChanges(b: Pipeline, h: Pipeline): seq<Change> {
    StringChange(Field("metadata.name"), b.name, h.name, Informational)
    + StringChange(Field("spec.environment.image"), b.image, h.image, ExecutionDefinitionChange)
    + StringChange(Field("spec.environment.imageDigest"), b.imageDigest, h.imageDigest, ExecutionDefinitionChange)
    + StringChange(Field("spec.environment.workdir"), b.workdir, h.workdir, ExecutionDefinitionChange)
  }

  function Privilege(name: string, before: int, after: int): seq<Change> {
    IntChange(Field(name), before, after, PrivilegeIncrease, PrivilegeDecrease)
  }

  function Observation(name: string, before: int, after: int): seq<Change> {
    IntChange(Field(name), before, after, ObservationStrengthened, ObservationWeakened)
  }

  function ResourceChanges(b: Resources, h: Resources): seq<Change> {
    Privilege("spec.resources.cpu", b.cpu, h.cpu) + Privilege("spec.resources.memoryBytes", b.memory, h.memory)
    + Privilege("spec.resources.diskBytes", b.disk, h.disk) + Privilege("spec.resources.processCount", b.processes, h.processes)
    + Privilege("spec.resources.timeoutMillis", b.timeout, h.timeout)
  }

  function NetworkChanges(b: Pipeline, h: Pipeline): seq<Change> {
    StringChange(Field("spec.network.mode"), b.networkMode, h.networkMode, NetworkEffect(b.networkMode, h.networkMode))
    + ListChanges("spec.network.allow", b.networkAllow, h.networkAllow, PrivilegeIncrease, PrivilegeDecrease)
  }

  function RootChanges(b: Pipeline, h: Pipeline): seq<Change> {
    ListChanges("spec.collect.filesystem.roots", b.roots, h.roots, ObservationStrengthened, ObservationWeakened)
  }

  function ContentChanges(b: Pipeline, h: Pipeline): seq<Change> {
    StringChange(Field("spec.collect.filesystem.contents"), b.contents, h.contents, ContentsEffect(b.contents, h.contents))
  }

  function LogChanges(b: Pipeline, h: Pipeline): seq<Change> {
    Observation("spec.collect.logs.maxBytesPerStream", b.logBytes, h.logBytes)
  }

  function CollectChanges(b: Pipeline, h: Pipeline): seq<Change> {
    RootChanges(b, h) + ContentChanges(b, h) + ArtifactChanges(b.artifacts, h.artifacts) + LogChanges(b, h)
  }

  function CompareChanges(b: Pipeline, h: Pipeline): seq<Change> {
    IgnoreChanges(b.ignore, h.ignore) + Observation("spec.compare.repetitions", b.repetitions, h.repetitions)
    + StringChange(Field("spec.policy.profile"), b.policy, h.policy, PolicyChange)
  }

  function PipelineChanges(b: Pipeline, h: Pipeline): seq<Change> {
    HeaderChanges(b, h) + ResourceChanges(b.resources, h.resources) + NetworkChanges(b, h) + ScenarioChanges(b.scenarios, h.scenarios)
    + CollectChanges(b, h) + CompareChanges(b, h)
  }
}

/** The change analysis as it runs: every step appends to one list of changes. Each method is proved to
    append exactly what the specification says. */
module PipelineComparison {
  import opened PipelineChange

  /** Whether two lists hold the same strings equally often, by counting up and then down. */
  method SameStringSet(a: seq<string>, b: seq<string>) returns (same: bool)
    ensures same == (multiset(a) == multiset(b))
  {
    if |a| != |b| {
      assert |multiset(a)| != |multiset(b)|;
      return false;
    }
    var counts := CountUp(a);
    same := CountDown(counts, a, b);
  }

  method CountUp(a: seq<string>) returns (counts: map<string, int>)
    ensures forall s :: Count(counts, s) == multiset(a)[s]
  {
    counts := map[];
    for i := 0 to |a|
      invariant forall s :: Count(counts, s) == multiset(a[..i])[s]
    {
      assert a[..i + 1] == a[..i] + [a[i]];
      counts := counts[a[i] := Count(counts, a[i]) + 1];
    }
    assert a[..|a|] == a;
  }

  method CountDown(up: map<string, int>, ghost a: seq<string>, b: seq<string>) returns (same: bool)
    requires |a| == |b| && forall s :: Count(up, s) == multiset(a)[s]
    ensures same == (multiset(a) == multiset(b))
  {
    var counts := up;
    for i := 0 to |b|
      invariant forall s :: Count(counts, s) + multiset(b[..i])[s] == multiset(a)[s]
      invariant forall s :: Count(counts, s) >= 0
    {
      assert b[..i + 1] == b[..i] + [b[i]];
      var left := Count(counts, b[i]) - 1;
      if left < 0 {
        MoreOften(a, b, i);
        return false;
      }
      counts := counts[b[i] := left];
    }
    assert b[..|b|] == b;
    assert forall s :: multiset(b)[s] <= multiset(a)[s];
    SubsetOfOneSize(multiset(b), multiset(a));
    return true;
  }

  function Count(counts: map<string, int>, s: string): int { if s in counts then counts[s] else 0 }

  lemma MoreOften(a: seq<string>, b: seq<string>, i: nat)
    requires i < |b| && multiset(b[..i])[b[i]] >= multiset(a)[b[i]]
    ensures multiset(a) != multiset(b)
  {
    assert b == b[..i] + [b[i]] + b[i + 1..];
    assert multiset(b)[b[i]] == multiset(b[..i])[b[i]] + 1 + multiset(b[i + 1..])[b[i]];
  }

  lemma SubsetOfOneSize(x: multiset<string>, y: multiset<string>)
    requires (forall s :: x[s] <= y[s]) && |x| == |y|
    ensures x == y
  {
    assert y == x + (y - x);
  }

  lemma Appended(w: seq<Change>, x: seq<Change>, y: seq<Change>, z: seq<Change>)
    ensures w + x + y + z == w + (x + y + z)
  {
  }

  lemma AppendedFour(v: seq<Change>, w: seq<Change>, x: seq<Change>, y: seq<Change>, z: seq<Change>)
    ensures v + w + x + y + z == v + (w + x + y + z)
  {
  }

  lemma AppendedTwo(w: seq<Change>, x: seq<Change>, y: seq<Change>)
    ensures w + x + y == w + (x + y)
  {
  }

  class ChangeList {
    var changes: seq<Change>

    constructor ()
      ensures changes == []
    {
      changes := [];
    }

    method AddString(path: Path, before: string, after: string, effect: Effect)
      modifies this
      ensures changes == old(changes) + StringChange(path, before, after, effect)
    {
      if before == after {
        return;
      }
      changes := changes + [Change(path, Modified, effect, Text(before), Text(after))];
    }

    method AddInt(path: Path, before: int, after: int, increase: Effect, decrease: Effect)
      modifies this
      ensures changes == old(changes) + IntChange(path, before, after, increase, decrease)
    {
      if before == after {
        return;
      }
      var effect := decrease;
      if after > before {
        effect := increase;
      }
      changes := changes + [Change(path, Modified, effect, Number(before), Number(after))];
    }

    method AddRun(path: Path, before: string, after: string)
      modifies this
      ensures changes == old(changes) + RunChange(path, before, after)
    {
      if before == after {
        return;
      }
      changes := changes + [Change(path, Modified, ExecutionDefinitionChange, RunDigest(before, |before|), RunDigest(after, |after|))];
    }

    method AddReorder(name: string, base: seq<string>, head: seq<string>) returns (reordered: bool)
      modifies this
      ensures changes == old(changes) + Reorder(name, base, head) && reordered == (Reorder(name, base, head) != [])
    {
      var same := SameStringSet(base, head);
      reordered := same && base != head;
      if reordered {
        changes := changes + [Change(Field(name), Reordered, Informational, NoValue, NoValue)];
      }
    }

    method AddBeyond(name: string, from: nat, n: nat, kind: Kind, effect: Effect)
      requires from <= n
      modifies this
      ensures changes == old(changes) + Beyond(name, from, n, kind, effect)
    {
      for i := from to n
        invariant changes == old(changes) + Beyond(name, from, i, kind, effect)
      {
        changes := changes + [Change(At(name, i), kind, effect, NoValue, NoValue)];
      }
    }

    /** The loop over the places that both lists have. */
    method AddModified(name: string, base: seq<string>, head: seq<string>, n: nat)
      requires n <= |base| && n <= |head|
      modifies this
      ensures changes == old(changes) + ModifiedAt(name, base, head, n)
    {
      for i := 0 to n
        invariant changes == old(changes) + ModifiedAt(name, base, head, i)
      {
        if base[i] != head[i] {
          changes := changes + [Change(At(name, i), Modified, UnknownEffect, NoValue, NoValue)];
        }
      }
    }

    method CompareByPlace(name: string, base: seq<string>, head: seq<string>, minLen: nat, added: Effect, removed: Effect)
      requires minLen <= |base| && minLen <= |head|
      modifies this
      ensures changes == old(changes) + (ModifiedAt(name, base, head, minLen) + Beyond(name, minLen, |base|, Removed, removed)
                                         + Beyond(name, minLen, |head|, Added, added))
    {
      Appended(old(changes), ModifiedAt(name, base, head, minLen), Beyond(name, minLen, |base|, Removed, removed),
               Beyond(name, minLen, |head|, Added, added));
      AddModified(name, base, head, minLen);
      AddBeyond(name, minLen, |base|, Removed, removed);
      AddBeyond(name, minLen, |head|, Added, added);
    }

    method CompareStringList(name: string, base: seq<string>, head: seq<string>, added: Effect, removed: Effect)
      modifies this
      ensures changes == old(changes) + ListChanges(name, base, head, added, removed)
    {
      var minLen := |base|;
      if |head| < minLen {
        minLen := |head|;
      }
      var reordered := AddReorder(name, base, head);
      if reordered {
        return;
      }
      CompareByPlace(name, base, head, minLen, added, removed);
    }

    method AddGone(section: Section, own: seq<string>, other: set<string>, kind: Kind, effect: Effect, ghost others: seq<string>)
      requires forall id :: id in other <==> id in others
      modifies this
      ensures changes == old(changes) + Gone(section, own, others, kind, effect)
    {
      for i := 0 to |own|
        invariant changes == old(changes) + Gone(section, own[..i], others, kind, effect)
      {
        assert own[..i + 1][..i] == own[..i];
        if own[i] !in other {
          changes := changes + [Change(Item(section, own[i], ""), kind, effect, NoValue, NoValue)];
        }
      }
      assert own[..|own|] == own;
    }

    method CompareKeys(section: Section, name: string, base: seq<string>, head: seq<string>, baseKeys: set<string>, headKeys: set<string>,
                       removed: Effect, added: Effect)
      requires (forall id :: id in baseKeys <==> id in base) && forall id :: id in headKeys <==> id in head
      modifies this
      ensures changes == old(changes) + KeyChanges(section, name, base, head, removed, added)
    {
      AddGone(section, base, headKeys, Removed, removed, head);
      AddGone(section, head, baseKeys, Added, added, base);
      var _ := AddReorder(name, base, head);
      Appended(old(changes), Gone(section, base, head, Removed, removed), Gone(section, head, base, Added, added), Reorder(name, base, head));
    }

    method CompareScenarios(base: seq<Scenario>, head: seq<Scenario>)
      modifies this
      ensures changes == old(changes) + ScenarioChanges(base, head)
    {
      var baseOrder, baseByID := IndexScenarios(base);
      var headOrder, headByID := IndexScenarios(head);
      AppendedTwo(old(changes), KeyChanges(Scenarios, "spec.scenarios", baseOrder, headOrder, ExecutionDefinitionChange, ExecutionDefinitionChange),
                  InOrder(baseOrder, SharedScenarios(baseByID, headByID)));
      CompareKeys(Scenarios, "spec.scenarios", baseOrder, headOrder, baseByID.Keys, headByID.Keys, ExecutionDefinitionChange,
                  ExecutionDefinitionChange);
      CompareSharedScenarios(baseOrder, baseByID, headByID);
    }

    method CompareSharedScenarios(baseOrder: seq<string>, baseByID: map<string, Scenario>, headByID: map<string, Scenario>)
      requires forall id | id in baseOrder :: id in baseByID
      modifies this
      ensures changes == old(changes) + InOrder(baseOrder, SharedScenarios(baseByID, headByID))
    {
      ghost var shared := SharedScenarios(baseByID, headByID);
      for i := 0 to |baseOrder|
        invariant changes == old(changes) + InOrder(baseOrder[..i], shared)
      {
        assert baseOrder[..i + 1][..i] == baseOrder[..i];
        var id := baseOrder[i];
        AppendedTwo(old(changes), InOrder(baseOrder[..i], shared), Of(id, shared));
        if id in headByID {
          CompareScenario(id, baseByID[id], headByID[id]);
        }
      }
      assert baseOrder[..|baseOrder|] == baseOrder;
    }

    method CompareScenario(id: string, b: Scenario, h: Scenario)
      modifies this
      ensures changes == old(changes) + ScenarioFields(id, b, h)
    {
      AddString(Item(Scenarios, id, "name"), b.name, h.name, Informational);
      AddString(Item(Scenarios, id, "shell"), b.shell, h.shell, ExecutionDefinitionChange);
      AddRun(Item(Scenarios, id, "run"), b.run, h.run);
      AddInt(Item(Scenarios, id, "timeoutMillis"), b.timeout, h.timeout, PrivilegeIncrease, PrivilegeDecrease);
    }

    method CompareArtifacts(base: seq<Artifact>, head: seq<Artifact>)
      modifies this
      ensures changes == old(changes) + ArtifactChanges(base, head)
    {
      var baseOrder, baseByPath := IndexArtifacts(base);
      var headOrder, headByPath := IndexArtifacts(head);
      AppendedTwo(old(changes), KeyChanges(Artifacts, "spec.collect.artifacts", baseOrder, headOrder, ObservationWeakened, ObservationStrengthened),
                  InOrder(baseOrder, SharedArtifacts(baseByPath, headByPath)));
      CompareKeys(Artifacts, "spec.collect.artifacts", baseOrder, headOrder, baseByPath.Keys, headByPath.Keys, ObservationWeakened,
                  ObservationStrengthened);
      CompareSharedArtifacts(baseOrder, baseByPath, headByPath);
    }

    method CompareSharedArtifacts(baseOrder: seq<string>, baseByPath: map<string, Artifact>, headByPath: map<string, Artifact>)
      requires forall p | p in baseOrder :: p in baseByPath
      modifies this
      ensures changes == old(changes) + InOrder(baseOrder, SharedArtifacts(baseByPath, headByPath))
    {
      ghost var shared := SharedArtifacts(baseByPath, headByPath);
      for i := 0 to |baseOrder|
        invariant changes == old(changes) + InOrder(baseOrder[..i], shared)
      {
        assert baseOrder[..i + 1][..i] == baseOrder[..i];
        var p := baseOrder[i];
        AppendedTwo(old(changes), InOrder(baseOrder[..i], shared), Of(p, shared));
        if p in headByPath {
          AddInt(Item(Artifacts, p, "maxBytes"), baseByPath[p].maxBytes, headByPath[p].maxBytes, ObservationStrengthened, ObservationWeakened);
        }
      }
      assert baseOrder[..|baseOrder|] == baseOrder;
    }

    method CompareIgnoreFields(base: seq<string>, head: seq<string>)
      modifies this
      ensures changes == old(changes) + IgnoreChanges(base, head)
    {
      var baseSet := set s | s in base;
      var headSet := set s | s in head;
      CompareKeys(IgnoreFields, "spec.compare.ignore", base, head, baseSet, headSet, ObservationStrengthened, ObservationWeakened);
    }
  }

  method IndexScenarios(scenarios: seq<Scenario>) returns (order: seq<string>, byID: map<string, Scenario>)
    ensures order == Ids(scenarios) && byID == ById(scenarios) && forall id :: id in byID <==> id in order
  {
    order, byID := [], map[];
    for i := 0 to |scenarios|
      invariant order == Ids(scenarios)[..i] && byID == ById(scenarios[..i])
      invariant forall id :: id in byID <==> id in order
    {
      assert scenarios[..i + 1][..i] == scenarios[..i];
      order := order + [scenarios[i].id];
      byID := byID[scenarios[i].id := scenarios[i]];
    }
    assert scenarios[..|scenarios|] == scenarios;
  }

  method IndexArtifacts(artifacts: seq<Artifact>) returns (order: seq<string>, byPath: map<string, Artifact>)
    ensures order == Paths(artifacts) && byPath == ByPath(artifacts) && forall p :: p in byPath <==> p in order
  {
    order, byPath := [], map[];
    for i := 0 to |artifacts|
      invariant order == Paths(artifacts)[..i] && byPath == ByPath(artifacts[..i])
      invariant forall p :: p in byPath <==> p in order
    {
      assert artifacts[..i + 1][..i] == artifacts[..i];
      order := order + [artifacts[i].path];
      byPath := byPath[artifacts[i].path := artifacts[i]];
    }
    assert artifacts[..|artifacts|] == artifacts;
  }

  method ComparePipelines(b: Pipeline, h: Pipeline) returns (changes: seq<Change>)
    ensures changes == PipelineChanges(b, h)
  {
    var list := new ChangeList();
    CompareHeader(list, b, h);
    assert list.changes == HeaderChanges(b, h);
    CompareResources(list, b.resources, h.resources);
    CompareNetwork(list, b, h);
    list.CompareScenarios(b.scenarios, h.scenarios);
    CompareCollect(list, b, h);
    CompareIgnoreAndPolicy(list, b, h);
    changes := list.changes;
  }

  method CompareHeader(list: ChangeList, b: Pipeline, h: Pipeline)
    modifies list
    ensures list.changes == old(list.changes) + HeaderChanges(b, h)
  {
    list.AddString(Field("metadata.name"), b.name, h.name, Informational);
    list.AddString(Field("spec.environment.image"), b.image, h.image, ExecutionDefinitionChange);
    list.AddString(Field("spec.environment.imageDigest"), b.imageDigest, h.imageDigest, ExecutionDefinitionChange);
    list.AddString(Field("spec.environment.workdir"), b.workdir, h.workdir, ExecutionDefinitionChange);
  }

  method CompareNetwork(list: ChangeList, b: Pipeline, h: Pipeline)
    modifies list
    ensures list.changes == old(list.changes) + NetworkChanges(b, h)
  {
    list.AddString(Field("spec.network.mode"), b.networkMode, h.networkMode, NetworkEffect(b.networkMode, h.networkMode));
    list.CompareStringList("spec.network.allow", b.networkAllow, h.networkAllow, PrivilegeIncrease, PrivilegeDecrease);
  }

  method CompareResources(list: ChangeList, b: Resources, h: Resources)
    modifies list
    ensures list.changes == old(list.changes) + ResourceChanges(b, h)
  {
    list.AddInt(Field("spec.resources.cpu"), b.cpu, h.cpu, PrivilegeIncrease, PrivilegeDecrease);
    list.AddInt(Field("spec.resources.memoryBytes"), b.memory, h.memory, PrivilegeIncrease, PrivilegeDecrease);
    list.AddInt(Field("spec.resources.diskBytes"), b.disk, h.disk, PrivilegeIncrease, PrivilegeDecrease);
    list.AddInt(Field("spec.resources.processCount"), b.processes, h.processes, PrivilegeIncrease, PrivilegeDecrease);
    list.AddInt(Field("spec.resources.timeoutMillis"), b.timeout, h.timeout, PrivilegeIncrease, PrivilegeDecrease);
  }

  method CompareCollect(list: ChangeList, b: Pipeline, h: Pipeline)
    modifies list
    ensures list.changes == old(list.changes) + CollectChanges(b, h)
  {
    AppendedFour(old(list.changes), RootChanges(b, h), ContentChanges(b, h), ArtifactChanges(b.artifacts, h.artifacts), LogChanges(b, h));
    list.CompareStringList("spec.collect.filesystem.roots", b.roots, h.roots, ObservationStrengthened, ObservationWeakened);
    list.AddString(Field("spec.collect.filesystem.contents"), b.contents, h.contents, ContentsEffect(b.contents, h.contents));
    list.CompareArtifacts(b.artifacts, h.artifacts);
    list.AddInt(Field("spec.collect.logs.maxBytesPerStream"), b.logBytes, h.logBytes, ObservationStrengthened, ObservationWeakened);
  }

  method CompareIgnoreAndPolicy(list: ChangeList, b: Pipeline, h: Pipeline)
    modifies list
    ensures list.changes == old(list.changes) + CompareChanges(b, h)
  {
    list.CompareIgnoreFields(b.ignore, h.ignore);
    list.AddInt(Field("spec.compare.repetitions"), b.repetitions, h.repetitions, ObservationStrengthened, ObservationWeakened);
    list.AddString(Field("spec.policy.profile"), b.policy, h.policy, PolicyChange);
  }
}

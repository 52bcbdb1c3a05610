/** The change analysis used as a proof: no change means equal pipelines, and swapping the pipelines
    mirrors every change. Both rest on what validation establishes, that the keys of a list differ. */
module PipelineChangeLaws {
  import opened GoText
  import opened PipelineChange

  /** What validation guarantees of a pipeline that the analysis relies on. */
  ghost predicate Validated(p: Pipeline) { NoRepeats(Ids(p.scenarios)) && NoRepeats(Paths(p.artifacts)) && NoRepeats(p.ignore) }

  // ---------------------------------------------------------------- no change means equal

  lemma {:induction false} NothingGone(section: Section, own: seq<string>, other: seq<string>, kind: Kind, effect: Effect)
    ensures Gone(section, own, other, kind, effect) == [] <==> forall id | id in own :: id in other
  {
    if own != [] {
      var front := own[..|own| - 1];
      assert own == front + [own[|own| - 1]];
      NothingGone(section, front, other, kind, effect);
    }
  }

  lemma {:induction false} DistinctCounts(s: seq<string>, x: string)
    requires NoRepeats(s)
    ensures multiset(s)[x] == if x in s then 1 else 0
  {
    if s != [] {
      var front := s[..|s| - 1];
      assert s == front + [s[|s| - 1]];
      DistinctCounts(front, x);
    }
  }

  /** Two lists of distinct keys with nothing gone either way and no reordering are equal. */
  lemma SameKeysSameOrder(section: Section, name: string, base: seq<string>, head: seq<string>, removed: Effect, added: Effect)
    requires NoRepeats(base) && NoRepeats(head)
    ensures KeyChanges(section, name, base, head, removed, added) == [] <==> base == head
  {
    NothingGone(section, base, head, Removed, removed);
    NothingGone(section, head, base, Added, added);
    if (forall id | id in base :: id in head) && (forall id | id in head :: id in base) {
      forall x ensures multiset(base)[x] == multiset(head)[x] {
        DistinctCounts(base, x);
        DistinctCounts(head, x);
      }
      assert multiset(base) == multiset(head);
    }
  }

  lemma {:induction false} NothingModified(name: string, base: seq<string>, head: seq<string>, n: nat)
    requires n <= |base| && n <= |head|
    ensures ModifiedAt(name, base, head, n) == [] <==> base[..n] == head[..n]
  {
    if n > 0 {
      NothingModified(name, base, head, n - 1);
      assert base[..n] == base[..n - 1] + [base[n - 1]] && head[..n] == head[..n - 1] + [head[n - 1]];
    }
  }

  lemma NothingBeyond(name: string, from: nat, n: nat, kind: Kind, effect: Effect)
    requires from <= n
    ensures Beyond(name, from, n, kind, effect) == [] <==> from == n
  {
  }

  /** A list compared place by place needs no distinctness. */
  lemma ListsEqual(name: string, base: seq<string>, head: seq<string>, added: Effect, removed: Effect)
    ensures ListChanges(name, base, head, added, removed) == [] <==> base == head
  {
    var m := MinLength(base, head);
    NothingModified(name, base, head, m);
    NothingBeyond(name, m, |base|, Removed, removed);
    NothingBeyond(name, m, |head|, Added, added);
    assert base[..|base|] == base && head[..|head|] == head;
  }

  lemma {:induction false} LookUpScenario(scenarios: seq<Scenario>, i: nat)
    requires NoRepeats(Ids(scenarios)) && i < |scenarios|
    ensures scenarios[i].id in ById(scenarios) && ById(scenarios)[scenarios[i].id] == scenarios[i]
  {
    var front := scenarios[..|scenarios| - 1];
    assert Ids(front) == Ids(scenarios)[..|scenarios| - 1];
    if i < |front| {
      LookUpScenario(front, i);
      assert Ids(scenarios)[i] != Ids(scenarios)[|scenarios| - 1];
    }
  }

  lemma {:induction false} LookUpArtifact(artifacts: seq<Artifact>, i: nat)
    requires NoRepeats(Paths(artifacts)) && i < |artifacts|
    ensures artifacts[i].path in ByPath(artifacts) && ByPath(artifacts)[artifacts[i].path] == artifacts[i]
  {
    var front := artifacts[..|artifacts| - 1];
    assert Paths(front) == Paths(artifacts)[..|artifacts| - 1];
    if i < |front| {
      LookUpArtifact(front, i);
      assert Paths(artifacts)[i] != Paths(artifacts)[|artifacts| - 1];
    }
  }

  lemma {:induction false} NothingInOrder(ids: seq<string>, changes: map<string, seq<Change>>)
    ensures InOrder(ids, changes) == [] <==> forall id | id in ids :: Of(id, changes) == []
  {
    if ids != [] {
      var front := ids[..|ids| - 1];
      assert ids == front + [ids[|ids| - 1]];
      NothingInOrder(front, changes);
    }
  }

  lemma SameScenario(base: seq<Scenario>, head: seq<Scenario>, i: nat)
    requires NoRepeats(Ids(base)) && NoRepeats(Ids(head)) && Ids(base) == Ids(head) && i < |base| && i < |head|
    requires Of(base[i].id, SharedScenarios(ById(base), ById(head))) == []
    ensures base[i] == head[i]
  {
    LookUpScenario(base, i);
    LookUpScenario(head, i);
    assert Ids(base)[i] == Ids(head)[i];
  }

  lemma SharedWithItself(scenarios: seq<Scenario>)
    ensures forall id :: Of(id, SharedScenarios(ById(scenarios), ById(scenarios))) == []
  {
  }

  lemma ScenariosEqual(base: seq<Scenario>, head: seq<Scenario>)
    requires NoRepeats(Ids(base)) && NoRepeats(Ids(head))
    ensures ScenarioChanges(base, head) == [] <==> base == head
  {
    var shared := SharedScenarios(ById(base), ById(head));
    SameKeysSameOrder(Scenarios, "spec.scenarios", Ids(base), Ids(head), ExecutionDefinitionChange, ExecutionDefinitionChange);
    NothingInOrder(Ids(base), shared);
    SharedWithItself(base);
    if ScenarioChanges(base, head) == [] {
      assert |base| == |Ids(base)| == |Ids(head)| == |head|;
      forall i | 0 <= i < |base| ensures base[i] == head[i] {
        assert Ids(base)[i] in Ids(base);
        SameScenario(base, head, i);
      }
    }
  }

  lemma ArtifactsEqual(base: seq<Artifact>, head: seq<Artifact>)
    requires NoRepeats(Paths(base)) && NoRepeats(Paths(head))
    ensures ArtifactChanges(base, head) == [] <==> base == head
  {
    SameKeysSameOrder(Artifacts, "spec.collect.artifacts", Paths(base), Paths(head), ObservationWeakened, ObservationStrengthened);
    NothingInOrder(Paths(base), SharedArtifacts(ByPath(base), ByPath(head)));
    if ArtifactChanges(base, head) == [] {
      assert |base| == |Paths(base)| == |Paths(head)| == |head|;
      forall i | 0 <= i < |base| ensures base[i] == head[i] {
        LookUpArtifact(base, i);
        LookUpArtifact(head, i);
        assert Paths(base)[i] == Paths(head)[i] && Paths(base)[i] in Paths(base);
        assert Of(base[i].path, SharedArtifacts(ByPath(base), ByPath(head))) == [];
      }
    }
  }

  lemma HeaderEqual(b: Pipeline, h: Pipeline)
    ensures HeaderChanges(b, h) == []
            <==> b.name == h.name && b.image == h.image && b.imageDigest == h.imageDigest && b.workdir == h.workdir
  {
  }

  lemma ResourcesEqual(b: Resources, h: Resources)
    ensures ResourceChanges(b, h) == [] <==> b == h
  {
  }

  lemma NetworkEqual(b: Pipeline, h: Pipeline)
    ensures NetworkChanges(b, h) == [] <==> b.networkMode == h.networkMode && b.networkAllow == h.networkAllow
  {
    ListsEqual("spec.network.allow", b.networkAllow, h.networkAllow, PrivilegeIncrease, PrivilegeDecrease);
  }

  lemma CollectEqual(b: Pipeline, h: Pipeline)
    requires NoRepeats(Paths(b.artifacts)) && NoRepeats(Paths(h.artifacts))
    ensures CollectChanges(b, h) == []
            <==> b.roots == h.roots && b.contents == h.contents && b.artifacts == h.artifacts && b.logBytes == h.logBytes
  {
    ArtifactsEqual(b.artifacts, h.artifacts);
    ListsEqual("spec.collect.filesystem.roots", b.roots, h.roots, ObservationStrengthened, ObservationWeakened);
  }

  lemma CompareEqual(b: Pipeline, h: Pipeline)
    requires NoRepeats(b.ignore) && NoRepeats(h.ignore)
    ensures CompareChanges(b, h) == [] <==> b.ignore == h.ignore && b.repetitions == h.repetitions && b.policy == h.policy
  {
    SameKeysSameOrder(IgnoreFields, "spec.compare.ignore", b.ignore, h.ignore, ObservationStrengthened, ObservationWeakened);
  }

  /** No change is reported exactly when the two validated pipelines are equal in every field. */
  lemma NoChangeMeansEqual(b: Pipeline, h: Pipeline)
    requires Validated(b) && Validated(h)
    ensures PipelineChanges(b, h) == [] <==> b == h
  {
    HeaderEqual(b, h);
    ResourcesEqual(b.resources, h.resources);
    NetworkEqual(b, h);
    ScenariosEqual(b.scenarios, h.scenarios);
    CollectEqual(b, h);
    CompareEqual(b, h);
    AllEmpty(HeaderChanges(b, h), ResourceChanges(b.resources, h.resources), NetworkChanges(b, h),
             ScenarioChanges(b.scenarios, h.scenarios), CollectChanges(b, h), CompareChanges(b, h));
  }

  lemma AllEmpty(a: seq<Change>, b: seq<Change>, c: seq<Change>, d: seq<Change>, e: seq<Change>, f: seq<Change>)
    ensures a + b + c + d + e + f == [] <==> a == [] && b == [] && c == [] && d == [] && e == [] && f == []
  {
  }

  lemma RepeatedField(field: string)
    ensures IgnoreChanges([field], [field, field]) == [] && [field] != [field, field]
  {
    var once, twice := [field], [field, field];
    assert |once| == 1 && |multiset(once)| == 1 && |multiset(twice)| == 2;
    NothingGone(IgnoreFields, once, twice, Removed, ObservationStrengthened);
    NothingGone(IgnoreFields, twice, once, Added, ObservationWeakened);
  }

  lemma OnlyIgnoreDiffers(b: Pipeline, ignore: seq<string>)
    requires Validated(b) && IgnoreChanges(b.ignore, ignore) == []
    ensures PipelineChanges(b, b.(ignore := ignore)) == []
  {
    var h := b.(ignore := ignore);
    assert NetworkChanges(b, h) == [] by {
      ListsEqual("spec.network.allow", b.networkAllow, b.networkAllow, PrivilegeIncrease, PrivilegeDecrease);
    }
    ScenariosEqual(b.scenarios, b.scenarios);
    assert CollectChanges(b, h) == [] by {
      ArtifactsEqual(b.artifacts, b.artifacts);
      ListsEqual("spec.collect.filesystem.roots", b.roots, b.roots, ObservationStrengthened, ObservationWeakened);
    }
    assert CompareChanges(b, h) == [];
  }

  /** Without distinct keys the proof would not hold: a repeated ignore field goes unreported. */
  lemma RepeatedFieldGoesUnreported(b: Pipeline, field: string)
    requires Validated(b) && b.ignore == [field]
    ensures var h := b.(ignore := [field, field]); h != b && PipelineChanges(b, h) == []
  {
    RepeatedField(field);
    OnlyIgnoreDiffers(b, [field, field]);
    assert b.(ignore := [field, field]).ignore != b.ignore;
  }

  // ---------------------------------------------------------------- swapping mirrors

  function Turned(kind: Kind): Kind {
    match kind
    case Added => Removed
    case Removed => Added
    case _ => kind
  }

  function Opposite(effect: Effect): Effect {
    match effect
    case PrivilegeIncrease => PrivilegeDecrease
    case PrivilegeDecrease => PrivilegeIncrease
    case ObservationWeakened => ObservationStrengthened
    case ObservationStrengthened => ObservationWeakened
    case _ => effect
  }

  function Mirror(c: Change): Change { Change(c.path, Turned(c.kind), Opposite(c.effect), c.after, c.before) }

  function MirrorAll(cs: seq<Change>): seq<Change> { seq(|cs|, i requires 0 <= i < |cs| => Mirror(cs[i])) }

  /** The same changes seen from the other side, in some order. */
  ghost predicate Mirrors(x: seq<Change>, y: seq<Change>) { multiset(MirrorAll(x)) == multiset(y) }

  lemma MirrorsAdd(x: seq<Change>, x': seq<Change>, y: seq<Change>, y': seq<Change>)
    requires Mirrors(x, x') && Mirrors(y, y')
    ensures Mirrors(x + y, x' + y') && Mirrors(x + y, y' + x')
  {
    assert MirrorAll(x + y) == MirrorAll(x) + MirrorAll(y);
  }

  lemma StringMirrors(path: Path, b: string, h: string, effect: Effect, back: Effect)
    requires b != h ==> back == Opposite(effect)
    ensures Mirrors(StringChange(path, b, h, effect), StringChange(path, h, b, back))
  {
    assert MirrorAll(StringChange(path, b, h, effect)) == StringChange(path, h, b, back);
  }

  lemma IntMirrors(path: Path, b: int, h: int, increase: Effect, decrease: Effect)
    requires Opposite(increase) == decrease && Opposite(decrease) == increase
    ensures Mirrors(IntChange(path, b, h, increase, decrease), IntChange(path, h, b, increase, decrease))
  {
    assert MirrorAll(IntChange(path, b, h, increase, decrease)) == IntChange(path, h, b, increase, decrease);
  }

  lemma {:induction false} GoneMirrors(section: Section, own: seq<string>, other: seq<string>, kind: Kind, effect: Effect)
    ensures MirrorAll(Gone(section, own, other, kind, effect)) == Gone(section, own, other, Turned(kind), Opposite(effect))
  {
    if own != [] {
      GoneMirrors(section, own[..|own| - 1], other, kind, effect);
    }
  }

  lemma ReorderMirrors(name: string, b: seq<string>, h: seq<string>)
    ensures Mirrors(Reorder(name, b, h), Reorder(name, h, b))
  {
    assert MirrorAll(Reorder(name, b, h)) == Reorder(name, h, b);
  }

  lemma {:induction false} ModifiedAtMirrors(name: string, b: seq<string>, h: seq<string>, n: nat)
    requires n <= |b| && n <= |h|
    ensures MirrorAll(ModifiedAt(name, b, h, n)) == ModifiedAt(name, h, b, n)
  {
    if n > 0 {
      ModifiedAtMirrors(name, b, h, n - 1);
    }
  }

  lemma {:induction false} BeyondMirrors(name: string, from: nat, n: nat, kind: Kind, effect: Effect)
    requires from <= n
    ensures MirrorAll(Beyond(name, from, n, kind, effect)) == Beyond(name, from, n, Turned(kind), Opposite(effect))
    decreases n
  {
    if from < n {
      BeyondMirrors(name, from, n - 1, kind, effect);
    }
  }

  lemma ListMirrors(name: string, b: seq<string>, h: seq<string>, added: Effect, removed: Effect)
    requires Opposite(added) == removed && Opposite(removed) == added
    ensures Mirrors(ListChanges(name, b, h, added, removed), ListChanges(name, h, b, added, removed))
  {
    var m := MinLength(b, h);
    ReorderMirrors(name, b, h);
    ModifiedAtMirrors(name, b, h, m);
    BeyondMirrors(name, m, |b|, Removed, removed);
    BeyondMirrors(name, m, |h|, Added, added);
    if Reorder(name, b, h) == [] {
      MirrorThree(ModifiedAt(name, b, h, m), Beyond(name, m, |b|, Removed, removed), Beyond(name, m, |h|, Added, added),
                  ModifiedAt(name, h, b, m), Beyond(name, m, |h|, Removed, removed), Beyond(name, m, |b|, Added, added));
    }
  }

  /** Three parts of which the second and third change places. */
  lemma MirrorThree(x: seq<Change>, y: seq<Change>, z: seq<Change>, x': seq<Change>, y': seq<Change>, z': seq<Change>)
    requires Mirrors(x, x') && Mirrors(y, z') && Mirrors(z, y')
    ensures Mirrors(x + y + z, x' + y' + z')
  {
    MirrorsAdd(x, x', y, z');
    MirrorsAdd(x + y, x' + z', z, y');
    assert multiset(x' + z' + y') == multiset(x' + y' + z');
  }

  /** What is gone, what is new and the order, from either side. */
  lemma KeysMirror(section: Section, name: string, b: seq<string>, h: seq<string>, removed: Effect, added: Effect)
    requires Opposite(added) == removed && Opposite(removed) == added
    ensures Mirrors(KeyChanges(section, name, b, h, removed, added), KeyChanges(section, name, h, b, removed, added))
  {
    GoneMirrors(section, b, h, Removed, removed);
    GoneMirrors(section, h, b, Added, added);
    ReorderMirrors(name, b, h);
    MirrorThree([], Gone(section, b, h, Removed, removed), Gone(section, h, b, Added, added),
                [], Gone(section, h, b, Removed, removed), Gone(section, b, h, Added, added));
    MirrorsAdd([] + Gone(section, b, h, Removed, removed) + Gone(section, h, b, Added, added),
               [] + Gone(section, h, b, Removed, removed) + Gone(section, b, h, Added, added), Reorder(name, b, h), Reorder(name, h, b));
    assert [] + Gone(section, b, h, Removed, removed) == Gone(section, b, h, Removed, removed);
    assert [] + Gone(section, h, b, Removed, removed) == Gone(section, h, b, Removed, removed);
  }

  // The items that both sides have are compared in the base's order, so swapping permutes them.

  lemma {:induction false} InOrderSplits(x: seq<string>, y: seq<string>, changes: map<string, seq<Change>>)
    ensures InOrder(x + y, changes) == InOrder(x, changes) + InOrder(y, changes)
  {
    if y == [] {
      assert x + y == x;
    } else {
      var front, last := y[..|y| - 1], y[|y| - 1];
      InOrderSplits(x, front, changes);
      assert (x + y)[..|x + y| - 1] == x + front && (x + y)[|x + y| - 1] == last;
      Associate(InOrder(x, changes), InOrder(front, changes), Of(last, changes));
    }
  }

  lemma Associate(x: seq<Change>, y: seq<Change>, z: seq<Change>)
    ensures (x + y) + z == x + (y + z)
  {
  }

  lemma InOrderAround(p: seq<string>, id: string, q: seq<string>, changes: map<string, seq<Change>>)
    ensures multiset(InOrder(p + [id] + q, changes)) == multiset(InOrder(p + q, changes)) + multiset(Of(id, changes))
  {
    InOrderSplits(p, q, changes);
    InOrderSplits(p + [id], q, changes);
    assert (p + [id])[..|p|] == p;
  }

  lemma {:induction false} InOrderPermutes(x: seq<string>, y: seq<string>, changes: map<string, seq<Change>>)
    requires multiset(x) == multiset(y)
    ensures multiset(InOrder(x, changes)) == multiset(InOrder(y, changes))
  {
    assert |x| == |multiset(x)| == |multiset(y)| == |y|;
    if x != [] {
      var front, last := x[..|x| - 1], x[|x| - 1];
      var p, q := TakeOut(x, y);
      InOrderPermutes(front, p + q, changes);
      InOrderAround(p, last, q, changes);
    }
  }

  /** Where a permutation keeps the last key. */
  lemma TakeOut(x: seq<string>, y: seq<string>) returns (p: seq<string>, q: seq<string>)
    requires x != [] && multiset(x) == multiset(y)
    ensures y == p + [x[|x| - 1]] + q && multiset(p + q) == multiset(x[..|x| - 1])
  {
    LastCounts(x);
    assert x[|x| - 1] in multiset(y);
    var i :| 0 <= i < |y| && y[i] == x[|x| - 1];
    p, q := y[..i], y[i + 1..];
    assert y == p + [x[|x| - 1]] + q;
    PlaceCounts(p, x[|x| - 1], q);
  }

  lemma LastCounts(x: seq<string>)
    requires x != []
    ensures multiset(x[..|x| - 1]) == multiset(x) - multiset{x[|x| - 1]}
  {
    assert x == x[..|x| - 1] + [x[|x| - 1]];
  }

  lemma PlaceCounts(p: seq<string>, id: string, q: seq<string>)
    ensures multiset(p + q) == multiset(p + [id] + q) - multiset{id}
  {
  }

  lemma {:induction false} InOrderMirrors(ids: seq<string>, changes: map<string, seq<Change>>, back: map<string, seq<Change>>)
    requires forall id :: MirrorAll(Of(id, changes)) == Of(id, back)
    ensures MirrorAll(InOrder(ids, changes)) == InOrder(ids, back)
  {
    if ids != [] {
      var front, last := ids[..|ids| - 1], ids[|ids| - 1];
      InOrderMirrors(front, changes, back);
      assert MirrorAll(InOrder(front, changes) + Of(last, changes)) == MirrorAll(InOrder(front, changes)) + MirrorAll(Of(last, changes));
    }
  }

  /** Keys that only one side has contribute nothing, so either side's order lists the same shared items. */
  lemma {:induction false} InOrderOnly(ids: seq<string>, changes: map<string, seq<Change>>)
    ensures InOrder(ids, changes) == InOrder(Within(ids, changes.Keys), changes)
  {
    if ids != [] {
      var front, last := ids[..|ids| - 1], ids[|ids| - 1];
      InOrderOnly(front, changes);
      var within := Within(front, changes.Keys);
      if last in changes {
        assert (within + [last])[..|within|] == within;
        assert Within(ids, changes.Keys) == within + [last];
      } else {
        assert Within(ids, changes.Keys) == within;
      }
    }
  }

  function Within(ids: seq<string>, keys: set<string>): seq<string> {
    if ids == [] then [] else Within(ids[..|ids| - 1], keys) + if ids[|ids| - 1] in keys then [ids[|ids| - 1]] else []
  }

  lemma {:induction false} WithinCounts(ids: seq<string>, keys: set<string>, id: string)
    requires NoRepeats(ids)
    ensures multiset(Within(ids, keys))[id] == if id in ids && id in keys then 1 else 0
  {
    if ids != [] {
      var front := ids[..|ids| - 1];
      assert ids == front + [ids[|ids| - 1]];
      WithinCounts(front, keys, id);
    }
  }

  lemma SharedInEitherOrder(x: seq<string>, y: seq<string>, shared: map<string, seq<Change>>)
    requires NoRepeats(x) && NoRepeats(y) && forall id | id in shared :: id in x && id in y
    ensures multiset(InOrder(x, shared)) == multiset(InOrder(y, shared))
  {
    InOrderOnly(x, shared);
    InOrderOnly(y, shared);
    forall id ensures multiset(Within(x, shared.Keys))[id] == multiset(Within(y, shared.Keys))[id] {
      WithinCounts(x, shared.Keys, id);
      WithinCounts(y, shared.Keys, id);
    }
    assert multiset(Within(x, shared.Keys)) == multiset(Within(y, shared.Keys));
    InOrderPermutes(Within(x, shared.Keys), Within(y, shared.Keys), shared);
  }

  /** The shared items from either side: the same changes mirrored, in another order. */
  lemma SharedMirror(x: seq<string>, y: seq<string>, changes: map<string, seq<Change>>, back: map<string, seq<Change>>)
    requires NoRepeats(x) && NoRepeats(y) && changes.Keys == back.Keys
    requires forall id | id in changes :: id in x && id in y
    requires forall id :: MirrorAll(Of(id, changes)) == Of(id, back)
    ensures Mirrors(InOrder(x, changes), InOrder(y, back))
  {
    InOrderMirrors(x, changes, back);
    SharedInEitherOrder(x, y, back);
  }

  lemma {:induction false} IdsAreKeys(scenarios: seq<Scenario>)
    ensures forall id :: id in ById(scenarios) <==> id in Ids(scenarios)
  {
    if scenarios != [] {
      var front := scenarios[..|scenarios| - 1];
      IdsAreKeys(front);
      assert Ids(scenarios) == Ids(front) + [scenarios[|scenarios| - 1].id];
    }
  }

  lemma {:induction false} PathsAreKeys(artifacts: seq<Artifact>)
    ensures forall p :: p in ByPath(artifacts) <==> p in Paths(artifacts)
  {
    if artifacts != [] {
      var front := artifacts[..|artifacts| - 1];
      PathsAreKeys(front);
      assert Paths(artifacts) == Paths(front) + [artifacts[|artifacts| - 1].path];
    }
  }

  lemma FieldsMirror(id: string, b: Scenario, h: Scenario)
    ensures MirrorAll(ScenarioFields(id, b, h)) == ScenarioFields(id, h, b)
  {
    var n, s := Item(Scenarios, id, "name"), Item(Scenarios, id, "shell");
    var x, y := StringChange(n, b.name, h.name, Informational), StringChange(s, b.shell, h.shell, ExecutionDefinitionChange);
    var z := RunChange(Item(Scenarios, id, "run"), b.run, h.run);
    var w := IntChange(Item(Scenarios, id, "timeoutMillis"), b.timeout, h.timeout, PrivilegeIncrease, PrivilegeDecrease);
    assert MirrorAll(x + y + z + w) == MirrorAll(x) + MirrorAll(y) + MirrorAll(z) + MirrorAll(w);
  }

  lemma ScenariosMirror(base: seq<Scenario>, head: seq<Scenario>)
    requires NoRepeats(Ids(base)) && NoRepeats(Ids(head))
    ensures Mirrors(ScenarioChanges(base, head), ScenarioChanges(head, base))
  {
    var b, h := ById(base), ById(head);
    KeysMirror(Scenarios, "spec.scenarios", Ids(base), Ids(head), ExecutionDefinitionChange, ExecutionDefinitionChange);
    IdsAreKeys(base);
    IdsAreKeys(head);
    forall id ensures MirrorAll(Of(id, SharedScenarios(b, h))) == Of(id, SharedScenarios(h, b)) {
      if id in b && id in h {
        FieldsMirror(id, b[id], h[id]);
      }
    }
    SharedMirror(Ids(base), Ids(head), SharedScenarios(b, h), SharedScenarios(h, b));
    MirrorsAdd(KeyChanges(Scenarios, "spec.scenarios", Ids(base), Ids(head), ExecutionDefinitionChange, ExecutionDefinitionChange),
               KeyChanges(Scenarios, "spec.scenarios", Ids(head), Ids(base), ExecutionDefinitionChange, ExecutionDefinitionChange),
               InOrder(Ids(base), SharedScenarios(b, h)), InOrder(Ids(head), SharedScenarios(h, b)));
  }

  lemma ArtifactFieldsMirror(b: map<string, Artifact>, h: map<string, Artifact>)
    ensures forall p :: MirrorAll(Of(p, SharedArtifacts(b, h))) == Of(p, SharedArtifacts(h, b))
  {
  }

  lemma ArtifactsMirror(base: seq<Artifact>, head: seq<Artifact>)
    requires NoRepeats(Paths(base)) && NoRepeats(Paths(head))
    ensures Mirrors(ArtifactChanges(base, head), ArtifactChanges(head, base))
  {
    var b, h := ByPath(base), ByPath(head);
    KeysMirror(Artifacts, "spec.collect.artifacts", Paths(base), Paths(head), ObservationWeakened, ObservationStrengthened);
    PathsAreKeys(base);
    PathsAreKeys(head);
    ArtifactFieldsMirror(b, h);
    SharedMirror(Paths(base), Paths(head), SharedArtifacts(b, h), SharedArtifacts(h, b));
    MirrorsAdd(KeyChanges(Artifacts, "spec.collect.artifacts", Paths(base), Paths(head), ObservationWeakened, ObservationStrengthened),
               KeyChanges(Artifacts, "spec.collect.artifacts", Paths(head), Paths(base), ObservationWeakened, ObservationStrengthened),
               InOrder(Paths(base), SharedArtifacts(b, h)), InOrder(Paths(head), SharedArtifacts(h, b)));
  }

  lemma FourMirrors(a: seq<Change>, b: seq<Change>, c: seq<Change>, d: seq<Change>,
                    a': seq<Change>, b': seq<Change>, c': seq<Change>, d': seq<Change>)
    requires Mirrors(a, a') && Mirrors(b, b') && Mirrors(c, c') && Mirrors(d, d')
    ensures Mirrors(a + b + c + d, a' + b' + c' + d')
  {
    MirrorsAdd(a, a', b, b');
    MirrorsAdd(a + b, a' + b', c, c');
    MirrorsAdd(a + b + c, a' + b' + c', d, d');
  }

  function Execution(name: string, b: string, h: string): seq<Change> { StringChange(Field(name), b, h, ExecutionDefinitionChange) }

  lemma HeaderMirrors(b: Pipeline, h: Pipeline)
    ensures Mirrors(HeaderChanges(b, h), HeaderChanges(h, b))
  {
    var i, d, w := "spec.environment.image", "spec.environment.imageDigest", "spec.environment.workdir";
    StringMirrors(Field("metadata.name"), b.name, h.name, Informational, Informational);
    StringMirrors(Field(i), b.image, h.image, ExecutionDefinitionChange, ExecutionDefinitionChange);
    StringMirrors(Field(d), b.imageDigest, h.imageDigest, ExecutionDefinitionChange, ExecutionDefinitionChange);
    StringMirrors(Field(w), b.workdir, h.workdir, ExecutionDefinitionChange, ExecutionDefinitionChange);
    FourMirrors(StringChange(Field("metadata.name"), b.name, h.name, Informational), Execution(i, b.image, h.image),
                Execution(d, b.imageDigest, h.imageDigest), Execution(w, b.workdir, h.workdir),
                StringChange(Field("metadata.name"), h.name, b.name, Informational), Execution(i, h.image, b.image),
                Execution(d, h.imageDigest, b.imageDigest), Execution(w, h.workdir, b.workdir));
  }

  lemma PrivilegeMirrors(name: string, b: int, h: int)
    ensures Mirrors(Privilege(name, b, h), Privilege(name, h, b))
  {
    IntMirrors(Field(name), b, h, PrivilegeIncrease, PrivilegeDecrease);
  }

  lemma ResourcesMirror(b: Resources, h: Resources)
    ensures Mirrors(ResourceChanges(b, h), ResourceChanges(h, b))
  {
    var c, m, d := "spec.resources.cpu", "spec.resources.memoryBytes", "spec.resources.diskBytes";
    var p, t := "spec.resources.processCount", "spec.resources.timeoutMillis";
    PrivilegeMirrors(c, b.cpu, h.cpu);
    PrivilegeMirrors(m, b.memory, h.memory);
    PrivilegeMirrors(d, b.disk, h.disk);
    PrivilegeMirrors(p, b.processes, h.processes);
    PrivilegeMirrors(t, b.timeout, h.timeout);
    var x := Privilege(c, b.cpu, h.cpu) + Privilege(m, b.memory, h.memory) + Privilege(d, b.disk, h.disk) + Privilege(p, b.processes, h.processes);
    var y := Privilege(c, h.cpu, b.cpu) + Privilege(m, h.memory, b.memory) + Privilege(d, h.disk, b.disk) + Privilege(p, h.processes, b.processes);
    FourMirrors(Privilege(c, b.cpu, h.cpu), Privilege(m, b.memory, h.memory), Privilege(d, b.disk, h.disk), Privilege(p, b.processes, h.processes),
                Privilege(c, h.cpu, b.cpu), Privilege(m, h.memory, b.memory), Privilege(d, h.disk, b.disk), Privilege(p, h.processes, b.processes));
    MirrorsAdd(x, y, Privilege(t, b.timeout, h.timeout), Privilege(t, h.timeout, b.timeout));
  }

  lemma NetworkMirrors(b: Pipeline, h: Pipeline)
    ensures Mirrors(NetworkChanges(b, h), NetworkChanges(h, b))
  {
    var path, there, back := Field("spec.network.mode"), NetworkEffect(b.networkMode, h.networkMode), NetworkEffect(h.networkMode, b.networkMode);
    StringMirrors(path, b.networkMode, h.networkMode, there, back);
    ListMirrors("spec.network.allow", b.networkAllow, h.networkAllow, PrivilegeIncrease, PrivilegeDecrease);
    MirrorsAdd(StringChange(path, b.networkMode, h.networkMode, there), StringChange(path, h.networkMode, b.networkMode, back),
               ListChanges("spec.network.allow", b.networkAllow, h.networkAllow, PrivilegeIncrease, PrivilegeDecrease),
               ListChanges("spec.network.allow", h.networkAllow, b.networkAllow, PrivilegeIncrease, PrivilegeDecrease));
  }

  lemma CollectMirrors(b: Pipeline, h: Pipeline)
    requires NoRepeats(Paths(b.artifacts)) && NoRepeats(Paths(h.artifacts))
    ensures Mirrors(CollectChanges(b, h), CollectChanges(h, b))
  {
    ListMirrors("spec.collect.filesystem.roots", b.roots, h.roots, ObservationStrengthened, ObservationWeakened);
    StringMirrors(Field("spec.collect.filesystem.contents"), b.contents, h.contents,
                  ContentsEffect(b.contents, h.contents), ContentsEffect(h.contents, b.contents));
    ArtifactsMirror(b.artifacts, h.artifacts);
    ObservationMirrors("spec.collect.logs.maxBytesPerStream", b.logBytes, h.logBytes);
    FourMirrors(RootChanges(b, h), ContentChanges(b, h), ArtifactChanges(b.artifacts, h.artifacts), LogChanges(b, h),
                RootChanges(h, b), ContentChanges(h, b), ArtifactChanges(h.artifacts, b.artifacts), LogChanges(h, b));
  }

  lemma IgnoreMirrors(b: seq<string>, h: seq<string>)
    ensures Mirrors(IgnoreChanges(b, h), IgnoreChanges(h, b))
  {
    KeysMirror(IgnoreFields, "spec.compare.ignore", b, h, ObservationStrengthened, ObservationWeakened);
  }

  lemma ObservationMirrors(name: string, b: int, h: int)
    ensures Mirrors(Observation(name, b, h), Observation(name, h, b))
  {
    IntMirrors(Field(name), b, h, ObservationStrengthened, ObservationWeakened);
  }

  function PolicyChanged(b: string, h: string): seq<Change> { StringChange(Field("spec.policy.profile"), b, h, PolicyChange) }

  lemma CompareMirrors(b: Pipeline, h: Pipeline)
    ensures Mirrors(CompareChanges(b, h), CompareChanges(h, b))
  {
    var name := "spec.compare.repetitions";
    IgnoreMirrors(b.ignore, h.ignore);
    ObservationMirrors(name, b.repetitions, h.repetitions);
    StringMirrors(Field("spec.policy.profile"), b.policy, h.policy, PolicyChange, PolicyChange);
    ThreeMirrors(IgnoreChanges(b.ignore, h.ignore), Observation(name, b.repetitions, h.repetitions), PolicyChanged(b.policy, h.policy),
                 IgnoreChanges(h.ignore, b.ignore), Observation(name, h.repetitions, b.repetitions), PolicyChanged(h.policy, b.policy));
  }

  lemma ThreeMirrors(a: seq<Change>, b: seq<Change>, c: seq<Change>, a': seq<Change>, b': seq<Change>, c': seq<Change>)
    requires Mirrors(a, a') && Mirrors(b, b') && Mirrors(c, c')
    ensures Mirrors(a + b + c, a' + b' + c')
  {
    MirrorsAdd(a, a', b, b');
    MirrorsAdd(a + b, a' + b', c, c');
  }

  /** Comparing the other way round reports the same changes mirrored: added and removed, increase and
      decrease, weakened and strengthened change places, and so do the values shown. */
  lemma SwapMirrorsChanges(b: Pipeline, h: Pipeline)
    requires Validated(b) && Validated(h)
    ensures Mirrors(PipelineChanges(b, h), PipelineChanges(h, b))
  {
    HeaderMirrors(b, h);
    ResourcesMirror(b.resources, h.resources);
    NetworkMirrors(b, h);
    ScenariosMirror(b.scenarios, h.scenarios);
    CollectMirrors(b, h);
    CompareMirrors(b, h);
    SixMirrors(HeaderChanges(b, h), ResourceChanges(b.resources, h.resources), NetworkChanges(b, h), ScenarioChanges(b.scenarios, h.scenarios),
               CollectChanges(b, h), CompareChanges(b, h),
               HeaderChanges(h, b), ResourceChanges(h.resources, b.resources), NetworkChanges(h, b), ScenarioChanges(h.scenarios, b.scenarios),
               CollectChanges(h, b), CompareChanges(h, b));
  }

  lemma SixMirrors(a: seq<Change>, b: seq<Change>, c: seq<Change>, d: seq<Change>, e: seq<Change>, f: seq<Change>,
                   a': seq<Change>, b': seq<Change>, c': seq<Change>, d': seq<Change>, e': seq<Change>, f': seq<Change>)
    requires Mirrors(a, a') && Mirrors(b, b') && Mirrors(c, c') && Mirrors(d, d') && Mirrors(e, e') && Mirrors(f, f')
    ensures Mirrors(a + b + c + d + e + f, a' + b' + c' + d' + e' + f')
  {
    FourMirrors(a, b, c, d, a', b', c', d');
    MirrorsAdd(a + b + c + d, a' + b' + c' + d', e, e');
    MirrorsAdd(a + b + c + d + e, a' + b' + c' + d' + e', f, f');
  }
}

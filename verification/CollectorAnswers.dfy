/** What becomes of every single matched entry, and of every rule, said in sizes, limits and entries. */
module CollectorAnswers {
  import opened GlobMatcher
  import opened GoText
  import opened Collector
  import opened CollectorLaws

  // ---------------------------------------------------------------- which rules match an entry

  /** The rules of an entry are those whose pattern matches its path, in plan order. */
  lemma {:induction false} RulesOfEntryMatch(cm: ComponentMatcher, rules: seq<Rule>, e: Entry)
    ensures forall r :: r in RulesFor(cm, rules, e) <==> r in rules && Matches(cm, SplitRel(r.pattern), SplitRel(e.rel))
  {
    if rules != [] {
      var front, last := rules[..|rules| - 1], rules[|rules| - 1];
      assert rules == front + [last];
      RulesOfEntryMatch(cm, front, e);
    }
  }

  /** A rule that matches stands where the number of earlier rules that match says. */
  lemma {:induction false} RuleStandsInOrder(cm: ComponentMatcher, rules: seq<Rule>, e: Entry, n: nat)
    requires n < |rules| && Direct(cm, rules[n], e)
    ensures var before := |RulesFor(cm, rules[..n], e)|; before < |RulesFor(cm, rules, e)| && RulesFor(cm, rules, e)[before] == rules[n]
  {
    var front := rules[..|rules| - 1];
    if n < |front| {
      RuleStandsInOrder(cm, front, e, n);
      assert front[..n] == rules[..n];
    } else {
      assert rules[..n] == front;
    }
  }

  // ---------------------------------------------------------------- stored or omitted

  /** The file is within the limit of every rule that matches it, within the limit for one file, and within
      what is left of the limit for all. */
  ghost predicate Fits(a: Artifact, limits: Limits, storedBefore: nat) {
    (forall r | r in a.rules :: a.size <= r.maxBytes) && a.size <= limits.single && storedBefore + a.size <= limits.total
  }

  /** The bound is one of these limits, and none of them is less. */
  ghost predicate IsLeastLimit(bound: int, a: Artifact, limits: Limits, storedBefore: nat) {
    && (forall r | r in a.rules :: bound <= r.maxBytes) && bound <= limits.single && bound <= limits.total - storedBefore
    && ((exists r :: r in a.rules && bound == r.maxBytes) || bound == limits.single || bound == limits.total - storedBefore)
  }

  /** The file is stored exactly when it fits, and otherwise omitted with the least limit. */
  ghost predicate PlacedRight(a: Artifact, limits: Limits, storedBefore: nat) {
    if Fits(a, limits, storedBefore) then a.disposition == Stored
    else a.disposition.OmittedLimit? && IsLeastLimit(a.disposition.limit, a, limits, storedBefore)
  }

  lemma PlaceIsRight(e: Entry, rules: seq<Rule>, limits: Limits, total: nat)
    requires rules != []
    ensures PlacedRight(Place(e, rules, limits, total), limits, total)
  {
    NarrowestIsLeast(rules);
  }

  lemma {:induction false} EachIsPlacedRight(byRel: ByRel, plan: map<string, seq<Rule>>, limits: Limits, paths: seq<string>, i: nat)
    requires Indexed(byRel, plan, paths) && i < |paths| && forall p | p in paths :: plan[p] != []
    ensures var placed := Placed(byRel, plan, limits, paths);
            && |placed| == |paths| && placed[i].rel == paths[i] && PlacedRight(placed[i], limits, StoredBytes(placed[..i]))
  {
    var p, front := paths[|paths| - 1], paths[..|paths| - 1];
    var placed, before := Placed(byRel, plan, limits, paths), Placed(byRel, plan, limits, front);
    PlacedEach(byRel, plan, limits, front);
    if i < |front| {
      EachIsPlacedRight(byRel, plan, limits, front, i);
      assert placed[..i] == before[..i];
    } else {
      assert placed[..i] == before;
      PlaceIsRight(byRel[p], plan[p], limits, StoredBytes(before));
    }
  }

  lemma {:induction false} PlacedEach(byRel: ByRel, plan: map<string, seq<Rule>>, limits: Limits, paths: seq<string>)
    requires Indexed(byRel, plan, paths)
    ensures |Placed(byRel, plan, limits, paths)| == |paths|
  {
    if paths != [] { PlacedEach(byRel, plan, limits, paths[..|paths| - 1]); }
  }

  lemma {:induction false} OmissionsEach(byRel: ByRel, plan: map<string, seq<Rule>>, paths: seq<string>)
    requires Indexed(byRel, plan, paths)
    ensures |Omissions(byRel, plan, paths)| == |paths|
    ensures forall i | 0 <= i < |paths| :: Omissions(byRel, plan, paths)[i] == Omission(byRel[paths[i]], plan[paths[i]])
  {
    if paths != [] { OmissionsEach(byRel, plan, paths[..|paths| - 1]); }
  }

  lemma ListedAt(byRel: ByRel, plan: map<string, seq<Rule>>, unopened: map<string, seq<Rule>>, limits: Limits,
                 paths: seq<string>, omitted: seq<string>, i: nat)
    requires Indexed(byRel, plan, paths) && Indexed(byRel, unopened, omitted) && forall p | p in paths :: plan[p] != []
    ensures var artifacts := Placed(byRel, plan, limits, paths) + Omissions(byRel, unopened, omitted);
            && |artifacts| == |paths| + |omitted|
            && (i < |artifacts| ==> artifacts[i].rel == if i < |paths| then paths[i] else omitted[i - |paths|])
  {
    PlacedEach(byRel, plan, limits, paths);
    OmissionsEach(byRel, unopened, omitted);
    if i < |paths| { EachIsPlacedRight(byRel, plan, limits, paths, i); }
  }

  lemma ArtifactIsAt(cm: ComponentMatcher, rules: seq<Rule>, entries: seq<Entry>, byRel: ByRel, limits: Limits,
                     paths: seq<string>, omitted: seq<string>, c: Collection, i: nat)
    requires Inventory(entries, byRel) && Collects(cm, rules, entries, byRel, limits, paths, omitted, c)
    ensures |c.artifacts| == |paths| + |omitted|
    ensures i < |c.artifacts| ==>
              && c.artifacts[i].rel == (if i < |paths| then paths[i] else omitted[i - |paths|])
              && c.artifacts[i].rel in byRel && (byRel[c.artifacts[i].rel].kind.Regular? <==> i < |paths|)
  {
    var plan, unopened := Plan(cm, rules, entries, true), Plan(cm, rules, entries, false);
    PathsAreOfKind(cm, rules, entries, byRel, true, paths);
    PathsAreOfKind(cm, rules, entries, byRel, false, omitted);
    ArtifactsAre(cm, rules, entries, byRel, limits, paths, omitted, c);
    ListedAt(byRel, plan, unopened, limits, paths, omitted, i);
    assert i < |paths| ==> paths[i] in paths;
    assert |paths| <= i < |paths| + |omitted| ==> omitted[i - |paths|] in omitted;
  }

  lemma PathsAreOfKind(cm: ComponentMatcher, rules: seq<Rule>, entries: seq<Entry>, byRel: ByRel, regular: bool, paths: seq<string>)
    requires Inventory(entries, byRel) && Lists(paths, Plan(cm, rules, entries, regular).Keys)
    ensures var plan := Plan(cm, rules, entries, regular);
            Indexed(byRel, plan, paths) && forall p | p in paths :: plan[p] != [] && OfKind(byRel[p], regular)
  {
    PlanIsMatched(cm, rules, entries, byRel, regular);
  }

  lemma ArtifactsAre(cm: ComponentMatcher, rules: seq<Rule>, entries: seq<Entry>, byRel: ByRel, limits: Limits,
                     paths: seq<string>, omitted: seq<string>, c: Collection)
    requires Inventory(entries, byRel) && Collects(cm, rules, entries, byRel, limits, paths, omitted, c)
    requires Indexed(byRel, Plan(cm, rules, entries, true), paths) && Indexed(byRel, Plan(cm, rules, entries, false), omitted)
    ensures c.artifacts == Placed(byRel, Plan(cm, rules, entries, true), limits, paths) + Omissions(byRel, Plan(cm, rules, entries, false), omitted)
  {
  }

  /** The regular files among the artifacts come first, in path order, and then the others, in path order. */
  lemma FilesComeInOrder(cm: ComponentMatcher, rules: seq<Rule>, entries: seq<Entry>, byRel: ByRel, limits: Limits,
                         paths: seq<string>, omitted: seq<string>, c: Collection, i: nat, j: nat)
    requires Inventory(entries, byRel) && Collects(cm, rules, entries, byRel, limits, paths, omitted, c) && i < j < |c.artifacts|
    ensures c.artifacts[i].rel in byRel && c.artifacts[j].rel in byRel
    ensures byRel[c.artifacts[j].rel].kind.Regular? ==> byRel[c.artifacts[i].rel].kind.Regular?
    ensures (byRel[c.artifacts[i].rel].kind.Regular? <==> byRel[c.artifacts[j].rel].kind.Regular?)
              ==> Before(c.artifacts[i].rel, c.artifacts[j].rel)
  {
    ArtifactIsAt(cm, rules, entries, byRel, limits, paths, omitted, c, i);
    ArtifactIsAt(cm, rules, entries, byRel, limits, paths, omitted, c, j);
  }

  /** A matched regular file is stored exactly when it fits what its rules and the limits leave after the
      files before it; when it is not, the artifact tells the least of those limits. */
  lemma FileIsStoredWhenItFits(cm: ComponentMatcher, rules: seq<Rule>, entries: seq<Entry>, byRel: ByRel, limits: Limits,
                               paths: seq<string>, omitted: seq<string>, c: Collection, i: nat)
    requires Inventory(entries, byRel) && Collects(cm, rules, entries, byRel, limits, paths, omitted, c)
    requires i < |c.artifacts| && c.artifacts[i].rel in byRel && byRel[c.artifacts[i].rel].kind.Regular?
    ensures PlacedRight(c.artifacts[i], limits, StoredBytes(c.artifacts[..i]))
    ensures c.artifacts[i].size == byRel[c.artifacts[i].rel].size
    ensures forall r :: r in c.artifacts[i].rules <==>
              r in rules && Matches(cm, SplitRel(r.pattern), SplitRel(byRel[c.artifacts[i].rel].rel))
  {
    var plan := Plan(cm, rules, entries, true);
    ArtifactIsAt(cm, rules, entries, byRel, limits, paths, omitted, c, i);
    PlanIsMatched(cm, rules, entries, byRel, true);
    EachIsPlacedRight(byRel, plan, limits, paths, i);
    PlacedEach(byRel, plan, limits, paths);
    assert c.artifacts[..i] == Placed(byRel, plan, limits, paths)[..i];
    EveryArtifactIsTruthful(cm, rules, entries, byRel, limits, paths, omitted, c, c.artifacts[i]);
    RulesOfEntryMatch(cm, rules, byRel[c.artifacts[i].rel]);
  }

  // ---------------------------------------------------------------- what blocks a rule

  /** The rule could match at something below entry `i`, which is not opened. */
  ghost predicate StopsAt(cm: ComponentMatcher, r: Rule, entries: seq<Entry>, i: nat) {
    i < |entries| && (entries[i].kind.Symlink? || entries[i].kind.Special?) && Reaches(cm, r, entries[i])
  }

  /** Entry `i` is the last one that stops the rule. */
  ghost predicate LastStop(cm: ComponentMatcher, r: Rule, entries: seq<Entry>, i: nat) {
    StopsAt(cm, r, entries, i) && forall j: nat | i < j :: !StopsAt(cm, r, entries, j)
  }

  lemma StopsInFront(cm: ComponentMatcher, r: Rule, entries: seq<Entry>, i: nat)
    requires entries != []
    ensures StopsAt(cm, r, entries[..|entries| - 1], i) <==> i < |entries| - 1 && StopsAt(cm, r, entries, i)
  {
  }

  lemma TryingOpaque(cm: ComponentMatcher, r: Rule, e: Entry, p: PatternResult)
    ensures Opaque(e) && Reaches(cm, r, e) ==>
              Tried(cm, r, e, p).disposition == if e.kind.Symlink? then BlockedBySymlink else BlockedBySpecial
    ensures !(Opaque(e) && Reaches(cm, r, e)) ==>
              Tried(cm, r, e, p).disposition
              == if p.disposition.Unmatched? && Direct(cm, r, e) && !e.kind.Directory? then MatchedSome else p.disposition
  {
  }

  /** Entry `i` of those before the last is the last stop if it is the last stop of all. */
  lemma LastStopInFront(cm: ComponentMatcher, r: Rule, entries: seq<Entry>, i: nat)
    requires LastStop(cm, r, entries, i) && i < |entries| - 1
    ensures LastStop(cm, r, entries[..|entries| - 1], i) && !StopsAt(cm, r, entries, |entries| - 1)
  {
    var front := entries[..|entries| - 1];
    forall j: nat ensures StopsAt(cm, r, front, j) <==> j < |entries| - 1 && StopsAt(cm, r, entries, j) { StopsInFront(cm, r, entries, j); }
  }

  /** A rule that is stopped is blocked by what stopped it last, a link or a special entry. */
  lemma {:induction false} LastStopBlocks(cm: ComponentMatcher, r: Rule, entries: seq<Entry>, i: nat)
    requires LastStop(cm, r, entries, i)
    ensures Progress(cm, r, entries).disposition == if entries[i].kind.Symlink? then BlockedBySymlink else BlockedBySpecial
  {
    var front, n := entries[..|entries| - 1], |entries| - 1;
    TryingOpaque(cm, r, entries[n], Progress(cm, r, front));
    if i < n {
      LastStopInFront(cm, r, entries, i);
      LastStopBlocks(cm, r, front, i);
    }
  }

  /** A rule that nothing stops has matched exactly when it matches a regular file, a link or a special entry. */
  lemma {:induction false} UnstoppedMatches(cm: ComponentMatcher, r: Rule, entries: seq<Entry>)
    requires forall i: nat :: !StopsAt(cm, r, entries, i)
    ensures Progress(cm, r, entries).disposition
            == if exists e :: e in entries && !e.kind.Directory? && Direct(cm, r, e) then MatchedSome else Unmatched
  {
    if entries != [] {
      var front, n := entries[..|entries| - 1], |entries| - 1;
      assert entries == front + [entries[n]];
      assert !StopsAt(cm, r, entries, n);
      forall j: nat ensures !StopsAt(cm, r, front, j) {
        StopsInFront(cm, r, entries, j);
        assert !StopsAt(cm, r, entries, j);
      }
      UnstoppedMatches(cm, r, front);
      TryingOpaque(cm, r, entries[n], Progress(cm, r, front));
    }
  }
}

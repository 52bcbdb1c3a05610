/** What a collection promises: nothing matched is lost or duplicated, the byte limits hold, and a
    collection that is called complete has missed nothing. */
module CollectorLaws {
  import opened GlobMatcher
  import opened GoText
  import opened Collector

  function CountAt(artifacts: seq<Artifact>, rel: string): nat {
    if artifacts == [] then 0
    else CountAt(artifacts[..|artifacts| - 1], rel) + if artifacts[|artifacts| - 1].rel == rel then 1 else 0
  }

  lemma {:induction false} CountsAdd(x: seq<Artifact>, y: seq<Artifact>, rel: string)
    ensures CountAt(x + y, rel) == CountAt(x, rel) + CountAt(y, rel)
  {
    if y == [] {
      assert x + y == x;
    } else {
      CountsAdd(x, y[..|y| - 1], rel);
      assert (x + y)[..|x + y| - 1] == x + y[..|y| - 1];
    }
  }

  lemma {:induction false} PlacedCount(byRel: ByRel, plan: map<string, seq<Rule>>, limits: Limits, paths: seq<string>, rel: string)
    requires Indexed(byRel, plan, paths) && NoRepeats(paths)
    ensures CountAt(Placed(byRel, plan, limits, paths), rel) == if rel in paths then 1 else 0
  {
    if paths != [] {
      var front := paths[..|paths| - 1];
      assert paths == front + [paths[|paths| - 1]];
      PlacedCount(byRel, plan, limits, front, rel);
      assert Placed(byRel, plan, limits, paths)[..|Placed(byRel, plan, limits, paths)| - 1] == Placed(byRel, plan, limits, front);
    }
  }

  lemma {:induction false} OmissionCount(byRel: ByRel, plan: map<string, seq<Rule>>, paths: seq<string>, rel: string)
    requires Indexed(byRel, plan, paths) && NoRepeats(paths)
    ensures CountAt(Omissions(byRel, plan, paths), rel) == if rel in paths then 1 else 0
  {
    if paths != [] {
      var front := paths[..|paths| - 1];
      assert paths == front + [paths[|paths| - 1]];
      OmissionCount(byRel, plan, front, rel);
      assert Omissions(byRel, plan, paths)[..|Omissions(byRel, plan, paths)| - 1] == Omissions(byRel, plan, front);
    }
  }

  /** The entry is one that the collection must account for. */
  ghost predicate Wanted(cm: ComponentMatcher, rules: seq<Rule>, byRel: ByRel, rel: string) {
    rel in byRel && !byRel[rel].kind.Directory? && RulesFor(cm, rules, byRel[rel]) != []
  }

  lemma PlannedIff(cm: ComponentMatcher, rules: seq<Rule>, entries: seq<Entry>, byRel: ByRel, regular: bool, rel: string)
    requires Inventory(entries, byRel)
    ensures rel in Plan(cm, rules, entries, regular) <==>
              rel in byRel && OfKind(byRel[rel], regular) && RulesFor(cm, rules, byRel[rel]) != []
  {
    PlanIsMatched(cm, rules, entries, byRel, regular);
    assert rel in byRel ==> byRel[rel] in entries && byRel[rel].rel == rel;
  }

  lemma PlanIsIndexed(cm: ComponentMatcher, rules: seq<Rule>, entries: seq<Entry>, byRel: ByRel, regular: bool, paths: seq<string>)
    requires Inventory(entries, byRel) && Lists(paths, Plan(cm, rules, entries, regular).Keys)
    ensures Indexed(byRel, Plan(cm, rules, entries, regular), paths)
  {
    PlanIsMatched(cm, rules, entries, byRel, regular);
  }

  /** Every entry that some rule matches, directories apart, has exactly one artifact, and there is no other. */
  lemma EveryMatchOnce(cm: ComponentMatcher, rules: seq<Rule>, entries: seq<Entry>, byRel: ByRel, limits: Limits,
                       paths: seq<string>, omitted: seq<string>, c: Collection, rel: string)
    requires Inventory(entries, byRel) && Collects(cm, rules, entries, byRel, limits, paths, omitted, c)
    ensures CountAt(c.artifacts, rel) == if Wanted(cm, rules, byRel, rel) then 1 else 0
  {
    var plan, unopened := Plan(cm, rules, entries, true), Plan(cm, rules, entries, false);
    PlanIsIndexed(cm, rules, entries, byRel, true, paths);
    PlanIsIndexed(cm, rules, entries, byRel, false, omitted);
    CountBoth(byRel, plan, unopened, limits, paths, omitted, rel);
    PlannedIff(cm, rules, entries, byRel, true, rel);
    PlannedIff(cm, rules, entries, byRel, false, rel);
  }

  lemma CountBoth(byRel: ByRel, plan: map<string, seq<Rule>>, unopened: map<string, seq<Rule>>, limits: Limits, paths: seq<string>,
                  omitted: seq<string>, rel: string)
    requires Indexed(byRel, plan, paths) && Indexed(byRel, unopened, omitted) && Ascending(paths) && Ascending(omitted)
    ensures CountAt(Placed(byRel, plan, limits, paths) + Omissions(byRel, unopened, omitted), rel)
         == (if rel in paths then 1 else 0) + (if rel in omitted then 1 else 0)
  {
    AscendingNeverRepeats(paths);
    AscendingNeverRepeats(omitted);
    PlacedCount(byRel, plan, limits, paths, rel);
    OmissionCount(byRel, unopened, omitted, rel);
    CountsAdd(Placed(byRel, plan, limits, paths), Omissions(byRel, unopened, omitted), rel);
  }

  /** The artifact is the entry at its path with the rules that match it, and regular files alone are opened. */
  ghost predicate Truthful(cm: ComponentMatcher, rules: seq<Rule>, byRel: ByRel, a: Artifact) {
    && a.rel in byRel && a.rules == RulesFor(cm, rules, byRel[a.rel])
    && match a.disposition
       case Stored => byRel[a.rel].kind.Regular? && a.size == byRel[a.rel].size
       case OmittedLimit(_) => byRel[a.rel].kind.Regular? && a.size == byRel[a.rel].size
       case OmittedSymlink => byRel[a.rel].kind.Symlink?
       case OmittedSpecial => byRel[a.rel].kind.Special?
  }

  lemma {:induction false} PlacedIsTruthful(cm: ComponentMatcher, rules: seq<Rule>, byRel: ByRel, plan: map<string, seq<Rule>>,
                                            limits: Limits, paths: seq<string>)
    requires Indexed(byRel, plan, paths)
    requires forall p | p in paths :: byRel[p].kind.Regular? && plan[p] == RulesFor(cm, rules, byRel[p])
    ensures forall a | a in Placed(byRel, plan, limits, paths) :: Truthful(cm, rules, byRel, a)
  {
    if paths != [] {
      PlacedIsTruthful(cm, rules, byRel, plan, limits, paths[..|paths| - 1]);
    }
  }

  lemma {:induction false} OmissionIsTruthful(cm: ComponentMatcher, rules: seq<Rule>, byRel: ByRel, plan: map<string, seq<Rule>>,
                                              paths: seq<string>)
    requires Indexed(byRel, plan, paths)
    requires forall p | p in paths :: Opaque(byRel[p]) && plan[p] == RulesFor(cm, rules, byRel[p])
    ensures forall a | a in Omissions(byRel, plan, paths) :: Truthful(cm, rules, byRel, a)
  {
    if paths != [] {
      OmissionIsTruthful(cm, rules, byRel, plan, paths[..|paths| - 1]);
    }
  }

  lemma EveryArtifactIsTruthful(cm: ComponentMatcher, rules: seq<Rule>, entries: seq<Entry>, byRel: ByRel, limits: Limits,
                                paths: seq<string>, omitted: seq<string>, c: Collection, a: Artifact)
    requires Inventory(entries, byRel) && Collects(cm, rules, entries, byRel, limits, paths, omitted, c) && a in c.artifacts
    ensures Truthful(cm, rules, byRel, a)
  {
    var plan, unopened := Plan(cm, rules, entries, true), Plan(cm, rules, entries, false);
    PlanIsMatched(cm, rules, entries, byRel, true);
    PlanIsMatched(cm, rules, entries, byRel, false);
    PlacedIsTruthful(cm, rules, byRel, plan, limits, paths);
    OmissionIsTruthful(cm, rules, byRel, unopened, omitted);
  }

  // ---------------------------------------------------------------- limits

  lemma {:induction false} NarrowestIsLeast(rules: seq<Rule>)
    requires rules != []
    ensures forall r | r in rules :: Narrowest(rules) <= r.maxBytes
    ensures exists r :: r in rules && r.maxBytes == Narrowest(rules)
  {
    var front, last := rules[..|rules| - 1], rules[|rules| - 1];
    assert rules == front + [last];
    if front != [] {
      NarrowestIsLeast(front);
    }
  }

  /** A stored file is within the limit of every rule that matches it, and within the single-file limit. */
  ghost predicate WithinLimits(a: Artifact, limits: Limits) {
    a.disposition.Stored? ==> a.size <= limits.single && forall r | r in a.rules :: a.size <= r.maxBytes
  }

  lemma {:induction false} PlacedWithinLimits(byRel: ByRel, plan: map<string, seq<Rule>>, limits: Limits, paths: seq<string>)
    requires Indexed(byRel, plan, paths) && forall p | p in paths :: plan[p] != []
    ensures StoredBytes(Placed(byRel, plan, limits, paths)) <= limits.total
    ensures forall a | a in Placed(byRel, plan, limits, paths) :: WithinLimits(a, limits)
  {
    if paths != [] {
      var p, front := paths[|paths| - 1], paths[..|paths| - 1];
      var before := Placed(byRel, plan, limits, front);
      PlacedWithinLimits(byRel, plan, limits, front);
      NarrowestIsLeast(plan[p]);
      OneMoreArtifact(before, Place(byRel[p], plan[p], limits, StoredBytes(before)));
    }
  }

  lemma {:induction false} OmissionsStoreNothing(byRel: ByRel, plan: map<string, seq<Rule>>, x: seq<Artifact>, paths: seq<string>)
    requires Indexed(byRel, plan, paths)
    ensures StoredBytes(x + Omissions(byRel, plan, paths)) == StoredBytes(x)
    ensures forall a | a in Omissions(byRel, plan, paths) :: !a.disposition.Stored?
  {
    if paths == [] {
      assert x + Omissions(byRel, plan, paths) == x;
    } else {
      var p, front := paths[|paths| - 1], paths[..|paths| - 1];
      OmissionsStoreNothing(byRel, plan, x, front);
      OneMoreArtifact(x + Omissions(byRel, plan, front), Omission(byRel[p], plan[p]));
      assert x + Omissions(byRel, plan, paths) == (x + Omissions(byRel, plan, front)) + [Omission(byRel[p], plan[p])];
    }
  }

  /** The stored bytes never exceed the total limit, nor any file its own limits. */
  lemma LimitsHold(cm: ComponentMatcher, rules: seq<Rule>, entries: seq<Entry>, byRel: ByRel, limits: Limits,
                   paths: seq<string>, omitted: seq<string>, c: Collection)
    requires Inventory(entries, byRel) && Collects(cm, rules, entries, byRel, limits, paths, omitted, c)
    ensures StoredBytes(c.artifacts) <= limits.total && forall a | a in c.artifacts :: WithinLimits(a, limits)
  {
    var plan, unopened := Plan(cm, rules, entries, true), Plan(cm, rules, entries, false);
    PlanIsMatched(cm, rules, entries, byRel, true);
    PlanIsMatched(cm, rules, entries, byRel, false);
    PlacedWithinLimits(byRel, plan, limits, paths);
    OmissionsStoreNothing(byRel, unopened, Placed(byRel, plan, limits, paths), omitted);
  }

  // ---------------------------------------------------------------- completeness

  /** A file is stored. */
  ghost predicate IsStored(artifacts: seq<Artifact>, rel: string) { exists a :: a in artifacts && a.rel == rel && a.disposition.Stored? }

  lemma {:induction false} AllPlacedAreStored(byRel: ByRel, plan: map<string, seq<Rule>>, limits: Limits, paths: seq<string>)
    requires Indexed(byRel, plan, paths)
    ensures (forall p | p in paths :: exists a :: a in Placed(byRel, plan, limits, paths) && a.rel == p)
    ensures forall a | a in Placed(byRel, plan, limits, paths) :: a.rel in paths
  {
    if paths != [] {
      var front, last := paths[..|paths| - 1], paths[|paths| - 1];
      var before := Placed(byRel, plan, limits, front);
      var a := Place(byRel[last], plan[last], limits, StoredBytes(before));
      assert paths == front + [last];
      AllPlacedAreStored(byRel, plan, limits, front);
      forall p | p in paths ensures exists a :: a in before + [a] && a.rel == p {
        if p == last {
          assert a in before + [a];
        } else {
          var b :| b in before && b.rel == p;
          assert b in before + [a];
        }
      }
    }
  }

  lemma {:induction false} AtLeastOnce(artifacts: seq<Artifact>, a: Artifact)
    requires a in artifacts
    ensures CountAt(artifacts, a.rel) >= 1
  {
    var front, last := artifacts[..|artifacts| - 1], artifacts[|artifacts| - 1];
    assert artifacts == front + [last];
    if a in front {
      AtLeastOnce(front, a);
    }
  }

  lemma {:induction false} OnlyOne(artifacts: seq<Artifact>, a: Artifact, b: Artifact)
    requires a in artifacts && b in artifacts && a.rel == b.rel && CountAt(artifacts, a.rel) <= 1
    ensures a == b
  {
    var front, last := artifacts[..|artifacts| - 1], artifacts[|artifacts| - 1];
    assert artifacts == front + [last];
    if a in front {
      AtLeastOnce(front, a);
      if b in front {
        OnlyOne(front, a, b);
      }
    } else if b in front {
      AtLeastOnce(front, b);
    }
  }

  ghost predicate EveryFileStored(cm: ComponentMatcher, rules: seq<Rule>, entries: seq<Entry>, c: Collection) {
    forall e | e in entries && e.kind.Regular? && RulesFor(cm, rules, e) != [] :: IsStored(c.artifacts, e.rel)
  }

  lemma StoredEach(byRel: ByRel, plan: map<string, seq<Rule>>, limits: Limits, paths: seq<string>, rest: seq<Artifact>)
    requires Indexed(byRel, plan, paths) && AllStored(Placed(byRel, plan, limits, paths))
    ensures forall p | p in paths :: IsStored(Placed(byRel, plan, limits, paths) + rest, p)
  {
    var placed := Placed(byRel, plan, limits, paths);
    AllPlacedAreStored(byRel, plan, limits, paths);
    forall p | p in paths ensures IsStored(placed + rest, p) {
      var a :| a in placed && a.rel == p;
      assert a in placed + rest && a.disposition.Stored?;
    }
  }

  lemma StoredAll(byRel: ByRel, plan: map<string, seq<Rule>>, limits: Limits, paths: seq<string>, rest: seq<Artifact>)
    requires Indexed(byRel, plan, paths)
    requires forall p | p in paths :: IsStored(Placed(byRel, plan, limits, paths) + rest, p)
    requires forall p | p in paths :: CountAt(Placed(byRel, plan, limits, paths) + rest, p) == 1
    ensures AllStored(Placed(byRel, plan, limits, paths))
  {
    var placed := Placed(byRel, plan, limits, paths);
    AllPlacedAreStored(byRel, plan, limits, paths);
    forall i | 0 <= i < |placed| ensures placed[i].disposition.Stored? {
      var a := placed[i];
      assert a in placed && a in placed + rest;
      var b :| b in placed + rest && b.rel == a.rel && b.disposition.Stored?;
      OnlyOne(placed + rest, a, b);
    }
  }

  lemma AllPlacedIffEveryFile(cm: ComponentMatcher, rules: seq<Rule>, entries: seq<Entry>, byRel: ByRel, limits: Limits,
                              paths: seq<string>, omitted: seq<string>, c: Collection)
    requires Inventory(entries, byRel) && Collects(cm, rules, entries, byRel, limits, paths, omitted, c)
    ensures c.complete <==> NothingMissed(cm, rules, entries) && EveryFileStored(cm, rules, entries, c)
  {
    var plan, unopened := Plan(cm, rules, entries, true), Plan(cm, rules, entries, false);
    PlanIsMatched(cm, rules, entries, byRel, true);
    PlanIsMatched(cm, rules, entries, byRel, false);
    if AllStored(Placed(byRel, plan, limits, paths)) {
      StoredEach(byRel, plan, limits, paths, Omissions(byRel, unopened, omitted));
    }
    if EveryFileStored(cm, rules, entries, c) {
      forall p | p in paths ensures IsStored(c.artifacts, p) && CountAt(c.artifacts, p) == 1 {
        EveryMatchOnce(cm, rules, entries, byRel, limits, paths, omitted, c, p);
        assert byRel[p] in entries && byRel[p].rel == p;
      }
      StoredAll(byRel, plan, limits, paths, Omissions(byRel, unopened, omitted));
    }
  }

  /** A collection is called complete exactly when every regular file that a rule matches is stored, and no
      rule matches, or could reach behind, an entry that is not opened. */
  lemma CompleteMeansNothingMissed(cm: ComponentMatcher, rules: seq<Rule>, entries: seq<Entry>, byRel: ByRel, limits: Limits,
                                   paths: seq<string>, omitted: seq<string>, c: Collection)
    requires Inventory(entries, byRel) && Collects(cm, rules, entries, byRel, limits, paths, omitted, c)
    ensures c.complete <==>
              && EveryFileStored(cm, rules, entries, c)
              && forall e, r | e in entries && r in rules :: !Misses(cm, r, e)
  {
    AllPlacedIffEveryFile(cm, rules, entries, byRel, limits, paths, omitted, c);
    if c.complete {
      forall e, r | e in entries && r in rules ensures !Misses(cm, r, e) {
        assert !MissesSome(cm, rules, e);
      }
    }
  }

  /** Some path at the entry or below it matches the rule. */
  ghost predicate Hides(cm: ComponentMatcher, r: Rule, e: Entry) {
    exists below: seq<string> :: Matches(cm, SplitRel(r.pattern), SplitRel(e.rel) + below)
  }

  lemma HidesIffMisses(cm: ComponentMatcher, r: Rule, e: Entry)
    requires Opaque(e) && e.rel != "" && Exact(cm, SplitRel(r.pattern))
    ensures Hides(cm, r, e) <==> Misses(cm, r, e)
  {
    var pattern, path := SplitRel(r.pattern), SplitRel(e.rel);
    assert path + [] == path;
    assert Survives(cm, pattern, path) <==> MatchesBelow(cm, pattern, path);
    if Hides(cm, r, e) {
      var below :| Matches(cm, pattern, path + below);
      assert below == [] || MatchesBelow(cm, pattern, path);
    }
    if MatchesBelow(cm, pattern, path) {
      var below :| below != [] && Matches(cm, pattern, path + below);
    }
  }

  /** For rules on whose patterns the search is exact, a collection is called complete exactly when every
      regular file that a rule matches is stored and no path at or below an unopened entry matches a rule. */
  lemma CompleteIffNothingHidden(cm: ComponentMatcher, rules: seq<Rule>, entries: seq<Entry>, byRel: ByRel, limits: Limits,
                                 paths: seq<string>, omitted: seq<string>, c: Collection)
    requires Inventory(entries, byRel) && Collects(cm, rules, entries, byRel, limits, paths, omitted, c)
    requires forall e | e in entries :: e.rel != ""
    requires forall r | r in rules :: Satisfiable(cm, SplitRel(r.pattern)) || Barred(cm, SplitRel(r.pattern))
    ensures c.complete <==>
              && EveryFileStored(cm, rules, entries, c)
              && forall e, r | e in entries && r in rules && Opaque(e) :: !Hides(cm, r, e)
  {
    CompleteMeansNothingMissed(cm, rules, entries, byRel, limits, paths, omitted, c);
    forall e, r | e in entries && r in rules && Opaque(e) ensures Hides(cm, r, e) <==> Misses(cm, r, e) {
      ExactIffSatisfiableOrBarred(cm, SplitRel(r.pattern));
      HidesIffMisses(cm, r, e);
    }
  }

  /** So nothing that a rule matches can be hidden at or below a link or special entry. */
  lemma CompleteHidesNothing(cm: ComponentMatcher, rules: seq<Rule>, entries: seq<Entry>, byRel: ByRel, limits: Limits,
                             paths: seq<string>, omitted: seq<string>, c: Collection, e: Entry, r: Rule, below: seq<string>)
    requires Inventory(entries, byRel) && Collects(cm, rules, entries, byRel, limits, paths, omitted, c)
    requires c.complete && e in entries && Opaque(e) && r in rules
    ensures !Matches(cm, SplitRel(r.pattern), SplitRel(e.rel) + below)
  {
    CompleteMeansNothingMissed(cm, rules, entries, byRel, limits, paths, omitted, c);
    assert !Misses(cm, r, e);
    if below == [] {
      assert SplitRel(e.rel) + below == SplitRel(e.rel);
    } else if Matches(cm, SplitRel(r.pattern), SplitRel(e.rel) + below) {
      assert MatchesBelow(cm, SplitRel(r.pattern), SplitRel(e.rel));
      NothingBelowIsOverlooked(cm, SplitRel(r.pattern), SplitRel(e.rel));
    }
  }

  // ---------------------------------------------------------------- what a rule reports

  /** The entry shows in the rule's own result. */
  ghost predicate Touches(cm: ComponentMatcher, r: Rule, e: Entry) { (e.kind.Regular? && Direct(cm, r, e)) || Misses(cm, r, e) }

  predicate IsBlocked(p: PatternResult) { p.disposition.BlockedBySymlink? || p.disposition.BlockedBySpecial? }

  lemma TryReports(cm: ComponentMatcher, r: Rule, e: Entry, p: PatternResult)
    ensures var q := Tried(cm, r, e, p);
              && q.paths == p.paths + (if Touches(cm, r, e) then {e.rel} else {})
              && (q.disposition.Unmatched? <==> p.disposition.Unmatched? && !Touches(cm, r, e))
              && (IsBlocked(q) <==> IsBlocked(p) || (Opaque(e) && Reaches(cm, r, e)))
  {
  }

  ghost predicate TouchesSome(cm: ComponentMatcher, r: Rule, entries: seq<Entry>, rel: string) {
    exists e :: e in entries && e.rel == rel && Touches(cm, r, e)
  }

  lemma TouchOneMore(cm: ComponentMatcher, r: Rule, entries: seq<Entry>, e: Entry, rel: string)
    ensures TouchesSome(cm, r, entries + [e], rel) <==> TouchesSome(cm, r, entries, rel) || (e.rel == rel && Touches(cm, r, e))
  {
    assert e in entries + [e] && forall d | d in entries :: d in entries + [e];
    if TouchesSome(cm, r, entries + [e], rel) {
      var d :| d in entries + [e] && d.rel == rel && Touches(cm, r, d);
      assert d in entries || d == e;
    }
  }

  /** A rule reports exactly the paths it matched or was stopped at, and is unmatched exactly when there are none. */
  lemma {:induction false} ReportedPaths(cm: ComponentMatcher, r: Rule, entries: seq<Entry>, rel: string)
    ensures rel in Progress(cm, r, entries).paths <==> TouchesSome(cm, r, entries, rel)
    ensures Progress(cm, r, entries).disposition.Unmatched? <==> Progress(cm, r, entries).paths == {}
  {
    if entries != [] {
      var front, last := entries[..|entries| - 1], entries[|entries| - 1];
      assert entries == front + [last];
      ReportedPaths(cm, r, front, rel);
      TryReports(cm, r, last, Progress(cm, r, front));
      TouchOneMore(cm, r, front, last, rel);
    }
  }

  /** It is blocked exactly when it could reach below some entry that is not opened. */
  lemma {:induction false} ReportedBlock(cm: ComponentMatcher, r: Rule, entries: seq<Entry>)
    ensures IsBlocked(Progress(cm, r, entries)) <==> exists e :: e in entries && Opaque(e) && Reaches(cm, r, e)
  {
    if entries != [] {
      var front, last := entries[..|entries| - 1], entries[|entries| - 1];
      assert entries == front + [last];
      assert last in entries && forall e | e in front :: e in entries;
      ReportedBlock(cm, r, front);
      TryReports(cm, r, last, Progress(cm, r, front));
    }
  }
}

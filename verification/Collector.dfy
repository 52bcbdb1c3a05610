/** Collecting artifacts from an inventory: which entries the rules match or are stopped by, what is
    stored within the limits, and when the collection may be called complete. */
module Collector {
  import opened GlobMatcher
  import opened GoText
  import opened Options

  datatype Kind = Directory | Regular | Symlink | Special

  datatype Entry = Entry(rel: string, kind: Kind, size: nat, links: nat)

  datatype Rule = Rule(id: string, pattern: string, maxBytes: nat)

  datatype Limits = Limits(states: nat, single: nat, total: nat, artifacts: nat)

  datatype PatternDisposition = Unmatched | MatchedSome | BlockedBySymlink | BlockedBySpecial

  datatype PatternResult = PatternResult(disposition: PatternDisposition, paths: set<string>)

  datatype Failure = PatternFailure(cause: Outcome) | HardLinked(rel: string) | StoreFailed(rel: string) | TooManyArtifacts

  function SplitRel(rel: string): seq<string> { if rel == "" then [] else Parts(rel) }

  // ---------------------------------------------------------------- meaning: one entry and one rule

  ghost predicate Direct(cm: ComponentMatcher, r: Rule, e: Entry) { Matches(cm, SplitRel(r.pattern), SplitRel(e.rel)) }

  /** The rule could match below the entry. */
  ghost predicate Reaches(cm: ComponentMatcher, r: Rule, e: Entry) { Survives(cm, SplitRel(r.pattern), SplitRel(e.rel)) }

  predicate Opaque(e: Entry) { e.kind.Symlink? || e.kind.Special? }

  /** The entry is not opened, but the rule matches it, or could match something behind it. */
  ghost predicate Misses(cm: ComponentMatcher, r: Rule, e: Entry) { Opaque(e) && (Direct(cm, r, e) || Reaches(cm, r, e)) }

  function Mark(p: PatternResult, d: PatternDisposition, rel: string): PatternResult {
    PatternResult(if p.disposition.Unmatched? || d.BlockedBySymlink? || d.BlockedBySpecial? then d else p.disposition, p.paths + {rel})
  }

  /** What the rule's own result becomes when it is tried on an entry. */
  ghost function Tried(cm: ComponentMatcher, r: Rule, e: Entry, p: PatternResult): PatternResult {
    var q := if Reaches(cm, r, e) && e.kind.Symlink? then Mark(p, BlockedBySymlink, e.rel)
             else if Reaches(cm, r, e) && e.kind.Special? then Mark(p, BlockedBySpecial, e.rel)
             else p;
    if Direct(cm, r, e) && !e.kind.Directory? then Mark(q, MatchedSome, e.rel) else q
  }

  // ---------------------------------------------------------------- meaning: an inventory and a plan

  /** The rules that match an entry, in plan order. */
  ghost function RulesFor(cm: ComponentMatcher, rules: seq<Rule>, e: Entry): seq<Rule> {
    if rules == [] then []
    else
      var last := rules[|rules| - 1];
      RulesFor(cm, rules[..|rules| - 1], e) + if Direct(cm, last, e) then [last] else []
  }

  ghost predicate MissesSome(cm: ComponentMatcher, rules: seq<Rule>, e: Entry) { exists r | r in rules :: Misses(cm, r, e) }

  ghost predicate NothingMissed(cm: ComponentMatcher, rules: seq<Rule>, entries: seq<Entry>) {
    forall e | e in entries :: !MissesSome(cm, rules, e)
  }

  /** The entries of these kinds that some rule matches, with those rules. */
  ghost function Plan(cm: ComponentMatcher, rules: seq<Rule>, entries: seq<Entry>, regular: bool): map<string, seq<Rule>> {
    if entries == [] then map[]
    else
      var e, before := entries[|entries| - 1], Plan(cm, rules, entries[..|entries| - 1], regular);
      if (if regular then e.kind.Regular? else Opaque(e)) && RulesFor(cm, rules, e) != [] then before[e.rel := RulesFor(cm, rules, e)]
      else before
  }

  ghost function Progress(cm: ComponentMatcher, r: Rule, entries: seq<Entry>): PatternResult {
    if entries == [] then PatternResult(Unmatched, {})
    else Tried(cm, r, entries[|entries| - 1], Progress(cm, r, entries[..|entries| - 1]))
  }

  // ---------------------------------------------------------------- planning

  /** The searches of this rule on this entry run within the limit and meet no malformed component. */
  ghost predicate Answers(cm: ComponentMatcher, r: Rule, e: Entry, limits: Limits) {
    var p, q := SplitRel(r.pattern), SplitRel(e.rel); WellFormed(cm, p, q) && StateBound(|p|, |q|) <= limits.states
  }

  method TryRule(cm: ComponentMatcher, r: Rule, e: Entry, limits: Limits, p: PatternResult)
    returns (failure: Option<Failure>, direct: bool, missed: bool, q: PatternResult)
    ensures Answers(cm, r, e, limits) ==> failure.None?
    ensures failure.Some? ==> failure.value.PatternFailure? && !failure.value.cause.Found?
    ensures failure.None? ==> direct == Direct(cm, r, e) && missed == Misses(cm, r, e) && q == Tried(cm, r, e, p)
  {
    failure, direct, missed, q := None, false, false, p;
    var found, _ := MatchRelativePattern(cm, SplitRel(r.pattern), SplitRel(e.rel), limits.states);
    if !found.Found? {
      failure := Some(PatternFailure(found));
      return;
    }
    var below, _ := PatternCanMatchDescendant(cm, SplitRel(r.pattern), SplitRel(e.rel), limits.states);
    if !below.Found? {
      failure := Some(PatternFailure(below));
      return;
    }
    direct := found.matched;
    if below.matched && e.kind.Symlink? {
      q, missed := Mark(q, BlockedBySymlink, e.rel), true;
    }
    if below.matched && e.kind.Special? {
      q, missed := Mark(q, BlockedBySpecial, e.rel), true;
    }
    if direct {
      match e.kind
      case Regular =>
        q := PatternResult(if q.disposition.Unmatched? then MatchedSome else q.disposition, q.paths + {e.rel});
      case Directory =>
      case _ =>
        q, missed := Mark(q, MatchedSome, e.rel), true;
    }
  }

  /** The loop over the rules, for one entry. */
  method PlanEntry(cm: ComponentMatcher, rules: seq<Rule>, e: Entry, limits: Limits, before: seq<PatternResult>)
    returns (failure: Option<Failure>, matching: seq<Rule>, missed: bool, patterns: seq<PatternResult>)
    requires |before| == |rules|
    ensures (forall r | r in rules :: Answers(cm, r, e, limits)) ==> failure.None?
    ensures failure.None? ==> matching == RulesFor(cm, rules, e) && missed == MissesSome(cm, rules, e)
    ensures failure.None? ==> AllTried(cm, rules, e, before, patterns)
  {
    failure, matching, missed, patterns := None, [], false, before;
    for i := 0 to |rules|
      invariant failure.None? && matching == RulesFor(cm, rules[..i], e) && missed == MissesSome(cm, rules[..i], e)
      invariant |patterns| == |rules| && patterns[i..] == before[i..]
      invariant forall k | 0 <= k < i :: patterns[k] == Tried(cm, rules[k], e, before[k])
    {
      OneMoreRule(cm, rules, e, i);
      var direct, missedHere, q;
      failure, direct, missedHere, q := TryRule(cm, rules[i], e, limits, patterns[i]);
      if failure.Some? {
        assert rules[i] in rules;
        return;
      }
      patterns := patterns[i := q];
      missed := missed || missedHere;
      matching := matching + if direct then [rules[i]] else [];
    }
    assert rules[..|rules|] == rules;
  }

  lemma OneMoreRule(cm: ComponentMatcher, rules: seq<Rule>, e: Entry, i: nat)
    requires i < |rules|
    ensures RulesFor(cm, rules[..i + 1], e) == RulesFor(cm, rules[..i], e) + if Direct(cm, rules[i], e) then [rules[i]] else []
    ensures MissesSome(cm, rules[..i + 1], e) == (MissesSome(cm, rules[..i], e) || Misses(cm, rules[i], e))
  {
    assert rules[..i + 1][..i] == rules[..i] && rules[..i + 1] == rules[..i] + [rules[i]];
    assert Misses(cm, rules[i], e) ==> rules[i] in rules[..i + 1];
  }

  datatype MatchState = MatchState(regular: map<string, seq<Rule>>, omitted: map<string, seq<Rule>>, patterns: seq<PatternResult>,
                                   complete: bool)

  ghost predicate Planned(cm: ComponentMatcher, rules: seq<Rule>, entries: seq<Entry>, s: MatchState) {
    && s.regular == Plan(cm, rules, entries, true) && s.omitted == Plan(cm, rules, entries, false)
    && s.complete == NothingMissed(cm, rules, entries)
    && Progressed(cm, rules, entries, s.patterns)
  }

  ghost predicate Progressed(cm: ComponentMatcher, rules: seq<Rule>, entries: seq<Entry>, patterns: seq<PatternResult>) {
    |patterns| == |rules| && forall i | 0 <= i < |rules| :: patterns[i] == Progress(cm, rules[i], entries)
  }

  ghost predicate AllTried(cm: ComponentMatcher, rules: seq<Rule>, e: Entry, before: seq<PatternResult>, patterns: seq<PatternResult>)
    requires |before| == |rules|
  {
    |patterns| == |rules| && forall i | 0 <= i < |rules| :: patterns[i] == Tried(cm, rules[i], e, before[i])
  }

  lemma AllProgress(cm: ComponentMatcher, rules: seq<Rule>, entries: seq<Entry>, e: Entry, before: seq<PatternResult>,
                    patterns: seq<PatternResult>)
    requires Progressed(cm, rules, entries, before) && AllTried(cm, rules, e, before, patterns)
    ensures Progressed(cm, rules, entries + [e], patterns)
  {
    assert (entries + [e])[..|entries|] == entries;
  }

  ghost predicate AllAnswer(cm: ComponentMatcher, rules: seq<Rule>, entries: seq<Entry>, limits: Limits) {
    forall r, e | r in rules && e in entries :: Answers(cm, r, e, limits)
  }

  /** The state after one more entry. */
  method RecordEntry(state: MatchState, e: Entry, matching: seq<Rule>, missed: bool, patterns: seq<PatternResult>,
                     ghost cm: ComponentMatcher, ghost rules: seq<Rule>, ghost before: seq<Entry>)
    returns (next: MatchState)
    requires Planned(cm, rules, before, state) && matching == RulesFor(cm, rules, e) && missed == MissesSome(cm, rules, e)
    requires AllTried(cm, rules, e, state.patterns, patterns)
    ensures Planned(cm, rules, before + [e], next)
  {
    assert (before + [e])[..|before|] == before;
    NothingMissedSoFar(cm, rules, before, e);
    AllProgress(cm, rules, before, e, state.patterns, patterns);
    next := state.(patterns := patterns, complete := state.complete && !missed);
    if matching != [] {
      match e.kind
      case Regular =>
        next := next.(regular := next.regular[e.rel := matching]);
      case Directory =>
      case _ =>
        next := next.(omitted := next.omitted[e.rel := matching]);
    }
  }

  lemma NothingMissedSoFar(cm: ComponentMatcher, rules: seq<Rule>, before: seq<Entry>, e: Entry)
    ensures NothingMissed(cm, rules, before + [e]) <==> NothingMissed(cm, rules, before) && !MissesSome(cm, rules, e)
  {
    assert e in before + [e];
    assert forall d | d in before :: d in before + [e];
  }

  /** The loop over the inventory. */
  method PlanMatches(cm: ComponentMatcher, rules: seq<Rule>, entries: seq<Entry>, limits: Limits)
    returns (failure: Option<Failure>, state: MatchState)
    ensures AllAnswer(cm, rules, entries, limits) ==> failure.None?
    ensures failure.None? ==> Planned(cm, rules, entries, state)
  {
    failure, state := None, MatchState(map[], map[], seq(|rules|, _ => PatternResult(Unmatched, {})), true);
    for n := 0 to |entries|
      invariant failure.None? && Planned(cm, rules, entries[..n], state)
    {
      var e := entries[n];
      assert entries[..n + 1] == entries[..n] + [e];
      var matching, missed, patterns;
      failure, matching, missed, patterns := PlanEntry(cm, rules, e, limits, state.patterns);
      if failure.Some? {
        assert e in entries;
        return;
      }
      state := RecordEntry(state, e, matching, missed, patterns, cm, rules, entries[..n]);
    }
    assert entries[..|entries|] == entries;
  }

  // ---------------------------------------------------------------- storing

  datatype Disposition = Stored | OmittedLimit(limit: int) | OmittedSymlink | OmittedSpecial

  datatype Artifact = Artifact(rel: string, disposition: Disposition, size: nat, rules: seq<Rule>)

  datatype Collection = Collection(complete: bool, artifacts: seq<Artifact>, patterns: seq<PatternResult>)

  function Narrowest(rules: seq<Rule>): nat {
    if rules == [] then 0
    else
      var last, rest := rules[|rules| - 1].maxBytes, rules[..|rules| - 1];
      if rest == [] || last < Narrowest(rest) then last else Narrowest(rest)
  }

  function Min(a: int, b: int): int { if a <= b then a else b }

  /** The limit that applies to a file when this much is stored already. */
  function Applicable(rules: seq<Rule>, limits: Limits, total: int): int {
    Min(Min(Narrowest(rules), limits.single), limits.total - total)
  }

  /** What happens to a matched regular file. */
  function Place(e: Entry, rules: seq<Rule>, limits: Limits, total: int): Artifact {
    Artifact(e.rel, if e.size <= Applicable(rules, limits, total) then Stored else OmittedLimit(Applicable(rules, limits, total)), e.size,
             rules)
  }

  type ByRel = map<string, Entry>

  /** What is in the inventory under its own path, and in the plan. */
  ghost predicate Indexed(byRel: ByRel, plan: map<string, seq<Rule>>, paths: seq<string>) {
    forall p | p in paths :: p in byRel && byRel[p].rel == p && p in plan
  }

  function SizeStored(a: Artifact): nat { if a.disposition.Stored? then a.size else 0 }

  function StoredBytes(artifacts: seq<Artifact>): nat {
    if artifacts == [] then 0 else StoredBytes(artifacts[..|artifacts| - 1]) + SizeStored(artifacts[|artifacts| - 1])
  }

  /** The matched regular files, placed in path order. */
  ghost function Placed(byRel: ByRel, plan: map<string, seq<Rule>>, limits: Limits, paths: seq<string>): seq<Artifact>
    requires Indexed(byRel, plan, paths)
  {
    if paths == [] then []
    else
      var p, before := paths[|paths| - 1], Placed(byRel, plan, limits, paths[..|paths| - 1]);
      before + [Place(byRel[p], plan[p], limits, StoredBytes(before))]
  }

  function Omission(e: Entry, rules: seq<Rule>): Artifact {
    Artifact(e.rel, if e.kind.Symlink? then OmittedSymlink else OmittedSpecial, 0, rules)
  }

  ghost function Omissions(byRel: ByRel, plan: map<string, seq<Rule>>, paths: seq<string>): seq<Artifact>
    requires Indexed(byRel, plan, paths)
  {
    if paths == [] then []
    else
      var p := paths[|paths| - 1]; Omissions(byRel, plan, paths[..|paths| - 1]) + [Omission(byRel[p], plan[p])]
  }

  predicate AllStored(artifacts: seq<Artifact>) { forall i | 0 <= i < |artifacts| :: artifacts[i].disposition.Stored? }

  method NarrowestLimit(rules: seq<Rule>) returns (limit: nat)
    ensures limit == Narrowest(rules)
  {
    limit := 0;
    for i := 0 to |rules|
      invariant limit == Narrowest(rules[..i])
    {
      assert rules[..i + 1][..i] == rules[..i];
      if i == 0 || rules[i].maxBytes < limit {
        limit := rules[i].maxBytes;
      }
    }
    assert rules[..|rules|] == rules;
  }

  /** The body of the loop over the matched regular files. `storable` are the files that the sink takes
      and that did not change; any other ends the collection. */
  method PlaceFile(e: Entry, rules: seq<Rule>, limits: Limits, totalStored: nat, storable: set<string>)
    returns (failure: Option<Failure>, placed: Artifact)
    ensures failure.None? ==> placed == Place(e, rules, limits, totalStored)
    ensures failure.None? <==> e.links == 1 && IsStorable(Place(e, rules, limits, totalStored), storable)
    ensures failure.Some? ==> failure.value == if e.links != 1 then HardLinked(e.rel) else StoreFailed(e.rel)
  {
    failure, placed := None, Artifact(e.rel, Stored, e.size, rules);
    var limit := NarrowestLimit(rules);
    if e.links != 1 {
      failure := Some(HardLinked(e.rel));
    } else if e.size > limit || e.size > limits.single || e.size > limits.total - totalStored {
      var applicable := limit;
      if limits.single < applicable {
        applicable := limits.single;
      }
      var remaining := limits.total - totalStored;
      placed := placed.(disposition := OmittedLimit(if remaining < applicable then remaining else applicable));
    } else if e.rel !in storable {
      failure := Some(StoreFailed(e.rel));
    }
  }

  predicate IsStorable(a: Artifact, storable: set<string>) { a.disposition.Stored? ==> a.rel in storable }

  /** Whatever is to be stored can be. */
  predicate AllStorable(artifacts: seq<Artifact>, storable: set<string>) {
    artifacts == [] || (AllStorable(artifacts[..|artifacts| - 1], storable) && IsStorable(artifacts[|artifacts| - 1], storable))
  }

  lemma OneMoreStorable(artifacts: seq<Artifact>, a: Artifact, storable: set<string>)
    ensures AllStorable(artifacts + [a], storable) <==> AllStorable(artifacts, storable) && IsStorable(a, storable)
  {
    assert (artifacts + [a])[..|artifacts|] == artifacts;
  }

  /** The collection cannot get past these paths: one is hard-linked, or cannot be stored. */
  ghost predicate Stuck(byRel: ByRel, plan: map<string, seq<Rule>>, limits: Limits, paths: seq<string>, storable: set<string>)
    requires Indexed(byRel, plan, paths)
  {
    !(AllSingle(byRel, paths) && AllStorable(Placed(byRel, plan, limits, paths), storable))
  }

  lemma StuckOneMore(byRel: ByRel, plan: map<string, seq<Rule>>, limits: Limits, paths: seq<string>, artifacts: seq<Artifact>,
                     totalStored: nat, p: string, storable: set<string>)
    requires Indexed(byRel, plan, paths + [p]) && Indexed(byRel, plan, paths) && p in byRel && p in plan
    requires artifacts == Placed(byRel, plan, limits, paths) && totalStored == StoredBytes(artifacts) && !Stuck(byRel, plan, limits, paths, storable)
    ensures !Stuck(byRel, plan, limits, paths + [p], storable) <==>
              byRel[p].links == 1 && IsStorable(Place(byRel[p], plan[p], limits, totalStored), storable)
  {
    assert (paths + [p])[..|paths|] == paths;
    OneMoreStorable(artifacts, Place(byRel[p], plan[p], limits, totalStored), storable);
  }

  lemma {:induction false} StuckStays(byRel: ByRel, plan: map<string, seq<Rule>>, limits: Limits, paths: seq<string>,
                                      storable: set<string>, n: nat)
    requires Indexed(byRel, plan, paths) && n <= |paths| && Stuck(byRel, plan, limits, paths[..n], storable)
    ensures Stuck(byRel, plan, limits, paths, storable)
    decreases |paths| - n
  {
    if n == |paths| {
      assert paths[..n] == paths;
    } else {
      assert paths[..n + 1][..n] == paths[..n];
      var p, before := paths[n], Placed(byRel, plan, limits, paths[..n]);
      OneMoreStorable(before, Place(byRel[p], plan[p], limits, StoredBytes(before)), storable);
      StuckStays(byRel, plan, limits, paths, storable, n + 1);
    }
  }

  lemma OneMoreArtifact(artifacts: seq<Artifact>, a: Artifact)
    ensures StoredBytes(artifacts + [a]) == StoredBytes(artifacts) + SizeStored(a)
    ensures AllStored(artifacts + [a]) <==> AllStored(artifacts) && a.disposition.Stored?
  {
    assert (artifacts + [a])[..|artifacts|] == artifacts && (artifacts + [a])[|artifacts|] == a;
    assert forall i | 0 <= i < |artifacts| :: (artifacts + [a])[i] == artifacts[i];
  }

  ghost predicate AllSingle(byRel: ByRel, paths: seq<string>)
    requires forall p | p in paths :: p in byRel
  {
    paths == [] || (AllSingle(byRel, paths[..|paths| - 1]) && byRel[paths[|paths| - 1]].links == 1)
  }

  lemma {:induction false} EachIsSingle(byRel: ByRel, paths: seq<string>)
    requires forall p | p in paths :: p in byRel
    ensures AllSingle(byRel, paths) <==> forall p | p in paths :: byRel[p].links == 1
  {
    if paths != [] {
      var front, last := paths[..|paths| - 1], paths[|paths| - 1];
      assert paths == front + [last];
      EachIsSingle(byRel, front);
    }
  }

  /** What the loop below has after these paths. */
  ghost predicate Storing(byRel: ByRel, plan: map<string, seq<Rule>>, limits: Limits, paths: seq<string>,
                          artifacts: seq<Artifact>, complete: bool, totalStored: nat) {
    && Indexed(byRel, plan, paths) && AllSingle(byRel, paths) && artifacts == Placed(byRel, plan, limits, paths)
    && complete == AllStored(artifacts) && totalStored == StoredBytes(artifacts)
  }

  lemma StoringOneMore(byRel: ByRel, plan: map<string, seq<Rule>>, limits: Limits, paths: seq<string>,
                       artifacts: seq<Artifact>, complete: bool, totalStored: nat, p: string, placed: Artifact)
    requires Storing(byRel, plan, limits, paths, artifacts, complete, totalStored) && Indexed(byRel, plan, paths + [p])
    requires byRel[p].links == 1 && placed == Place(byRel[p], plan[p], limits, totalStored)
    ensures Storing(byRel, plan, limits, paths + [p], artifacts + [placed], complete && placed.disposition.Stored?,
                    totalStored + SizeStored(placed))
  {
    assert (paths + [p])[..|paths|] == paths;
    OneMoreArtifact(artifacts, placed);
  }

  method StoreRegular(byRel: ByRel, plan: map<string, seq<Rule>>, limits: Limits, paths: seq<string>, storable: set<string>)
    returns (failure: Option<Failure>, artifacts: seq<Artifact>, complete: bool)
    requires Indexed(byRel, plan, paths)
    ensures failure.None? ==> artifacts == Placed(byRel, plan, limits, paths) && complete == AllStored(artifacts)
    ensures failure.None? <==> !Stuck(byRel, plan, limits, paths, storable)
  {
    failure, artifacts, complete := None, [], true;
    var totalStored: nat := 0;
    for n := 0 to |paths|
      invariant failure.None? && Storing(byRel, plan, limits, paths[..n], artifacts, complete, totalStored)
      invariant !Stuck(byRel, plan, limits, paths[..n], storable)
    {
      var p := paths[n];
      assert p in paths && paths[..n + 1] == paths[..n] + [p];
      StuckOneMore(byRel, plan, limits, paths[..n], artifacts, totalStored, p, storable);
      var placed;
      failure, placed := PlaceFile(byRel[p], plan[p], limits, totalStored, storable);
      if failure.Some? {
        StuckStays(byRel, plan, limits, paths, storable, n + 1);
        return;
      }
      StoringOneMore(byRel, plan, limits, paths[..n], artifacts, complete, totalStored, p, placed);
      artifacts := artifacts + [placed];
      complete := complete && placed.disposition.Stored?;
      totalStored := totalStored + SizeStored(placed);
    }
    assert paths[..|paths|] == paths;
  }

  /** The loop over the entries that were matched but not opened. */
  method ListOmitted(byRel: ByRel, plan: map<string, seq<Rule>>, paths: seq<string>) returns (artifacts: seq<Artifact>)
    requires Indexed(byRel, plan, paths)
    ensures artifacts == Omissions(byRel, plan, paths)
  {
    artifacts := [];
    for n := 0 to |paths|
      invariant artifacts == Omissions(byRel, plan, paths[..n])
    {
      assert paths[..n + 1][..n] == paths[..n];
      artifacts := artifacts + [Omission(byRel[paths[n]], plan[paths[n]])];
    }
    assert paths[..|paths|] == paths;
  }

  // ---------------------------------------------------------------- the collection

  /** The inventory's index: in particular no two entries have one path. */
  ghost predicate Inventory(entries: seq<Entry>, byRel: ByRel) {
    && (forall e | e in entries :: e.rel in byRel && byRel[e.rel] == e)
    && forall p | p in byRel :: byRel[p].rel == p && byRel[p] in entries
  }

  predicate OfKind(e: Entry, regular: bool) { if regular then e.kind.Regular? else Opaque(e) }

  /** The plan of a kind holds exactly the entries of that kind that some rule matches. */
  lemma {:induction false} PlanIsMatched(cm: ComponentMatcher, rules: seq<Rule>, entries: seq<Entry>, byRel: ByRel, regular: bool)
    requires forall e | e in entries :: e.rel in byRel && byRel[e.rel] == e
    ensures var plan := Plan(cm, rules, entries, regular);
              && (forall p | p in plan :: p in byRel && byRel[p] in entries && OfKind(byRel[p], regular))
              && (forall p | p in plan :: plan[p] == RulesFor(cm, rules, byRel[p]) != [])
              && (forall e | e in entries && OfKind(e, regular) && RulesFor(cm, rules, e) != [] :: e.rel in plan)
  {
    if entries != [] {
      var front, last := entries[..|entries| - 1], entries[|entries| - 1];
      assert entries == front + [last];
      assert last in entries && forall e | e in front :: e in entries;
      PlanIsMatched(cm, rules, front, byRel, regular);
    }
  }

  /** What a collection holds: the regular files placed in path order, then what was omitted unopened. */
  ghost predicate Collects(cm: ComponentMatcher, rules: seq<Rule>, entries: seq<Entry>, byRel: ByRel, limits: Limits,
                           paths: seq<string>, omitted: seq<string>, c: Collection)
    requires Inventory(entries, byRel)
  {
    var plan, unopened := Plan(cm, rules, entries, true), Plan(cm, rules, entries, false);
    PlanIsMatched(cm, rules, entries, byRel, true);
    PlanIsMatched(cm, rules, entries, byRel, false);
    && Lists(paths, plan.Keys) && Lists(omitted, unopened.Keys)
    && c.artifacts == Placed(byRel, plan, limits, paths) + Omissions(byRel, unopened, omitted)
    && c.complete == (NothingMissed(cm, rules, entries) && AllStored(Placed(byRel, plan, limits, paths)))
    && Progressed(cm, rules, entries, c.patterns)
    && |c.artifacts| <= limits.artifacts
  }

  /** Every matched regular file has one link and can be stored, and there are not too many matches. */
  ghost predicate Collectable(cm: ComponentMatcher, rules: seq<Rule>, entries: seq<Entry>, limits: Limits, storable: set<string>) {
    && (forall e | e in entries && e.kind.Regular? && RulesFor(cm, rules, e) != [] :: e.links == 1 && e.rel in storable)
    && |Plan(cm, rules, entries, true)| + |Plan(cm, rules, entries, false)| <= limits.artifacts
  }

  lemma {:induction false} NothingSticks(byRel: ByRel, plan: map<string, seq<Rule>>, limits: Limits, paths: seq<string>, storable: set<string>)
    requires Indexed(byRel, plan, paths) && forall p | p in paths :: byRel[p].links == 1 && p in storable
    ensures !Stuck(byRel, plan, limits, paths, storable) && |Placed(byRel, plan, limits, paths)| == |paths|
  {
    if paths != [] {
      var front, p := paths[..|paths| - 1], paths[|paths| - 1];
      assert paths == front + [p];
      NothingSticks(byRel, plan, limits, front, storable);
      var before := Placed(byRel, plan, limits, front);
      OneMoreStorable(before, Place(byRel[p], plan[p], limits, StoredBytes(before)), storable);
    }
  }

  lemma {:induction false} OmissionsCount(byRel: ByRel, plan: map<string, seq<Rule>>, paths: seq<string>)
    requires Indexed(byRel, plan, paths)
    ensures |Omissions(byRel, plan, paths)| == |paths|
  {
    if paths != [] { OmissionsCount(byRel, plan, paths[..|paths| - 1]); }
  }

  method CollectFromInventory(cm: ComponentMatcher, rules: seq<Rule>, entries: seq<Entry>, byRel: ByRel, limits: Limits,
                              storable: set<string>)
    returns (failure: Option<Failure>, c: Collection, ghost paths: seq<string>, ghost omitted: seq<string>)
    requires Inventory(entries, byRel)
    ensures failure.None? ==> Collects(cm, rules, entries, byRel, limits, paths, omitted, c)
    ensures failure.None? ==> forall e | e in entries && e.kind.Regular? && RulesFor(cm, rules, e) != [] :: e.links == 1
    ensures AllAnswer(cm, rules, entries, limits) && Collectable(cm, rules, entries, limits, storable) ==> failure.None?
  {
    paths, omitted, c := [], [], Collection(false, [], []);
    var state;
    failure, state := PlanMatches(cm, rules, entries, limits);
    if failure.Some? {
      return;
    }
    PlanIsMatched(cm, rules, entries, byRel, true);
    PlanIsMatched(cm, rules, entries, byRel, false);
    var regularPaths := SortKeys(state.regular.Keys);
    var placed, complete;
    failure, placed, complete := StoreRegular(byRel, state.regular, limits, regularPaths, storable);
    EachIsSingle(byRel, regularPaths);
    if Collectable(cm, rules, entries, limits, storable) {
      NothingSticks(byRel, state.regular, limits, regularPaths, storable);
    }
    if failure.Some? {
      return;
    }
    var omittedPaths := SortKeys(state.omitted.Keys);
    var unopened := ListOmitted(byRel, state.omitted, omittedPaths);
    ListingCounts(regularPaths, state.regular.Keys);
    ListingCounts(omittedPaths, state.omitted.Keys);
    OmissionsCount(byRel, state.omitted, omittedPaths);
    var artifacts := placed + unopened;
    if |artifacts| > limits.artifacts {
      failure := Some(TooManyArtifacts);
      return;
    }
    c := Collection(state.complete && complete, artifacts, state.patterns);
    paths, omitted := regularPaths, omittedPaths;
  }
}

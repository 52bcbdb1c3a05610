/** Artifact patterns: the memoised searches of internal/artifactcollect/pattern.go against the
    meaning of a pattern, in which a `**` component stands for any run of path components. */
module GlobMatcher {

  /** What `path.Match` answers for one pattern component and one name. */
  datatype ComponentMatch = Match | NoMatch | Malformed

  type ComponentMatcher = (string, string) -> ComponentMatch

  const DOUBLE_STAR: string := "**"

  /** The answer of a search: a verdict, or one of the two errors that abandon it. */
  datatype Outcome = Found(matched: bool) | BadPattern | StateLimit

  // ---------------------------------------------------------------- meaning

  /** A `**` takes some run of leading components; any other component takes exactly one. */
  ghost predicate Matches(cm: ComponentMatcher, pattern: seq<string>, path: seq<string>)
    decreases |pattern|
  {
    if pattern == [] then path == []
    else if pattern[0] == DOUBLE_STAR then
      exists k :: 0 <= k <= |path| && Matches(cm, pattern[1..], path[k..])
    else
      path != [] && cm(pattern[0], path[0]).Match? && Matches(cm, pattern[1..], path[1..])
  }

  /** Something strictly below `path` matches the pattern. */
  ghost predicate MatchesBelow(cm: ComponentMatcher, pattern: seq<string>, path: seq<string>) {
    exists ext: seq<string> :: ext != [] && Matches(cm, pattern, path + ext)
  }

  /** Every ordinary component of the pattern is matched by at least one name. */
  ghost predicate Satisfiable(cm: ComponentMatcher, pattern: seq<string>) {
    forall i | 0 <= i < |pattern| && pattern[i] != DOUBLE_STAR ::
      exists name :: cm(pattern[i], name).Match?
  }

  /** No component test that a search over these two sequences can make reports a malformed pattern. */
  ghost predicate WellFormed(cm: ComponentMatcher, pattern: seq<string>, path: seq<string>) {
    forall i, j | 0 <= i < |pattern| && 0 <= j < |path| :: !cm(pattern[i], path[j]).Malformed?
  }

  lemma {:induction false} DoubleStarStep(cm: ComponentMatcher, pattern: seq<string>, path: seq<string>)
    requires pattern != [] && pattern[0] == DOUBLE_STAR
    ensures Matches(cm, pattern, path) <==>
            Matches(cm, pattern[1..], path) || (path != [] && Matches(cm, pattern, path[1..]))
  {
    assert path[0..] == path;
    if Matches(cm, pattern, path) {
      var k :| 0 <= k <= |path| && Matches(cm, pattern[1..], path[k..]);
      if k > 0 {
        assert path[1..][k - 1..] == path[k..];
      }
    }
    if path != [] && Matches(cm, pattern, path[1..]) {
      var k :| 0 <= k <= |path[1..]| && Matches(cm, pattern[1..], path[1..][k..]);
      assert path[1..][k..] == path[k + 1..];
    }
  }

  /** What the descendant search decides, read off its recursion: the path is used up while some of
      the pattern is left. */
  ghost predicate Survives(cm: ComponentMatcher, pattern: seq<string>, path: seq<string>)
    decreases |pattern| + |path|
  {
    if path == [] then pattern != []
    else if pattern == [] then false
    else if pattern[0] == DOUBLE_STAR then
      Survives(cm, pattern[1..], path) || Survives(cm, pattern, path[1..])
    else cm(pattern[0], path[0]).Match? && Survives(cm, pattern[1..], path[1..])
  }

  /** No false negatives, whatever the component matcher: a match below a path is never overlooked. */
  lemma {:induction false} NothingBelowIsOverlooked(cm: ComponentMatcher, pattern: seq<string>, path: seq<string>)
    requires MatchesBelow(cm, pattern, path)
    ensures Survives(cm, pattern, path)
    decreases |pattern| + |path|
  {
    var ext :| ext != [] && Matches(cm, pattern, path + ext);
    if path != [] {
      var whole := path + ext;
      assert whole[1..] == path[1..] + ext;
      if pattern[0] == DOUBLE_STAR {
        DoubleStarStep(cm, pattern, whole);
        if Matches(cm, pattern[1..], whole) {
          NothingBelowIsOverlooked(cm, pattern[1..], path);
        } else {
          NothingBelowIsOverlooked(cm, pattern, path[1..]);
        }
      } else {
        NothingBelowIsOverlooked(cm, pattern[1..], path[1..]);
      }
    }
  }

  /** A non-empty satisfiable pattern has a non-empty match. */
  lemma {:induction false} SomethingMatches(cm: ComponentMatcher, pattern: seq<string>) returns (path: seq<string>)
    requires pattern != [] && Satisfiable(cm, pattern)
    ensures path != [] && Matches(cm, pattern, path)
  {
    var rest: seq<string> := [];
    if |pattern| > 1 {
      assert forall i | 0 <= i < |pattern[1..]| :: pattern[1..][i] == pattern[i + 1];
      rest := SomethingMatches(cm, pattern[1..]);
    }
    var name := "x";
    if pattern[0] != DOUBLE_STAR {
      name :| cm(pattern[0], name).Match?;
    }
    path := [name] + rest;
    assert path[1..] == rest;
  }

  /** The descendant search answers exactly whether something strictly below the path can match. */
  lemma {:induction false} SurvivesIffMatchesBelow(cm: ComponentMatcher, pattern: seq<string>, path: seq<string>)
    requires Satisfiable(cm, pattern)
    ensures Survives(cm, pattern, path) <==> MatchesBelow(cm, pattern, path)
    decreases |pattern| + |path|
  {
    if MatchesBelow(cm, pattern, path) {
      NothingBelowIsOverlooked(cm, pattern, path);
    }
    if Survives(cm, pattern, path) {
      if path == [] {
        var ext := SomethingMatches(cm, pattern);
        assert path + ext == ext;
      } else {
        assert forall i | 0 <= i < |pattern[1..]| :: pattern[1..][i] == pattern[i + 1];
        if pattern[0] == DOUBLE_STAR && Survives(cm, pattern[1..], path) {
          SurvivesIffMatchesBelow(cm, pattern[1..], path);
          var ext :| ext != [] && Matches(cm, pattern[1..], path + ext);
          DoubleStarStep(cm, pattern, path + ext);
        } else {
          var shorter := if pattern[0] == DOUBLE_STAR then pattern else pattern[1..];
          SurvivesIffMatchesBelow(cm, shorter, path[1..]);
          var ext :| ext != [] && Matches(cm, shorter, path[1..] + ext);
          assert (path + ext)[1..] == path[1..] + ext;
          if pattern[0] == DOUBLE_STAR {
            DoubleStarStep(cm, pattern, path + ext);
          }
        }
      }
    }
  }

  lemma {:induction false} OnlySatisfiableMatches(cm: ComponentMatcher, pattern: seq<string>, path: seq<string>)
    requires Matches(cm, pattern, path)
    ensures Satisfiable(cm, pattern)
    decreases |pattern|
  {
    if pattern != [] {
      if pattern[0] == DOUBLE_STAR {
        var k :| 0 <= k <= |path| && Matches(cm, pattern[1..], path[k..]);
        OnlySatisfiableMatches(cm, pattern[1..], path[k..]);
      } else {
        OnlySatisfiableMatches(cm, pattern[1..], path[1..]);
      }
      assert forall i | 0 < i < |pattern| :: pattern[i] == pattern[1..][i - 1];
    }
  }

  /** The descendant search is right about every path but the root. */
  ghost predicate Exact(cm: ComponentMatcher, pattern: seq<string>) {
    forall path | path != [] :: Survives(cm, pattern, path) <==> MatchesBelow(cm, pattern, path)
  }

  /** The pattern begins with an ordinary component, which matches no name. */
  ghost predicate Barred(cm: ComponentMatcher, pattern: seq<string>) {
    pattern != [] && pattern[0] != DOUBLE_STAR && forall name :: !cm(pattern[0], name).Match?
  }

  /** A path at which the search gives a false alarm. */
  lemma FalseAlarm(cm: ComponentMatcher, pattern: seq<string>) returns (path: seq<string>)
    requires !Satisfiable(cm, pattern) && !Barred(cm, pattern)
    ensures path != [] && Survives(cm, pattern, path) && !MatchesBelow(cm, pattern, path)
  {
    var name := "x";
    if pattern[0] != DOUBLE_STAR {
      name :| cm(pattern[0], name).Match?;
    }
    path := [name];
    assert path[1..] == [];
    forall ext: seq<string> ensures !Matches(cm, pattern, path + ext) {
      if Matches(cm, pattern, path + ext) {
        OnlySatisfiableMatches(cm, pattern, path + ext);
        assert false;
      }
    }
  }

  /** The search is exact for satisfiable patterns, for those barred at their first component, and for no other. */
  lemma ExactIffSatisfiableOrBarred(cm: ComponentMatcher, pattern: seq<string>)
    ensures Exact(cm, pattern) <==> Satisfiable(cm, pattern) || Barred(cm, pattern)
  {
    if Satisfiable(cm, pattern) {
      forall path | path != [] ensures Survives(cm, pattern, path) <==> MatchesBelow(cm, pattern, path) {
        SurvivesIffMatchesBelow(cm, pattern, path);
      }
    } else if Barred(cm, pattern) {
      forall path | path != [] ensures !Survives(cm, pattern, path) && !MatchesBelow(cm, pattern, path) {
        if MatchesBelow(cm, pattern, path) {
          NothingBelowIsOverlooked(cm, pattern, path);
        }
      }
    } else {
      var path := FalseAlarm(cm, pattern);
    }
  }

  /** A class such as `[z-a]` matches no name, so nothing below `out` matches `out/[z-a]`; the search says otherwise. */
  lemma UnsatisfiablePatternIsAFalseAlarm()
    ensures var cm: ComponentMatcher := (component, name) => if component == name == "out" then Match else NoMatch;
            Survives(cm, ["out", "[z-a]"], ["out"]) && !MatchesBelow(cm, ["out", "[z-a]"], ["out"])
  {
    var cm: ComponentMatcher := (component, name) => if component == name == "out" then Match else NoMatch;
    var pattern, path := ["out", "[z-a]"], ["out"];
    assert pattern[1..] == ["[z-a]"] && path[1..] == [];
    assert !Satisfiable(cm, pattern) by { assert pattern[1] == "[z-a]"; }
    forall ext: seq<string> ensures !Matches(cm, pattern, path + ext) {
      if Matches(cm, pattern, path + ext) {
        OnlySatisfiableMatches(cm, pattern, path + ext);
        assert false;
      }
    }
  }

  // ---------------------------------------------------------------- the searches

  /** The most calls a search over `m` pattern and `n` path components can make. */
  function StateBound(m: nat, n: nat): nat { 1 + 2 * GridSize(m, n) }

  function GridSize(m: nat, n: nat): nat { (m + 1) * (n + 1) }

  lemma GridSizeStep(m: nat, n: nat)
    requires m > 0
    ensures GridSize(m, n) == GridSize(m - 1, n) + (n + 1)
  {
  }

  /** A position of a search: how much of the pattern and how much of the path is used up. */
  datatype Key = Key(i: nat, j: nat)

  ghost predicate InGrid(key: Key, m: nat, n: nat) { key.i <= m && key.j <= n }

  lemma {:induction false} GridIsSmall(keys: set<Key>, m: nat, n: nat)
    requires forall key | key in keys :: InGrid(key, m, n)
    ensures |keys| <= GridSize(m, n)
    decreases m
  {
    var row := set key | key in keys && key.i == m;
    var rest := keys - row;
    assert |keys| == |row| + |rest| by { assert keys == row + rest; }
    RowIsSmall(row, m, n);
    if m == 0 {
      assert rest == {};
    } else {
      GridIsSmall(rest, m - 1, n);
      GridSizeStep(m, n);
    }
  }

  lemma {:induction false} RowIsSmall(keys: set<Key>, m: nat, n: nat)
    requires forall key | key in keys :: key.i == m && key.j <= n
    ensures |keys| <= n + 1
    decreases n
  {
    var rest := keys - {Key(m, n)};
    if n == 0 {
      assert rest == {};
    } else {
      RowIsSmall(rest, m, n - 1);
    }
  }

  /** Between two moments of a search, `calls` calls at or beyond (i, j) were made directly. Every call
      costs one state; a call the memo table does not answer adds its own key and makes at most two
      further calls, so all but the direct calls are paid for by new keys. */
  ghost predicate Paid(keys0: set<Key>, states0: nat, keys1: set<Key>, states1: nat, calls: nat, i: nat, j: nat) {
    && keys0 <= keys1
    && (forall key | key in keys1 - keys0 :: i <= key.i && j <= key.j)
    && states1 <= states0 + calls + 2 * (|keys1| - |keys0|)
  }

  ghost predicate InBounds(memo: map<Key, bool>, m: nat, n: nat) {
    forall key | key in memo :: InGrid(key, m, n)
  }

  ghost predicate Agrees(memo: map<Key, bool>, meaning: iset<Key>) {
    forall key | key in memo :: memo[key] == (key in meaning)
  }

  /** Entering the key of a finished call pays for the calls it made. */
  lemma KeyPays(keys0: set<Key>, states0: nat, keys1: set<Key>, states1: nat, i: nat, j: nat)
    requires Key(i, j) !in keys1
    requires Paid(keys0, states0 + 1, keys1, states1, 2, i, j)
    ensures Paid(keys0, states0, keys1 + {Key(i, j)}, states1, 1, i, j)
  {
  }

  /** The state the recursive closures of one search share: a call counter and a memo table.
      `meaning` is the set of keys whose entry should be true. */
  class Search {
    const cm: ComponentMatcher
    const pattern: seq<string>
    const path: seq<string>
    const maxStates: nat
    ghost const meaning: iset<Key>
    ghost const hits: iset<Key>
    var states: nat
    var memo: map<Key, bool>

    constructor (cm: ComponentMatcher, pattern: seq<string>, path: seq<string>, maxStates: nat,
                 ghost meaning: iset<Key>)
      ensures this.cm == cm && this.pattern == pattern && this.path == path
      ensures this.maxStates == maxStates && this.meaning == meaning
      ensures hits == Hits(cm, pattern, path)
      ensures states == 0 && memo == map[] && Valid()
    {
      this.cm, this.pattern, this.path, this.maxStates, this.meaning := cm, pattern, path, maxStates, meaning;
      hits := Hits(cm, pattern, path);
      states, memo := 0, map[];
    }

    /** The step that the exact search takes at (i, j) is right for `meaning`. */
    ghost predicate MatchStep(i: nat, j: nat)
      requires i <= |pattern| && j <= |path|
    {
      Key(i, j) in meaning <==>
        if i == |pattern| then j == |path|
        else if pattern[i] == DOUBLE_STAR then Key(i + 1, j) in meaning || (j < |path| && Key(i, j + 1) in meaning)
        else j < |path| && Key(i, j) in hits && Key(i + 1, j + 1) in meaning
    }

    /** The step that the descendant search takes at (i, j) is right for `meaning`. */
    ghost predicate SurviveStep(i: nat, j: nat)
      requires i <= |pattern| && j <= |path|
    {
      Key(i, j) in meaning <==>
        if j == |path| then i < |pattern|
        else if i == |pattern| then false
        else if pattern[i] == DOUBLE_STAR then Key(i + 1, j) in meaning || Key(i, j + 1) in meaning
        else Key(i, j) in hits && Key(i + 1, j + 1) in meaning
    }

    ghost predicate MatchSteps() {
      hits == Hits(cm, pattern, path) && forall i: nat, j: nat | i <= |pattern| && j <= |path| :: MatchStep(i, j)
    }

    ghost predicate SurviveSteps() {
      hits == Hits(cm, pattern, path) && forall i: nat, j: nat | i <= |pattern| && j <= |path| :: SurviveStep(i, j)
    }

    ghost predicate Bounded()
      reads this
    {
      InBounds(memo, |pattern|, |path|)
    }

    ghost predicate Valid()
      reads this
    {
      Bounded() && Agrees(memo, meaning)
    }

    /** How one call at (i, j) changes the shared state, whatever its outcome. */
    twostate predicate Progress(i: nat, j: nat)
      reads this
    {
      Bounded() && old(states) < states && Paid(old(memo).Keys, old(states), memo.Keys, states, 1, i, j)
    }

    /** The same for what a call does between missing the memo table and entering its key. */
    twostate predicate Explored(i: nat, j: nat)
      reads this
    {
      && Bounded() && old(states) <= states && Key(i, j) !in memo
      && Paid(old(memo).Keys, old(states), memo.Keys, states, 2, i, j)
    }

    ghost predicate Sound(i: nat, j: nat, result: Outcome)
      reads this
    {
      match result
      case Found(b) => Valid() && b == (Key(i, j) in meaning)
      case BadPattern => !WellFormed(cm, pattern, path)
      case StateLimit => states > maxStates
    }

    method Remember(i: nat, j: nat, value: bool)
      requires i <= |pattern| && j <= |path| && Bounded()
      modifies this`memo
      ensures Bounded() && memo.Keys == old(memo).Keys + {Key(i, j)}
      ensures old(Valid()) && value == (Key(i, j) in meaning) ==> Valid()
    {
      memo := memo[Key(i, j) := value];
    }

    method TestComponent(i: nat, j: nat) returns (m: ComponentMatch)
      requires i < |pattern| && j < |path| && hits == Hits(cm, pattern, path)
      ensures m.Match? <==> Key(i, j) in hits
      ensures m.Malformed? ==> !WellFormed(cm, pattern, path)
    {
      m := cm(pattern[i], path[j]);
    }

    method MatchFrom(i: nat, j: nat) returns (result: Outcome)
      requires i <= |pattern| && j <= |path| && Valid() && MatchSteps()
      modifies this
      ensures Progress(i, j) && Sound(i, j, result)
      decreases |pattern| - i + |path| - j, 1
    {
      states := states + 1;
      if states > maxStates { return StateLimit; }
      if Key(i, j) in memo { return Found(memo[Key(i, j)]); }
      result := MatchUnseen(i, j);
      ghost var before := memo.Keys;
      Remember(i, j, result == Found(true));
      KeyPays(old(memo).Keys, old(states), before, states, i, j);
    }

    method MatchUnseen(i: nat, j: nat) returns (result: Outcome)
      requires i <= |pattern| && j <= |path| && Valid() && MatchSteps() && Key(i, j) !in memo
      modifies this
      ensures Explored(i, j) && Sound(i, j, result)
      decreases |pattern| - i + |path| - j, 0
    {
      assert MatchStep(i, j);
      if i == |pattern| {
        return Found(j == |path|);
      }
      if pattern[i] == DOUBLE_STAR {
        result := MatchFrom(i + 1, j);
        if result == Found(false) && j < |path| {
          result := MatchFrom(i, j + 1);
        }
        return;
      }
      if j >= |path| {
        return Found(false);
      }
      var m := TestComponent(i, j);
      if !m.Match? {
        return if m.Malformed? then BadPattern else Found(false);
      }
      result := MatchFrom(i + 1, j + 1);
    }

    method SurvivesFrom(i: nat, j: nat) returns (result: Outcome)
      requires i <= |pattern| && j <= |path| && Valid() && SurviveSteps()
      modifies this
      ensures Progress(i, j) && Sound(i, j, result)
      decreases |pattern| - i + |path| - j, 1
    {
      states := states + 1;
      if states > maxStates { return StateLimit; }
      if Key(i, j) in memo { return Found(memo[Key(i, j)]); }
      result := SurvivesUnseen(i, j);
      ghost var before := memo.Keys;
      Remember(i, j, result == Found(true));
      KeyPays(old(memo).Keys, old(states), before, states, i, j);
    }

    method SurvivesUnseen(i: nat, j: nat) returns (result: Outcome)
      requires i <= |pattern| && j <= |path| && Valid() && SurviveSteps() && Key(i, j) !in memo
      modifies this
      ensures Explored(i, j) && Sound(i, j, result)
      decreases |pattern| - i + |path| - j, 0
    {
      assert SurviveStep(i, j);
      if j == |path| {
        return Found(i < |pattern|);
      }
      if i == |pattern| {
        return Found(false);
      }
      if pattern[i] == DOUBLE_STAR {
        result := SurvivesFrom(i + 1, j);
        if result == Found(false) {
          result := SurvivesFrom(i, j + 1);
        }
        return;
      }
      var m := TestComponent(i, j);
      if !m.Match? {
        return if m.Malformed? then BadPattern else Found(false);
      }
      result := SurvivesFrom(i + 1, j + 1);
    }
  }

  /** The positions at which a pattern component matches a path component. */
  ghost function Hits(cm: ComponentMatcher, pattern: seq<string>, path: seq<string>): iset<Key> {
    iset key: Key | key.i < |pattern| && key.j < |path| && cm(pattern[key.i], path[key.j]).Match?
  }

  ghost function MatchesFrom(cm: ComponentMatcher, pattern: seq<string>, path: seq<string>): iset<Key> {
    iset key: Key | InGrid(key, |pattern|, |path|) && Matches(cm, pattern[key.i..], path[key.j..])
  }

  ghost function SurvivesFrom(cm: ComponentMatcher, pattern: seq<string>, path: seq<string>): iset<Key> {
    iset key: Key | InGrid(key, |pattern|, |path|) && Survives(cm, pattern[key.i..], path[key.j..])
  }

  lemma {:induction false} MatchesTakesSteps(search: Search)
    requires search.meaning == MatchesFrom(search.cm, search.pattern, search.path)
    requires search.hits == Hits(search.cm, search.pattern, search.path)
    ensures search.MatchSteps()
  {
    forall i: nat, j: nat | i <= |search.pattern| && j <= |search.path| ensures search.MatchStep(i, j) {
      var p, r := search.pattern[i..], search.path[j..];
      assert p != [] ==> p[0] == search.pattern[i] && p[1..] == search.pattern[i + 1..];
      assert r != [] ==> r[0] == search.path[j] && r[1..] == search.path[j + 1..];
      if p != [] && p[0] == DOUBLE_STAR {
        DoubleStarStep(search.cm, p, r);
      }
    }
  }

  lemma {:induction false} SurvivesTakesSteps(search: Search)
    requires search.meaning == SurvivesFrom(search.cm, search.pattern, search.path)
    requires search.hits == Hits(search.cm, search.pattern, search.path)
    ensures search.SurviveSteps()
  {
    forall i: nat, j: nat | i <= |search.pattern| && j <= |search.path| ensures search.SurviveStep(i, j) {
      var p, r := search.pattern[i..], search.path[j..];
      assert p != [] ==> p[0] == search.pattern[i] && p[1..] == search.pattern[i + 1..];
      assert r != [] ==> r[0] == search.path[j] && r[1..] == search.path[j + 1..];
    }
  }

  // The bounds that validated plans and inventories respect (limits.go, path.go).
  const MAX_PATTERN_COMPONENTS: nat := 128
  const MAX_PATH_DEPTH: nat := 128
  const MAX_PATTERN_STATES: nat := 1000000

  predicate Validated(pattern: seq<string>, path: seq<string>) {
    |pattern| <= MAX_PATTERN_COMPONENTS && |path| <= MAX_PATH_DEPTH
  }

  lemma DefaultLimitIsEnough(m: nat, n: nat)
    requires m <= MAX_PATTERN_COMPONENTS && n <= MAX_PATH_DEPTH
    ensures StateBound(m, n) <= MAX_PATTERN_STATES
  {
    assert (m + 1) * (n + 1) <= 129 * (n + 1) <= 129 * 129;
  }

  /** An artifact pattern against a path. The verdict is the meaning of the pattern, and within
      the bound on states only a malformed component can prevent one. */
  method MatchRelativePattern(cm: ComponentMatcher, pattern: seq<string>, path: seq<string>, maxStates: nat)
    returns (result: Outcome, states: nat)
    ensures result.Found? ==> result.matched == Matches(cm, pattern, path)
    ensures result.BadPattern? ==> !WellFormed(cm, pattern, path)
    ensures result.StateLimit? ==> states > maxStates
    ensures states <= StateBound(|pattern|, |path|)
    ensures StateBound(|pattern|, |path|) <= maxStates && WellFormed(cm, pattern, path) ==> result.Found?
    ensures MAX_PATTERN_STATES <= maxStates && Validated(pattern, path) && WellFormed(cm, pattern, path) ==> result.Found?
  {
    var search := new Search(cm, pattern, path, maxStates, MatchesFrom(cm, pattern, path));
    MatchesTakesSteps(search);
    result := search.MatchFrom(0, 0);
    states := search.states;
    assert pattern[0..] == pattern && path[0..] == path;
    GridIsSmall(search.memo.Keys, |pattern|, |path|);
    if Validated(pattern, path) {
      DefaultLimitIsEnough(|pattern|, |path|);
    }
  }

  /** Whether the pattern could match below a path. Under the same bound the answer is exact for a
      satisfiable pattern, and for any pattern at all a negative answer is right. */
  method PatternCanMatchDescendant(cm: ComponentMatcher, pattern: seq<string>, path: seq<string>, maxStates: nat)
    returns (result: Outcome, states: nat)
    ensures result.Found? ==> result.matched == Survives(cm, pattern, path)
    ensures result == Found(false) ==> !MatchesBelow(cm, pattern, path)
    ensures result.Found? && Satisfiable(cm, pattern) ==> result.matched == MatchesBelow(cm, pattern, path)
    ensures result.BadPattern? ==> !WellFormed(cm, pattern, path)
    ensures result.StateLimit? ==> states > maxStates
    ensures states <= StateBound(|pattern|, |path|)
    ensures StateBound(|pattern|, |path|) <= maxStates && WellFormed(cm, pattern, path) ==> result.Found?
    ensures MAX_PATTERN_STATES <= maxStates && Validated(pattern, path) && WellFormed(cm, pattern, path) ==> result.Found?
  {
    var search := new Search(cm, pattern, path, maxStates, SurvivesFrom(cm, pattern, path));
    SurvivesTakesSteps(search);
    result := search.SurvivesFrom(0, 0);
    states := search.states;
    assert pattern[0..] == pattern && path[0..] == path;
    GridIsSmall(search.memo.Keys, |pattern|, |path|);
    if Validated(pattern, path) {
      DefaultLimitIsEnough(|pattern|, |path|);
    }
    if MatchesBelow(cm, pattern, path) {
      NothingBelowIsOverlooked(cm, pattern, path);
    }
    if Satisfiable(cm, pattern) {
      SurvivesIffMatchesBelow(cm, pattern, path);
    }
  }
}

/** What a pattern means, without recursion: a match cuts the path into one piece for each component of
    the pattern, and the descendant search looks for a prefix of the pattern that matches the path. */
module GlobLaws {
  import opened GlobMatcher

  /** The names from one cut to the next are a piece for the component: any run of names for `**`, and one
      name that it matches for any other component. */
  ghost predicate Piece(cm: ComponentMatcher, component: string, path: seq<string>, start: nat, end: nat) {
    start <= end <= |path| && (component != "**" ==> end == start + 1 && cm(component, path[start]).Match?)
  }

  ghost predicate Cuts(cm: ComponentMatcher, pattern: seq<string>, path: seq<string>, cuts: seq<nat>) {
    && |cuts| == |pattern| + 1 && cuts[0] == 0 && cuts[|pattern|] == |path|
    && forall i {:trigger pattern[i]} | 0 <= i < |pattern| :: Piece(cm, pattern[i], path, cuts[i], cuts[i + 1])
  }

  lemma PieceShifts(cm: ComponentMatcher, component: string, path: seq<string>, k: nat, start: nat, end: nat)
    requires k <= |path|
    ensures Piece(cm, component, path[k..], start, end) <==> Piece(cm, component, path, start + k, end + k)
  {
  }

  lemma FirstCut(cm: ComponentMatcher, pattern: seq<string>, path: seq<string>, k: nat, rest: seq<nat>) returns (cuts: seq<nat>)
    requires pattern != [] && k <= |path| && Cuts(cm, pattern[1..], path[k..], rest) && Piece(cm, pattern[0], path, 0, k)
    ensures Cuts(cm, pattern, path, cuts)
  {
    cuts := seq(|rest| + 1, i requires 0 <= i <= |rest| => if i == 0 then 0 else rest[i - 1] + k);
    assert cuts[0] == 0 && cuts[|pattern|] == rest[|pattern| - 1] + k == |path|;
    forall i | 0 <= i < |pattern| ensures Piece(cm, pattern[i], path, cuts[i], cuts[i + 1]) {
      if i == 0 {
        assert cuts[1] == rest[0] + k == k;
      } else {
        assert pattern[1..][i - 1] == pattern[i] && Piece(cm, pattern[1..][i - 1], path[k..], rest[i - 1], rest[i]);
        PieceShifts(cm, pattern[i], path, k, rest[i - 1], rest[i]);
      }
    }
  }

  lemma {:induction false} CutsRise(cm: ComponentMatcher, pattern: seq<string>, path: seq<string>, cuts: seq<nat>, i: nat, j: nat)
    requires Cuts(cm, pattern, path, cuts) && i <= j <= |pattern|
    ensures cuts[i] <= cuts[j] <= |path|
  {
    if j > 0 {
      var n := j - 1;
      assert Piece(cm, pattern[n], path, cuts[n], cuts[n + 1]);
      if i < j { CutsRise(cm, pattern, path, cuts, i, n); }
    }
  }

  lemma LaterCuts(cm: ComponentMatcher, pattern: seq<string>, path: seq<string>, cuts: seq<nat>) returns (rest: seq<nat>)
    requires pattern != [] && Cuts(cm, pattern, path, cuts)
    ensures Piece(cm, pattern[0], path, 0, cuts[1]) && cuts[1] <= |path|
    ensures Cuts(cm, pattern[1..], path[cuts[1]..], rest)
  {
    var k := cuts[1];
    forall i | 1 <= i <= |pattern| ensures k <= cuts[i] { CutsRise(cm, pattern, path, cuts, 1, i); }
    assert Piece(cm, pattern[0], path, cuts[0], cuts[1]);
    rest := seq(|pattern|, i requires 0 <= i < |pattern| => cuts[i + 1] - k);
    forall i | 0 <= i < |pattern| - 1 ensures Piece(cm, pattern[1..][i], path[k..], rest[i], rest[i + 1]) {
      assert pattern[1..][i] == pattern[i + 1] && Piece(cm, pattern[i + 1], path, cuts[i + 1], cuts[i + 2]);
      PieceShifts(cm, pattern[i + 1], path, k, rest[i], rest[i + 1]);
    }
  }

  /** A first component and a first piece. */
  lemma MatchesByPiece(cm: ComponentMatcher, pattern: seq<string>, path: seq<string>)
    requires pattern != []
    ensures Matches(cm, pattern, path) <==>
              exists k: nat :: k <= |path| && Piece(cm, pattern[0], path, 0, k) && Matches(cm, pattern[1..], path[k..])
  {
    if Matches(cm, pattern, path) {
      var k: nat :| k <= |path| && Matches(cm, pattern[1..], path[k..]) && Piece(cm, pattern[0], path, 0, k);
    }
  }

  /** A path matches a pattern exactly when it can be cut so that every component has its piece. */
  lemma {:induction false} MatchesIffCut(cm: ComponentMatcher, pattern: seq<string>, path: seq<string>)
    ensures Matches(cm, pattern, path) <==> exists cuts :: Cuts(cm, pattern, path, cuts)
  {
    if pattern == [] {
      if path == [] { assert Cuts(cm, pattern, path, [0]); }
    } else {
      MatchesByPiece(cm, pattern, path);
      if Matches(cm, pattern, path) {
        var k: nat :| k <= |path| && Piece(cm, pattern[0], path, 0, k) && Matches(cm, pattern[1..], path[k..]);
        MatchesIffCut(cm, pattern[1..], path[k..]);
        var rest :| Cuts(cm, pattern[1..], path[k..], rest);
        var cuts := FirstCut(cm, pattern, path, k, rest);
      }
      if cuts :| Cuts(cm, pattern, path, cuts) {
        var rest := LaterCuts(cm, pattern, path, cuts);
        MatchesIffCut(cm, pattern[1..], path[cuts[1]..]);
      }
    }
  }

  // ---------------------------------------------------------------- the descendant search

  /** This many components match the path, and there is more of the pattern to match below it: another
      component, or the `**` that it ends in. */
  ghost predicate MatchesUpTo(cm: ComponentMatcher, pattern: seq<string>, path: seq<string>, k: nat) {
    k <= |pattern| && Matches(cm, pattern[..k], path) && (k < |pattern| || (k > 0 && pattern[k - 1] == "**"))
  }

  lemma {:induction false} UpToMeansSurvives(cm: ComponentMatcher, pattern: seq<string>, path: seq<string>, k: nat)
    requires MatchesUpTo(cm, pattern, path, k)
    ensures Survives(cm, pattern, path)
    decreases |pattern| + |path|
  {
    if path != [] {
      assert k > 0 && pattern[..k][0] == pattern[0] && pattern[..k][1..] == pattern[1..][..k - 1];
      if pattern[0] == DOUBLE_STAR {
        DoubleStarStep(cm, pattern[..k], path);
        if Matches(cm, pattern[..k], path[1..]) {
          UpToMeansSurvives(cm, pattern, path[1..], k);
        } else {
          UpToMeansSurvives(cm, pattern[1..], path, k - 1);
        }
      } else {
        UpToMeansSurvives(cm, pattern[1..], path[1..], k - 1);
      }
    }
  }

  lemma {:induction false} SurvivesMeansUpTo(cm: ComponentMatcher, pattern: seq<string>, path: seq<string>) returns (k: nat)
    requires Survives(cm, pattern, path)
    ensures MatchesUpTo(cm, pattern, path, k)
    decreases |pattern| + |path|
  {
    if path == [] {
      k := 0;
      assert pattern[..0] == [];
    } else if pattern[0] != DOUBLE_STAR {
      k := SurvivesMeansUpTo(cm, pattern[1..], path[1..]);
      k := k + 1;
      assert pattern[..k][1..] == pattern[1..][..k - 1];
    } else if Survives(cm, pattern[1..], path) {
      k := SurvivesMeansUpTo(cm, pattern[1..], path);
      k := k + 1;
      assert pattern[..k][1..] == pattern[1..][..k - 1];
      DoubleStarStep(cm, pattern[..k], path);
    } else {
      k := SurvivesMeansUpTo(cm, pattern, path[1..]);
      if k == 0 {
        k := 1;
        StarMatchesAll(cm, pattern[..1], path);
      } else {
        assert pattern[..k][0] == DOUBLE_STAR;
        DoubleStarStep(cm, pattern[..k], path);
      }
    }
  }

  /** A single `**` matches every path. */
  lemma StarMatchesAll(cm: ComponentMatcher, pattern: seq<string>, path: seq<string>)
    requires pattern == ["**"]
    ensures Matches(cm, pattern, path)
  {
    assert path[|path|..] == [] && pattern[1..] == [];
  }

  /** The descendant search says yes exactly when a prefix of the pattern matches the path itself and
      something of the pattern is left for what lies below. */
  lemma SurvivesIffPrefixMatches(cm: ComponentMatcher, pattern: seq<string>, path: seq<string>)
    ensures Survives(cm, pattern, path) <==> exists k: nat :: MatchesUpTo(cm, pattern, path, k)
  {
    if Survives(cm, pattern, path) { var k := SurvivesMeansUpTo(cm, pattern, path); }
    if k: nat :| MatchesUpTo(cm, pattern, path, k) { UpToMeansSurvives(cm, pattern, path, k); }
  }

  // ---------------------------------------------------------------- composing patterns

  /** The first pattern matches the path up to `k`, and the second what follows. */
  ghost predicate SplitsAt(cm: ComponentMatcher, p: seq<string>, q: seq<string>, path: seq<string>, k: nat) {
    k <= |path| && Matches(cm, p, path[..k]) && Matches(cm, q, path[k..])
  }

  lemma SplitAfterPiece(cm: ComponentMatcher, p: seq<string>, q: seq<string>, path: seq<string>, k: nat, l: nat)
    requires p != [] && k <= |path| && Piece(cm, p[0], path, 0, k) && SplitsAt(cm, p[1..], q, path[k..], l)
    ensures SplitsAt(cm, p, q, path, k + l)
  {
    var front := path[..k + l];
    assert front[k..] == path[k..][..l] && path[k + l..] == path[k..][l..];
    assert Piece(cm, p[0], front, 0, k);
    MatchesByPiece(cm, p, front);
  }

  lemma SplitBeforePiece(cm: ComponentMatcher, p: seq<string>, q: seq<string>, path: seq<string>, m: nat) returns (k: nat)
    requires p != [] && SplitsAt(cm, p, q, path, m)
    ensures k <= m <= |path| && Piece(cm, p[0], path, 0, k) && SplitsAt(cm, p[1..], q, path[k..], m - k)
  {
    var front := path[..m];
    MatchesByPiece(cm, p, front);
    k :| 0 <= k <= m && Piece(cm, p[0], front, 0, k) && Matches(cm, p[1..], front[k..]);
    assert front[k..] == path[k..][..m - k] && path[m..] == path[k..][m - k..];
  }

  /** Patterns compose: a pattern of two parts matches what its parts match one after the other. */
  lemma {:induction false} PatternsCompose(cm: ComponentMatcher, p: seq<string>, q: seq<string>, path: seq<string>)
    ensures Matches(cm, p + q, path) <==> exists k: nat :: SplitsAt(cm, p, q, path, k)
  {
    if p == [] {
      assert p + q == q && path[0..] == path && path[..0] == [];
      assert Matches(cm, q, path) ==> SplitsAt(cm, p, q, path, 0);
    } else {
      assert (p + q)[1..] == p[1..] + q;
      MatchesByPiece(cm, p + q, path);
      if Matches(cm, p + q, path) {
        var k: nat :| k <= |path| && Piece(cm, p[0], path, 0, k) && Matches(cm, p[1..] + q, path[k..]);
        PatternsCompose(cm, p[1..], q, path[k..]);
        var l: nat :| SplitsAt(cm, p[1..], q, path[k..], l);
        SplitAfterPiece(cm, p, q, path, k, l);
      }
      if m: nat :| SplitsAt(cm, p, q, path, m) {
        var k := SplitBeforePiece(cm, p, q, path, m);
        PatternsCompose(cm, p[1..], q, path[k..]);
      }
    }
  }
}

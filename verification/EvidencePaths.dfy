/** Where attempts keep their files: within the limits of a plan, no two attempts share a directory. */
module EvidencePaths {
  import opened EvidenceModel
  import opened EvidenceSession

  lemma ZeroPadIsFourDigits(n: nat)
    requires n <= 9999
    ensures n / 10 / 10 / 10 < 10
    ensures ZeroPad4(n) == [Digit(n / 10 / 10 / 10), Digit(n / 10 / 10 % 10), Digit(n / 10 % 10), Digit(n % 10)]
  {
    var tens := n / 10;
    var hundreds := tens / 10;
    var thousands := hundreds / 10;
    assert tens <= 999 && hundreds <= 99 && thousands <= 9;
    assert Digit(0) == '0';
    var d := Decimal(n);
    if tens == 0 {
      assert d == [Digit(n)];
    } else if hundreds == 0 {
      assert Decimal(tens) == [Digit(tens)];
    } else if thousands == 0 {
      assert Decimal(hundreds) == [Digit(hundreds)];
      assert Decimal(tens) == [Digit(hundreds), Digit(tens % 10)];
    } else {
      assert Decimal(thousands) == [Digit(thousands)];
      assert Decimal(hundreds) == [Digit(thousands), Digit(hundreds % 10)];
      assert Decimal(tens) == [Digit(thousands), Digit(hundreds % 10), Digit(tens % 10)];
    }
    assert d == if tens == 0 then [Digit(n)] else Decimal(tens) + [Digit(n % 10)];
  }

  lemma SameDigits(a: nat, b: nat)
    requires a / 10 / 10 / 10 == b / 10 / 10 / 10 && a / 10 / 10 % 10 == b / 10 / 10 % 10 && a / 10 % 10 == b / 10 % 10 && a % 10 == b % 10
    ensures a == b
  {
    var x, y := a / 10, b / 10;
    var v, w := x / 10, y / 10;
    assert v == 10 * (v / 10) + v % 10 && w == 10 * (w / 10) + w % 10;
    assert x == 10 * v + x % 10 && y == 10 * w + y % 10;
  }

  /** Up to repetition 9999 the directory determines the attempt. */
  lemma DirDeterminesKey(a: AttemptKey, b: AttemptKey)
    requires a.repetition <= 9999 && b.repetition <= 9999 && DirOf(a) == DirOf(b)
    ensures a == b
  {
    ZeroPadIsFourDigits(a.repetition);
    ZeroPadIsFourDigits(b.repetition);
    assert RepetitionDir(a.repetition)[11..] == ZeroPad4(a.repetition);
    assert RepetitionDir(b.repetition)[11..] == ZeroPad4(b.repetition);
    var x, y := ZeroPad4(a.repetition), ZeroPad4(b.repetition);
    assert x[0] == y[0] && x[1] == y[1] && x[2] == y[2] && x[3] == y[3];
    SameDigits(a.repetition, b.repetition);
  }

  /** Beyond it, all repetitions of a scenario would share one directory. */
  lemma LargeRepetitionsCollide(revision: Revision, scenario: string, m: nat, n: nat)
    requires m > 9999 && n > 9999
    ensures DirOf(AttemptKey(revision, scenario, m)) == DirOf(AttemptKey(revision, scenario, n))
  {
  }

  lemma {:induction false} ScenarioCounts(revision: Revision, s: ScenarioPlan, repetition: nat, base: nat, i: nat)
    requires i < |ExpandScenario(revision, s, repetition, base)|
    ensures var a := ExpandScenario(revision, s, repetition, base)[i];
            a.key == AttemptKey(revision, s.id, repetition + i) && a.ordinal == base + i + 1
    decreases i
  {
    if i > 0 {
      ScenarioCounts(revision, s, repetition + 1, base + 1, i - 1);
    }
  }

  lemma {:induction false} ScenariosCount(revision: Revision, scenarios: seq<ScenarioPlan>, base: nat, i: nat)
    requires i < |ExpandScenarios(revision, scenarios, base)|
    ensures var e := ExpandScenarios(revision, scenarios, base);
            e[i].key.repetition <= |e| && e[i].ordinal == base + i + 1
  {
    var here := ExpandScenario(revision, scenarios[0], 1, base);
    if i < |here| {
      ScenarioCounts(revision, scenarios[0], 1, base, i);
    } else {
      ScenariosCount(revision, scenarios[1..], base + |here|, i - |here|);
    }
  }

  /** Ordinals count the attempts of a plan, and no repetition exceeds their number. */
  lemma PlanCounts(plan: Plan, i: nat)
    requires i < |Expand(plan)|
    ensures Expand(plan)[i].key.repetition <= |Expand(plan)| && Expand(plan)[i].ordinal == i + 1
  {
    var base := ExpandScenarios(Base, plan.scenarios, 0);
    if i < |base| {
      ScenariosCount(Base, plan.scenarios, 0, i);
    } else {
      ScenariosCount(Head, plan.scenarios, |base|, i - |base|);
    }
  }

  /** So the attempt limit, 1280 at most, keeps the directories of any accepted plan apart. */
  lemma AcceptedPlanDirsDiffer(lim: Limits, plan: Plan, i: nat, j: nat)
    requires PlanAccepted(lim, plan) && lim.maxAttempts <= ABSOLUTE_MAX_ATTEMPTS
    requires i < |Expand(plan)| && j < |Expand(plan)| && DirOf(Expand(plan)[i].key) == DirOf(Expand(plan)[j].key)
    ensures i == j
  {
    PlanCounts(plan, i);
    PlanCounts(plan, j);
    DirDeterminesKey(Expand(plan)[i].key, Expand(plan)[j].key);
  }

  /** Writes a number's decimal digits from the end of a fixed buffer. */
  method UintToString(n: nat) returns (s: string)
    requires n < 0x1_0000_0000
    ensures s == Decimal(n)
  {
    assert Digit(0) == '0';
    if n == 0 { return "0"; }
    var b := new char[10](_ => '0');
    var i, m := b.Length, n;
    PowersOfTen();
    while m > 0
      invariant 0 <= i <= b.Length && 0 <= m < Pow10(i)
      invariant m == 0 ==> b[i..] == Decimal(n)
      invariant m > 0 ==> Decimal(n) == Decimal(m) + b[i..]
    {
      i := i - 1;
      b[i] := Digit(m % 10);
      assert b[i..] == [Digit(m % 10)] + b[i + 1..];
      m := m / 10;
    }
    assert b[i..] == Decimal(n);
    s := b[i..];
  }

  function Pow10(n: nat): nat { if n == 0 then 1 else 10 * Pow10(n - 1) }

  lemma PowersOfTen()
    ensures Pow10(10) == 10_000_000_000
  {
    assert Pow10(5) == 100_000;
    assert Pow10(9) == 1_000_000_000;
  }
}

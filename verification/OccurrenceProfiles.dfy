/** How often one variant occurred over the planned repetitions, and how repeatable that is. */
module OccurrenceProfiles {
  import opened ComparatorFacts

  datatype RepetitionFacts = RepetitionFacts(repetition: nat, coverage: Coverage, facts: nat)

  datatype Assessment = AllAssessed | SomeAssessed | NoneAssessed

  datatype Occurrence = Occurrence(repetition: nat, coverage: Assessment, known: bool, count: nat)

  datatype Repeatability = NotAssessable | SingleSample | Stable | Variable

  datatype Profile = Profile(planned: nat, complete: nat, incomplete: nat, minimum: nat, maximum: nat, total: nat,
                             coverage: Assessment, repeatability: Repeatability, repetitions: seq<Occurrence>)

  const EMPTY: Profile := Profile(0, 0, 0, 0, 0, 0, NoneAssessed, NotAssessable, [])

  function OccurrenceOf(r: RepetitionFacts): Occurrence {
    if r.coverage.Complete? then Occurrence(r.repetition, AllAssessed, true, r.facts)
    else Occurrence(r.repetition, SomeAssessed, false, 0)
  }

  function Occurrences(reps: seq<RepetitionFacts>): seq<Occurrence> { seq(|reps|, i requires 0 <= i < |reps| => OccurrenceOf(reps[i])) }

  /** The counts of the completely observed repetitions: an unknown count is not zero, it is left out. */
  function Known(reps: seq<RepetitionFacts>): seq<nat> {
    if reps == [] then []
    else
      var last := reps[|reps| - 1];
      Known(reps[..|reps| - 1]) + if last.coverage.Complete? then [last.facts] else []
  }

  function Sum(counts: seq<nat>): nat {
    if counts == [] then 0 else Sum(counts[..|counts| - 1]) + counts[|counts| - 1]
  }

  function Least(counts: seq<nat>): nat {
    if counts == [] then 0
    else
      var last := counts[|counts| - 1];
      if |counts| == 1 || last < Least(counts[..|counts| - 1]) then last else Least(counts[..|counts| - 1])
  }

  function Greatest(counts: seq<nat>): nat {
    if counts == [] then 0
    else
      var last := counts[|counts| - 1];
      if last > Greatest(counts[..|counts| - 1]) then last else Greatest(counts[..|counts| - 1])
  }

  function CoverageOf(planned: nat, complete: nat): Assessment {
    if complete == planned then AllAssessed else if complete > 0 then SomeAssessed else NoneAssessed
  }

  function RepeatabilityOf(planned: nat, complete: nat, minimum: nat, maximum: nat): Repeatability {
    if complete != planned || complete == 0 then NotAssessable
    else if complete == 1 then SingleSample
    else if minimum == maximum then Stable
    else Variable
  }

  function ProfileOf(reps: seq<RepetitionFacts>): Profile {
    var known := Known(reps);
    KnownAreSome(reps);
    Profile(|reps|, |known|, |reps| - |known|, Least(known), Greatest(known), Sum(known), CoverageOf(|reps|, |known|),
            RepeatabilityOf(|reps|, |known|, Least(known), Greatest(known)), Occurrences(reps))
  }

  /** One known count for each completely observed repetition, in order. */
  lemma {:induction false} KnownAreSome(reps: seq<RepetitionFacts>)
    ensures |Known(reps)| <= |reps|
    ensures |Known(reps)| == |reps| <==> forall i | 0 <= i < |reps| :: reps[i].coverage.Complete?
    ensures |Known(reps)| == |reps| ==> forall i | 0 <= i < |reps| :: Known(reps)[i] == reps[i].facts
    ensures forall n :: n in Known(reps) <==> exists i :: 0 <= i < |reps| && reps[i].coverage.Complete? && reps[i].facts == n
  {
    if reps != [] {
      var front, last := reps[..|reps| - 1], reps[|reps| - 1];
      KnownAreSome(front);
      assert forall n :: n in Known(reps) <==> n in Known(front) || (last.coverage.Complete? && last.facts == n);
      forall n | n in Known(reps)
        ensures exists i :: 0 <= i < |reps| && reps[i].coverage.Complete? && reps[i].facts == n
      {
        if n in Known(front) {
          var i :| 0 <= i < |front| && front[i].coverage.Complete? && front[i].facts == n;
          assert reps[i] == front[i];
        }
      }
    }
  }

  lemma {:induction false} LeastAndGreatest(counts: seq<nat>)
    requires counts != []
    ensures Least(counts) in counts && Greatest(counts) in counts
    ensures forall n | n in counts :: Least(counts) <= n <= Greatest(counts)
  {
    var front := counts[..|counts| - 1];
    assert counts == front + [counts[|counts| - 1]];
    if front != [] {
      LeastAndGreatest(front);
    }
  }

  /** Least and greatest agree exactly when all the counts do. */
  lemma AllTheSame(counts: seq<nat>)
    requires counts != []
    ensures Least(counts) == Greatest(counts) <==> forall i, j | 0 <= i < j < |counts| :: counts[i] == counts[j]
  {
    LeastAndGreatest(counts);
    if Least(counts) == Greatest(counts) {
      forall i | 0 <= i < |counts| ensures counts[i] == Least(counts) {
        assert counts[i] in counts;
      }
    }
  }

  /** What each verdict says about the repetitions. In particular one repetition is never called stable,
      and nothing is assessed while any repetition was not observed completely. */
  lemma WhatRepeatabilityMeans(reps: seq<RepetitionFacts>)
    ensures var r := ProfileOf(reps).repeatability;
            var complete := forall i | 0 <= i < |reps| :: reps[i].coverage.Complete?;
            var same := forall i, j | 0 <= i < j < |reps| :: reps[i].facts == reps[j].facts;
            && (r.NotAssessable? <==> reps == [] || !complete)
            && (r.SingleSample? <==> |reps| == 1 && complete)
            && (r.Stable? <==> |reps| >= 2 && complete && same)
            && (r.Variable? <==> |reps| >= 2 && complete && !same)
  {
    KnownAreSome(reps);
    if reps != [] && |Known(reps)| == |reps| {
      AllTheSame(Known(reps));
    }
  }

  /** The counts of a profile are those of the completely observed repetitions: how many there are, their
      sum, and the least and greatest number of facts among them. */
  lemma {:induction false} ProfileSummarises(reps: seq<RepetitionFacts>)
    ensures var p := ProfileOf(reps);
            && p.planned == |reps| && p.complete + p.incomplete == |reps|
            && (p.complete == 0 ==> p.minimum == 0 && p.maximum == 0 && p.total == 0 && forall r | r in reps :: !r.coverage.Complete?)
            && (p.complete > 0 ==>
                  && (forall r | r in reps && r.coverage.Complete? :: p.minimum <= r.facts <= p.maximum)
                  && (exists r :: r in reps && r.coverage.Complete? && r.facts == p.minimum)
                  && (exists r :: r in reps && r.coverage.Complete? && r.facts == p.maximum))
            && (p.coverage == AllAssessed <==> forall r | r in reps :: r.coverage.Complete?)
            && (p.coverage == NoneAssessed <==> reps != [] && forall r | r in reps :: !r.coverage.Complete?)
  {
    KnownAreSome(reps);
    var known := Known(reps);
    if known != [] {
      LeastAndGreatest(known);
      assert Least(known) in known && Greatest(known) in known;
    }
    forall r | r in reps && r.coverage.Complete? ensures r.facts in known {
      var i :| 0 <= i < |reps| && reps[i] == r;
    }
    assert |known| == 0 <==> forall r | r in reps :: !r.coverage.Complete? by {
      if known != [] { var n := known[0]; assert n in known; }
    }
    assert |known| == |reps| <==> forall r | r in reps :: r.coverage.Complete?;
  }

  /** One repetition more counts in exactly when it was observed completely. */
  lemma ProfileGrows(reps: seq<RepetitionFacts>, r: RepetitionFacts)
    ensures var p, q := ProfileOf(reps), ProfileOf(reps + [r]); var more := if r.coverage.Complete? then 1 else 0;
            && q.planned == p.planned + 1 && q.complete == p.complete + more && q.incomplete == p.incomplete + 1 - more
            && q.total == p.total + (if r.coverage.Complete? then r.facts else 0)
            && q.repetitions == p.repetitions + [if r.coverage.Complete? then Occurrence(r.repetition, AllAssessed, true, r.facts)
                                                 else Occurrence(r.repetition, SomeAssessed, false, 0)]
  {
    var all := reps + [r];
    assert all[..|reps|] == reps && all[..|all|] == all;
    NextRepetition(all, |reps|);
    KnownAreSome(reps);
    KnownAreSome(all);
    assert Occurrences(all)[..|reps|] == Occurrences(reps);
    assert Occurrences(all)[..|all|] == Occurrences(all);
    if r.coverage.Complete? { OneMore(Known(reps), r.facts); } else { assert Known(all) == Known(reps); }
  }

  /** Two profiles are equal exactly when they list the same repetitions with the same known counts. */
  lemma ProfileIsItsRepetitions(a: seq<RepetitionFacts>, b: seq<RepetitionFacts>)
    ensures ProfileOf(a) == ProfileOf(b) <==> Occurrences(a) == Occurrences(b)
  {
    if Occurrences(a) == Occurrences(b) {
      SameKnown(a, b);
    }
  }

  lemma {:induction false} SameKnown(a: seq<RepetitionFacts>, b: seq<RepetitionFacts>)
    requires Occurrences(a) == Occurrences(b)
    ensures Known(a) == Known(b)
  {
    assert |a| == |Occurrences(a)| == |b|;
    if a != [] {
      var n := |a| - 1;
      assert OccurrenceOf(a[n]) == Occurrences(a)[n] == Occurrences(b)[n] == OccurrenceOf(b[n]);
      assert Occurrences(a[..n]) == Occurrences(a)[..n] == Occurrences(b)[..n] == Occurrences(b[..n]);
      SameKnown(a[..n], b[..n]);
    }
  }

  lemma OneMore(counts: seq<nat>, x: nat)
    ensures Sum(counts + [x]) == Sum(counts) + x
    ensures Least(counts + [x]) == if counts == [] || x < Least(counts) then x else Least(counts)
    ensures Greatest(counts + [x]) == if x > Greatest(counts) then x else Greatest(counts)
  {
    assert (counts + [x])[..|counts|] == counts;
  }

  /** The counters of the loop below agree with the known counts so far. */
  ghost predicate Tallied(known: seq<nat>, complete: nat, minSet: bool, minimum: nat, maximum: nat, total: nat) {
    && complete == |known| && (minSet <==> complete > 0)
    && minimum == Least(known) && maximum == Greatest(known) && total == Sum(known)
  }

  lemma TallyOne(known: seq<nat>, complete: nat, minSet: bool, minimum: nat, maximum: nat, total: nat, x: nat)
    requires Tallied(known, complete, minSet, minimum, maximum, total)
    ensures Tallied(known + [x], complete + 1, true, if !minSet || x < minimum then x else minimum,
                    if x > maximum then x else maximum, total + x)
  {
    OneMore(known, x);
  }

  lemma NextRepetition(reps: seq<RepetitionFacts>, n: nat)
    requires n < |reps|
    ensures Known(reps[..n + 1]) == Known(reps[..n]) + if reps[n].coverage.Complete? then [reps[n].facts] else []
    ensures Occurrences(reps)[..n + 1] == Occurrences(reps)[..n] + [OccurrenceOf(reps[n])]
  {
    assert reps[..n + 1][..n] == reps[..n];
  }

  /** The loop that builds a profile. */
  method BuildOccurrenceProfile(reps: seq<RepetitionFacts>) returns (p: Profile)
    ensures p == ProfileOf(reps)
  {
    var complete, incomplete, minimum, maximum, total: nat, minSet := 0, 0, 0, 0, 0, false;
    var repetitions: seq<Occurrence> := [];
    for n := 0 to |reps|
      invariant Tallied(Known(reps[..n]), complete, minSet, minimum, maximum, total) && incomplete == n - complete
      invariant repetitions == Occurrences(reps)[..n]
    {
      var r := reps[n];
      NextRepetition(reps, n);
      if r.coverage.Complete? {
        TallyOne(Known(reps[..n]), complete, minSet, minimum, maximum, total, r.facts);
        complete, total := complete + 1, total + r.facts;
        if !minSet || r.facts < minimum {
          minimum, minSet := r.facts, true;
        }
        if r.facts > maximum {
          maximum := r.facts;
        }
        repetitions := repetitions + [Occurrence(r.repetition, AllAssessed, true, r.facts)];
      } else {
        incomplete := incomplete + 1;
        assert Known(reps[..n + 1]) == Known(reps[..n]);
        repetitions := repetitions + [Occurrence(r.repetition, SomeAssessed, false, 0)];
      }
    }
    assert reps[..|reps|] == reps;
    p := Profile(|reps|, complete, incomplete, minimum, maximum, total, CoverageOf(|reps|, complete),
                 RepeatabilityOf(|reps|, complete, minimum, maximum), repetitions);
  }
}

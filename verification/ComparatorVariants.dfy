/** The variants of one side of a scenario: its facts, counted together by key. */
module ComparatorVariants {
  import opened Options
  import opened ComparatorFacts
  import opened OccurrenceProfiles

  datatype Variant = Variant(kind: string, source: string, semantic: string, byRepetition: map<nat, seq<Fact>>, facts: seq<Fact>,
                             profile: Profile, anchor: string, consumed: bool, ambiguous: bool)

  /** A fact, and the repetition it was seen in. */
  datatype Sighting = Sighting(repetition: nat, fact: Fact)

  function SightingsIn(a: Attempt): (s: seq<Sighting>)
    ensures |s| == |a.facts|
  {
    seq(|a.facts|, i requires 0 <= i < |a.facts| => Sighting(a.repetition, a.facts[i]))
  }

  function Sightings(attempts: seq<Attempt>): seq<Sighting> {
    if attempts == [] then [] else Sightings(attempts[..|attempts| - 1]) + SightingsIn(attempts[|attempts| - 1])
  }

  function Keys(seen: seq<Sighting>): set<string> {
    if seen == [] then {} else Keys(seen[..|seen| - 1]) + {KeyText(seen[|seen| - 1].fact)}
  }

  /** The facts with this key, in trace order. */
  function FactsWith(seen: seq<Sighting>, k: string): (facts: seq<Fact>)
    ensures facts != [] <==> k in Keys(seen)
    ensures forall f | f in facts :: KeyText(f) == k
  {
    if seen == [] then []
    else
      var last := seen[|seen| - 1].fact;
      FactsWith(seen[..|seen| - 1], k) + if KeyText(last) == k then [last] else []
  }

  function Filed<K, T>(groups: map<K, seq<T>>, r: K): seq<T> { if r in groups then groups[r] else [] }

  function Grouped(seen: seq<Sighting>, k: string): map<nat, seq<Fact>> {
    if seen == [] then map[]
    else
      var last, before := seen[|seen| - 1], Grouped(seen[..|seen| - 1], k);
      if KeyText(last.fact) == k then before[last.repetition := Filed(before, last.repetition) + [last.fact]] else before
  }

  function Gathered(seen: seq<Sighting>, k: string): Variant
    requires k in Keys(seen)
  {
    var facts := FactsWith(seen, k);
    Variant(facts[0].kind, facts[0].source, facts[0].semantic, Grouped(seen, k), facts, EMPTY, NO_ANCHOR, false, false)
  }

  function Collected(seen: seq<Sighting>): map<string, Variant> { map k | k in Keys(seen) :: Gathered(seen, k) }

  // ---------------------------------------------------------------- building the variants

  /** The variants after one more sighting. */
  function Collect(out: map<string, Variant>, s: Sighting): map<string, Variant> {
    var f, k := s.fact, KeyText(s.fact);
    var v := if k in out then out[k] else Variant(f.kind, f.source, f.semantic, map[], [], EMPTY, NO_ANCHOR, false, false);
    out[k := v.(byRepetition := v.byRepetition[s.repetition := Filed(v.byRepetition, s.repetition) + [f]], facts := v.facts + [f])]
  }

  lemma CollectOne(seen: seq<Sighting>, s: Sighting)
    ensures Collected(seen + [s]) == Collect(Collected(seen), s)
  {
    var more := seen + [s];
    assert more[..|more| - 1] == seen;
    forall k | k in Keys(more) ensures Collected(more)[k] == Collect(Collected(seen), s)[k] {
      if k !in Keys(seen) {
        NeverGrouped(seen, k);
      }
    }
  }

  lemma {:induction false} NeverGrouped(seen: seq<Sighting>, k: string)
    requires k !in Keys(seen)
    ensures Grouped(seen, k) == map[]
  {
    if seen != [] {
      NeverGrouped(seen[..|seen| - 1], k);
    }
  }

  /** The body of the loop over an attempt's facts. */
  method CollectFact(out: map<string, Variant>, repetition: nat, f: Fact) returns (next: map<string, Variant>)
    ensures next == Collect(out, Sighting(repetition, f))
  {
    next := out;
    var k := KeyText(f);
    if k !in next {
      next := next[k := Variant(f.kind, f.source, f.semantic, map[], [], EMPTY, NO_ANCHOR, false, false)];
    }
    var v := next[k];
    var group := Filed(v.byRepetition, repetition);
    next := next[k := v.(byRepetition := v.byRepetition[repetition := group + [f]], facts := v.facts + [f])];
  }

  lemma NextSighting(before: seq<Sighting>, a: Attempt, m: nat)
    requires m < |a.facts|
    ensures before + SightingsIn(a)[..m + 1] == before + SightingsIn(a)[..m] + [Sighting(a.repetition, a.facts[m])]
  {
  }

  /** The loop over one attempt's facts. */
  method CollectAttempt(built: map<string, Variant>, a: Attempt, ghost before: seq<Sighting>) returns (out: map<string, Variant>)
    requires built == Collected(before)
    ensures out == Collected(before + SightingsIn(a))
  {
    out := built;
    assert before + SightingsIn(a)[..0] == before;
    for m := 0 to |a.facts|
      invariant out == Collected(before + SightingsIn(a)[..m])
    {
      CollectOne(before + SightingsIn(a)[..m], Sighting(a.repetition, a.facts[m]));
      NextSighting(before, a, m);
      out := CollectFact(out, a.repetition, a.facts[m]);
    }
    assert SightingsIn(a)[..|a.facts|] == SightingsIn(a);
  }

  method BuildVariants(attempts: seq<Attempt>) returns (out: map<string, Variant>)
    ensures out == Collected(Sightings(attempts))
  {
    out := map[];
    for n := 0 to |attempts|
      invariant out == Collected(Sightings(attempts[..n]))
    {
      out := CollectAttempt(out, attempts[n], Sightings(attempts[..n]));
      assert attempts[..n + 1][..n] == attempts[..n];
    }
    assert attempts[..|attempts|] == attempts;
  }

  // ---------------------------------------------------------------- profiles and anchors

  function RepetitionsOf(attempts: seq<Attempt>, v: Variant): seq<RepetitionFacts> {
    seq(|attempts|, i requires 0 <= i < |attempts| =>
      RepetitionFacts(attempts[i].repetition, attempts[i].coverage, |Filed(v.byRepetition, attempts[i].repetition)|))
  }

  /** Every variant can be anchored: its first fact carries the payload of its kind. */
  ghost predicate CanSeal(built: map<string, Variant>) {
    forall k | k in built :: built[k].facts != [] && AnchorOf(built[k].facts[0]).Some?
  }

  function Sealed(attempts: seq<Attempt>, v: Variant): Variant
    requires v.facts != [] && AnchorOf(v.facts[0]).Some?
  {
    v.(profile := ProfileOf(RepetitionsOf(attempts, v)), anchor := AnchorOf(v.facts[0]).value)
  }

  ghost function SealAll(attempts: seq<Attempt>, built: map<string, Variant>): map<string, Variant>
    requires CanSeal(built)
  {
    map k | k in built :: Sealed(attempts, built[k])
  }

  ghost predicate Anchorable(attempts: seq<Attempt>) { CanSeal(Collected(Sightings(attempts))) }

  ghost function Variants(attempts: seq<Attempt>): map<string, Variant>
    requires Anchorable(attempts)
  {
    SealAll(attempts, Collected(Sightings(attempts)))
  }

  method ProfileForVariant(attempts: seq<Attempt>, v: Variant) returns (profile: Profile)
    ensures profile == ProfileOf(RepetitionsOf(attempts, v))
  {
    var reps := [];
    for n := 0 to |attempts|
      invariant reps == RepetitionsOf(attempts, v)[..n]
    {
      var a := attempts[n];
      reps := reps + [RepetitionFacts(a.repetition, a.coverage, |Filed(v.byRepetition, a.repetition)|)];
    }
    assert reps == RepetitionsOf(attempts, v);
    profile := BuildOccurrenceProfile(reps);
  }

  ghost predicate SealedAs(attempts: seq<Attempt>, v: Variant, w: Variant) {
    v.facts != [] && AnchorOf(v.facts[0]).Some? && w == Sealed(attempts, v)
  }

  lemma EachIsSealed(attempts: seq<Attempt>, built: map<string, Variant>, out: map<string, Variant>)
    requires built.Keys == out.Keys && forall k | k in built :: SealedAs(attempts, built[k], out[k])
    ensures CanSeal(built) && out == SealAll(attempts, built)
  {
  }

  /** The loop that gives every variant its profile and anchor, over the map in any order. */
  method SealVariants(attempts: seq<Attempt>, built: map<string, Variant>) returns (sealed: Option<map<string, Variant>>)
    requires forall k | k in built :: built[k].facts != []
    ensures sealed.Some? <==> CanSeal(built)
    ensures sealed.Some? ==> sealed.value == SealAll(attempts, built)
  {
    var out, left := built, built.Keys;
    while left != {}
      invariant left <= built.Keys == out.Keys
      invariant forall k | k in out && k !in left :: SealedAs(attempts, built[k], out[k])
      invariant forall k | k in left :: out[k] == built[k]
      decreases |left|
    {
      var k :| k in left;
      var v := out[k];
      var profile := ProfileForVariant(attempts, v);
      var anchor := AnchorOf(v.facts[0]);
      if anchor.None? {
        return None;
      }
      out := out[k := v.(profile := profile, anchor := anchor.value)];
      left := left - {k};
    }
    EachIsSealed(attempts, built, out);
    return Some(out);
  }
}

/** What the comparator promises about any two sides: every variant is accounted for exactly once, the
    outcome does not depend on map order, swapping the sides mirrors it, nothing unobserved is called
    absent, and modifications pair variants one to one. */
module ComparatorLaws {
  import opened GoText
  import opened ComparatorFacts
  import opened OccurrenceProfiles
  import opened ComparatorVariants
  import opened Comparator

  // ---------------------------------------------------------------- map order does not matter

  lemma ListingIsUnique(l: Listing, m: Listing, b: Side, h: Side)
    requires ListsAll(l, b, h) && ListsAll(m, b, h)
    ensures l == m
  {
    AscendingIsUnique(l.keys, m.keys);
    AscendingIsUnique(l.anchors, m.anchors);
    AscendingIsUnique(l.bases, m.bases);
    AscendingIsUnique(l.heads, m.heads);
  }

  /** Whatever order the maps are iterated in, the records come out the same, in the same order. */
  lemma OutcomeIsDetermined(base: seq<Attempt>, head: seq<Attempt>, l: Listing, m: Listing)
    requires Anchorable(base) && Anchorable(head)
    requires ListsAll(l, Variants(base), Variants(head)) && ListsAll(m, Variants(base), Variants(head))
    ensures ScenarioDeltas(base, head, l) == ScenarioDeltas(base, head, m)
  {
    ListingIsUnique(l, m, Variants(base), Variants(head));
  }

  // ---------------------------------------------------------------- conservation

  function SeenOn(ofBase: bool, d: Delta): Observation {
    if d.OrderDelta? then Unobserved else if ofBase then d.base else d.head
  }

  /** The record shows the facts of this key on this side. */
  predicate Names(ofBase: bool, d: Delta, k: string) {
    var o := SeenOn(ofBase, d); o.Observed? && o.facts != [] && KeyText(o.facts[0]) == k
  }

  function CountNaming(ofBase: bool, ds: seq<Delta>, k: string): nat {
    if ds == [] then 0 else CountNaming(ofBase, ds[..|ds| - 1], k) + if Names(ofBase, ds[|ds| - 1], k) then 1 else 0
  }

  lemma {:induction false} CountsAdd(ofBase: bool, ds: seq<Delta>, es: seq<Delta>, k: string)
    ensures CountNaming(ofBase, ds + es, k) == CountNaming(ofBase, ds, k) + CountNaming(ofBase, es, k)
  {
    if es == [] {
      assert ds + es == ds;
    } else {
      var front := es[..|es| - 1];
      CountsAdd(ofBase, ds, front, k);
      assert (ds + es)[..|ds + es| - 1] == ds + front;
    }
  }

  lemma LastIsNew(s: seq<string>)
    requires s != [] && NoRepeats(s)
    ensures var front := s[..|s| - 1]; NoRepeats(front) && s[|s| - 1] !in front && forall k :: k in s <==> k in front || k == s[|s| - 1]
  {
    assert s == s[..|s| - 1] + [s[|s| - 1]];
  }

  lemma CountOne(ofBase: bool, d: Delta, k: string)
    ensures CountNaming(ofBase, [d], k) == if Names(ofBase, d, k) then 1 else 0
  {
    assert CountNaming(ofBase, [d][..0], k) == 0;
  }

  predicate Recounted(b: Side, h: Side, k: string) { k in b && k in h && b[k].profile != h[k].profile }

  lemma ExactNames(ofBase: bool, b: Side, h: Side, j: string, k: string)
    requires Keyed(b) && Keyed(h)
    ensures CountNaming(ofBase, ExactDelta(b, h, j), k) == if j == k && Recounted(b, h, k) then 1 else 0
  {
    if Recounted(b, h, j) {
      CountOne(ofBase, ExactDelta(b, h, j)[0], k);
      assert b[j].facts[0] in b[j].facts && h[j].facts[0] in h[j].facts;
    }
  }

  lemma {:induction false} ExactCount(ofBase: bool, b: Side, h: Side, keys: seq<string>, k: string)
    requires Keyed(b) && Keyed(h) && NoRepeats(keys)
    ensures CountNaming(ofBase, ExactDeltas(b, h, keys), k) == if k in keys && Recounted(b, h, k) then 1 else 0
  {
    if keys != [] {
      var front, last := keys[..|keys| - 1], keys[|keys| - 1];
      LastIsNew(keys);
      ExactCount(ofBase, b, h, front, k);
      ExactNames(ofBase, b, h, last, k);
      CountsAdd(ofBase, ExactDeltas(b, h, front), ExactDelta(b, h, last), k);
    }
  }

  function Own(ofBase: bool, b: Side, h: Side): Side { if ofBase then b else h }

  /** The variant is reported as modified. */
  predicate ModifiedVariant(own: Side, other: Side, k: string) {
    k in own && k !in other && own[k].anchor != NO_ANCHOR && Modifies(own, other, own[k].anchor)
  }

  lemma ModificationNames(ofBase: bool, b: Side, h: Side, a: string, k: string)
    requires Keyed(b) && Keyed(h) && a != NO_ANCHOR
    ensures CountNaming(ofBase, Modification(b, h, a), k)
         == if ModifiedVariant(Own(ofBase, b, h), Own(!ofBase, b, h), k) && Own(ofBase, b, h)[k].anchor == a then 1 else 0
  {
    var own, other := Own(ofBase, b, h), Own(!ofBase, b, h);
    CorrelationIsSymmetric(b, h, a);
    if Modifies(b, h, a) {
      var i := Only(Rivals(own, other, a));
      assert i in Rivals(own, other, a) && own[i].facts[0] in own[i].facts;
      CountOne(ofBase, Modification(b, h, a)[0], k);
      assert k in own && k !in other && own[k].anchor == a ==> k in Rivals(own, other, a);
    }
  }

  lemma {:induction false} ModificationCount(ofBase: bool, b: Side, h: Side, anchors: seq<string>, k: string)
    requires Keyed(b) && Keyed(h) && NoRepeats(anchors) && NO_ANCHOR !in anchors
    ensures CountNaming(ofBase, Modifications(b, h, anchors), k)
         == if ModifiedVariant(Own(ofBase, b, h), Own(!ofBase, b, h), k) && Own(ofBase, b, h)[k].anchor in anchors then 1 else 0
  {
    if anchors != [] {
      var front, last := anchors[..|anchors| - 1], anchors[|anchors| - 1];
      LastIsNew(anchors);
      ModificationCount(ofBase, b, h, front, k);
      ModificationNames(ofBase, b, h, last, k);
      CountsAdd(ofBase, Modifications(b, h, front), Modification(b, h, last), k);
    }
  }

  lemma LeftoverNames(ofBase: bool, side: bool, own: Side, other: Side, complete: bool, j: string, k: string)
    requires Keyed(own)
    ensures CountNaming(ofBase, Leftover(side, own, other, complete, j), k)
         == if ofBase == side && j == k && k in own && LeftOver(own, other, k) then 1 else 0
  {
    if j in own && LeftOver(own, other, j) {
      CountOne(ofBase, Leftover(side, own, other, complete, j)[0], k);
      assert own[j].facts[0] in own[j].facts;
    }
  }

  lemma {:induction false} LeftoverCount(ofBase: bool, side: bool, own: Side, other: Side, complete: bool, keys: seq<string>, k: string)
    requires Keyed(own) && NoRepeats(keys)
    ensures CountNaming(ofBase, Leftovers(side, own, other, complete, keys), k)
         == if ofBase == side && k in keys && k in own && LeftOver(own, other, k) then 1 else 0
  {
    if keys != [] {
      var front, last := keys[..|keys| - 1], keys[|keys| - 1];
      LastIsNew(keys);
      LeftoverCount(ofBase, side, own, other, complete, front, k);
      LeftoverNames(ofBase, side, own, other, complete, last, k);
      CountsAdd(ofBase, Leftovers(side, own, other, complete, front), Leftover(side, own, other, complete, last), k);
    }
  }

  /** The other side has the same variant, and it occurred alike. */
  predicate Quiet(own: Side, other: Side, k: string) { k in own && k in other && own[k].profile == other[k].profile }

  /** Conservation: a variant with an exact match of equal profile is in no record, and every other
      variant of either side is named by exactly one. */
  lemma EveryVariantOnce(ofBase: bool, b: Side, h: Side, bc: bool, hc: bool, l: Listing, k: string)
    requires Keyed(b) && Keyed(h) && ListsAll(l, b, h)
    ensures CountNaming(ofBase, VariantDeltas(b, h, bc, hc, l), k)
         == if k in Own(ofBase, b, h) && !Quiet(Own(ofBase, b, h), Own(!ofBase, b, h), k) then 1 else 0
  {
    var own, other := Own(ofBase, b, h), Own(!ofBase, b, h);
    AscendingNeverRepeats(l.keys);
    AscendingNeverRepeats(l.anchors);
    AscendingNeverRepeats(l.bases);
    AscendingNeverRepeats(l.heads);
    ExactCount(ofBase, b, h, l.keys, k);
    ModificationCount(ofBase, b, h, l.anchors, k);
    LeftoverCount(ofBase, true, b, h, hc, l.bases, k);
    LeftoverCount(ofBase, false, h, b, bc, l.heads, k);
    assert ModifiedVariant(own, other, k) ==> k in Rivals(own, other, own[k].anchor);
    CountFourParts(ofBase, b, h, bc, hc, l, k);
  }

  lemma CountFourParts(ofBase: bool, b: Side, h: Side, bc: bool, hc: bool, l: Listing, k: string)
    ensures CountNaming(ofBase, VariantDeltas(b, h, bc, hc, l), k)
         == CountNaming(ofBase, ExactDeltas(b, h, l.keys), k) + CountNaming(ofBase, Modifications(b, h, l.anchors), k)
          + CountNaming(ofBase, Leftovers(true, b, h, hc, l.bases), k) + CountNaming(ofBase, Leftovers(false, h, b, bc, l.heads), k)
  {
    var x, y, z := ExactDeltas(b, h, l.keys), Modifications(b, h, l.anchors), Leftovers(true, b, h, hc, l.bases);
    CountsAdd(ofBase, x, y, k);
    CountsAdd(ofBase, x + y, z, k);
    CountsAdd(ofBase, x + y + z, Leftovers(false, h, b, bc, l.heads), k);
  }

  /** The same for the records of a scenario: the order record names no variant. */
  lemma EveryVariantOfAScenarioOnce(ofBase: bool, base: seq<Attempt>, head: seq<Attempt>, l: Listing, k: string)
    requires Anchorable(base) && Anchorable(head) && ListsAll(l, Variants(base), Variants(head))
    ensures var own, other := Own(ofBase, Variants(base), Variants(head)), Own(!ofBase, Variants(base), Variants(head));
            CountNaming(ofBase, ScenarioDeltas(base, head, l), k) == if k in own && !Quiet(own, other, k) then 1 else 0
  {
    VariantsAreKeyed(base);
    VariantsAreKeyed(head);
    var b, h, bc, hc := Variants(base), Variants(head), AttemptsComplete(base), AttemptsComplete(head);
    EveryVariantOnce(ofBase, b, h, bc, hc, l, k);
    CountsAdd(ofBase, VariantDeltas(b, h, bc, hc, l), OrderDeltas(base, head), k);
    if OrderDeltas(base, head) != [] {
      CountOne(ofBase, OrderDeltas(base, head)[0], k);
    }
  }

  /** And for facts: a variant holds every sighting of its facts, so that one record shows them all. */
  lemma {:induction false} EveryFactIsHeld(seen: seq<Sighting>, f: Fact)
    ensures multiset(FactsWith(seen, KeyText(f)))[f] == multiset(Facts(seen))[f]
    ensures f in Facts(seen) ==> KeyText(f) in Keys(seen)
  {
    if seen != [] {
      var front, last := seen[..|seen| - 1], seen[|seen| - 1].fact;
      EveryFactIsHeld(front, f);
      assert Facts(seen) == Facts(front) + [last];
    }
  }

  function Facts(seen: seq<Sighting>): seq<Fact> { seq(|seen|, i requires 0 <= i < |seen| => seen[i].fact) }

  // ---------------------------------------------------------------- occurrence counts

  function CountOf(facts: seq<Fact>, k: string): nat {
    if facts == [] then 0 else CountOf(facts[..|facts| - 1], k) + if KeyText(facts[|facts| - 1]) == k then 1 else 0
  }

  ghost predicate DistinctRepetitions(attempts: seq<Attempt>) {
    forall i, j | 0 <= i < j < |attempts| :: attempts[i].repetition != attempts[j].repetition
  }

  lemma {:induction false} GroupSize(before: seq<Sighting>, a: Attempt, m: nat, k: string, r: nat)
    requires m <= |a.facts|
    ensures |Filed(Grouped(before + SightingsIn(a)[..m], k), r)|
         == |Filed(Grouped(before, k), r)| + if r == a.repetition then CountOf(a.facts[..m], k) else 0
  {
    if m == 0 {
      assert before + SightingsIn(a)[..0] == before;
    } else {
      GroupSize(before, a, m - 1, k, r);
      var some := before + SightingsIn(a)[..m];
      assert some[..|some| - 1] == before + SightingsIn(a)[..m - 1];
      assert a.facts[..m][..m - 1] == a.facts[..m - 1];
    }
  }

  lemma {:induction false} CountsPerRepetition(attempts: seq<Attempt>, k: string, r: nat)
    requires DistinctRepetitions(attempts)
    ensures forall i | 0 <= i < |attempts| && attempts[i].repetition == r ::
              |Filed(Grouped(Sightings(attempts), k), r)| == CountOf(attempts[i].facts, k)
    ensures (forall i | 0 <= i < |attempts| :: attempts[i].repetition != r) ==> |Filed(Grouped(Sightings(attempts), k), r)| == 0
  {
    if attempts != [] {
      var front, last := attempts[..|attempts| - 1], attempts[|attempts| - 1];
      CountsPerRepetition(front, k, r);
      GroupSize(Sightings(front), last, |last.facts|, k, r);
      assert SightingsIn(last)[..|last.facts|] == SightingsIn(last) && last.facts[..|last.facts|] == last.facts;
    }
  }

  /** The profile of a variant lists, for each complete repetition, how many of its facts carry the key. */
  lemma ProfileCountsFacts(attempts: seq<Attempt>, k: string, i: nat)
    requires Anchorable(attempts) && DistinctRepetitions(attempts) && k in Variants(attempts) && i < |attempts|
    ensures |Variants(attempts)[k].profile.repetitions| == |attempts|
    ensures Variants(attempts)[k].profile.repetitions[i]
         == if attempts[i].coverage.Complete? then Occurrence(attempts[i].repetition, AllAssessed, true, CountOf(attempts[i].facts, k))
            else Occurrence(attempts[i].repetition, SomeAssessed, false, 0)
  {
    var v := Gathered(Sightings(attempts), k);
    CountsPerRepetition(attempts, k, attempts[i].repetition);
    OccurrenceAt(attempts, v, i);
    assert Variants(attempts)[k].profile == ProfileOf(RepetitionsOf(attempts, v));
  }

  lemma OccurrenceAt(attempts: seq<Attempt>, v: Variant, i: nat)
    requires i < |attempts|
    ensures var occurrences := ProfileOf(RepetitionsOf(attempts, v)).repetitions;
              && |occurrences| == |attempts|
              && occurrences[i] == OccurrenceOf(RepetitionFacts(attempts[i].repetition, attempts[i].coverage,
                                                                |Filed(v.byRepetition, attempts[i].repetition)|))
  {
  }
}

/** Swapping the two sides of a comparison, and what a single record may be read to say. */
module ComparatorMirror {
  import opened ComparatorFacts
  import opened ComparatorVariants
  import opened Comparator
  import opened ComparatorLaws

  // ---------------------------------------------------------------- swapping the sides

  function Turned(kind: DeltaKind): DeltaKind {
    match kind
    case Added => Removed
    case Removed => Added
    case _ => kind
  }

  function Mirror(d: Delta): Delta {
    match d
    case OrderDelta(before, after) => OrderDelta(after, before)
    case VariantDelta(kind, factKind, source, anchor, changed, base, head, basis, ambiguous) =>
      VariantDelta(Turned(kind), factKind, source, anchor, changed, head, base, basis, ambiguous)
  }

  function MirrorAll(ds: seq<Delta>): seq<Delta> {
    if ds == [] then [] else MirrorAll(ds[..|ds| - 1]) + [Mirror(ds[|ds| - 1])]
  }

  lemma {:induction false} MirrorsAdd(ds: seq<Delta>, es: seq<Delta>)
    ensures MirrorAll(ds + es) == MirrorAll(ds) + MirrorAll(es)
  {
    if es == [] {
      assert ds + es == ds;
    } else {
      var front := es[..|es| - 1];
      MirrorsAdd(ds, front);
      assert (ds + es)[..|ds + es| - 1] == ds + front;
    }
  }

  lemma MirrorOne(d: Delta)
    ensures MirrorAll([d]) == [Mirror(d)]
  {
    assert [d][..0] == [];
  }

  /** Where a key is recounted, the two variants carry the same label. */
  predicate SameLabel(v: Variant, w: Variant) { v.kind == w.kind && v.source == w.source && v.anchor == w.anchor }

  predicate AgreesAt(b: Side, h: Side, k: string) { Recounted(b, h, k) ==> SameLabel(b[k], h[k]) }

  lemma MirrorExact(b: Side, h: Side, k: string)
    requires AgreesAt(b, h, k)
    ensures MirrorAll(ExactDelta(b, h, k)) == ExactDelta(h, b, k)
  {
    if Recounted(b, h, k) {
      MirrorOne(ExactDelta(b, h, k)[0]);
    }
  }

  lemma {:induction false} MirrorExacts(b: Side, h: Side, keys: seq<string>)
    requires forall k | k in keys :: AgreesAt(b, h, k)
    ensures MirrorAll(ExactDeltas(b, h, keys)) == ExactDeltas(h, b, keys)
  {
    if keys != [] {
      var front, last := keys[..|keys| - 1], keys[|keys| - 1];
      MirrorExacts(b, h, front);
      MirrorExact(b, h, last);
      MirrorsAdd(ExactDeltas(b, h, front), ExactDelta(b, h, last));
    }
  }

  lemma MirrorModification(b: Side, h: Side, a: string)
    requires Keyed(b) && Keyed(h)
    ensures MirrorAll(Modification(b, h, a)) == Modification(h, b, a)
  {
    CorrelationIsSymmetric(b, h, a);
    if Modifies(b, h, a) {
      var i, j := Only(Rivals(b, h, a)), Only(Rivals(h, b, a));
      assert i in Rivals(b, h, a) && j in Rivals(h, b, a);
      MirrorOne(Modification(b, h, a)[0]);
    }
  }

  lemma {:induction false} MirrorModifications(b: Side, h: Side, anchors: seq<string>)
    requires Keyed(b) && Keyed(h)
    ensures MirrorAll(Modifications(b, h, anchors)) == Modifications(h, b, anchors)
  {
    if anchors != [] {
      var front, last := anchors[..|anchors| - 1], anchors[|anchors| - 1];
      MirrorModifications(b, h, front);
      MirrorModification(b, h, last);
      MirrorsAdd(Modifications(b, h, front), Modification(b, h, last));
    }
  }

  lemma MirrorLeftover(side: bool, own: Side, other: Side, complete: bool, k: string)
    ensures MirrorAll(Leftover(side, own, other, complete, k)) == Leftover(!side, own, other, complete, k)
  {
    if k in own && LeftOver(own, other, k) {
      MirrorOne(Leftover(side, own, other, complete, k)[0]);
    }
  }

  lemma {:induction false} MirrorLeftovers(side: bool, own: Side, other: Side, complete: bool, keys: seq<string>)
    ensures MirrorAll(Leftovers(side, own, other, complete, keys)) == Leftovers(!side, own, other, complete, keys)
  {
    if keys != [] {
      var front, last := keys[..|keys| - 1], keys[|keys| - 1];
      MirrorLeftovers(side, own, other, complete, front);
      MirrorLeftover(side, own, other, complete, last);
      MirrorsAdd(Leftovers(side, own, other, complete, front), Leftover(side, own, other, complete, last));
    }
  }

  function Swap(l: Listing): Listing { Listing(l.keys, l.anchors, l.heads, l.bases) }

  lemma SwapLists(b: Side, h: Side, l: Listing)
    requires ListsAll(l, b, h)
    ensures ListsAll(Swap(l), h, b)
  {
  }

  lemma MirrorVariants(b: Side, h: Side, bc: bool, hc: bool, l: Listing)
    requires Keyed(b) && Keyed(h) && ListsAll(l, b, h) && forall k | k in l.keys :: AgreesAt(b, h, k)
    ensures multiset(MirrorAll(VariantDeltas(b, h, bc, hc, l))) == multiset(VariantDeltas(h, b, hc, bc, Swap(l)))
  {
    var x, y := ExactDeltas(b, h, l.keys), Modifications(b, h, l.anchors);
    var z, w := Leftovers(true, b, h, hc, l.bases), Leftovers(false, h, b, bc, l.heads);
    MirrorsAdd(x, y);
    MirrorsAdd(x + y, z);
    MirrorsAdd(x + y + z, w);
    MirrorExacts(b, h, l.keys);
    MirrorModifications(b, h, l.anchors);
    MirrorLeftovers(true, b, h, hc, l.bases);
    MirrorLeftovers(false, h, b, bc, l.heads);
    Regroup(MirrorAll(x) + MirrorAll(y), MirrorAll(z), MirrorAll(w));
  }

  lemma Regroup(x: seq<Delta>, z: seq<Delta>, w: seq<Delta>)
    ensures multiset(x + z + w) == multiset(x + w + z)
  {
  }

  lemma MirrorOrder(base: seq<Attempt>, head: seq<Attempt>)
    ensures MirrorAll(OrderDeltas(base, head)) == OrderDeltas(head, base) && OnlyOrders(OrderDeltas(head, base))
  {
    if OrderDeltas(base, head) != [] {
      MirrorOne(OrderDeltas(base, head)[0]);
    }
  }

  // ---------------------------------------------------------------- where a record comes from

  lemma {:induction false} ExactIsIn(b: Side, h: Side, keys: seq<string>, k: string)
    requires k in keys && Recounted(b, h, k)
    ensures ExactDelta(b, h, k)[0] in ExactDeltas(b, h, keys)
  {
    var front, last := keys[..|keys| - 1], keys[|keys| - 1];
    assert keys == front + [last];
    if k != last {
      ExactIsIn(b, h, front, k);
    }
  }

  lemma {:induction false} FromExact(b: Side, h: Side, keys: seq<string>, d: Delta) returns (k: string)
    requires d in ExactDeltas(b, h, keys)
    ensures Recounted(b, h, k) && d == ExactDelta(b, h, k)[0]
  {
    var front, last := keys[..|keys| - 1], keys[|keys| - 1];
    if d in ExactDeltas(b, h, front) {
      k := FromExact(b, h, front, d);
    } else {
      k := last;
    }
  }

  lemma FromOneModification(b: Side, h: Side, a: string, d: Delta)
    requires d in Modification(b, h, a)
    ensures Modifies(b, h, a) && d == Modification(b, h, a)[0]
  {
  }

  lemma {:induction false} FromModification(b: Side, h: Side, anchors: seq<string>, d: Delta) returns (a: string)
    requires d in Modifications(b, h, anchors)
    ensures a in anchors && Modifies(b, h, a) && d == Modification(b, h, a)[0]
  {
    var front, last := anchors[..|anchors| - 1], anchors[|anchors| - 1];
    assert anchors == front + [last];
    if d in Modifications(b, h, front) {
      a := FromModification(b, h, front, d);
    } else {
      assert d in Modification(b, h, last);
      a := last;
      FromOneModification(b, h, a, d);
    }
  }

  lemma {:induction false} FromLeftover(side: bool, own: Side, other: Side, complete: bool, keys: seq<string>, d: Delta) returns (k: string)
    requires d in Leftovers(side, own, other, complete, keys)
    ensures k in own && LeftOver(own, other, k) && d == Leftover(side, own, other, complete, k)[0]
  {
    var front, last := keys[..|keys| - 1], keys[|keys| - 1];
    if d in Leftovers(side, own, other, complete, front) {
      k := FromLeftover(side, own, other, complete, front, d);
    } else {
      k := last;
    }
  }

  lemma {:induction false} NamedIsCounted(ofBase: bool, ds: seq<Delta>, d: Delta, k: string)
    requires d in ds && Names(ofBase, d, k)
    ensures CountNaming(ofBase, ds, k) >= 1
  {
    var front, last := ds[..|ds| - 1], ds[|ds| - 1];
    assert ds == front + [last];
    if d != last {
      NamedIsCounted(ofBase, front, d, k);
    }
  }

  lemma {:induction false} NamedOnce(ofBase: bool, ds: seq<Delta>, d: Delta, e: Delta, k: string)
    requires d in ds && e in ds && Names(ofBase, d, k) && Names(ofBase, e, k) && CountNaming(ofBase, ds, k) <= 1
    ensures d == e
  {
    var front, last := ds[..|ds| - 1], ds[|ds| - 1];
    assert ds == front + [last];
    if d in front {
      NamedIsCounted(ofBase, front, d, k);
      if e in front {
        NamedOnce(ofBase, front, d, e, k);
      }
    } else if e in front {
      NamedIsCounted(ofBase, front, e, k);
    }
  }

  lemma {:induction false} MirrorIsIn(ds: seq<Delta>, d: Delta)
    requires d in ds
    ensures Mirror(d) in MirrorAll(ds)
  {
    var front, last := ds[..|ds| - 1], ds[|ds| - 1];
    assert ds == front + [last];
    if d in front {
      MirrorIsIn(front, d);
    }
  }

  /** The same records up to their order, with the sides exchanged. */
  ghost predicate MirrorsInto(ds: seq<Delta>, es: seq<Delta>) { multiset(MirrorAll(ds)) == multiset(es) }

  /** A recounted pair is the one record of its key, so mirroring it must give the one record of the
      swapped comparison. */
  lemma MirrorNeedsAgreement(b: Side, h: Side, bc: bool, hc: bool, l: Listing, rest: seq<Delta>, tser: seq<Delta>, k: string)
    requires Keyed(b) && Keyed(h) && ListsAll(l, b, h) && Recounted(b, h, k)
    requires OnlyOrders(tser)
    requires multiset(MirrorAll(VariantDeltas(b, h, bc, hc, l) + rest)) == multiset(VariantDeltas(h, b, hc, bc, Swap(l)) + tser)
    ensures SameLabel(b[k], h[k])
  {
    var d, e := ExactDelta(b, h, k)[0], ExactDelta(h, b, k)[0];
    var mine, theirs := VariantDeltas(b, h, bc, hc, l) + rest, VariantDeltas(h, b, hc, bc, Swap(l)) + tser;
    ExactIsIn(b, h, l.keys, k);
    assert d in mine;
    MirrorIsIn(mine, d);
    assert Mirror(d) in multiset(MirrorAll(mine));
    assert Mirror(d) in theirs;
    SwapLists(b, h, l);
    ExactIsIn(h, b, Swap(l).keys, k);
    EveryVariantOnce(true, h, b, hc, bc, Swap(l), k);
    assert b[k].facts[0] in b[k].facts && h[k].facts[0] in h[k].facts;
    NamedOnce(true, VariantDeltas(h, b, hc, bc, Swap(l)), Mirror(d), e, k);
  }

  ghost predicate OnlyOrders(ds: seq<Delta>) { forall d | d in ds :: d.OrderDelta? }

  ghost predicate SameTypings(b: Side, h: Side) { forall k | k in b && k in h :: SameTyping(b[k], h[k]) }

  ghost predicate AnchorsAgree(b: Side, h: Side) { forall k | Recounted(b, h, k) :: b[k].anchor == h[k].anchor }

  lemma MirrorIff(b: Side, h: Side, bc: bool, hc: bool, l: Listing, order: seq<Delta>, turned: seq<Delta>)
    requires Keyed(b) && Keyed(h) && ListsAll(l, b, h) && MirrorAll(order) == turned && OnlyOrders(turned)
    requires SameTypings(b, h)
    ensures MirrorsInto(WithOrder(b, h, bc, hc, l, order), WithOrder(h, b, hc, bc, Swap(l), turned))
       <==> AnchorsAgree(b, h)
  {
    MirrorsAdd(VariantDeltas(b, h, bc, hc, l), order);
    if AnchorsAgree(b, h) {
      MirrorVariants(b, h, bc, hc, l);
    } else {
      var k :| Recounted(b, h, k) && b[k].anchor != h[k].anchor;
      if MirrorsInto(WithOrder(b, h, bc, hc, l, order), WithOrder(h, b, hc, bc, Swap(l), turned)) {
        MirrorNeedsAgreement(b, h, bc, hc, l, order, turned, k);
        assert false;
      }
    }
  }

  ghost predicate ValidTrace(attempts: seq<Attempt>) { forall i | 0 <= i < |Sightings(attempts)| :: ValidFact(Sightings(attempts)[i].fact) }

  lemma {:induction false} HeldIsSeen(seen: seq<Sighting>, k: string, f: Fact) returns (i: nat)
    requires f in FactsWith(seen, k)
    ensures i < |seen| && seen[i].fact == f
  {
    var front := seen[..|seen| - 1];
    if f in FactsWith(front, k) {
      i := HeldIsSeen(front, k, f);
    } else {
      i := |seen| - 1;
    }
  }

  /** A fact of each trace with this key, the first one. */
  lemma FirstSightings(base: seq<Attempt>, head: seq<Attempt>, k: string) returns (i: nat, j: nat)
    requires Anchorable(base) && Anchorable(head) && k in Variants(base) && k in Variants(head)
    ensures i < |Sightings(base)| && Sightings(base)[i].fact == FactsWith(Sightings(base), k)[0]
    ensures j < |Sightings(head)| && Sightings(head)[j].fact == FactsWith(Sightings(head), k)[0]
    ensures KeyText(Sightings(base)[i].fact) == KeyText(Sightings(head)[j].fact)
  {
    var f, g := FactsWith(Sightings(base), k)[0], FactsWith(Sightings(head), k)[0];
    assert f in FactsWith(Sightings(base), k) && g in FactsWith(Sightings(head), k);
    i := HeldIsSeen(Sightings(base), k, f);
    j := HeldIsSeen(Sightings(head), k, g);
  }

  /** In valid traces the key settles kind, source and digest of a variant. */
  lemma KeySettlesVariant(base: seq<Attempt>, head: seq<Attempt>, k: string)
    requires Anchorable(base) && Anchorable(head) && ValidTrace(base) && ValidTrace(head)
    requires k in Variants(base) && k in Variants(head)
    ensures var v, w := Variants(base)[k], Variants(head)[k]; v.kind == w.kind && v.source == w.source && v.semantic == w.semantic
  {
    var i, j := FirstSightings(base, head, k);
    KeyTellsFactsApart(Sightings(base)[i].fact, Sightings(head)[j].fact);
  }

  lemma KeysSettleVariants(base: seq<Attempt>, head: seq<Attempt>)
    requires Anchorable(base) && Anchorable(head) && ValidTrace(base) && ValidTrace(head)
    ensures SameTypings(Variants(base), Variants(head))
  {
    var b, h := Variants(base), Variants(head);
    forall k | k in b && k in h ensures SameTyping(b[k], h[k]) {
      KeySettlesVariant(base, head, k);
    }
  }

  /** The records of the swapped comparison are the mirrored ones. */
  ghost predicate SwappingMirrors(base: seq<Attempt>, head: seq<Attempt>, l: Listing)
    requires Anchorable(base) && Anchorable(head)
  {
    MirrorsInto(ScenarioDeltas(base, head, l), ScenarioDeltas(head, base, Swap(l)))
  }

  lemma SwapUnfolds(base: seq<Attempt>, head: seq<Attempt>, l: Listing, b: Side, h: Side)
    requires Anchorable(base) && Anchorable(head) && b == Variants(base) && h == Variants(head)
    ensures var bc, hc := AttemptsComplete(base), AttemptsComplete(head);
              SwappingMirrors(base, head, l)
              == MirrorsInto(WithOrder(b, h, bc, hc, l, OrderDeltas(base, head)), WithOrder(h, b, hc, bc, Swap(l), OrderDeltas(head, base)))
  {
  }

  lemma SwappingMirrorsIff(base: seq<Attempt>, head: seq<Attempt>, l: Listing, b: Side, h: Side)
    requires Anchorable(base) && Anchorable(head) && b == Variants(base) && h == Variants(head) && Keyed(b) && Keyed(h)
    requires ListsAll(l, b, h) && SameTypings(b, h)
    ensures SwappingMirrors(base, head, l) <==> AnchorsAgree(b, h)
  {
    SwapUnfolds(base, head, l, b, h);
    MirrorOrder(base, head);
    MirrorIff(b, h, AttemptsComplete(base), AttemptsComplete(head), l, OrderDeltas(base, head), OrderDeltas(head, base));
  }

  /** A pair record carries the head's anchor, so swapping the sides mirrors the records exactly when no
      recounted key has facts of different anchors on the two sides. Nothing is asked of the digests here. */
  lemma SwapMirrorsIff(base: seq<Attempt>, head: seq<Attempt>, l: Listing)
    requires Anchorable(base) && Anchorable(head) && ValidTrace(base) && ValidTrace(head)
    requires ListsAll(l, Variants(base), Variants(head))
    ensures SwappingMirrors(base, head, l) <==> AnchorsAgree(Variants(base), Variants(head))
  {
    KeysSettleVariants(base, head);
    VariantsAreKeyed(base);
    VariantsAreKeyed(head);
    SwappingMirrorsIff(base, head, l, Variants(base), Variants(head));
  }

  /** Between the two traces, equal semantic digests come from equal contents. */
  ghost predicate DigestsSettleBetween(base: seq<Attempt>, head: seq<Attempt>) {
    forall i, j | 0 <= i < |Sightings(base)| && 0 <= j < |Sightings(head)| :: DigestsSettle(Sightings(base)[i].fact, Sightings(head)[j].fact)
  }

  lemma DigestsSettleAnchors(base: seq<Attempt>, head: seq<Attempt>)
    requires Anchorable(base) && Anchorable(head) && ValidTrace(base) && ValidTrace(head) && DigestsSettleBetween(base, head)
    ensures AnchorsAgree(Variants(base), Variants(head))
  {
    forall k | Recounted(Variants(base), Variants(head), k) ensures Variants(base)[k].anchor == Variants(head)[k].anchor {
      var i, j := FirstSightings(base, head, k);
      KeySettlesAnchor(Sightings(base)[i].fact, Sightings(head)[j].fact);
    }
  }

  /** Swapping the sides mirrors the records, on every pair of normalised traces. */
  lemma SwapMirrors(base: seq<Attempt>, head: seq<Attempt>, l: Listing)
    requires Anchorable(base) && Anchorable(head) && ValidTrace(base) && ValidTrace(head) && DigestsSettleBetween(base, head)
    requires ListsAll(l, Variants(base), Variants(head))
    ensures ListsAll(Swap(l), Variants(head), Variants(base)) && SwappingMirrors(base, head, l)
  {
    DigestsSettleAnchors(base, head);
    SwapMirrorsIff(base, head, l);
    SwapLists(Variants(base), Variants(head), l);
  }

  // ---------------------------------------------------------------- what a record says

  /** The record names a key that the one side has and the other lacks. */
  ghost predicate NamesOneOf(ofBase: bool, d: Delta, has: set<string>, lacks: set<string>) {
    exists k :: Names(ofBase, d, k) && k in has && k !in lacks
  }

  /** What the kind of a record says of the two sides, of which the keys and the completeness are given. */
  ghost predicate SaysNoMore(d: Delta, base: set<string>, head: set<string>, bc: bool, hc: bool)
    requires d.VariantDelta?
  {
    match d.kind
    case Added => bc && d.base.Unobserved? && d.head.Observed? && NamesOneOf(false, d, head, base)
    case Removed => hc && d.head.Unobserved? && d.base.Observed? && NamesOneOf(true, d, base, head)
    case CoverageChanged =>
      && (d.base.Unobserved? ==> !bc) && (d.head.Unobserved? ==> !hc)
      && (d.base.Unobserved? <==> !d.head.Unobserved?) && d.basis == CoverageLimited
    case _ => true
  }

  lemma VariantIsNoOrder(base: seq<Attempt>, head: seq<Attempt>, l: Listing, d: Delta)
    requires Anchorable(base) && Anchorable(head) && d in ScenarioDeltas(base, head, l) && d.VariantDelta?
    ensures d in VariantDeltas(Variants(base), Variants(head), AttemptsComplete(base), AttemptsComplete(head), l)
  {
    assert forall o | o in OrderDeltas(base, head) :: o.OrderDelta?;
  }

  /** Unknown is not absence: a record calls something added or removed only if the other side has
      attempts, all of them complete, and none of them shows the key. Otherwise the observation is kept as
      a coverage change. */
  lemma UnknownIsNotAbsence(base: seq<Attempt>, head: seq<Attempt>, l: Listing, d: Delta)
    requires Anchorable(base) && Anchorable(head) && d in ScenarioDeltas(base, head, l) && d.VariantDelta?
    ensures SaysNoMore(d, Keys(Sightings(base)), Keys(Sightings(head)), AttemptsComplete(base), AttemptsComplete(head))
  {
    VariantsAreKeyed(base);
    VariantsAreKeyed(head);
    VariantIsNoOrder(base, head, l, d);
    VariantSays(Variants(base), Variants(head), AttemptsComplete(base), AttemptsComplete(head), l, d);
  }

  lemma LeftoverSays(ofBase: bool, own: Side, other: Side, complete: bool, k: string)
    requires Keyed(own) && k in own && LeftOver(own, other, k)
    ensures var d := Leftover(ofBase, own, other, complete, k)[0];
              && d.VariantDelta?
              && if ofBase then SaysNoMore(d, own.Keys, other.Keys, true, complete)
                 else SaysNoMore(d, other.Keys, own.Keys, complete, true)
  {
    var d := Leftover(ofBase, own, other, complete, k)[0];
    assert own[k].facts[0] in own[k].facts;
    assert Names(ofBase, d, k);
  }

  lemma ExactIsNeither(b: Side, h: Side, k: string)
    requires Recounted(b, h, k)
    ensures var d := ExactDelta(b, h, k)[0]; d.VariantDelta? && d.kind !in {Added, Removed, CoverageChanged}
  {
  }

  lemma ModificationIsNeither(b: Side, h: Side, a: string)
    requires Modifies(b, h, a)
    ensures var d := Modification(b, h, a)[0]; d.VariantDelta? && d.kind !in {Added, Removed, CoverageChanged}
  {
  }

  lemma VariantSays(b: Side, h: Side, bc: bool, hc: bool, l: Listing, d: Delta)
    requires Keyed(b) && Keyed(h) && d in VariantDeltas(b, h, bc, hc, l)
    ensures d.VariantDelta? && SaysNoMore(d, b.Keys, h.Keys, bc, hc)
  {
    if d in ExactDeltas(b, h, l.keys) {
      var k := FromExact(b, h, l.keys, d);
      ExactIsNeither(b, h, k);
    } else if d in Modifications(b, h, l.anchors) {
      var a := FromModification(b, h, l.anchors, d);
      ModificationIsNeither(b, h, a);
    } else if d in Leftovers(true, b, h, hc, l.bases) {
      var k := FromLeftover(true, b, h, hc, l.bases, d);
      LeftoverSays(true, b, h, hc, k);
    } else {
      var k := FromLeftover(false, h, b, bc, l.heads, d);
      LeftoverSays(false, h, b, bc, k);
    }
  }

  /** A modification shows two variants of different keys with one anchor, kind and source, neither of which
      the other side has, and reports exactly the compared fields in which their first facts differ. */
  ghost predicate PairsVariants(d: Delta, b: Side, h: Side, i: string, j: string) {
    && d.VariantDelta? && i in b && i !in h && j in h && j !in b
    && Names(true, d, i) && Names(false, d, j) && d.base == ObservationOf(b[i]) && d.head == ObservationOf(h[j])
    && b[i].anchor == h[j].anchor == d.anchor != NO_ANCHOR && SameTyping(b[i], h[j])
    && d.changed == ChangedFields(b[i].facts[0], h[j].facts[0]) != {}
  }

  lemma ModificationPairs(b: Side, h: Side, a: string) returns (i: string, j: string)
    requires Keyed(b) && Keyed(h) && a != NO_ANCHOR && Modifies(b, h, a)
    ensures PairsVariants(Modification(b, h, a)[0], b, h, i, j)
  {
    i, j := Only(Rivals(b, h, a)), Only(Rivals(h, b, a));
    assert i in Rivals(b, h, a) && j in Rivals(h, b, a);
    assert b[i].facts[0] in b[i].facts && h[j].facts[0] in h[j].facts;
  }

  lemma ModifiedPairs(b: Side, h: Side, bc: bool, hc: bool, l: Listing, d: Delta) returns (i: string, j: string)
    requires Keyed(b) && Keyed(h) && ListsAll(l, b, h)
    requires d in VariantDeltas(b, h, bc, hc, l) && d.VariantDelta? && d.kind == Modified
    ensures PairsVariants(d, b, h, i, j)
  {
    if d !in Modifications(b, h, l.anchors) {
      OthersAreNotModified(b, h, bc, hc, l, d);
      assert false;
    }
    var a := FromModification(b, h, l.anchors, d);
    i, j := ModificationPairs(b, h, a);
  }

  lemma OthersAreNotModified(b: Side, h: Side, bc: bool, hc: bool, l: Listing, d: Delta)
    requires d in VariantDeltas(b, h, bc, hc, l) && d !in Modifications(b, h, l.anchors)
    ensures d.VariantDelta? && d.kind != Modified
  {
    if d in ExactDeltas(b, h, l.keys) {
      var _ := FromExact(b, h, l.keys, d);
    } else if d in Leftovers(true, b, h, hc, l.bases) {
      var _ := FromLeftover(true, b, h, hc, l.bases, d);
    } else {
      var _ := FromLeftover(false, h, b, bc, l.heads, d);
    }
  }

  /** Modifications are a one-to-one matching: no variant, of either side, is in two of them. */
  lemma ModificationsAreOneToOne(b: Side, h: Side, bc: bool, hc: bool, l: Listing, d: Delta, e: Delta,
                                 i: string, j: string, i': string, j': string)
    requires Keyed(b) && Keyed(h) && ListsAll(l, b, h)
    requires d in VariantDeltas(b, h, bc, hc, l) && PairsVariants(d, b, h, i, j)
    requires e in VariantDeltas(b, h, bc, hc, l) && PairsVariants(e, b, h, i', j')
    ensures i == i' <==> j == j'
    ensures i == i' <==> d == e
  {
    EveryVariantOnce(true, b, h, bc, hc, l, i);
    EveryVariantOnce(false, b, h, bc, hc, l, j);
    if i == i' {
      NamedOnce(true, VariantDeltas(b, h, bc, hc, l), d, e, i);
    }
    if j == j' {
      NamedOnce(false, VariantDeltas(b, h, bc, hc, l), d, e, j);
    }
  }
}

/** Comparing the two sides of a scenario: exact matches first, then one-to-one anchors, then what is
    left over. The meaning is stated over the variants of each side; the methods after it are the
    loops that find it by flagging variants in two maps. */
module Comparator {
  import opened Options
  import opened GoText
  import opened ComparatorFacts
  import opened OccurrenceProfiles
  import opened ComparatorVariants

  type Side = map<string, Variant>

  datatype DeltaKind = CoverageChanged | StabilityChanged | Added | Removed | Modified | CountChanged

  datatype Basis = CompleteObservation | SingleSampleOnly | RepetitionVariable | CoverageLimited

  datatype Observation = Unobserved | Observed(semantic: string, facts: seq<Fact>, profile: Profile)

  datatype Delta =
    | VariantDelta(kind: DeltaKind, factKind: string, source: string, anchor: string, changed: set<string>,
                   base: Observation, head: Observation, basis: Basis, ambiguous: bool)
    | OrderDelta(before: seq<string>, after: seq<string>)

  function ObservationOf(v: Variant): Observation { Observed(v.semantic, v.facts, v.profile) }

  function BasisOf(p: Profile, q: Profile): Basis {
    if p.repeatability.Variable? || q.repeatability.Variable? then RepetitionVariable
    else if !p.coverage.AllAssessed? || !q.coverage.AllAssessed? then CoverageLimited
    else if p.repeatability.SingleSample? || q.repeatability.SingleSample? then SingleSampleOnly
    else CompleteObservation
  }

  function BasisForAbsence(otherComplete: bool, p: Profile): Basis {
    if !otherComplete || !p.coverage.AllAssessed? then CoverageLimited
    else if p.repeatability.SingleSample? then SingleSampleOnly
    else if p.repeatability.Variable? then RepetitionVariable
    else CompleteObservation
  }

  /** A record of two variants; where they disagree, kind, source and anchor are the head's. */
  function PairDelta(kind: DeltaKind, b: Variant, h: Variant, changed: set<string>): Delta {
    VariantDelta(kind, h.kind, h.source, h.anchor, changed, ObservationOf(b), ObservationOf(h), BasisOf(b.profile, h.profile), false)
  }

  /** A record of a variant that only one side has. */
  function LoneDelta(ofBase: bool, v: Variant, otherComplete: bool, ambiguous: bool): Delta {
    var kind := if !otherComplete then CoverageChanged else if ofBase then Removed else Added;
    VariantDelta(kind, v.kind, v.source, v.anchor, {}, if ofBase then ObservationOf(v) else Unobserved,
                 if ofBase then Unobserved else ObservationOf(v), BasisForAbsence(otherComplete, v.profile), ambiguous)
  }

  // ---------------------------------------------------------------- meaning

  /** Two variants with one key: nothing to report when they occurred alike. */
  function Recount(v: Variant, w: Variant): seq<Delta> {
    if v.profile == w.profile then []
    else [PairDelta(if v.profile.repeatability != w.profile.repeatability then StabilityChanged else CountChanged, v, w, {})]
  }

  function ExactDelta(b: Side, h: Side, k: string): seq<Delta> {
    if k in b && k in h then Recount(b[k], h[k]) else []
  }

  /** The variants with this anchor that have no exact match. */
  function Rivals(own: Side, other: Side, a: string): set<string> {
    set k | k in own && k !in other && own[k].anchor == a
  }

  function Only(keys: set<string>): (k: string)
    requires |keys| == 1
    ensures keys == {k}
  {
    OneKey(keys);
    var k :| k in keys;
    k
  }

  lemma OneKey(keys: set<string>)
    requires |keys| == 1
    ensures exists k :: keys == {k}
    ensures forall j, k | j in keys && k in keys :: j == k
  {
    var k :| k in keys;
    assert |keys - {k}| == 0;
    assert keys == {k};
  }

  predicate SameTyping(v: Variant, w: Variant) { v.kind == w.kind && v.source == w.source }

  /** The anchor picks out one variant on each side. */
  predicate Correlated(b: Side, h: Side, a: string) {
    && |Rivals(b, h, a)| == 1 && |Rivals(h, b, a)| == 1
    && SameTyping(b[Only(Rivals(b, h, a))], h[Only(Rivals(h, b, a))])
  }

  function Changes(v: Variant, w: Variant): set<string> {
    if v.facts == [] || w.facts == [] then {} else ChangedFields(v.facts[0], w.facts[0])
  }

  predicate Modifies(b: Side, h: Side, a: string) {
    Correlated(b, h, a) && Changes(b[Only(Rivals(b, h, a))], h[Only(Rivals(h, b, a))]) != {}
  }

  function Modification(b: Side, h: Side, a: string): seq<Delta> {
    if Modifies(b, h, a) then
      var v, w := b[Only(Rivals(b, h, a))], h[Only(Rivals(h, b, a))];
      [PairDelta(Modified, v, w, Changes(v, w))]
    else []
  }

  /** Both sides have variants with this anchor, but not one each. */
  predicate Contested(b: Side, h: Side, a: string) {
    Rivals(b, h, a) != {} && Rivals(h, b, a) != {} && !Correlated(b, h, a)
  }

  /** The variant has no exact match and was not reported as modified. */
  predicate LeftOver(own: Side, other: Side, k: string)
    requires k in own
  {
    k !in other && !(own[k].anchor != NO_ANCHOR && Modifies(own, other, own[k].anchor))
  }

  function Leftover(ofBase: bool, own: Side, other: Side, otherComplete: bool, k: string): seq<Delta> {
    if k in own && LeftOver(own, other, k) then
      [LoneDelta(ofBase, own[k], otherComplete, own[k].anchor != NO_ANCHOR && Contested(own, other, own[k].anchor))]
    else []
  }

  function ExactDeltas(b: Side, h: Side, keys: seq<string>): seq<Delta> {
    if keys == [] then [] else ExactDeltas(b, h, keys[..|keys| - 1]) + ExactDelta(b, h, keys[|keys| - 1])
  }

  function Modifications(b: Side, h: Side, anchors: seq<string>): seq<Delta> {
    if anchors == [] then [] else Modifications(b, h, anchors[..|anchors| - 1]) + Modification(b, h, anchors[|anchors| - 1])
  }

  function Leftovers(ofBase: bool, own: Side, other: Side, otherComplete: bool, keys: seq<string>): seq<Delta> {
    if keys == [] then []
    else Leftovers(ofBase, own, other, otherComplete, keys[..|keys| - 1]) + Leftover(ofBase, own, other, otherComplete, keys[|keys| - 1])
  }

  /** The sorted lists that the loops run over. */
  datatype Listing = Listing(keys: seq<string>, anchors: seq<string>, bases: seq<string>, heads: seq<string>)

  ghost predicate ListsAnchors(anchors: seq<string>, b: Side, h: Side) {
    Ascending(anchors) && forall a :: a in anchors <==> a != NO_ANCHOR && (Rivals(b, h, a) != {} || Rivals(h, b, a) != {})
  }

  ghost predicate ListsAll(l: Listing, b: Side, h: Side) {
    Lists(l.keys, b.Keys + h.Keys) && ListsAnchors(l.anchors, b, h) && Lists(l.bases, b.Keys) && Lists(l.heads, h.Keys)
  }

  function VariantDeltas(b: Side, h: Side, baseComplete: bool, headComplete: bool, l: Listing): seq<Delta> {
    ExactDeltas(b, h, l.keys) + Modifications(b, h, l.anchors) + Leftovers(true, b, h, headComplete, l.bases)
    + Leftovers(false, h, b, baseComplete, l.heads)
  }

  // ---------------------------------------------------------------- the loops: exact matches

  predicate FlaggedAs(v: Variant, own: Variant, consumed: bool, ambiguous: bool) {
    v == own.(consumed := consumed, ambiguous := ambiguous)
  }

  /** The variants of a side with their flags as far as the comparison got. */
  ghost predicate Flagged(vs: Side, own: Side, consumed: set<string>, ambiguous: set<string>) {
    vs.Keys == own.Keys && forall k {:trigger vs[k]} | k in own :: FlaggedAs(vs[k], own[k], k in consumed, k in ambiguous)
  }

  lemma ConsumeOne(vs: Side, own: Side, consumed: set<string>, ambiguous: set<string>, k: string)
    requires Flagged(vs, own, consumed, ambiguous) && k in own
    ensures Flagged(vs[k := vs[k].(consumed := true)], own, consumed + {k}, ambiguous)
  {
  }

  function Elements(s: seq<string>): set<string> {
    if s == [] then {} else Elements(s[..|s| - 1]) + {s[|s| - 1]}
  }

  lemma {:induction false} ElementsAre(s: seq<string>)
    ensures forall k :: k in Elements(s) <==> k in s
  {
    if s != [] {
      ElementsAre(s[..|s| - 1]);
      assert s == s[..|s| - 1] + [s[|s| - 1]];
    }
  }

  /** The exact matches among the keys seen so far are consumed on both sides. */
  ghost predicate MatchedSoFar(base: Side, head: Side, b: Side, h: Side, seen: set<string>) {
    Flagged(base, b, seen * h.Keys, {}) && Flagged(head, h, seen * b.Keys, {})
  }

  method MatchOne(base: Side, head: Side, k: string, ghost b: Side, ghost h: Side, ghost seen: set<string>)
    returns (base': Side, head': Side, records: seq<Delta>)
    requires MatchedSoFar(base, head, b, h, seen)
    ensures MatchedSoFar(base', head', b, h, seen + {k}) && records == ExactDelta(b, h, k)
  {
    base', head', records := base, head, [];
    if k in base && k in head {
      var v, w := base[k], head[k];
      ConsumeOne(base, b, seen * h.Keys, {}, k);
      ConsumeOne(head, h, seen * b.Keys, {}, k);
      base', head' := base[k := v.(consumed := true)], head[k := w.(consumed := true)];
      if v.profile != w.profile {
        var kind := if v.profile.repeatability != w.profile.repeatability then StabilityChanged else CountChanged;
        records := [PairDelta(kind, v, w, {})];
      }
      assert seen * h.Keys + {k} == (seen + {k}) * h.Keys && seen * b.Keys + {k} == (seen + {k}) * b.Keys;
    }
  }

  method MatchExactly(b: Side, h: Side, keys: seq<string>) returns (base: Side, head: Side, records: seq<Delta>)
    requires Flagged(b, b, {}, {}) && Flagged(h, h, {}, {})
    requires b.Keys <= Elements(keys) && h.Keys <= Elements(keys)
    ensures records == ExactDeltas(b, h, keys)
    ensures Flagged(base, b, h.Keys, {}) && Flagged(head, h, b.Keys, {})
  {
    base, head, records := b, h, [];
    for n := 0 to |keys|
      invariant MatchedSoFar(base, head, b, h, Elements(keys[..n]))
      invariant records == ExactDeltas(b, h, keys[..n])
    {
      assert keys[..n + 1][..n] == keys[..n];
      var more;
      base, head, more := MatchOne(base, head, keys[n], b, h, Elements(keys[..n]));
      records := records + more;
    }
    assert keys[..|keys|] == keys;
  }

  // ---------------------------------------------------------------- the loops: anchors

  /** The variants with this anchor, among these, that are not consumed. */
  ghost function OpenIn(vs: Side, among: set<string>, a: string): set<string> {
    set k | k in among && k in vs && !vs[k].consumed && vs[k].anchor == a
  }

  ghost predicate Enumerates(s: seq<string>, keys: set<string>) { Elements(s) == keys && |s| == |keys| }

  ghost predicate Groups(groups: map<string, seq<string>>, vs: Side, among: set<string>) {
    && (forall a | a in groups :: a != NO_ANCHOR && groups[a] != [])
    && forall a {:trigger Filed(groups, a)} | a != NO_ANCHOR :: Enumerates(Filed(groups, a), OpenIn(vs, among, a))
  }

  lemma OpenOne(vs: Side, among: set<string>, k: string, a: string)
    requires k in vs && k !in among
    ensures OpenIn(vs, among + {k}, a) == OpenIn(vs, among, a) + if !vs[k].consumed && vs[k].anchor == a then {k} else {}
    ensures k !in OpenIn(vs, among, a)
  {
  }

  lemma EnumerateOne(s: seq<string>, keys: set<string>, k: string)
    requires Enumerates(s, keys) && k !in keys
    ensures Enumerates(s + [k], keys + {k})
  {
    assert (s + [k])[..|s|] == s;
  }

  ghost function GroupedWith(groups: map<string, seq<string>>, vs: Side, k: string): map<string, seq<string>>
    requires k in vs
  {
    if vs[k].consumed || vs[k].anchor == NO_ANCHOR then groups
    else groups[vs[k].anchor := Filed(groups, vs[k].anchor) + [k]]
  }

  lemma GroupOneAt(groups: map<string, seq<string>>, vs: Side, among: set<string>, k: string, a: string)
    requires k in vs && k !in among && a != NO_ANCHOR && Enumerates(Filed(groups, a), OpenIn(vs, among, a))
    ensures Enumerates(Filed(GroupedWith(groups, vs, k), a), OpenIn(vs, among + {k}, a))
  {
    OpenOne(vs, among, k, a);
    if !vs[k].consumed && vs[k].anchor == a {
      EnumerateOne(Filed(groups, a), OpenIn(vs, among, a), k);
    } else {
      assert Filed(GroupedWith(groups, vs, k), a) == Filed(groups, a);
    }
  }

  lemma GroupOne(groups: map<string, seq<string>>, vs: Side, among: set<string>, k: string)
    requires Groups(groups, vs, among) && k in vs && k !in among
    ensures Groups(GroupedWith(groups, vs, k), vs, among + {k})
  {
    var more := GroupedWith(groups, vs, k);
    forall a {:trigger Filed(more, a)} | a != NO_ANCHOR ensures Enumerates(Filed(more, a), OpenIn(vs, among + {k}, a)) {
      assert Enumerates(Filed(groups, a), OpenIn(vs, among, a));
      GroupOneAt(groups, vs, among, k, a);
    }
  }

  method GroupByAnchor(vs: Side) returns (groups: map<string, seq<string>>)
    ensures Groups(groups, vs, vs.Keys)
  {
    groups := map[];
    var left := vs.Keys;
    while left != {}
      invariant left <= vs.Keys && Groups(groups, vs, vs.Keys - left)
      decreases |left|
    {
      var k :| k in left;
      GroupOne(groups, vs, vs.Keys - left, k);
      assert vs.Keys - (left - {k}) == vs.Keys - left + {k};
      if !vs[k].consumed && vs[k].anchor != NO_ANCHOR {
        groups := groups[vs[k].anchor := Filed(groups, vs[k].anchor) + [k]];
      }
      left := left - {k};
    }
    assert vs.Keys - left == vs.Keys;
  }

  /** The facts of a variant carry its key, and are of its kind. */
  ghost predicate Keyed(own: Side) {
    forall k | k in own :: own[k].facts != [] && own[k].facts[0].kind == own[k].kind && forall f | f in own[k].facts :: KeyText(f) == k
  }

  lemma CorrelationIsSymmetric(b: Side, h: Side, a: string)
    requires Keyed(b) && Keyed(h)
    ensures Correlated(b, h, a) == Correlated(h, b, a) && Modifies(b, h, a) == Modifies(h, b, a) && Contested(b, h, a) == Contested(h, b, a)
    ensures Correlated(b, h, a) ==>
              var v, w := b[Only(Rivals(b, h, a))], h[Only(Rivals(h, b, a))]; SameTyping(v, w) && Changes(v, w) == Changes(w, v)
  {
    if Correlated(b, h, a) {
      var v, w := b[Only(Rivals(b, h, a))], h[Only(Rivals(h, b, a))];
      ChangeIsSymmetric(GroupOf(v.facts[0].kind), v.facts[0].payload, w.facts[0].payload);
    }
  }

  /** Which variants are consumed, and which are flagged as ambiguous, once these anchors were modified or contested. */
  ghost function ConsumedBy(own: Side, other: Side, modified: set<string>): set<string> {
    set k | k in own && (k in other || own[k].anchor in modified)
  }

  ghost function AmbiguousBy(own: Side, other: Side, contested: set<string>): set<string> {
    set k | k in own && k !in other && own[k].anchor in contested
  }

  method FlagAll(vs: Side, keys: seq<string>, ghost own: Side, ghost consumed: set<string>, ghost ambiguous: set<string>)
    returns (flagged: Side)
    requires Flagged(vs, own, consumed, ambiguous) && Elements(keys) <= own.Keys
    ensures Flagged(flagged, own, consumed, ambiguous + Elements(keys))
  {
    flagged := vs;
    assert ambiguous + Elements(keys[..0]) == ambiguous;
    for n := 0 to |keys|
      invariant Flagged(flagged, own, consumed, ambiguous + Elements(keys[..n]))
    {
      ElementsAre(keys);
      assert keys[..n + 1][..n] == keys[..n];
      FlagOne(flagged, own, consumed, ambiguous + Elements(keys[..n]), keys[n]);
      assert ambiguous + Elements(keys[..n + 1]) == ambiguous + Elements(keys[..n]) + {keys[n]};
      flagged := flagged[keys[n] := flagged[keys[n]].(ambiguous := true)];
    }
    assert keys[..|keys|] == keys;
  }

  lemma FlagOne(vs: Side, own: Side, consumed: set<string>, ambiguous: set<string>, k: string)
    requires Flagged(vs, own, consumed, ambiguous) && k in own
    ensures Flagged(vs[k := vs[k].(ambiguous := true)], own, consumed, ambiguous + {k})
  {
  }

  ghost predicate CorrelatedSoFar(base: Side, head: Side, b: Side, h: Side, modified: set<string>, contested: set<string>) {
    && Flagged(base, b, ConsumedBy(b, h, modified), AmbiguousBy(b, h, contested))
    && Flagged(head, h, ConsumedBy(h, b, modified), AmbiguousBy(h, b, contested))
  }

  lemma OneMoreAnchor(own: Side, other: Side, done: set<string>, a: string)
    ensures ConsumedBy(own, other, done + {a}) == ConsumedBy(own, other, done) + Rivals(own, other, a)
    ensures AmbiguousBy(own, other, done + {a}) == AmbiguousBy(own, other, done) + Rivals(own, other, a)
  {
  }

  ghost function ModifiedAmong(b: Side, h: Side, anchors: seq<string>): (r: set<string>)
    ensures r <= Elements(anchors)
  {
    if anchors == [] then {}
    else
      var a := anchors[|anchors| - 1];
      ModifiedAmong(b, h, anchors[..|anchors| - 1]) + If(Modifies(b, h, a), a)
  }

  ghost function ContestedAmong(b: Side, h: Side, anchors: seq<string>): (r: set<string>)
    ensures r <= Elements(anchors)
  {
    if anchors == [] then {}
    else
      var a := anchors[|anchors| - 1];
      ContestedAmong(b, h, anchors[..|anchors| - 1]) + If(Contested(b, h, a), a)
  }

  lemma {:induction false} Settled(b: Side, h: Side, anchors: seq<string>, a: string)
    requires a in Elements(anchors)
    ensures a in ModifiedAmong(b, h, anchors) <==> Modifies(b, h, a)
    ensures a in ContestedAmong(b, h, anchors) <==> Contested(b, h, a)
  {
    var front := anchors[..|anchors| - 1];
    if a in Elements(front) {
      Settled(b, h, front, a);
    }
  }

  /** A list that enumerates one key. */
  lemma OnlyIsFirst(s: seq<string>, keys: set<string>)
    requires Enumerates(s, keys)
    ensures s == [] <==> keys == {}
    ensures |s| == 1 ==> Only(keys) == s[0]
  {
    ElementsAre(s);
    if |s| == 1 {
      assert s[0] in keys;
    }
  }

  /** What the loop over the anchors does for one modification. */
  method ConsumePair(base0: Side, head0: Side, i: string, j: string, ghost b: Side, ghost h: Side, ghost modified: set<string>,
                     ghost contested: set<string>, ghost a: string)
    returns (base: Side, head: Side)
    requires CorrelatedSoFar(base0, head0, b, h, modified, contested)
    requires Rivals(b, h, a) == {i} && Rivals(h, b, a) == {j}
    ensures CorrelatedSoFar(base, head, b, h, modified + {a}, contested)
  {
    OneMoreAnchor(b, h, modified, a);
    OneMoreAnchor(h, b, modified, a);
    assert i in Rivals(b, h, a) && j in Rivals(h, b, a);
    ConsumeOne(base0, b, ConsumedBy(b, h, modified), AmbiguousBy(b, h, contested), i);
    ConsumeOne(head0, h, ConsumedBy(h, b, modified), AmbiguousBy(h, b, contested), j);
    base, head := base0[i := base0[i].(consumed := true)], head0[j := head0[j].(consumed := true)];
  }

  /** What it does for a contested anchor. */
  method FlagRivals(base0: Side, head0: Side, bs: seq<string>, hs: seq<string>, ghost b: Side, ghost h: Side,
                    ghost modified: set<string>, ghost contested: set<string>, ghost a: string)
    returns (base: Side, head: Side)
    requires CorrelatedSoFar(base0, head0, b, h, modified, contested)
    requires Elements(bs) == Rivals(b, h, a) && Elements(hs) == Rivals(h, b, a)
    ensures CorrelatedSoFar(base, head, b, h, modified, contested + {a})
  {
    OneMoreAnchor(b, h, contested, a);
    OneMoreAnchor(h, b, contested, a);
    base := FlagAll(base0, bs, b, ConsumedBy(b, h, modified), AmbiguousBy(b, h, contested));
    head := FlagAll(head0, hs, h, ConsumedBy(h, b, modified), AmbiguousBy(h, b, contested));
  }

  lemma RivalIsAsBefore(vs: Side, own: Side, other: Side, consumed: set<string>, ambiguous: set<string>, a: string, k: string)
    requires Flagged(vs, own, consumed, ambiguous) && k in Rivals(own, other, a)
    ensures k in vs && FlaggedAs(vs[k], own[k], vs[k].consumed, vs[k].ambiguous)
  {
    assert k in own ==> FlaggedAs(vs[k], own[k], k in consumed, k in ambiguous);
  }

  ghost function If(condition: bool, a: string): set<string> { if condition then {a} else {} }

  /** The test at the head of the loop over the anchors. */
  method TestCorrelation(base: Side, head: Side, bs: seq<string>, hs: seq<string>, ghost b: Side, ghost h: Side,
                         ghost modified: set<string>, ghost contested: set<string>, ghost a: string)
    returns (one: bool)
    requires CorrelatedSoFar(base, head, b, h, modified, contested)
    requires Enumerates(bs, Rivals(b, h, a)) && Enumerates(hs, Rivals(h, b, a))
    ensures one == Correlated(b, h, a)
    ensures one ==>
              && |bs| == 1 && |hs| == 1 && Rivals(b, h, a) == {bs[0]} && Rivals(h, b, a) == {hs[0]} && bs[0] in base && hs[0] in head
              && FlaggedAs(base[bs[0]], b[bs[0]], base[bs[0]].consumed, base[bs[0]].ambiguous)
              && FlaggedAs(head[hs[0]], h[hs[0]], head[hs[0]].consumed, head[hs[0]].ambiguous)
  {
    OnlyIsFirst(bs, Rivals(b, h, a));
    OnlyIsFirst(hs, Rivals(h, b, a));
    if |bs| != 1 || |hs| != 1 {
      return false;
    }
    RivalIsAsBefore(base, b, h, ConsumedBy(b, h, modified), AmbiguousBy(b, h, contested), a, bs[0]);
    RivalIsAsBefore(head, h, b, ConsumedBy(h, b, modified), AmbiguousBy(h, b, contested), a, hs[0]);
    return base[bs[0]].kind == head[hs[0]].kind && base[bs[0]].source == head[hs[0]].source;
  }

  /** What is reported of a pair that is correlated, read off its flagged copies. */
  lemma PairSays(b: Side, h: Side, a: string, i: string, j: string, v: Variant, w: Variant)
    requires Correlated(b, h, a) && Rivals(b, h, a) == {i} && Rivals(h, b, a) == {j} && i in b && j in h
    requires FlaggedAs(v, b[i], v.consumed, v.ambiguous) && FlaggedAs(w, h[j], w.consumed, w.ambiguous)
    ensures Modifies(b, h, a) <==> Changes(v, w) != {}
    ensures Modification(b, h, a) == if Changes(v, w) != {} then [PairDelta(Modified, v, w, Changes(v, w))] else []
    ensures !Contested(b, h, a)
  {
    assert Only(Rivals(b, h, a)) == i && Only(Rivals(h, b, a)) == j by { assert i in {i} && j in {j}; }
  }

  /** The body of the loop over the anchors. */
  method CorrelateOne(base0: Side, head0: Side, bs: seq<string>, hs: seq<string>, ghost b: Side, ghost h: Side,
                      ghost modified: set<string>, ghost contested: set<string>, ghost a: string)
    returns (base: Side, head: Side, records: seq<Delta>)
    requires CorrelatedSoFar(base0, head0, b, h, modified, contested)
    requires Enumerates(bs, Rivals(b, h, a)) && Enumerates(hs, Rivals(h, b, a))
    ensures CorrelatedSoFar(base, head, b, h, modified + If(Modifies(b, h, a), a), contested + If(Contested(b, h, a), a))
    ensures records == Modification(b, h, a)
  {
    base, head, records := base0, head0, [];
    assert modified + {} == modified && contested + {} == contested;
    var one := TestCorrelation(base, head, bs, hs, b, h, modified, contested, a);
    if one {
      var v, w := base[bs[0]], head[hs[0]];
      var changed := Changes(v, w);
      PairSays(b, h, a, bs[0], hs[0], v, w);
      if changed != {} {
        records := [PairDelta(Modified, v, w, changed)];
        base, head := ConsumePair(base, head, bs[0], hs[0], b, h, modified, contested, a);
      }
    } else {
      OnlyIsFirst(bs, Rivals(b, h, a));
      OnlyIsFirst(hs, Rivals(h, b, a));
      if bs != [] && hs != [] {
        base, head := FlagRivals(base, head, bs, hs, b, h, modified, contested, a);
      }
    }
  }

  /** The groups found after the exact matches are the rivals of each anchor. */
  lemma GroupsAreRivals(groups: map<string, seq<string>>, vs: Side, own: Side, other: Side, a: string)
    requires Flagged(vs, own, other.Keys, {}) && Groups(groups, vs, vs.Keys) && a != NO_ANCHOR
    ensures Enumerates(Filed(groups, a), Rivals(own, other, a))
    ensures a in groups <==> Rivals(own, other, a) != {}
  {
    forall k ensures k in OpenIn(vs, vs.Keys, a) <==> k in Rivals(own, other, a) {
      assert k in own ==> FlaggedAs(vs[k], own[k], k in other.Keys, false);
    }
    assert OpenIn(vs, vs.Keys, a) == Rivals(own, other, a);
    assert Enumerates(Filed(groups, a), OpenIn(vs, vs.Keys, a));
    OnlyIsFirst(Filed(groups, a), Rivals(own, other, a));
  }

  method Correlate(base0: Side, head0: Side, anchors: seq<string>, anchorBase: map<string, seq<string>>,
                   anchorHead: map<string, seq<string>>, ghost b: Side, ghost h: Side)
    returns (base: Side, head: Side, records: seq<Delta>)
    requires CorrelatedSoFar(base0, head0, b, h, {}, {})
    requires forall a | a in anchors :: Enumerates(Filed(anchorBase, a), Rivals(b, h, a)) && Enumerates(Filed(anchorHead, a), Rivals(h, b, a))
    ensures CorrelatedSoFar(base, head, b, h, ModifiedAmong(b, h, anchors), ContestedAmong(b, h, anchors))
    ensures records == Modifications(b, h, anchors)
  {
    base, head, records := base0, head0, [];
    for n := 0 to |anchors|
      invariant CorrelatedSoFar(base, head, b, h, ModifiedAmong(b, h, anchors[..n]), ContestedAmong(b, h, anchors[..n]))
      invariant records == Modifications(b, h, anchors[..n])
    {
      var a := anchors[n];
      assert anchors[..n + 1][..n] == anchors[..n];
      var more;
      base, head, more := CorrelateOne(base, head, Filed(anchorBase, a), Filed(anchorHead, a), b, h,
                                       ModifiedAmong(b, h, anchors[..n]), ContestedAmong(b, h, anchors[..n]), a);
      records := records + more;
    }
    assert anchors[..|anchors|] == anchors;
  }

  // ---------------------------------------------------------------- the loops: what is left over

  /** The flags of this variant say whether it is left over, and whether its anchor was contested. */
  ghost predicate FlagsTell(v: Variant, own: Side, other: Side, k: string)
    requires k in own
  {
    && FlaggedAs(v, own[k], v.consumed, v.ambiguous)
    && (v.consumed <==> !LeftOver(own, other, k))
    && (!v.consumed ==> (v.ambiguous <==> own[k].anchor != NO_ANCHOR && Contested(own, other, own[k].anchor)))
  }

  method ReportLeftovers(ofBase: bool, vs: Side, otherComplete: bool, keys: seq<string>, ghost own: Side, ghost other: Side)
    returns (records: seq<Delta>)
    requires vs.Keys == own.Keys && forall k {:trigger vs[k]} | k in own :: FlagsTell(vs[k], own, other, k)
    requires forall k | k in keys :: k in own
    ensures records == Leftovers(ofBase, own, other, otherComplete, keys)
  {
    records := [];
    for n := 0 to |keys|
      invariant records == Leftovers(ofBase, own, other, otherComplete, keys[..n])
    {
      assert keys[..n + 1][..n] == keys[..n];
      var v := vs[keys[n]];
      if !v.consumed {
        records := records + [LoneDelta(ofBase, v, otherComplete, v.ambiguous)];
      }
    }
    assert keys[..|keys|] == keys;
  }

  /** These sets of anchors say whether a variant without an exact match is modified or contested. */
  ghost predicate SettledFor(own: Side, other: Side, modified: set<string>, contested: set<string>, k: string)
    requires k in own
  {
    k !in other ==>
      && (own[k].anchor in modified <==> own[k].anchor != NO_ANCHOR && Modifies(own, other, own[k].anchor))
      && (own[k].anchor in contested <==> own[k].anchor != NO_ANCHOR && Contested(own, other, own[k].anchor))
  }

  lemma AnchorSettles(b: Side, h: Side, anchors: seq<string>, a: string)
    requires ListsAnchors(anchors, b, h) && Keyed(b) && Keyed(h)
    ensures var modified, contested := ModifiedAmong(b, h, anchors), ContestedAmong(b, h, anchors);
            && (forall k | k in b && b[k].anchor == a :: SettledFor(b, h, modified, contested, k))
            && (forall k | k in h && h[k].anchor == a :: SettledFor(h, b, modified, contested, k))
  {
    ElementsAre(anchors);
    if a in anchors {
      Settled(b, h, anchors, a);
      CorrelationIsSymmetric(b, h, a);
    } else if a != NO_ANCHOR {
      NoRivals(b, h, a);
      NoRivals(h, b, a);
    }
  }

  lemma NoRivals(own: Side, other: Side, a: string)
    requires Rivals(own, other, a) == {}
    ensures forall k | k in own && own[k].anchor == a :: k in other
  {
    forall k | k in own && own[k].anchor == a ensures k in other {
      assert k !in Rivals(own, other, a);
    }
  }

  lemma FlagsTellAll(vs: Side, own: Side, other: Side, modified: set<string>, contested: set<string>)
    requires Flagged(vs, own, ConsumedBy(own, other, modified), AmbiguousBy(own, other, contested))
    requires forall k {:trigger own[k]} | k in own :: SettledFor(own, other, modified, contested, k)
    ensures forall k {:trigger vs[k]} | k in own :: FlagsTell(vs[k], own, other, k)
  {
    forall k {:trigger vs[k]} | k in own ensures FlagsTell(vs[k], own, other, k) {
      assert FlaggedAs(vs[k], own[k], k in ConsumedBy(own, other, modified), k in AmbiguousBy(own, other, contested));
      assert SettledFor(own, other, modified, contested, k);
    }
  }

  // ---------------------------------------------------------------- order

  function SequenceOf(a: Attempt): seq<string> { seq(|a.facts|, i requires 0 <= i < |a.facts| => a.facts[i].semantic) }

  predicate AttemptsComplete(attempts: seq<Attempt>) {
    attempts != [] && forall i | 0 <= i < |attempts| :: attempts[i].coverage.Complete?
  }

  /** At least two repetitions, all complete, with one sequence of digests. */
  predicate StableOrder(attempts: seq<Attempt>) {
    && |attempts| >= 2 && AttemptsComplete(attempts)
    && forall i | 0 <= i < |attempts| :: SequenceOf(attempts[i]) == SequenceOf(attempts[0])
  }

  function OrderDeltas(base: seq<Attempt>, head: seq<Attempt>): seq<Delta> {
    if StableOrder(base) && StableOrder(head) then
      var b, h := SequenceOf(base[0]), SequenceOf(head[0]);
      if multiset(b) == multiset(h) && b != h then [OrderDelta(b, h)] else []
    else []
  }

  method StableSequences(attempts: seq<Attempt>) returns (first: Option<seq<string>>)
    ensures first == if StableOrder(attempts) then Some(SequenceOf(attempts[0])) else None
  {
    if |attempts| < 2 {
      return None;
    }
    first := None;
    for i := 0 to |attempts|
      invariant forall j | 0 <= j < i :: attempts[j].coverage.Complete? && SequenceOf(attempts[j]) == SequenceOf(attempts[0])
      invariant first == if i == 0 then None else Some(SequenceOf(attempts[0]))
    {
      var a := attempts[i];
      if !a.coverage.Complete? {
        return None;
      }
      var sequence := [];
      for m := 0 to |a.facts|
        invariant sequence == SequenceOf(a)[..m]
      {
        sequence := sequence + [a.facts[m].semantic];
      }
      assert sequence == SequenceOf(a);
      if i == 0 {
        first := Some(sequence);
      } else if first != Some(sequence) {
        return None;
      }
    }
  }

  /** Sorting both and comparing decides equality as multisets. */
  method SameMultiset(a: seq<string>, b: seq<string>) returns (same: bool)
    ensures same == (multiset(a) == multiset(b))
  {
    var sortedA := Sort(a);
    var sortedB := Sort(b);
    same := sortedA == sortedB;
    if multiset(a) == multiset(b) {
      SortedIsUnique(sortedA, sortedB);
    }
  }

  method OrderRecord(base: seq<Attempt>, head: seq<Attempt>) returns (records: seq<Delta>)
    ensures records == OrderDeltas(base, head)
  {
    var b := StableSequences(base);
    var h := StableSequences(head);
    if b.None? || h.None? || b.value == [] || h.value == [] {
      return [];
    }
    var same := SameMultiset(b.value, h.value);
    if !same || b == h {
      return [];
    }
    return [OrderDelta(b.value, h.value)];
  }

  // ---------------------------------------------------------------- a scenario

  function WithOrder(b: Side, h: Side, baseComplete: bool, headComplete: bool, l: Listing, order: seq<Delta>): seq<Delta> {
    VariantDeltas(b, h, baseComplete, headComplete, l) + order
  }

  ghost function ScenarioDeltas(base: seq<Attempt>, head: seq<Attempt>, l: Listing): seq<Delta>
    requires Anchorable(base) && Anchorable(head)
  {
    WithOrder(Variants(base), Variants(head), AttemptsComplete(base), AttemptsComplete(head), l, OrderDeltas(base, head))
  }

  lemma VariantsAreKeyed(attempts: seq<Attempt>)
    requires Anchorable(attempts)
    ensures Keyed(Variants(attempts)) && Flagged(Variants(attempts), Variants(attempts), {}, {})
    ensures Variants(attempts).Keys == Keys(Sightings(attempts))
  {
  }

  lemma AnchorIsListed(anchorBase: map<string, seq<string>>, anchorHead: map<string, seq<string>>,
                       base: Side, head: Side, b: Side, h: Side, a: string)
    requires Flagged(base, b, h.Keys, {}) && Flagged(head, h, b.Keys, {})
    requires Groups(anchorBase, base, base.Keys) && Groups(anchorHead, head, head.Keys)
    ensures a in anchorBase.Keys + anchorHead.Keys <==> a != NO_ANCHOR && (Rivals(b, h, a) != {} || Rivals(h, b, a) != {})
    ensures a != NO_ANCHOR ==> Enumerates(Filed(anchorBase, a), Rivals(b, h, a)) && Enumerates(Filed(anchorHead, a), Rivals(h, b, a))
  {
    if a != NO_ANCHOR {
      GroupsAreRivals(anchorBase, base, b, h, a);
      GroupsAreRivals(anchorHead, head, h, b, a);
    }
  }

  /** The anchors of the two groupings, sorted, are the anchors to be correlated. */
  lemma AnchorsAreListed(anchors: seq<string>, anchorBase: map<string, seq<string>>, anchorHead: map<string, seq<string>>,
                         base: Side, head: Side, b: Side, h: Side)
    requires Flagged(base, b, h.Keys, {}) && Flagged(head, h, b.Keys, {})
    requires Groups(anchorBase, base, base.Keys) && Groups(anchorHead, head, head.Keys)
    requires Lists(anchors, anchorBase.Keys + anchorHead.Keys)
    ensures ListsAnchors(anchors, b, h)
    ensures forall a | a in anchors :: Enumerates(Filed(anchorBase, a), Rivals(b, h, a)) && Enumerates(Filed(anchorHead, a), Rivals(h, b, a))
  {
    forall a
      ensures a in anchors <==> a != NO_ANCHOR && (Rivals(b, h, a) != {} || Rivals(h, b, a) != {})
      ensures a in anchors ==> Enumerates(Filed(anchorBase, a), Rivals(b, h, a)) && Enumerates(Filed(anchorHead, a), Rivals(h, b, a))
    {
      AnchorIsListed(anchorBase, anchorHead, base, head, b, h, a);
    }
  }

  lemma ExactIsCorrelatedSoFar(base: Side, head: Side, b: Side, h: Side)
    requires Flagged(base, b, h.Keys, {}) && Flagged(head, h, b.Keys, {})
    ensures CorrelatedSoFar(base, head, b, h, {}, {})
  {
    forall k | k in b ensures FlaggedAs(base[k], b[k], k in ConsumedBy(b, h, {}), false) {
      assert FlaggedAs(base[k], b[k], k in h.Keys, false);
    }
    forall k | k in h ensures FlaggedAs(head[k], h[k], k in ConsumedBy(h, b, {}), false) {
      assert FlaggedAs(head[k], h[k], k in b.Keys, false);
    }
  }

  lemma AllSettled(b: Side, h: Side, anchors: seq<string>)
    requires ListsAnchors(anchors, b, h) && Keyed(b) && Keyed(h)
    ensures var modified, contested := ModifiedAmong(b, h, anchors), ContestedAmong(b, h, anchors);
            && (forall k {:trigger b[k]} | k in b :: SettledFor(b, h, modified, contested, k))
            && (forall k {:trigger h[k]} | k in h :: SettledFor(h, b, modified, contested, k))
  {
    var modified, contested := ModifiedAmong(b, h, anchors), ContestedAmong(b, h, anchors);
    forall k {:trigger b[k]} | k in b ensures SettledFor(b, h, modified, contested, k) {
      AnchorSettles(b, h, anchors, b[k].anchor);
    }
    forall k {:trigger h[k]} | k in h ensures SettledFor(h, b, modified, contested, k) {
      AnchorSettles(b, h, anchors, h[k].anchor);
    }
  }

  /** The second pass: grouping what has no exact match by anchor, and correlating. */
  method CorrelateVariants(base0: Side, head0: Side, ghost b: Side, ghost h: Side)
    returns (base: Side, head: Side, records: seq<Delta>, anchors: seq<string>)
    requires Flagged(base0, b, h.Keys, {}) && Flagged(head0, h, b.Keys, {}) && Keyed(b) && Keyed(h)
    ensures ListsAnchors(anchors, b, h) && records == Modifications(b, h, anchors)
    ensures base.Keys == b.Keys && forall k {:trigger base[k]} | k in b :: FlagsTell(base[k], b, h, k)
    ensures head.Keys == h.Keys && forall k {:trigger head[k]} | k in h :: FlagsTell(head[k], h, b, k)
  {
    var anchorBase := GroupByAnchor(base0);
    var anchorHead := GroupByAnchor(head0);
    anchors := SortKeys(anchorBase.Keys + anchorHead.Keys);
    AnchorsAreListed(anchors, anchorBase, anchorHead, base0, head0, b, h);
    ExactIsCorrelatedSoFar(base0, head0, b, h);
    base, head, records := Correlate(base0, head0, anchors, anchorBase, anchorHead, b, h);
    AllSettled(b, h, anchors);
    FlagsTellAll(base, b, h, ModifiedAmong(b, h, anchors), ContestedAmong(b, h, anchors));
    FlagsTellAll(head, h, b, ModifiedAmong(b, h, anchors), ContestedAmong(b, h, anchors));
  }

  /** The three passes over the variants of the two sides. */
  method CompareVariants(b: Side, h: Side, baseComplete: bool, headComplete: bool) returns (records: seq<Delta>, ghost l: Listing)
    requires Flagged(b, b, {}, {}) && Flagged(h, h, {}, {}) && Keyed(b) && Keyed(h)
    ensures ListsAll(l, b, h) && records == VariantDeltas(b, h, baseComplete, headComplete, l)
  {
    var keys := SortKeys(b.Keys + h.Keys);
    ElementsAre(keys);
    var base, head, exact := MatchExactly(b, h, keys);
    var modified, anchors;
    base, head, modified, anchors := CorrelateVariants(base, head, b, h);
    var bases := SortKeys(base.Keys);
    var removed := ReportLeftovers(true, base, headComplete, bases, b, h);
    var heads := SortKeys(head.Keys);
    var added := ReportLeftovers(false, head, baseComplete, heads, h, b);
    records := exact + modified + removed + added;
    l := Listing(keys, anchors, bases, heads);
  }

  /** A whole scenario; None when a variant cannot be anchored, which fails the comparison. */
  method CompareScenario(base: seq<Attempt>, head: seq<Attempt>) returns (records: Option<seq<Delta>>, ghost l: Listing)
    ensures records.Some? <==> Anchorable(base) && Anchorable(head)
    ensures records.Some? ==> ListsAll(l, Variants(base), Variants(head)) && records.value == ScenarioDeltas(base, head, l)
  {
    l := Listing([], [], [], []);
    var builtBase := BuildVariants(base);
    var builtHead := BuildVariants(head);
    var b := SealVariants(base, builtBase);
    if b.None? {
      return None, l;
    }
    var h := SealVariants(head, builtHead);
    if h.None? {
      return None, l;
    }
    VariantsAreKeyed(base);
    VariantsAreKeyed(head);
    var found;
    found, l := CompareVariants(b.value, h.value, AttemptsComplete(base), AttemptsComplete(head));
    var order := OrderRecord(base, head);
    return Some(found + order), l;
  }
}

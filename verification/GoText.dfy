/** Text as the Go library handles it: splitting at slashes, byte-wise order, and `sort.Strings`. A
    sorted sequence is settled by what it holds, so no result that is sorted first can depend on the
    order of a map iteration. */
module GoText {

  /** `strings.Split(p, "/")` */
  function Parts(p: string): (parts: seq<string>)
    ensures parts != []
  {
    if p == "" then [""]
    else if p[0] == '/' then [""] + Parts(p[1..])
    else var rest := Parts(p[1..]); [[p[0]] + rest[0]] + rest[1..]
  }

  /** `strings.Join(parts, "/")` */
  function Slashed(parts: seq<string>): string
    requires parts != []
  {
    if |parts| == 1 then parts[0] else parts[0] + "/" + Slashed(parts[1..])
  }

  /** Splitting at slashes gives pieces without a slash that make up the text again. */
  lemma {:induction false} PartsMakeTheText(p: string)
    ensures Slashed(Parts(p)) == p && forall part | part in Parts(p) :: '/' !in part
  {
    if p != "" {
      PartsMakeTheText(p[1..]);
      var rest := Parts(p[1..]);
      assert p == [p[0]] + p[1..];
      if p[0] == '/' {
        assert ([""] + rest)[1..] == rest;
      } else {
        assert Parts(p)[1..] == rest[1..];
      }
    }
  }

  predicate Before(a: string, b: string) {
    b != [] && (a == [] || a[0] < b[0] || (a[0] == b[0] && Before(a[1..], b[1..])))
  }

  lemma {:induction false} BeforeIsTotal(a: string, b: string)
    ensures a == b || Before(a, b) || Before(b, a)
    ensures !(Before(a, b) && Before(b, a)) && !Before(a, a)
  {
    if a != [] {
      BeforeIsTotal(a[1..], if b == [] then [] else b[1..]);
      if b != [] && a[0] == b[0] && a[1..] == b[1..] {
        assert a == [a[0]] + a[1..] && b == [b[0]] + b[1..];
      }
    }
  }

  lemma {:induction false} BeforeIsTransitive(a: string, b: string, c: string)
    requires Before(a, b) && Before(b, c)
    ensures Before(a, c)
  {
    if a != [] && a[0] == b[0] && b[0] == c[0] {
      BeforeIsTransitive(a[1..], b[1..], c[1..]);
    }
  }

  predicate AtMost(a: string, b: string) { a == b || Before(a, b) }

  ghost predicate Sorted(s: seq<string>) {
    forall i, j {:trigger s[i], s[j]} | 0 <= i < j < |s| :: AtMost(s[i], s[j])
  }

  ghost predicate Ascending(s: seq<string>) {
    forall i, j {:trigger s[i], s[j]} | 0 <= i < j < |s| :: Before(s[i], s[j])
  }

  ghost predicate NoRepeats(s: seq<string>) { forall i, j | 0 <= i < j < |s| :: s[i] != s[j] }

  lemma AscendingNeverRepeats(s: seq<string>)
    requires Ascending(s)
    ensures NoRepeats(s)
  {
    forall i, j | 0 <= i < j < |s| ensures s[i] != s[j] {
      BeforeIsTotal(s[i], s[j]);
    }
  }

  /** The sorted listing of a set. */
  ghost predicate Lists(s: seq<string>, keys: set<string>) { Ascending(s) && forall k :: k in s <==> k in keys }

  lemma {:induction false} ListingCounts(s: seq<string>, keys: set<string>)
    requires Lists(s, keys)
    ensures |s| == |keys|
  {
    if s == [] {
      assert keys == {};
    } else {
      var front, last := s[..|s| - 1], s[|s| - 1];
      AscendingNeverRepeats(s);
      assert s == front + [last] && last in s;
      ListingCounts(front, keys - {last});
    }
  }

  lemma RestIsAtLeast(s: seq<string>, x: string, n: nat)
    requires Sorted(s) && n < |s| && AtMost(x, s[n])
    ensures forall k | n <= k < |s| :: AtMost(x, s[k])
  {
    forall k | n <= k < |s| ensures AtMost(x, s[k]) {
      if x != s[n] && k > n && s[n] != s[k] {
        BeforeIsTransitive(x, s[n], s[k]);
      }
    }
  }

  lemma SortedAround(s: seq<string>, x: string, n: nat)
    requires Sorted(s) && n <= |s|
    requires forall i | 0 <= i < n :: AtMost(s[i], x)
    requires forall k | n <= k < |s| :: AtMost(x, s[k])
    ensures Sorted(s[..n] + [x] + s[n..])
  {
    var t := s[..n] + [x] + s[n..];
    forall i, j {:trigger t[i], t[j]} | 0 <= i < j < |t| ensures AtMost(t[i], t[j]) {
      assert t[i] == if i < n then s[i] else if i == n then x else s[i - 1];
      assert t[j] == if j < n then s[j] else if j == n then x else s[j - 1];
    }
  }

  /** Puts `x` in its place in a sorted sequence. */
  method Insert(s: seq<string>, x: string) returns (t: seq<string>)
    requires Sorted(s)
    ensures Sorted(t) && multiset(t) == multiset(s) + multiset{x}
  {
    var n := 0;
    while n < |s| && Before(s[n], x)
      invariant 0 <= n <= |s|
      invariant forall i | 0 <= i < n :: Before(s[i], x)
    {
      n := n + 1;
    }
    t := s[..n] + [x] + s[n..];
    assert s == s[..n] + s[n..];
    if n < |s| {
      BeforeIsTotal(s[n], x);
      RestIsAtLeast(s, x, n);
    }
    SortedAround(s, x, n);
  }

  method Sort(s: seq<string>) returns (t: seq<string>)
    ensures Sorted(t) && multiset(t) == multiset(s)
  {
    t := [];
    for n := 0 to |s|
      invariant Sorted(t) && multiset(t) == multiset(s[..n])
    {
      assert s[..n + 1] == s[..n] + [s[n]];
      t := Insert(t, s[n]);
    }
    assert s[..|s|] == s;
  }

  lemma CountedOnce(t: seq<string>, i: nat, j: nat)
    requires i < j < |t| && multiset(t)[t[i]] == 1
    ensures t[i] != t[j]
  {
    assert t == t[..j] + t[j..] && t[i] == t[..j][i] && t[j] == t[j..][0];
    assert t[i] in multiset(t[..j]) && t[j] in multiset(t[j..]);
  }

  /** The keys of a map, taken in any order, sorted. */
  method SortKeys(keys: set<string>) returns (t: seq<string>)
    ensures Lists(t, keys)
  {
    var left := keys;
    t := [];
    while left != {}
      invariant left <= keys
      invariant Sorted(t) && multiset(t) == multiset(keys - left)
      decreases |left|
    {
      var k :| k in left;
      assert keys - (left - {k}) == (keys - left) + {k};
      t := Insert(t, k);
      left := left - {k};
    }
    assert keys - left == keys;
    forall i, j | 0 <= i < j < |t| ensures Before(t[i], t[j]) {
      CountedOnce(t, i, j);
    }
    forall k ensures k in t <==> k in keys {
      assert k in t <==> k in multiset(t);
    }
  }

  lemma FirstIsLeast(s: seq<string>, x: string)
    requires Sorted(s) && x in multiset(s)
    ensures s != [] && AtMost(s[0], x)
  {
    var i :| 0 <= i < |s| && s[i] == x;
    assert i == 0 || AtMost(s[0], s[i]);
  }

  lemma RestOfSorted(s: seq<string>)
    requires s != [] && Sorted(s)
    ensures Sorted(s[1..]) && multiset(s[1..]) == multiset(s) - multiset{s[0]}
  {
    assert s == [s[0]] + s[1..];
  }

  lemma {:induction false} SortedIsUnique(s: seq<string>, t: seq<string>)
    requires Sorted(s) && Sorted(t) && multiset(s) == multiset(t)
    ensures s == t
  {
    assert |s| == |multiset(s)| && |t| == |multiset(t)|;
    if s != [] {
      FirstIsLeast(s, t[0]);
      FirstIsLeast(t, s[0]);
      BeforeIsTotal(s[0], t[0]);
      RestOfSorted(s);
      RestOfSorted(t);
      SortedIsUnique(s[1..], t[1..]);
      assert s == [s[0]] + s[1..] && t == [t[0]] + t[1..];
    }
  }

  /** One set has one ascending listing. */
  lemma {:induction false} AscendingIsUnique(s: seq<string>, t: seq<string>)
    requires Ascending(s) && Ascending(t) && forall k :: k in s <==> k in t
    ensures s == t
  {
    forall k ensures multiset(s)[k] == multiset(t)[k] {
      AscendingCounts(s, k);
      AscendingCounts(t, k);
    }
    SortedIsUnique(s, t);
  }

  lemma {:induction false} AscendingCounts(s: seq<string>, k: string)
    requires Ascending(s)
    ensures multiset(s)[k] == if k in s then 1 else 0
  {
    if s != [] {
      AscendingCounts(s[1..], k);
      assert s == [s[0]] + s[1..];
      if s[0] in s[1..] {
        BeforeIsTotal(s[0], s[0]);
      }
    }
  }
}

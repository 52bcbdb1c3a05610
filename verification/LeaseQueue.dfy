/** How both queues choose what a claim takes: the first open rows in sequence order. */
module LeaseQueue {

  /** The first `limit` positions at or after `start` that are open; a queue has `n` positions. */
  function FirstOf(open: set<nat>, n: nat, start: nat, limit: nat): (c: seq<nat>)
    requires start <= n
    ensures forall i | i in c :: start <= i < n && i in open
    decreases n - start
  {
    if limit == 0 || start == n then []
    else if start in open then [start] + FirstOf(open, n, start + 1, limit - 1)
    else FirstOf(open, n, start + 1, limit)
  }

  /** A claim takes open rows in order, and passes one over only when it is full already. */
  lemma {:induction false} FirstOfIsFirst(open: set<nat>, n: nat, start: nat, limit: nat)
    requires start <= n
    ensures var c := FirstOf(open, n, start, limit);
            && |c| <= limit
            && (forall j, k | 0 <= j < k < |c| :: c[j] < c[k])
            && (forall i | start <= i < n && i in open && i !in c :: |c| == limit && forall k | k in c :: k < i)
    decreases n - start
  {
    if limit > 0 && start < n {
      var rest := if start in open then limit - 1 else limit;
      FirstOfIsFirst(open, n, start + 1, rest);
      var later := FirstOf(open, n, start + 1, rest);
      assert forall k | 0 <= k < |later| :: later[k] in later;
    }
  }

  // ---------------------------------------------------------------- the first ones are settled

  /** These are the first open positions in order, as many as the limit allows. */
  ghost predicate AreFirst(open: set<nat>, limit: int, chosen: seq<nat>) {
    && |chosen| <= limit && (forall k | 0 <= k < |chosen| :: chosen[k] in open)
    && (forall j, k | 0 <= j < k < |chosen| :: chosen[j] < chosen[k])
    && (forall i | i in open && i !in chosen :: |chosen| == limit && forall k | 0 <= k < |chosen| :: chosen[k] < i)
  }

  lemma FirstOfAreFirst(open: set<nat>, n: nat, limit: nat)
    requires forall i | i in open :: i < n
    ensures AreFirst(open, limit, FirstOf(open, n, 0, limit))
  {
    FirstOfIsFirst(open, n, 0, limit);
    var chosen := FirstOf(open, n, 0, limit);
    assert forall k | 0 <= k < |chosen| :: chosen[k] in chosen;
  }

  lemma NoneBefore(open: set<nat>, limit: int, a: seq<nat>, b: seq<nat>, k: nat)
    requires AreFirst(open, limit, a) && AreFirst(open, limit, b)
    requires k < |a| && k < |b| && a[..k] == b[..k]
    ensures b[k] <= a[k]
  {
    forall l | 0 <= l < k ensures b[l] < a[k] { assert a[..k][l] == b[..k][l]; }
    if a[k] in b {
      var l :| 0 <= l < |b| && b[l] == a[k];
      assert k <= l;
    }
  }

  lemma LaterIsNew(a: seq<nat>, b: seq<nat>)
    requires |a| <= |b| && b[..|a|] == a && forall j, k | 0 <= j < k < |b| :: b[j] < b[k]
    ensures |a| < |b| ==> b[|a|] !in a
  {
    forall l | 0 <= l < |a| ensures a[l] == b[l] { assert b[..|a|][l] == a[l]; }
  }

  lemma NoneAfter(open: set<nat>, limit: int, a: seq<nat>, b: seq<nat>)
    requires AreFirst(open, limit, a) && AreFirst(open, limit, b) && |a| <= |b| && b[..|a|] == a
    ensures a == b
  {
    LaterIsNew(a, b);
  }

  lemma {:induction false} FirstAgree(open: set<nat>, limit: int, a: seq<nat>, b: seq<nat>, k: nat)
    requires AreFirst(open, limit, a) && AreFirst(open, limit, b) && k <= |a| && k <= |b|
    ensures a[..k] == b[..k]
  {
    if k > 0 {
      FirstAgree(open, limit, a, b, k - 1);
      NoneBefore(open, limit, a, b, k - 1);
      NoneBefore(open, limit, b, a, k - 1);
      assert a[..k] == a[..k - 1] + [a[k - 1]] && b[..k] == b[..k - 1] + [b[k - 1]];
    }
  }

  /** Which positions are the first is settled by what is open and by the limit. */
  lemma FirstAreUnique(open: set<nat>, limit: int, a: seq<nat>, b: seq<nat>)
    requires AreFirst(open, limit, a) && AreFirst(open, limit, b)
    ensures a == b
  {
    FirstAgree(open, limit, a, b, if |a| < |b| then |a| else |b|);
    if |a| < |b| { NoneAfter(open, limit, a, b); } else { NoneAfter(open, limit, b, a); }
  }
}

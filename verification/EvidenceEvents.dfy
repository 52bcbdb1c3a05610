/** The event files of a session: their ranges tile the run's sequence numbers in plan order, and
    together they hold exactly the emitted events. */
module EvidenceEvents {
  import opened EvidenceModel
  import opened EvidenceSession
  import opened EvidenceFiles
  import R = EvidenceReader

  // ---------------------------------------------------------------- ranges

  /** How many events the first `n` attempts have. */
  function Offset(attempts: seq<Attempt>, n: nat): nat
    requires n <= |attempts|
  {
    if n == 0 then 0 else Offset(attempts, n - 1) + attempts[n - 1].count
  }

  function EventsOf(s: Session, i: nat): seq<Event>
    requires i < |s.attempts|
  {
    EventsIn(s, FileOf(s.attempts[i], EventsFile))
  }

  /** The events of the first `n` attempts, in plan order. */
  function AllEvents(s: Session, n: nat): seq<Event>
    requires n <= |s.attempts|
  {
    if n == 0 then [] else AllEvents(s, n - 1) + EventsOf(s, n - 1)
  }

  /** The file of an attempt holds its part of the run's sequence, and the attempt knows the range. */
  ghost predicate RangeOk(s: Session, i: nat)
    requires i < |s.attempts|
  {
    var a, es, from := s.attempts[i], EventsOf(s, i), Offset(s.attempts, i);
    && |es| == a.count
    && (forall j {:trigger es[j]} | 0 <= j < |es| :: R.EventOk(es[j], KeyAt(s, i), PlanDigest(s), s.plan.run, from + j + 1))
    && a.first == (if a.count == 0 then 0 else from + 1) && a.last == (if a.count == 0 then 0 else from + a.count)
    && (a.eventsOpen ==> i == s.current && Has(a, EventsFile)) && (a.count > 0 ==> Has(a, EventsFile))
    && (i > s.current ==> !Has(a, EventsFile))
    && !a.events.Truncated? && !a.events.CaptureFailed? && !a.events.OmittedByLimit?
  }

  ghost predicate EventsCore(s: Session) {
    && s.current < |s.attempts| && s.totalEvents == Offset(s.attempts, |s.attempts|)
    && forall i {:trigger RangeOk(s, i)} | 0 <= i < |s.attempts| :: RangeOk(s, i)
  }

  /** Only where the writer gave up is there a file without events. */
  ghost predicate EventsInv(s: Session) {
    && EventsCore(s)
    && (s.state.Active? ==> s.next == s.totalEvents)
    && forall i {:trigger s.attempts[i]} | 0 <= i < |s.attempts| && Has(s.attempts[i], EventsFile) && s.attempts[i].count == 0 ::
         i == s.current && !s.state.Active?
  }

  lemma {:induction false} OffsetDepends(a: seq<Attempt>, b: seq<Attempt>, n: nat)
    requires n <= |a| && n <= |b| && forall i | 0 <= i < n :: a[i].count == b[i].count
    ensures Offset(a, n) == Offset(b, n)
  {
    if n > 0 { OffsetDepends(a, b, n - 1); }
  }

  lemma OffsetsDepend(a: seq<Attempt>, b: seq<Attempt>, n: nat)
    requires n <= |a| == |b| && forall i | 0 <= i < n :: a[i].count == b[i].count
    ensures forall k {:trigger Offset(b, k)} | 0 <= k <= n :: Offset(a, k) == Offset(b, k)
  {
    forall k | 0 <= k <= n ensures Offset(a, k) == Offset(b, k) { OffsetDepends(a, b, k); }
  }

  lemma {:induction false} OffsetAbove(s: Session, i: nat, n: nat)
    requires EventsCore(s) && s.current <= i < n <= |s.attempts|
    ensures Offset(s.attempts, n) == Offset(s.attempts, i) + s.attempts[i].count
    ensures AllEvents(s, n) == AllEvents(s, i) + EventsOf(s, i)
  {
    if n > i + 1 {
      OffsetAbove(s, i, n - 1);
      assert RangeOk(s, n - 1);
      assert EventsOf(s, n - 1) == [];
    }
  }

  lemma {:induction false} EventsDepend(s: Session, s': Session, n: nat)
    requires n <= |s.attempts| && n <= |s'.attempts| && forall i | 0 <= i < n :: EventsOf(s', i) == EventsOf(s, i)
    ensures AllEvents(s', n) == AllEvents(s, n)
  {
    if n > 0 { EventsDepend(s, s', n - 1); }
  }

  // ---------------------------------------------------------------- calls that leave events alone

  predicate SameRange(a: Attempt, a': Attempt) {
    && a'.planned == a.planned && a'.eventsOpen == a.eventsOpen && a'.events == a.events
    && a'.count == a.count && a'.first == a.first && a'.last == a.last
  }

  ghost predicate LeavesEvents(s: Session, s': Session) {
    && s'.plan == s.plan && |s'.attempts| == |s.attempts| && s'.current == s.current && s'.next == s.next
    && s'.totalEvents == s.totalEvents && (s'.state.Active? ==> s.state.Active?)
    && (forall i {:trigger s'.attempts[i]} | 0 <= i < |s.attempts| :: SameRange(s.attempts[i], s'.attempts[i]))
    && (forall i {:trigger EventsOf(s', i)} | 0 <= i < |s.attempts| :: EventsOf(s', i) == EventsOf(s, i))
  }

  lemma LeavingKeepsEvents(s: Session, s': Session)
    requires EventsInv(s) && LeavesEvents(s, s')
    ensures EventsInv(s') && AllEvents(s', |s'.attempts|) == AllEvents(s, |s.attempts|)
  {
    var n := |s.attempts|;
    OffsetsDepend(s.attempts, s'.attempts, n);
    forall i | 0 <= i < n ensures RangeOk(s', i) { assert RangeOk(s, i) && SameRange(s.attempts[i], s'.attempts[i]); }
    EventsDepend(s, s', n);
  }

  // ---------------------------------------------------------------- emitting

  /** Everything but the open file and the capture state of one attempt is as it was. */
  ghost predicate OnlyCloses(s: Session, s': Session, i: nat)
    requires i < |s.attempts|
  {
    && s'.plan == s.plan && s'.state == s.state && s'.current == s.current && s'.next == s.next && s'.files == s.files
    && s'.totalEvents == s.totalEvents && |s'.attempts| == |s.attempts| && !s'.attempts[i].eventsOpen
    && (forall k {:trigger s'.attempts[k]} | 0 <= k < |s.attempts| && k != i :: s'.attempts[k] == s.attempts[k])
    && s'.attempts[i] == s.attempts[i].(eventsOpen := false, events := s'.attempts[i].events)
    && (s.attempts[i].eventsOpen ==> s'.attempts[i].events == if EventsOf(s, i) == [] then CapturedEmpty else Captured)
    && (!s.attempts[i].eventsOpen ==> s'.attempts[i] == s.attempts[i])
  }

  lemma ClosingKeepsRange(s: Session, s': Session, i: nat, k: nat)
    requires i < |s.attempts| && k < |s.attempts| && OnlyCloses(s, s', i) && RangeOk(s, i) && RangeOk(s, k)
    requires Offset(s'.attempts, k) == Offset(s.attempts, k)
    ensures EventsOf(s', k) == EventsOf(s, k) && RangeOk(s', k) && Has(s'.attempts[k], EventsFile) == Has(s.attempts[k], EventsFile)
  {
  }

  lemma CloseEventsOnlyCloses(s: Session, i: nat, lists: bool)
    requires i < |s.attempts|
    ensures OnlyCloses(s, CloseEvents(s, i, lists).0, i)
  {
  }

  lemma ClosingKeepsCore(s: Session, s': Session, i: nat)
    requires EventsCore(s) && i < |s.attempts| && OnlyCloses(s, s', i)
    ensures EventsCore(s') && AllEvents(s', |s.attempts|) == AllEvents(s, |s.attempts|)
    ensures Has(s'.attempts[i], EventsFile) == Has(s.attempts[i], EventsFile)
  {
    OffsetsDepend(s.attempts, s'.attempts, |s.attempts|);
    assert RangeOk(s, i);
    forall k | 0 <= k < |s.attempts| ensures EventsOf(s', k) == EventsOf(s, k) && RangeOk(s', k) {
      assert RangeOk(s, k);
      ClosingKeepsRange(s, s', i, k);
    }
    assert Has(s'.attempts[i], EventsFile) == Has(s.attempts[i], EventsFile) by { ClosingKeepsRange(s, s', i, i); }
    EventsDepend(s, s', |s.attempts|);
  }

  lemma MoveOnKeepsCore(s: Session, i: nat, next: nat)
    requires EventsCore(s) && s.current <= i < |s.attempts| && (i > s.current ==> !s.attempts[s.current].eventsOpen)
    ensures EventsCore(s.(current := i, next := next))
  {
    var s' := s.(current := i, next := next);
    forall k | 0 <= k < |s.attempts| ensures RangeOk(s', k) {
      assert RangeOk(s, k);
      assert EventsOf(s', k) == EventsOf(s, k);
    }
  }

  lemma OpenEventsKeepsCore(s: Session, i: nat)
    requires FilesOk(s) && EventsCore(s) && i < |s.attempts| && i == s.current && FileOf(s.attempts[i], EventsFile) !in s.files
    ensures EventsCore(OpenEvents(s, i))
    ensures forall k | 0 <= k < |s.attempts| :: EventsOf(OpenEvents(s, i), k) == EventsOf(s, k)
  {
    var s' := OpenEvents(s, i);
    OffsetsDepend(s.attempts, s'.attempts, |s.attempts|);
    forall k | 0 <= k < |s.attempts| ensures EventsOf(s', k) == EventsOf(s, k) && RangeOk(s', k) {
      assert RangeOk(s, k);
      assert k != i ==> DirOf(KeyAt(s, k)) != DirOf(KeyAt(s, i));
    }
  }

  /** Attempt `i` has one event more, in its file and in its range. */
  ghost predicate OnlyAppends(s: Session, s': Session, i: nat, e: Event)
    requires i < |s.attempts| && e.sequence >= 0
  {
    && s'.plan == s.plan && s'.state == s.state && s'.current == s.current && s'.next == s.next
    && s'.totalEvents == s.totalEvents + 1 && |s'.attempts| == |s.attempts|
    && (forall k {:trigger s'.attempts[k]} | 0 <= k < |s.attempts| && k != i :: s'.attempts[k] == s.attempts[k])
    && (forall k {:trigger EventsOf(s', k)} | 0 <= k < |s.attempts| && k != i :: EventsOf(s', k) == EventsOf(s, k))
    && EventsOf(s', i) == EventsOf(s, i) + [e]
    && var a := s.attempts[i];
       s'.attempts[i] == a.(count := a.count + 1, first := if a.first == 0 then e.sequence else a.first, last := e.sequence, events := Captured)
  }

  lemma AppendEventOnlyAppends(s: Session, i: nat, e: Event)
    requires DirsApart(s) && i < |s.attempts| && e.sequence >= 0
    ensures OnlyAppends(s, AppendEvent(s, i, e), i, e)
  {
    var s' := AppendEvent(s, i, e);
    forall k | 0 <= k < |s.attempts| && k != i ensures EventsOf(s', k) == EventsOf(s, k) {
      assert DirOf(KeyAt(s, k)) != DirOf(KeyAt(s, i));
    }
  }

  lemma AppendingKeepsRange(s: Session, s': Session, i: nat, e: Event)
    requires i < |s.attempts| && RangeOk(s, i) && i == s.current && s.attempts[i].eventsOpen
    requires e.sequence >= 0 && OnlyAppends(s, s', i, e) && Offset(s'.attempts, i) == Offset(s.attempts, i)
    requires R.EventOk(e, KeyAt(s, i), PlanDigest(s), s.plan.run, Offset(s.attempts, i) + s.attempts[i].count + 1)
    ensures RangeOk(s', i)
  {
  }

  lemma AppendingKeepsOther(s: Session, s': Session, i: nat, e: Event, k: nat)
    requires i < |s.attempts| && k < |s.attempts| && k != i && i == s.current && RangeOk(s, k)
    requires e.sequence >= 0 && OnlyAppends(s, s', i, e) && (k < i ==> Offset(s'.attempts, k) == Offset(s.attempts, k))
    ensures RangeOk(s', k) && (k > i ==> EventsOf(s', k) == [] && s'.attempts[k].count == 0)
  {
    assert EventsOf(s', k) == EventsOf(s, k);
  }

  lemma AppendingKeepsCore(s: Session, s': Session, i: nat, e: Event)
    requires EventsCore(s) && i < |s.attempts| && i == s.current && s.attempts[i].eventsOpen
    requires R.EventOk(e, KeyAt(s, i), PlanDigest(s), s.plan.run, s.totalEvents + 1) && OnlyAppends(s, s', i, e)
    ensures EventsCore(s') && AllEvents(s', |s.attempts|) == AllEvents(s, |s.attempts|) + [e]
  {
    var n := |s.attempts|;
    OffsetAbove(s, i, n);
    OffsetsDepend(s.attempts, s'.attempts, i);
    assert RangeOk(s, i);
    AppendingKeepsRange(s, s', i, e);
    forall k | 0 <= k < n && k != i ensures RangeOk(s', k) && (k > i ==> EventsOf(s', k) == [] && s'.attempts[k].count == 0) {
      assert RangeOk(s, k);
      AppendingKeepsOther(s, s', i, e, k);
    }
    EventsDepend(s, s', i);
    AppendedAbove(s, s', i, n);
  }

  lemma {:induction false} AppendedAbove(s: Session, s': Session, i: nat, n: nat)
    requires |s'.attempts| == |s.attempts| && i < n <= |s.attempts|
    requires forall k | i < k < n :: EventsOf(s', k) == [] && s'.attempts[k].count == 0
    ensures AllEvents(s', n) == AllEvents(s', i) + EventsOf(s', i)
    ensures Offset(s'.attempts, n) == Offset(s'.attempts, i) + s'.attempts[i].count
  {
    if n > i + 1 { AppendedAbove(s, s', i, n - 1); }
  }

  /** No result and no artifact index has been written yet. */
  ghost predicate Unfinished(s: Session) {
    forall i {:trigger s.attempts[i]} | 0 <= i < |s.attempts| :: !s.attempts[i].indexed && s.attempts[i].result.NotProvided?
  }

  /** No file is without events, and the next number is the one after them. */
  ghost predicate Busy(s: Session) {
    forall i {:trigger s.attempts[i]} | 0 <= i < |s.attempts| && Has(s.attempts[i], EventsFile) :: s.attempts[i].count > 0
  }

  /** The event is of the current attempt, and comes right after everything that was emitted. */
  ghost predicate Due(s: Session, i: nat, e: Event) {
    && i < |s.attempts| && FilesOk(s) && EventsCore(s) && Unfinished(s) && i == s.current
    && R.EventOk(e, KeyAt(s, i), PlanDigest(s), s.plan.run, s.totalEvents + 1) && s.next == s.totalEvents + 1
  }

  /** After routing. */
  ghost predicate Ready(s: Session, i: nat, e: Event) { Due(s, i, e) && Busy(s) }

  lemma MovingOnKeeps(s: Session, i: nat, next: nat)
    requires FilesOk(s) && EventsCore(s) && s.current <= i < |s.attempts| && (i > s.current ==> !s.attempts[s.current].eventsOpen)
    ensures var s' := s.(current := i, next := next);
            FilesOk(s') && EventsCore(s') && AllEvents(s', |s.attempts|) == AllEvents(s, |s.attempts|)
  {
    var s' := s.(current := i, next := next);
    MoveOnKeepsCore(s, i, next);
    SameFiles(s, s');
    EventsDepend(s, s', |s.attempts|);
  }

  /** The attempts have the same files with as many events. */
  ghost predicate SameStanding(s: Session, s': Session) {
    && s'.plan == s.plan && s'.state == s.state && s'.totalEvents == s.totalEvents && |s'.attempts| == |s.attempts|
    && forall k {:trigger s'.attempts[k]} | 0 <= k < |s.attempts| ::
         var a, a' := s.attempts[k], s'.attempts[k];
         && a'.planned == a.planned && a'.count == a.count && a'.indexed == a.indexed && a'.result == a.result
         && Has(a', EventsFile) == Has(a, EventsFile)
  }

  lemma ClosingKeepsStanding(s: Session, s': Session, i: nat)
    requires i < |s.attempts| && OnlyCloses(s, s', i) && Has(s'.attempts[i], EventsFile) == Has(s.attempts[i], EventsFile)
    ensures SameStanding(s, s')
  {
  }

  lemma LeavingFileKeeps(s: Session, lists: bool)
    requires FilesOk(s) && EventsCore(s)
    ensures var s' := CloseEvents(s, s.current, lists).0;
            && FilesOk(s') && EventsCore(s') && AllEvents(s', |s.attempts|) == AllEvents(s, |s.attempts|)
            && SameStanding(s, s') && s'.current == s.current && !s'.attempts[s.current].eventsOpen
  {
    var s' := CloseEvents(s, s.current, lists).0;
    assert RangeOk(s, s.current);
    CloseEventsKeepsFiles(s, s.current, lists);
    CloseEventsOnlyCloses(s, s.current, lists);
    ClosingKeepsCore(s, s', s.current);
    ClosingKeepsStanding(s, s', s.current);
  }

  /** Everything the files hold stays as it is when the session goes on to another attempt, or fails to
      list the file that it leaves. */
  lemma MoveOnKeeps(s: Session, i: nat, next: nat, lists: bool)
    requires FilesOk(s) && EventsCore(s) && s.current <= i < |s.attempts|
    ensures var (s', ok) := MoveOn(s, i, next, lists);
            && FilesOk(s') && EventsCore(s') && AllEvents(s', |s.attempts|) == AllEvents(s, |s.attempts|)
            && (ok ==> s'.current == i && s'.next == next) && SameStanding(s, s')
  {
    if i > s.current {
      LeavingFileKeeps(s, lists);
      var (closed, ok) := CloseEvents(s, s.current, lists);
      if ok {
        MovingOnKeeps(closed, i, next);
        assert SameStanding(s, closed.(current := i, next := next));
      }
    } else {
      MovingOnKeeps(s, i, next);
    }
  }

  lemma RoutingIsReady(s: Session, e: Event, lists: bool)
    requires FilesOk(s) && EventsInv(s) && Unfinished(s) && s.state.Active? && e.valid && Routed(s, e)
    ensures var i := IndexOfKey(s.attempts, e.key); var (moved, ok) := MoveOn(s, i, e.sequence, lists);
            && moved.state.Active? && AllEvents(moved, |s.attempts|) == AllEvents(s, |s.attempts|)
            && if ok then Ready(moved, i, e) else FilesOk(moved) && EventsCore(moved) && Unfinished(moved) && Busy(moved)
  {
    var i := IndexOfKey(s.attempts, e.key);
    MoveOnKeeps(s, i, e.sequence, lists);
    var (moved, ok) := MoveOn(s, i, e.sequence, lists);
    StandingStays(s, moved);
    if ok {
      StandingIsReady(s, moved, i, e);
    }
  }

  lemma StandingStays(s: Session, s': Session)
    requires EventsInv(s) && Unfinished(s) && s.state.Active? && SameStanding(s, s')
    ensures Unfinished(s') && Busy(s')
  {
  }

  lemma StandingIsReady(s: Session, s': Session, i: nat, e: Event)
    requires EventsInv(s) && Unfinished(s) && s.state.Active? && e.valid && Routed(s, e) && i == IndexOfKey(s.attempts, e.key)
    requires FilesOk(s') && EventsCore(s') && s'.current == i && s'.next == e.sequence && SameStanding(s, s') && Unfinished(s') && Busy(s')
    ensures Ready(s', i, e)
  {
    assert KeyAt(s', i) == KeyAt(s, i);
  }

  lemma FailingKeepsEvents(s: Session)
    requires EventsCore(s)
    ensures EventsCore(Fail(s)) && AllEvents(Fail(s), |s.attempts|) == AllEvents(s, |s.attempts|)
  {
    var s' := Fail(s);
    assert s'.attempts == s.attempts && s'.files == s.files;
    forall k | 0 <= k < |s.attempts| ensures EventsOf(s', k) == EventsOf(s, k) && RangeOk(s', k) { assert RangeOk(s, k); }
    EventsDepend(s, s', |s.attempts|);
  }

  /** The open file of the attempt that is ready for the event. */
  ghost predicate Writable(s: Session, i: nat, e: Event) {
    Due(s, i, e) && s.attempts[i].eventsOpen
    && forall k {:trigger s.attempts[k]} | 0 <= k < |s.attempts| && k != i && Has(s.attempts[k], EventsFile) :: s.attempts[k].count > 0
  }

  lemma OpeningIsWritable(s: Session, i: nat, e: Event)
    requires Ready(s, i, e) && FileOf(s.attempts[i], EventsFile) !in s.files
    ensures Writable(OpenEvents(s, i), i, e) && AllEvents(OpenEvents(s, i), |s.attempts|) == AllEvents(s, |s.attempts|)
  {
    OpenEventsKeepsFiles(s, i);
    OpenEventsKeepsCore(s, i);
    EventsDepend(s, OpenEvents(s, i), |s.attempts|);
  }

  lemma FailingKeeps(s: Session, i: nat)
    requires FilesOk(s) && EventsCore(s) && Unfinished(s) && i == s.current
    requires forall k {:trigger s.attempts[k]} | 0 <= k < |s.attempts| && k != i && Has(s.attempts[k], EventsFile) :: s.attempts[k].count > 0
    ensures FilesOk(Fail(s)) && EventsInv(Fail(s)) && Unfinished(Fail(s)) && AllEvents(Fail(s), |s.attempts|) == AllEvents(s, |s.attempts|)
  {
    SameFiles(s, Fail(s));
    FailingKeepsEvents(s);
  }

  lemma AppendingKeeps(s: Session, i: nat, e: Event)
    requires Writable(s, i, e)
    ensures var s' := AppendEvent(s, i, e);
            && FilesOk(s') && EventsInv(s') && Unfinished(s') && AllEvents(s', |s'.attempts|) == AllEvents(s, |s.attempts|) + [e]
  {
    assert RangeOk(s, i);
    AppendEventKeepsFiles(s, i, e);
    AppendEventOnlyAppends(s, i, e);
    AppendingKeepsCore(s, AppendEvent(s, i, e), i, e);
  }

  lemma WriteEventKeeps(lim: Limits, s: Session, i: nat, e: Event, fits: bool)
    requires s.state.Active? && Ready(s, i, e)
    ensures var s' := WriteEvent(lim, s, i, e, fits);
            && FilesOk(s') && EventsInv(s') && Unfinished(s')
            && AllEvents(s', |s'.attempts|) == AllEvents(s, |s.attempts|) + if s'.state.Active? then [e] else []
  {
    var a := s.attempts[i];
    if !a.eventsOpen && FileOf(a, EventsFile) in s.files {
      FailingKeeps(s, i);
    } else {
      if !a.eventsOpen { OpeningIsWritable(s, i, e); }
      var ready := if a.eventsOpen then s else OpenEvents(s, i);
      assert Writable(ready, i, e);
      if WriteEvent(lim, s, i, e, fits).state.Active? {
        AppendingKeeps(ready, i, e);
      } else {
        FailingKeeps(ready, i);
      }
    }
  }

  /** An event is appended to what was emitted before, or the session fails and keeps what it has. */
  lemma EmitKeeps(lim: Limits, s: Session, e: Event, encodable: bool, fits: bool, lists: bool)
    requires FilesOk(s) && EventsInv(s) && Unfinished(s)
    ensures var s' := Emit(lim, s, e, encodable, fits, lists);
            && FilesOk(s') && EventsInv(s') && Unfinished(s')
            && AllEvents(s', |s'.attempts|) == AllEvents(s, |s.attempts|) + if s.state.Active? && s'.state.Active? then [e] else []
  {
    if s.state.Active? {
      if !encodable || !e.valid || !Routed(s, e) {
        FailingKeeps(s, s.current);
      } else {
        RoutingIsReady(s, e, lists);
        var i := IndexOfKey(s.attempts, e.key);
        var (moved, ok) := MoveOn(s, i, e.sequence, lists);
        if ok {
          WriteEventKeeps(lim, moved, i, e, fits);
        } else {
          FailingKeeps(moved, moved.current);
        }
      }
    }
  }
}

/** All-day events are stored at UTC midnight and shown on the viewer's local days.  The stored span
    is widened by 14 hours on either side, so that a search by instants finds them in every zone. */
module AllDay {
  import opened Common
  import opened Rules
  import opened Occurrences
  import R = Recurrence

  const MARGIN: int := 14 * 3600

  /** The UTC midnight of the day `t` falls on. */
  function Midnight(t: int): int {
    (t / DAY) * DAY
  }

  /** The view [from, to) for a viewer whose zone is `offFrom` ahead of UTC at its start and `offTo`
      at its end. */
  function NewWindow(from: int, to: int, offFrom: int, offTo: int): Window {
    Window(from, to, Midnight(from + offFrom), Midnight(to - 1 + offTo) + DAY)
  }

  predicate OnDay(e: Event, d: int) {
    e.start <= d * 86_400 < e.end
  }

  /** The view has exactly the viewer's local days: an all-day event is shown when it has a day from the one the view
      begins on to the one it ends on, both as the viewer's clock says. */
  lemma {:induction false} LocalDaysShown(e: Event, from: int, to: int, offFrom: int, offTo: int)
    requires e.allDay && e.start % 86_400 == 0 && e.end % 86_400 == 0 && e.start < e.end
    requires (from + offFrom) / 86_400 <= (to - 1 + offTo) / 86_400
    ensures NewWindow(from, to, offFrom, offTo).Shows(e) <==>
      exists d :: OnDay(e, d) && (from + offFrom) / 86_400 <= d <= (to - 1 + offTo) / 86_400
  {
    var first, last := (from + offFrom) / 86_400, (to - 1 + offTo) / 86_400;
    var d := if e.start < first * 86_400 then first else e.start / 86_400;
    if NewWindow(from, to, offFrom, offTo).Shows(e) {
      assert OnDay(e, d) && first <= d <= last;
    }
  }

  /** A timed event is judged by the instants of the view as given. */
  lemma {:induction false} WindowInstants(from: int, to: int, offFrom: int, offTo: int)
    ensures NewWindow(from, to, offFrom, offTo).from == from && NewWindow(from, to, offFrom, offTo).to == to
  {
  }

  /** The last instant the series starts at or may start at; None when there is no telling. */
  method LastStart(s: R.Series) returns (last: Option<int>)
    requires R.Valid(s) && |s.extra| > 0 && Consistent(s)
    ensures last.Some? ==> forall t :: R.Yields(s.rule, t) || t in s.extra ==> t <= last.value
    ensures last.None? ==> s.bound == Some(R.Forever) || s.rule(R.MAX_ITERATIONS - 1).Some?
    ensures last.None? ==> s.bound.Some? && !s.bound.value.Until?
    ensures last.Some? ==> last.value in s.extra || R.Yields(s.rule, last.value) || s.bound == Some(R.Until(last.value))
  {
    var greatest := s.extra[|s.extra| - 1];
    assert forall t :: t in s.extra ==> t <= greatest;
    match s.bound {
      case None =>
        return Some(greatest);
      case Some(Until(u)) =>
        return Some(if u > greatest then u else greatest);
      case Some(Forever) =>
        return None;
      case Some(Count(_)) =>
        for k := 0 to R.MAX_ITERATIONS
          invariant forall t :: t in s.extra ==> t <= greatest
          invariant greatest in s.extra || R.Yields(s.rule, greatest)
          invariant forall i: nat :: i < k ==> s.rule(i).Some? && s.rule(i).value <= greatest
        {
          var t := s.rule(k);
          if t.None? {
            EndedAt(s, k, greatest);
            return Some(greatest);
          }
          if t.value > greatest {
            greatest := t.value;
          }
        }
        return None;
    }
  }

  lemma {:induction false} EndedAt(s: R.Series, k: nat, greatest: int)
    requires R.OrderedStream(s.rule) && s.rule(k).None?
    requires forall i: nat :: i < k ==> s.rule(i).Some? && s.rule(i).value <= greatest
    ensures forall t :: R.Yields(s.rule, t) ==> t <= greatest
  {
    forall t | R.Yields(s.rule, t) ensures t <= greatest {
      var i: nat :| s.rule(i) == Some(t);
      assert i < k;
    }
  }

  /** The rule keeps the bound it declares. */
  ghost predicate Consistent(s: R.Series) {
    match s.bound
    case None => forall t :: !R.Yields(s.rule, t)
    case Some(Until(u)) => forall t :: R.Yields(s.rule, t) ==> t <= u
    case _ => true
  }

  lemma {:induction false} FromEventConsistent(e: Event)
    requires ValidRule(e.rule)
    ensures R.Valid(FromEvent(e)) && Consistent(FromEvent(e)) && |FromEvent(e).extra| > 0
    ensures FromEvent(e).extra[0] in [e.start] + e.rdate
    ensures forall t :: t in [e.start] + e.rdate ==> FromEvent(e).extra[0] <= t
  {
    FromEventOccurs(e);
    var xs := [e.start] + e.rdate;
    SortSorted(xs);
    assert e.start in xs;
    assert Sort(xs)[0] in Sort(xs);
    forall t | R.Yields(Values(e.start, e.rule), t) ensures Hits(e.start, e.rule, t) { ValuesHit(e.start, e.rule, t); }
  }

  /** The stored span of an event; no end means it is open. */
  method Span(e: Event) returns (from: int, to: Option<int>)
    requires ValidRule(e.rule)
    ensures from <= (if e.allDay then e.start - MARGIN else e.start)
    ensures !e.IsMaster() ==> to == Some(if e.allDay then e.end + 50_400 else e.end)
    ensures !e.IsMaster() ==> from == if e.allDay then e.start - 50_400 else e.start
    ensures e.IsMaster() ==> forall t :: OccursIn(e, t) ==> Covers(e, from, to, t)
    ensures e.IsMaster() ==> exists t :: t in [e.start] + e.rdate && from == if e.allDay then t - MARGIN else t
    ensures to.None? ==> e.IsMaster() && e.rule.Every? && !e.rule.bound.Until?
    ensures e.IsMaster() && to.Some? ==>
      exists t :: Last(e, t) && to == Some(t + (e.end - e.start) + if e.allDay then MARGIN else 0)
    ensures WholeDays(e) ==> NeverHidden(e, from, to)
  {
    var margin := if e.allDay then MARGIN else 0;
    from, to := e.start - margin, Some(e.end + margin);
    if e.IsMaster() {
      var s := FromEvent(e);
      FromEventConsistent(e);
      FromEventOccurs(e);
      assert e.start in [e.start] + e.rdate;
      var last := LastStart(s);
      from := s.extra[0] - margin;
      to := if last.None? then None else Some(last.value + e.Duration() + margin);
      SortSorted([e.start] + e.rdate);
      if last.Some? {
        ValuesHit(e.start, e.rule, last.value);
        assert Last(e, last.value);
      }
      forall t | OccursIn(e, t) ensures Covers(e, from, to, t) {
        assert R.Occurs(s, t);
        SortSorted([e.start] + e.rdate);
        ValuesHit(e.start, e.rule, t);
        assert t in s.extra || t >= e.start;
      }
    }
    if WholeDays(e) { SpanNeverHides(e, from, to); }
  }

  /** `t` is a start the series has or excludes, or its UNTIL. */
  predicate Last(e: Event, t: int)
    requires ValidRule(e.rule)
  {
    t == e.start || t in e.rdate || Hits(e.start, e.rule, t) || (e.rule.Every? && e.rule.bound == R.Until(t))
  }

  /** The occurrence at `t` lies in the span, with the margin to spare on either side. */
  predicate Covers(e: Event, from: int, to: Option<int>, t: int) {
    var margin := if e.allDay then MARGIN else 0;
    from + margin <= t && (to.Some? ==> t + e.Duration() + margin <= to.value)
  }

  /** The search by instants. */
  predicate Found(spanFrom: int, spanTo: Option<int>, from: int, to: int) {
    spanFrom < to && (spanTo.None? || spanTo.value > from)
  }

  /** Whatever the zone, an all-day occurrence on one of the viewer's days is found by its widened span. */
  lemma {:induction false} MarginSuffices(start: int, end: int, from: int, to: int, offFrom: int, offTo: int,
                                          spanFrom: int, spanTo: Option<int>)
    requires start % DAY == 0 && end % DAY == 0 && start < end
    requires -50_400 <= offFrom <= 50_400 && -50_400 <= offTo <= 50_400
    requires spanFrom + MARGIN <= start && (spanTo.Some? ==> end + MARGIN <= spanTo.value)
    requires var w := NewWindow(from, to, offFrom, offTo); R.Overlaps(start, end, w.dayFrom, w.dayTo)
    ensures Found(spanFrom, spanTo, from, to)
  {
    var w := NewWindow(from, to, offFrom, offTo);
    assert start < w.dayTo;
    assert end > w.dayFrom;
    assert start <= w.dayTo - DAY;
    assert end >= w.dayFrom + DAY;
  }

  predicate WholeDays(e: Event) {
    e.allDay && e.start % DAY == 0 && e.end % DAY == 0 && e.start < e.end && forall i :: 0 <= i < |e.rdate| ==>
      e.rdate[i] % DAY == 0
  }

  lemma {:induction false} OccurrenceIsDay(e: Event, t: int)
    requires WholeDays(e) && ValidRule(e.rule) && OccursIn(e, t)
    ensures t % DAY == 0
  {
    if Hits(e.start, e.rule, t) {
      var k := (t - e.start) / (e.rule.days * DAY);
      GridIndex(e.start, e.rule.days * DAY, t);
      assert t == e.start + (k * e.rule.days) * DAY;
    }
  }

  /** No view, in any zone, hides the event or an occurrence of it when it is searched by this span. */
  ghost predicate NeverHidden(e: Event, spanFrom: int, spanTo: Option<int>)
    requires ValidRule(e.rule)
  {
    forall t, from, to, offFrom, offTo ::
      && (if e.IsMaster() then OccursIn(e, t) else t == e.start)
      && -50_400 <= offFrom <= 50_400 && -50_400 <= offTo <= 50_400
      && NewWindow(from, to, offFrom, offTo).Shows(At(e, t))
      ==> Found(spanFrom, spanTo, from, to)
  }

  lemma {:induction false} ViewFinds(e: Event, spanFrom: int, spanTo: Option<int>, t: int, from: int, to: int,
                                     offFrom: int, offTo: int)
    requires e.allDay && e.start % DAY == 0 && e.end % DAY == 0 && e.start < e.end && t % DAY == 0
    requires Covers(e, spanFrom, spanTo, t)
    requires -50_400 <= offFrom <= 50_400 && -50_400 <= offTo <= 50_400
    requires NewWindow(from, to, offFrom, offTo).Shows(At(e, t))
    ensures Found(spanFrom, spanTo, from, to)
  {
    MarginSuffices(t, t + e.Duration(), from, to, offFrom, offTo, spanFrom, spanTo);
  }

  lemma {:induction false} SpanNeverHides(e: Event, spanFrom: int, spanTo: Option<int>)
    requires WholeDays(e) && ValidRule(e.rule)
    requires if e.IsMaster()
      then forall t :: OccursIn(e, t) ==> Covers(e, spanFrom, spanTo, t)
      else Covers(e, spanFrom, spanTo, e.start)
    ensures NeverHidden(e, spanFrom, spanTo)
  {
    forall t, from, to, offFrom, offTo |
      && (if e.IsMaster() then OccursIn(e, t) else t == e.start)
      && -50_400 <= offFrom <= 50_400 && -50_400 <= offTo <= 50_400
      && NewWindow(from, to, offFrom, offTo).Shows(At(e, t))
      ensures Found(spanFrom, spanTo, from, to)
    {
      if e.IsMaster() { OccurrenceIsDay(e, t); }
      ViewFinds(e, spanFrom, spanTo, t, from, to, offFrom, offTo);
    }
  }

  /** A timed event in the view is found by its bare span, but for one of no length at the very start. */
  lemma {:induction false} TimedFound(start: int, end: int, from: int, to: int)
    requires start <= end && from < to
    ensures R.Overlaps(start, end, from, to) <==> Found(start, Some(end), from, to) || (start == end && start == from)
  {
  }
}

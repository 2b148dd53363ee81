/** Stored events and the fixed-step rules they carry: every so many days, with no end, a COUNT
    or an UNTIL.  Instants are whole seconds in UTC; an all-day event starts at midnight. */
module Rules {
  import opened Common
  import R = Recurrence

  const DAY: int := 86_400

  type ID = int

  /** The series an override belongs to and the start it replaces there. */
  datatype Link = Link(series: ID, at: int)

  datatype Rule = NoRule | Every(days: nat, bound: R.Bound)

  datatype Event = Event(
    link: Option<Link>, uid: string, title: string, cancelled: bool, allDay: bool, start: int, end: int,
    rule: Rule, rdate: seq<int>, exdate: seq<int>)
  {
    predicate IsOverride() { link.Some? }

    predicate IsMaster() { link.None? && (rule.Every? || |rdate| > 0) }

    function Duration(): int { end - start }
  }

  predicate ValidRule(r: Rule) {
    r.Every? ==> r.days > 0 && (r.bound.Count? ==> r.bound.n > 0)
  }

  // ---------------------------------------------------------------- what a rule yields

  predicate OnGrid(start: int, step: int, t: int)
    requires step > 0
  {
    t >= start && (t - start) % step == 0
  }

  predicate InBound(start: int, step: int, b: R.Bound, t: int)
    requires step > 0
  {
    match b
    case Forever => true
    case Count(n) => (t - start) / step < n
    case Until(u) => t <= u
  }

  /** `t` is a value of the rule started at `start`. */
  predicate Hits(start: int, r: Rule, t: int)
    requires ValidRule(r)
  {
    r.Every? && OnGrid(start, r.days * DAY, t) && InBound(start, r.days * DAY, r.bound, t)
  }

  /** `t` is an occurrence of the series `e`. */
  predicate OccursIn(e: Event, t: int)
    requires ValidRule(e.rule)
  {
    (t == e.start || t in e.rdate || Hits(e.start, e.rule, t)) && t !in e.exdate
  }

  /** The iterator of the rule. */
  function Values(start: int, r: Rule): R.Stream
    requires ValidRule(r)
  {
    (k: nat) =>
      if r.NoRule? then None
      else
        var t := start + k * (r.days * DAY);
        match r.bound
        case Forever => Some(t)
        case Count(n) => if k < n then Some(t) else None
        case Until(u) => if t <= u then Some(t) else None
  }

  function FromEvent(e: Event): R.Series
    requires ValidRule(e.rule)
  {
    R.Series(e.start, e.Duration(), Values(e.start, e.rule), if e.rule.NoRule? then None else Some(e.rule.bound),
             Sort([e.start] + e.rdate), Elements(e.exdate))
  }

  // ---------------------------------------------------------------- arithmetic of the grid

  lemma {:induction false} MulMono(a: int, b: int, s: int)
    requires a <= b && s > 0
    ensures a * s <= b * s
  {
  }

  lemma {:induction false} StepAt(k: int, s: int, r: int)
    requires s > 0 && 0 <= r < s
    ensures (k * s + r) / s == k && (k * s + r) % s == r
  {
    var q, m := (k * s + r) / s, (k * s + r) % s;
    assert q * s + m == k * s + r;
    assert (q - k) * s == r - m;
    if q > k { MulMono(1, q - k, s); }
    if q < k { MulMono(q - k, -1, s); }
  }

  /** A grid point is its index times the step. */
  lemma {:induction false} GridIndex(start: int, s: int, t: int)
    requires s > 0 && OnGrid(start, s, t)
    ensures (t - start) / s >= 0 && t == start + ((t - start) / s) * s
  {
  }

  lemma {:induction false} GridPoint(start: int, s: int, k: nat)
    requires s > 0
    ensures OnGrid(start, s, start + k * s) && (start + k * s - start) / s == k
  {
    StepAt(k, s, 0);
    MulMono(0, k, s);
  }

  lemma {:induction false} GridOnward(start: int, s: int, at: int, t: int)
    requires s > 0 && OnGrid(start, s, at) && OnGrid(at, s, t)
    ensures OnGrid(start, s, t) && t >= at && (t - at) / s == (t - start) / s - (at - start) / s
  {
    var i, k := (at - start) / s, (t - at) / s;
    GridIndex(start, s, at);
    GridIndex(at, s, t);
    assert t - start == (i + k) * s;
    StepAt(i + k, s, 0);
  }

  lemma {:induction false} GridFrom(start: int, s: int, at: int, t: int)
    requires s > 0 && OnGrid(start, s, at) && OnGrid(start, s, t)
    ensures t >= at ==> OnGrid(at, s, t)
    ensures t < at ==> t <= at - s && (t - start) / s < (at - start) / s
  {
    var i, j := (at - start) / s, (t - start) / s;
    GridIndex(start, s, at);
    GridIndex(start, s, t);
    if t >= at {
      assert t - at == (j - i) * s;
      StepAt(j - i, s, 0);
    } else {
      if j >= i { MulMono(i, j, s); }
      MulMono(j, i - 1, s);
    }
  }

  /** The grid from one of its points is the rest of the grid. */
  lemma {:induction false} GridTail(start: int, s: int, at: int, t: int)
    requires s > 0 && OnGrid(start, s, at)
    ensures OnGrid(at, s, t) <==> OnGrid(start, s, t) && t >= at
    ensures OnGrid(at, s, t) ==> (t - at) / s == (t - start) / s - (at - start) / s
    ensures OnGrid(start, s, t) && t < at ==> t <= at - s && (t - start) / s < (at - start) / s
  {
    if OnGrid(at, s, t) { GridOnward(start, s, at, t); }
    if OnGrid(start, s, t) { GridFrom(start, s, at, t); }
  }

  /** The order of grid points is the order of their indices. */
  lemma {:induction false} GridOrder(start: int, s: int, j: int, k: int)
    requires s > 0
    ensures j <= k <==> start + j * s <= start + k * s
  {
    if j <= k { MulMono(j, k, s); } else { MulMono(k + 1, j, s); }
  }

  // ---------------------------------------------------------------- the iterator yields what the rule hits

  lemma {:induction false} ValuesHit(start: int, r: Rule, t: int)
    requires ValidRule(r)
    ensures R.Yields(Values(start, r), t) <==> Hits(start, r, t)
  {
    if r.Every? {
      var s := r.days * DAY;
      if Hits(start, r, t) {
        GridIndex(start, s, t);
        var k: nat := (t - start) / s;
        assert Values(start, r)(k) == Some(t);
      }
      if R.Yields(Values(start, r), t) {
        var k: nat :| Values(start, r)(k) == Some(t);
        GridPoint(start, s, k);
      }
    }
  }

  lemma {:induction false} ValuesOrdered(start: int, r: Rule)
    requires ValidRule(r)
    ensures R.OrderedStream(Values(start, r))
  {
    if r.Every? {
      forall i: nat, j: nat | i < j && Values(start, r)(j).Some?
        ensures Values(start, r)(i).Some? && Values(start, r)(i).value <= Values(start, r)(j).value
      {
        GridOrder(start, r.days * DAY, i, j);
      }
    }
  }

  /** The walk of Recurrence applies to a stored event, and its starts are the event's occurrences. */
  lemma {:induction false} FromEventOccurs(e: Event)
    requires ValidRule(e.rule)
    ensures R.Valid(FromEvent(e))
    ensures forall t :: R.Occurs(FromEvent(e), t) <==> OccursIn(e, t)
  {
    ValuesOrdered(e.start, e.rule);
    SortSorted([e.start] + e.rdate);
    forall t ensures R.Occurs(FromEvent(e), t) <==> OccursIn(e, t) {
      ValuesHit(e.start, e.rule, t);
    }
  }

  // ---------------------------------------------------------------- splitting a series

  datatype Error = NotFound | Invalid | Conflict | TooMany

  /** How many of the first `count` rule values lie before `at`, counting from the k-th. */
  function CountFrom(start: int, step: int, count: nat, at: int, k: nat): (n: nat)
    requires k <= count
    ensures k <= n <= count
    ensures forall i :: k <= i < n ==> start + i * step < at
    ensures n < count ==> start + n * step >= at
    decreases count - k
  {
    if k < count && start + k * step < at then CountFrom(start, step, count, at, k + 1) else k
  }

  function Counted(days: nat, n: nat): Rule {
    if n > 0 then Every(days, R.Count(n)) else NoRule
  }

  /** The rules of the two parts when the series `e` is cut at `at`.  A series of extra dates alone
      has no rule to cut. */
  function Split(e: Event, at: int): (r: Result<(Rule, Rule), Error>)
    requires ValidRule(e.rule)
    ensures r.Ok? <==> e.rule.Every?
    ensures r.Ok? ==> ValidRule(r.value.0) && ValidRule(r.value.1)
  {
    match e.rule
    case NoRule => Err(Invalid)
    case Every(days, Count(count)) =>
      var n := CountFrom(e.start, days * DAY, count, at, 0);
      Ok((Counted(days, n), Counted(days, count - n)))
    case Every(days, _) => Ok((Every(days, R.Until(at - 1)), e.rule))
  }

  /** The counting loop of the source. */
  method CountBefore(start: int, step: int, count: nat, at: int) returns (n: nat)
    ensures n == CountFrom(start, step, count, at, 0)
  {
    n := 0;
    while n < count
      invariant n <= count
      invariant CountFrom(start, step, count, at, 0) == CountFrom(start, step, count, at, n)
    {
      var t := start + n * step;
      if !(t < at) {
        break;
      }
      n := n + 1;
    }
  }

  /** Split with that loop. */
  method SplitRule(e: Event, at: int) returns (r: Result<(Rule, Rule), Error>)
    requires ValidRule(e.rule)
    ensures r == Split(e, at)
  {
    if e.rule.NoRule? {
      return Err(Invalid);
    }
    if !e.rule.bound.Count? {
      return Ok((Every(e.rule.days, R.Until(at - 1)), e.rule));
    }
    var count := e.rule.bound.n;
    var n := CountBefore(e.start, e.rule.days * DAY, count, at);
    var head, tail := NoRule, NoRule;
    if n > 0 {
      head := Every(e.rule.days, R.Count(n));
    }
    if count - n > 0 {
      tail := Every(e.rule.days, R.Count(count - n));
    }
    return Ok((head, tail));
  }

  predicate GridPointIn(start: int, step: int, lo: int, hi: int)
    requires step > 0
  {
    hi >= start && start + ((hi - start) / step) * step > lo
  }

  lemma {:induction false} LastGridPoint(start: int, step: int, t: int, hi: int)
    requires step > 0 && start <= t <= hi && OnGrid(start, step, t)
    ensures t <= start + ((hi - start) / step) * step
  {
    var j, k := (t - start) / step, (hi - start) / step;
    GridIndex(start, step, t);
    assert k * step + (hi - start) % step == hi - start;
    if j > k { MulMono(k + 1, j, step); } else { MulMono(j, k, step); }
  }

  lemma {:induction false} GridPointInIs(start: int, step: int, lo: int, hi: int)
    requires step > 0
    ensures GridPointIn(start, step, lo, hi) <==> exists t :: lo < t <= hi && OnGrid(start, step, t)
  {
    if hi >= start {
      var k := (hi - start) / step;
      assert k * step + (hi - start) % step == hi - start;
      GridPoint(start, step, k);
      forall t | lo < t <= hi && OnGrid(start, step, t) ensures t <= start + k * step {
        LastGridPoint(start, step, t, hi);
      }
    }
  }

  /** Where a cut divides the rule's values without loss: at one of them, or after the last of
      them.  A cut after UNTIL moves UNTIL up to the cut, so no step of the rule may fall between. */
  predicate CutPoint(start: int, r: Rule, at: int)
    requires ValidRule(r) && r.Every?
  {
    var step := r.days * DAY;
    Hits(start, r, at) ||
    match r.bound
    case Forever => false
    case Count(n) => start + (n - 1) * step < at
    case Until(u) => u < at && !GridPointIn(start, step, u, at - 1)
  }

  /** At `t` the two parts agree with the rule they came from. */
  predicate Divides(start: int, r: Rule, at: int, head: Rule, tail: Rule, t: int)
    requires ValidRule(r) && ValidRule(head) && ValidRule(tail)
  {
    && (Hits(start, head, t) <==> Hits(start, r, t) && t < at)
    && (Hits(at, tail, t) <==> Hits(start, r, t) && t >= at)
  }

  /** COUNT divides with no loss. */
  lemma {:induction false} CountDivides(e: Event, at: int)
    requires ValidRule(e.rule) && e.rule.Every? && e.rule.bound.Count? && at > e.start
    ensures var (head, tail) := Split(e, at).value;
      && head.Every? && head.days == e.rule.days && head.bound.Count?
      && e.rule.bound.n == head.bound.n + (if tail.Every? then tail.bound.n else 0)
      && (tail.Every? ==> tail.days == e.rule.days && tail.bound.Count?)
      && (head.bound.n - 1) * (e.rule.days * DAY) < at - e.start
      && (tail.Every? ==> at - e.start <= head.bound.n * (e.rule.days * DAY))
  {
  }

  lemma {:induction false} UncountedAtHit(e: Event, at: int, t: int)
    requires ValidRule(e.rule) && at > e.start && Hits(e.start, e.rule, at) && !e.rule.bound.Count?
    ensures Divides(e.start, e.rule, at, Split(e, at).value.0, Split(e, at).value.1, t)
  {
    GridTail(e.start, e.rule.days * DAY, at, t);
  }

  lemma {:induction false} CountAtHit(e: Event, at: int, t: int)
    requires ValidRule(e.rule) && at > e.start && Hits(e.start, e.rule, at) && e.rule.bound.Count?
    ensures Divides(e.start, e.rule, at, Split(e, at).value.0, Split(e, at).value.1, t)
  {
    var step := e.rule.days * DAY;
    var (head, tail) := Split(e, at).value;
    CountDivides(e, at);
    GridIndex(e.start, step, at);
    var i := (at - e.start) / step;
    var n0 := head.bound.n;
    GridOrder(0, step, i, n0 - 1);
    if tail.Every? { GridOrder(0, step, i, n0); }
    GridTail(e.start, step, at, t);
    assert tail.Every? ==> n0 == i;
  }

  /** After the last value the head keeps them all and the tail yields none. */
  lemma {:induction false} SplitPastEnd(e: Event, at: int, t: int)
    requires ValidRule(e.rule) && e.rule.Every? && at > e.start && CutPoint(e.start, e.rule, at)
    requires !Hits(e.start, e.rule, at)
    ensures Divides(e.start, e.rule, at, Split(e, at).value.0, Split(e, at).value.1, t)
  {
    var step := e.rule.days * DAY;
    if e.rule.bound.Count? {
      var n := e.rule.bound.n;
      CountDivides(e, at);
      var n0 := Split(e, at).value.0.bound.n;
      if n0 < n { GridOrder(0, step, n0, n - 1); }
      if OnGrid(e.start, step, t) && (t - e.start) / step < n {
        GridIndex(e.start, step, t);
        GridOrder(e.start, step, (t - e.start) / step, n - 1);
      }
    } else {
      GridPointInIs(e.start, step, e.rule.bound.last, at - 1);
    }
  }

  /** Elsewhere some value is lost or made up. */
  lemma {:induction false} SplitMisses(e: Event, at: int) returns (t: int)
    requires ValidRule(e.rule) && e.rule.Every? && at > e.start && !CutPoint(e.start, e.rule, at)
    ensures !Divides(e.start, e.rule, at, Split(e, at).value.0, Split(e, at).value.1, t)
  {
    var step := e.rule.days * DAY;
    GridPoint(at, step, 0);
    t := at;
    if e.rule.bound.Count? {
      CountDivides(e, at);
      var n := e.rule.bound.n;
      assert Split(e, at).value.1.Every?;
    } else if e.rule.bound.Until? && e.rule.bound.last < at {
      GridPointInIs(e.start, step, e.rule.bound.last, at - 1);
      t :| e.rule.bound.last < t <= at - 1 && OnGrid(e.start, step, t);
    }
  }

  /** Splitting at a later instant divides the values of the rule exactly when it is a cut point. */
  lemma {:induction false} SplitDividesRule(e: Event, at: int)
    requires ValidRule(e.rule) && e.rule.Every? && at > e.start
    ensures (forall t :: Divides(e.start, e.rule, at, Split(e, at).value.0, Split(e, at).value.1, t)) <==>
      CutPoint(e.start, e.rule, at)
  {
    var (head, tail) := Split(e, at).value;
    if CutPoint(e.start, e.rule, at) {
      forall t ensures Divides(e.start, e.rule, at, head, tail, t) {
        if !Hits(e.start, e.rule, at) { SplitPastEnd(e, at, t); }
        else if e.rule.bound.Count? { CountAtHit(e, at, t); }
        else { UncountedAtHit(e, at, t); }
      }
    } else {
      var t := SplitMisses(e, at);
    }
  }

  // ---------------------------------------------------------------- the two parts of a series

  function TimesBefore(ts: seq<int>, at: int): (r: seq<int>)
    ensures forall t :: t in r <==> t in ts && t < at
  {
    if ts == [] then []
    else
      var n := |ts| - 1;
      assert ts == ts[..n] + [ts[n]];
      TimesBefore(ts[..n], at) + if ts[n] < at then [ts[n]] else []
  }

  function TimesFrom(ts: seq<int>, at: int): (r: seq<int>)
    ensures forall t :: t in r <==> t in ts && t >= at
  {
    if ts == [] then []
    else
      var n := |ts| - 1;
      assert ts == ts[..n] + [ts[n]];
      TimesFrom(ts[..n], at) + if ts[n] < at then [] else [ts[n]]
  }

  method SplitTimes(ts: seq<int>, at: int) returns (before: seq<int>, after: seq<int>)
    ensures before == TimesBefore(ts, at) && after == TimesFrom(ts, at)
  {
    before, after := [], [];
    for i := 0 to |ts|
      invariant before == TimesBefore(ts[..i], at) && after == TimesFrom(ts[..i], at)
    {
      assert ts[..i + 1][..i] == ts[..i];
      if ts[i] < at {
        before := before + [ts[i]];
      } else {
        after := after + [ts[i]];
      }
    }
    assert ts[..|ts|] == ts;
  }

  function HeadPart(m: Event, at: int, head: Rule): Event {
    m.(rule := head, rdate := TimesBefore(m.rdate, at), exdate := TimesBefore(m.exdate, at))
  }

  function TailPart(m: Event, at: int, tail: Rule): Event {
    m.(start := at, end := at + m.Duration(), rule := tail,
       rdate := TimesFrom(m.rdate, at), exdate := TimesFrom(m.exdate, at))
  }

  /** `t` is an occurrence of the series, or is not, whatever the rule says there. */
  predicate Beside(m: Event, t: int) {
    t == m.start || t in m.rdate || t in m.exdate
  }

  /** At `t` the two parts have the occurrences of the series, each on its side of the cut. */
  predicate ConservesAt(m: Event, at: int, head: Rule, tail: Rule, t: int)
    requires ValidRule(m.rule) && ValidRule(head) && ValidRule(tail)
  {
    && (OccursIn(HeadPart(m, at, head), t) <==> OccursIn(m, t) && t < at)
    && (OccursIn(TailPart(m, at, tail), t) <==> OccursIn(m, t) && t >= at)
  }

  /** The head rule agrees with the old one before the cut, and the tail rule from it on, except at the
      cut itself and beside the rule. */
  ghost predicate DividesBeside(m: Event, at: int)
    requires ValidRule(m.rule) && m.rule.Every?
  {
    forall t ::
      Divides(m.start, m.rule, at, Split(m, at).value.0, Split(m, at).value.1, t) || t == at || Beside(m, t)
  }

  /** The same for the head alone. */
  ghost predicate HeadBeside(m: Event, at: int)
    requires ValidRule(m.rule) && m.rule.Every?
  {
    forall t :: HeadAgrees(m, at, t) || Beside(m, t)
  }

  predicate HeadAgrees(m: Event, at: int, t: int)
    requires ValidRule(m.rule) && m.rule.Every?
  {
    Hits(m.start, Split(m, at).value.0, t) <==> Hits(m.start, m.rule, t) && t < at
  }

  predicate TailAgrees(m: Event, at: int, t: int)
    requires ValidRule(m.rule) && m.rule.Every?
  {
    Hits(at, Split(m, at).value.1, t) <==> Hits(m.start, m.rule, t) && t >= at
  }

  // ---------------------------------------------------------------- cuts that can be told beforehand

  /** How many of the first `count` values of a rule lie before `at`. */
  function ValuesBefore(start: int, step: int, count: nat, at: int): int
    requires step > 0
  {
    var q := (at - start + step - 1) / step;
    if q < count then q else count
  }

  /** The k-th value of the tail and the k-th old value it stands for are both beside the rule; the first
      value of the tail is the cut itself. */
  predicate PairBeside(m: Event, at: int, step: int, before: int, k: int) {
    (k == 0 || Beside(m, at + k * step)) && Beside(m, m.start + (before + k) * step)
  }

  /** The head has nothing it should not have: no step of the rule between UNTIL and the cut, where UNTIL is
      moved up to the cut, unless it lies beside the rule. */
  predicate CleanHead(m: Event, at: int)
    requires ValidRule(m.rule) && m.rule.Every?
  {
    m.rule.bound.Until? ==>
      forall t :: m.rule.bound.last < t < at && OnGrid(m.start, m.rule.days * DAY, t) ==> Beside(m, t)
  }

  /** The cut is on the grid of the rule, or whatever the old and the new grid have from it on lies beside
      the rule; an endless rule has too much for that. */
  predicate CleanTail(m: Event, at: int)
    requires ValidRule(m.rule) && m.rule.Every?
  {
    var step := m.rule.days * DAY;
    OnGrid(m.start, step, at) ||
    match m.rule.bound
    case Forever => false
    case Until(u) => forall t :: at < t <= u && (OnGrid(m.start, step, t) || OnGrid(at, step, t)) ==> Beside(m, t)
    case Count(n) =>
      var before := ValuesBefore(m.start, step, n, at);
      forall k :: 0 <= k < n - before ==> PairBeside(m, at, step, before, k)
  }

  predicate CleanCut(m: Event, at: int)
    requires ValidRule(m.rule) && m.rule.Every?
  {
    CleanHead(m, at) && CleanTail(m, at)
  }

  lemma {:induction false} CountIs(start: int, step: int, count: nat, at: int)
    requires step > 0 && at > start
    ensures CountFrom(start, step, count, at, 0) == ValuesBefore(start, step, count, at)
  {
    var n, q := CountFrom(start, step, count, at, 0), (at - start + step - 1) / step;
    assert q * step + (at - start + step - 1) % step == at - start + step - 1;
    assert (q - 1) * step == q * step - step && (n - 1) * step == n * step - step;
    if n < q && n < count { MulMono(n, q - 1, step); }
    assert 0 <= q < n ==> start + q * step < at;
  }

  lemma {:induction false} HeadIs(m: Event, at: int, t: int)
    requires ValidRule(m.rule) && m.rule.Every? && at > m.start
    ensures HeadAgrees(m, at, t) <==>
      !(m.rule.bound.Until? && m.rule.bound.last < t < at && OnGrid(m.start, m.rule.days * DAY, t))
  {
    if m.rule.bound.Count? {
      var step, count := m.rule.days * DAY, m.rule.bound.n;
      if Hits(m.start, Split(m, at).value.0, t) { HeadEnds(m, at, t); }
      if Hits(m.start, m.rule, t) && t < at {
        GridIndex(m.start, step, t);
        var k, n := (t - m.start) / step, CountFrom(m.start, step, count, at, 0);
        if n <= k { GridOrder(m.start, step, n, k); }
      }
    }
  }

  lemma {:induction false} CleanHeadIs(m: Event, at: int)
    requires ValidRule(m.rule) && m.rule.Every? && at > m.start
    ensures HeadBeside(m, at) <==> CleanHead(m, at)
  {
    forall t ensures HeadAgrees(m, at, t) <==>
      !(m.rule.bound.Until? && m.rule.bound.last < t < at && OnGrid(m.start, m.rule.days * DAY, t))
    {
      HeadIs(m, at, t);
    }
  }

  lemma {:induction false} TailOnGrid(m: Event, at: int, t: int)
    requires ValidRule(m.rule) && m.rule.Every? && at > m.start && OnGrid(m.start, m.rule.days * DAY, at)
    ensures TailAgrees(m, at, t)
  {
    var step := m.rule.days * DAY;
    if Hits(m.start, m.rule, at) {
      if m.rule.bound.Count? { CountAtHit(m, at, t); } else { UncountedAtHit(m, at, t); }
    } else if m.rule.bound.Count? {
      GridIndex(m.start, step, at);
      GridOrder(m.start, step, m.rule.bound.n, (at - m.start) / step);
      GridOrder(m.start, step, m.rule.bound.n, m.rule.bound.n - 1);
      SplitPastEnd(m, at, t);
    }
  }

  /** A grid begun off another grid never meets it. */
  lemma {:induction false} GridsApart(start: int, step: int, at: int, t: int)
    requires step > 0 && at >= start && !OnGrid(start, step, at) && OnGrid(at, step, t)
    ensures !OnGrid(start, step, t)
  {
    if OnGrid(start, step, t) {
      GridIndex(start, step, t);
      GridIndex(at, step, t);
      var i, k := (t - start) / step, (t - at) / step;
      assert at - start == (i - k) * step;
      StepAt(i - k, step, 0);
    }
  }

  lemma {:induction false} TailOffGrid(m: Event, at: int, t: int)
    requires ValidRule(m.rule) && m.rule.Every? && at > m.start && !OnGrid(m.start, m.rule.days * DAY, at)
    ensures TailAgrees(m, at, t) <==> !Hits(at, Split(m, at).value.1, t) && !(Hits(m.start, m.rule, t) && t >= at)
  {
    if Hits(at, Split(m, at).value.1, t) { GridsApart(m.start, m.rule.days * DAY, at, t); }
  }

  ghost predicate TailBeside(m: Event, at: int)
    requires ValidRule(m.rule) && m.rule.Every?
  {
    forall t :: TailAgrees(m, at, t) || t == at || Beside(m, t)
  }

  /** Past all of these. */
  lemma {:induction false} Beyond(ts: seq<int>) returns (b: int)
    ensures forall t :: t in ts ==> t < b
  {
    b := 0;
    if ts != [] {
      var n := |ts| - 1;
      var c := Beyond(ts[..n]);
      b := if ts[n] < c then c else ts[n] + 1;
      assert ts == ts[..n] + [ts[n]];
    }
  }

  lemma {:induction false} EndlessOffGrid(m: Event, at: int)
    requires ValidRule(m.rule) && m.rule.Every? && m.rule.bound.Forever? && at > m.start
    requires !OnGrid(m.start, m.rule.days * DAY, at)
    ensures !TailBeside(m, at)
  {
    var step := m.rule.days * DAY;
    var b := Beyond(m.rdate);
    var c := Beyond(m.exdate);
    var k: nat := 1 + (if b > at then b - at else 0) + (if c > at then c - at else 0);
    GridPoint(at, step, k);
    MulMono(1, step, k);
    var t := at + k * step;
    assert t >= at + k;
    assert !Beside(m, t);
    TailOffGrid(m, at, t);
    assert !TailAgrees(m, at, t);
  }

  lemma {:induction false} UntilOffGrid(m: Event, at: int)
    requires ValidRule(m.rule) && m.rule.Every? && m.rule.bound.Until? && at > m.start
    requires !OnGrid(m.start, m.rule.days * DAY, at)
    ensures TailBeside(m, at) <==> CleanTail(m, at)
  {
    var step, u := m.rule.days * DAY, m.rule.bound.last;
    forall t | t != at
      ensures TailAgrees(m, at, t) <==> !(at < t <= u && (OnGrid(m.start, step, t) || OnGrid(at, step, t)))
    {
      TailOffGrid(m, at, t);
    }
  }

  /** The values the tail of a counted rule has, and the old ones from the cut on. */
  lemma {:induction false} CountedTail(m: Event, at: int, k: nat)
    requires ValidRule(m.rule) && m.rule.Every? && m.rule.bound.Count? && at > m.start
    requires k < m.rule.bound.n - ValuesBefore(m.start, m.rule.days * DAY, m.rule.bound.n, at)
    ensures var step := m.rule.days * DAY;
      var before := ValuesBefore(m.start, step, m.rule.bound.n, at);
      && Hits(at, Split(m, at).value.1, at + k * step)
      && before >= 0 && Hits(m.start, m.rule, m.start + (before + k) * step) && m.start + (before + k) * step >= at
  {
    var step, n := m.rule.days * DAY, m.rule.bound.n;
    CountIs(m.start, step, n, at);
    var before := ValuesBefore(m.start, step, n, at);
    GridPoint(at, step, k);
    GridPoint(m.start, step, before + k);
    GridOrder(m.start, step, before, before + k);
  }

  lemma {:induction false} CountedOnly(m: Event, at: int, t: int) returns (k: nat)
    requires ValidRule(m.rule) && m.rule.Every? && m.rule.bound.Count? && at > m.start
    requires Hits(at, Split(m, at).value.1, t) || (Hits(m.start, m.rule, t) && t >= at)
    ensures var step := m.rule.days * DAY;
      var before := ValuesBefore(m.start, step, m.rule.bound.n, at);
      && k < m.rule.bound.n - before
      && (t == at + k * step || t == m.start + (before + k) * step)
  {
    var step, n := m.rule.days * DAY, m.rule.bound.n;
    CountIs(m.start, step, n, at);
    var before := CountFrom(m.start, step, n, at, 0);
    if Hits(at, Split(m, at).value.1, t) {
      GridIndex(at, step, t);
      k := (t - at) / step;
    } else {
      GridIndex(m.start, step, t);
      var j := (t - m.start) / step;
      assert j >= before;
      k := j - before;
    }
  }

  lemma {:induction false} CountOffGrid(m: Event, at: int)
    requires ValidRule(m.rule) && m.rule.Every? && m.rule.bound.Count? && at > m.start
    requires !OnGrid(m.start, m.rule.days * DAY, at)
    ensures TailBeside(m, at) <==> CleanTail(m, at)
  {
    var step, n := m.rule.days * DAY, m.rule.bound.n;
    var before := ValuesBefore(m.start, step, n, at);
    if TailBeside(m, at) {
      forall k | 0 <= k < n - before ensures PairBeside(m, at, step, before, k) {
        CountedTail(m, at, k);
        PairFrom(m, at, step, before, k);
      }
    }
    if CleanTail(m, at) {
      forall t ensures TailAgrees(m, at, t) || t == at || Beside(m, t) {
        TailOffGrid(m, at, t);
        if !TailAgrees(m, at, t) {
          var k := CountedOnly(m, at, t);
          assert PairBeside(m, at, step, before, k);
        }
      }
    }
  }

  lemma {:induction false} PairFrom(m: Event, at: int, step: int, before: nat, k: nat)
    requires ValidRule(m.rule) && m.rule.Every? && at > m.start && step == m.rule.days * DAY
    requires !OnGrid(m.start, step, at) && TailBeside(m, at)
    requires Hits(at, Split(m, at).value.1, at + k * step)
    requires Hits(m.start, m.rule, m.start + (before + k) * step) && m.start + (before + k) * step >= at
    ensures PairBeside(m, at, step, before, k)
  {
    var t1, t2 := at + k * step, m.start + (before + k) * step;
    TailOffGrid(m, at, t1);
    TailOffGrid(m, at, t2);
    assert !TailAgrees(m, at, t1) && !TailAgrees(m, at, t2);
    if k > 0 { MulMono(1, k, step); }
    assert t2 != at;
  }

  lemma {:induction false} CleanTailIs(m: Event, at: int)
    requires ValidRule(m.rule) && m.rule.Every? && at > m.start
    ensures TailBeside(m, at) <==> CleanTail(m, at)
  {
    if OnGrid(m.start, m.rule.days * DAY, at) {
      forall t ensures TailAgrees(m, at, t) { TailOnGrid(m, at, t); }
    } else {
      match m.rule.bound
      case Forever => EndlessOffGrid(m, at);
      case Until(_) => UntilOffGrid(m, at);
      case Count(_) => CountOffGrid(m, at);
    }
  }

  /** The head never agrees less at the cut itself than the rest asks. */
  lemma {:induction false} CleanCutIs(m: Event, at: int)
    requires ValidRule(m.rule) && m.rule.Every? && at > m.start
    ensures DividesBeside(m, at) <==> CleanCut(m, at)
  {
    CleanHeadIs(m, at);
    CleanTailIs(m, at);
    forall t ensures
      Divides(m.start, m.rule, at, Split(m, at).value.0, Split(m, at).value.1, t) <==>
        HeadAgrees(m, at, t) && TailAgrees(m, at, t)
    {
    }
    HeadIs(m, at, at);
  }

  lemma {:induction false} HeadEnds(m: Event, at: int, t: int)
    requires ValidRule(m.rule) && m.rule.Every? && at > m.start && Hits(m.start, Split(m, at).value.0, t)
    ensures t < at
  {
    if m.rule.bound.Count? {
      var step := m.rule.days * DAY;
      GridIndex(m.start, step, t);
      var k := (t - m.start) / step;
      var n := CountFrom(m.start, step, m.rule.bound.n, at, 0);
      assert 0 <= k < n;
      assert m.start + k * step < at;
    }
  }

  lemma {:induction false} ConservesThere(m: Event, at: int, t: int)
    requires ValidRule(m.rule) && m.rule.Every? && at > m.start && OccursIn(m, at)
    ensures var (head, tail) := Split(m, at).value;
      && (ConservesAt(m, at, head, tail, t) <==> Divides(m.start, m.rule, at, head, tail, t) || t == at || Beside(m, t))
      && ((OccursIn(HeadPart(m, at, head), t) <==> OccursIn(m, t) && t < at) <==>
          ((Hits(m.start, head, t) <==> Hits(m.start, m.rule, t) && t < at) || Beside(m, t)))
  {
    var (head, tail) := Split(m, at).value;
    if Hits(m.start, head, t) { HeadEnds(m, at, t); }
  }

  /** Cutting a series at one of its later occurrences conserves it, the head having the occurrences before
      the cut and the tail those from the cut on, if and only if the cut is clean. */
  lemma {:induction false} SplitConserves(m: Event, at: int)
    requires ValidRule(m.rule) && m.rule.Every? && at > m.start && OccursIn(m, at)
    ensures (forall t :: ConservesAt(m, at, Split(m, at).value.0, Split(m, at).value.1, t)) <==> CleanCut(m, at)
    ensures (forall t :: OccursIn(HeadPart(m, at, Split(m, at).value.0), t) <==> OccursIn(m, t) && t < at) <==>
      CleanHead(m, at)
  {
    CleanCutIs(m, at);
    CleanHeadIs(m, at);
    var (head, tail) := Split(m, at).value;
    forall t
      ensures ConservesAt(m, at, head, tail, t) <==>
        Divides(m.start, m.rule, at, head, tail, t) || t == at || Beside(m, t)
    {
      ConservesThere(m, at, t);
    }
    forall t ensures (OccursIn(HeadPart(m, at, head), t) <==> OccursIn(m, t) && t < at) <==>
      ((Hits(m.start, head, t) <==> Hits(m.start, m.rule, t) && t < at) || Beside(m, t))
    {
      ConservesThere(m, at, t);
    }
  }

  /** A cut at a value of the rule, or after its last one, is clean. */
  lemma {:induction false} CutPointIsClean(m: Event, at: int)
    requires ValidRule(m.rule) && m.rule.Every? && at > m.start && CutPoint(m.start, m.rule, at)
    ensures CleanCut(m, at) && CleanHead(m, at)
  {
    SplitDividesRule(m, at);
    var (head, tail) := Split(m, at).value;
    forall t ensures Divides(m.start, m.rule, at, head, tail, t) && HeadAgrees(m, at, t) { }
    CleanCutIs(m, at);
    CleanHeadIs(m, at);
  }

  /** Wherever it is cut, the head keeps every earlier occurrence. */
  lemma {:induction false} HeadKeeps(m: Event, at: int, t: int)
    requires ValidRule(m.rule) && m.rule.Every? && OccursIn(m, t) && t < at
    ensures OccursIn(HeadPart(m, at, Split(m, at).value.0), t)
  {
    if Hits(m.start, m.rule, t) && m.rule.bound.Count? {
      var step, count := m.rule.days * DAY, m.rule.bound.n;
      GridIndex(m.start, step, t);
      var k := (t - m.start) / step;
      var n := CountFrom(m.start, step, count, at, 0);
      if n <= k { GridOrder(m.start, step, n, k); }
    }
  }

  /** Cutting at an extra date off the grid of an endless rule makes up occurrences. */
  lemma {:induction false} ExtraDateCutMakesUp()
    ensures var m := Event(None, "u", "", false, false, 0, 3600, Every(1, R.Forever), [DAY + 60], []);
      && OccursIn(m, DAY + 60) && !CutPoint(m.start, m.rule, DAY + 60)
      && OccursIn(TailPart(m, DAY + 60, Split(m, DAY + 60).value.1), 2 * DAY + 60) && !OccursIn(m, 2 * DAY + 60)
  {
    GridPoint(DAY + 60, DAY, 1);
  }

  /** Cutting at an extra date days after UNTIL revives the days between. */
  lemma {:induction false} CutAfterUntilRevives()
    ensures var m := Event(None, "u", "", false, false, 0, 3600, Every(1, R.Until(DAY)), [5 * DAY], []);
      && OccursIn(m, 5 * DAY) && !CutPoint(m.start, m.rule, 5 * DAY)
      && OccursIn(HeadPart(m, 5 * DAY, Split(m, 5 * DAY).value.0), 2 * DAY) && !OccursIn(m, 2 * DAY)
  {
  }

  // ---------------------------------------------------------------- moving a whole series

  function ShiftTimes(ts: seq<int>, d: int): (r: seq<int>)
    ensures |r| == |ts|
  {
    seq(|ts|, i requires 0 <= i < |ts| => ts[i] + d)
  }

  method ShiftAll(ts: seq<int>, d: int) returns (out: seq<int>)
    ensures out == ShiftTimes(ts, d)
  {
    out := [];
    for i := 0 to |ts|
      invariant |out| == i && forall j :: 0 <= j < i ==> out[j] == ts[j] + d
    {
      out := out + [ts[i] + d];
    }
  }

  lemma {:induction false} ShiftMember(ts: seq<int>, d: int, t: int)
    ensures t + d in ShiftTimes(ts, d) <==> t in ts
  {
    if t in ts {
      var i :| 0 <= i < |ts| && ts[i] == t;
      assert ShiftTimes(ts, d)[i] == t + d;
    }
    if t + d in ShiftTimes(ts, d) {
      var i :| 0 <= i < |ts| && ShiftTimes(ts, d)[i] == t + d;
      assert ts[i] == t;
    }
  }

  function Shifted(m: Event, d: int): Event {
    m.(start := m.start + d, end := m.end + d, rdate := ShiftTimes(m.rdate, d), exdate := ShiftTimes(m.exdate, d))
  }

  /** UNTIL stays where it is when the start moves, so no step of the rule may cross it. */
  predicate MovesFreely(start: int, r: Rule, d: int)
    requires ValidRule(r)
  {
    r.Every? && r.bound.Until? ==>
      var u := r.bound.last;
      !GridPointIn(start, r.days * DAY, if d > 0 then u - d else u, if d > 0 then u else u - d)
  }

  /** At `t` the moved rule agrees with the original. */
  predicate MovedHit(start: int, r: Rule, d: int, t: int)
    requires ValidRule(r)
  {
    Hits(start + d, r, t + d) <==> Hits(start, r, t)
  }

  lemma {:induction false} MovedHitIs(start: int, r: Rule, d: int, t: int)
    requires ValidRule(r)
    ensures MovedHit(start, r, d, t) <==>
      !(r.Every? && r.bound.Until? && OnGrid(start, r.days * DAY, t) && (t <= r.bound.last) != (t + d <= r.bound.last))
  {
    if r.Every? {
      assert (t + d) - (start + d) == t - start;
    }
  }

  /** Moving the start of a rule by `d` moves all its values by `d` exactly when no step crosses UNTIL. */
  lemma {:induction false} ShiftRule(start: int, r: Rule, d: int)
    requires ValidRule(r)
    ensures (forall t :: MovedHit(start, r, d, t)) <==> MovesFreely(start, r, d)
  {
    if r.Every? && r.bound.Until? {
      var u := r.bound.last;
      var lo, hi := if d > 0 then u - d else u, if d > 0 then u else u - d;
      GridPointInIs(start, r.days * DAY, lo, hi);
      if GridPointIn(start, r.days * DAY, lo, hi) {
        var t :| lo < t <= hi && OnGrid(start, r.days * DAY, t);
        MovedHitIs(start, r, d, t);
        assert !MovedHit(start, r, d, t);
      } else {
        forall t ensures MovedHit(start, r, d, t) { MovedHitIs(start, r, d, t); }
      }
    } else {
      forall t ensures MovedHit(start, r, d, t) { MovedHitIs(start, r, d, t); }
    }
  }

  /** Where the moved rule disagrees with the original, the series does not depend on the rule. */
  ghost predicate MovesBeside(m: Event, d: int)
    requires ValidRule(m.rule)
  {
    forall t :: MovedHit(m.start, m.rule, d, t) || Beside(m, t)
  }

  /** No step of the rule crosses UNTIL, unless it lies beside the rule. */
  predicate MovesWhole(m: Event, d: int)
    requires ValidRule(m.rule)
  {
    m.rule.Every? && m.rule.bound.Until? ==>
      var u := m.rule.bound.last;
      var lo, hi := if d > 0 then u - d else u, if d > 0 then u else u - d;
      forall t :: lo < t <= hi && OnGrid(m.start, m.rule.days * DAY, t) ==> Beside(m, t)
  }

  lemma {:induction false} MovesWholeIs(m: Event, d: int)
    requires ValidRule(m.rule)
    ensures MovesBeside(m, d) <==> MovesWhole(m, d)
  {
    forall t ensures MovedHit(m.start, m.rule, d, t) <==>
      !(m.rule.Every? && m.rule.bound.Until? && OnGrid(m.start, m.rule.days * DAY, t)
        && (t <= m.rule.bound.last) != (t + d <= m.rule.bound.last))
    {
      MovedHitIs(m.start, m.rule, d, t);
    }
  }

  /** An occurrence moves along exactly when the rule does there or has no say. */
  lemma {:induction false} ShiftMoves(m: Event, d: int, t: int)
    requires ValidRule(m.rule)
    ensures (OccursIn(Shifted(m, d), t + d) <==> OccursIn(m, t)) <==> MovedHit(m.start, m.rule, d, t) || Beside(m, t)
  {
    ShiftMember(m.rdate, d, t);
    ShiftMember(m.exdate, d, t);
  }

  /** A series whose rule moves freely moves as a whole, one without UNTIL among them. */
  lemma {:induction false} FreelyIsWhole(m: Event, d: int)
    requires ValidRule(m.rule) && MovesFreely(m.start, m.rule, d)
    ensures MovesWhole(m, d)
  {
    ShiftRule(m.start, m.rule, d);
    forall t ensures MovedHit(m.start, m.rule, d, t) { }
    MovesWholeIs(m, d);
  }
}

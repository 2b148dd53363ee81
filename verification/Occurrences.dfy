/** What a calendar view shows: single events, changed occurrences and the expanded series, in order. */
module Occurrences {
  import opened Common
  import opened Rules
  import opened EventEdits
  import R = Recurrence

  /** The view's instants, and the days it spans for all-day events. */
  datatype Window = Window(from: int, to: int, dayFrom: int, dayTo: int)
  {
    function From(allDay: bool): int { if allDay then dayFrom else from }

    function To(allDay: bool): int { if allDay then dayTo else to }

    predicate Shows(e: Event) { R.Overlaps(e.start, e.end, From(e.allDay), To(e.allDay)) }
  }

  /** One line of the view: the row, the event with the times to show, the instant it stands for. */
  datatype Occurrence = Occurrence(id: ID, event: Event, inst: Option<int>)

  /** A timed event is shown when some instant of it, or its start if it has no length, lies between the instants of
      the view; an all-day one by the days of the view. */
  lemma {:induction false} ShownMeans(w: Window, e: Event)
    requires e.start <= e.end
    ensures !e.allDay && w.from < w.to ==>
      (w.Shows(e) <==>
       if e.start < e.end then exists t :: R.Within(t, e.start, e.end) && R.Within(t, w.from, w.to)
       else R.Within(e.start, w.from, w.to))
    ensures e.allDay && w.dayFrom < w.dayTo && e.start < e.end ==>
      (w.Shows(e) <==> exists t :: R.Within(t, e.start, e.end) && R.Within(t, w.dayFrom, w.dayTo))
  {
    if w.from < w.to { R.OverlapsMeans(e.start, e.end, w.from, w.to); }
    if w.dayFrom < w.dayTo { R.OverlapsMeans(e.start, e.end, w.dayFrom, w.dayTo); }
  }

  /** A line for an occurrence shows the series' text at that instant and for the series' length; one for an override
      or a single event shows the row itself. */
  lemma {:induction false} LineShows(st: Table, rows: seq<ID>, w: Window, o: Occurrence)
    requires Wanted(st, rows, w, o)
    ensures o.id in st && o.event.title == st[o.id].title && o.event.allDay == st[o.id].allDay && !o.event.cancelled
    ensures if st[o.id].IsMaster() then
        && o.inst.Some? && o.event.start == o.inst.value
        && o.event.end - o.event.start == st[o.id].end - st[o.id].start && OccursIn(st[o.id], o.inst.value)
      else o.event == st[o.id] && o.inst == if o.event.link.Some? then Some(o.event.link.value.at) else None
  {
  }

  // ---------------------------------------------------------------- what should be shown

  predicate SingleLine(st: Table, rows: seq<ID>, w: Window, o: Occurrence) {
    o.id in rows && o.id in st &&
    var e := st[o.id];
    o == Occurrence(o.id, e, None) && !e.IsOverride() && !e.IsMaster() && !e.cancelled && w.Shows(e)
  }

  /** The overrides that matter: those among the rows and those of the series among the rows. */
  predicate Considered(st: Table, rows: seq<ID>, k: ID) {
    k in st && st[k].IsOverride() &&
    (k in rows ||
       (st[k].link.value.series in rows && st[k].link.value.series in st && st[st[k].link.value.series].IsMaster()))
  }

  predicate OverrideLine(st: Table, ks: set<ID>, w: Window, o: Occurrence) {
    o.id in ks && o.id in st && st[o.id].IsOverride() &&
    var e := st[o.id];
    o == Occurrence(o.id, e, Some(e.link.value.at)) && !e.cancelled && w.Shows(e)
  }

  /** An occurrence of a series in the window, replaced or not. */
  ghost predicate SeriesLine(st: Table, ms: seq<ID>, w: Window, o: Occurrence) {
    o.id in ms && o.id in st && o.inst.Some? &&
    var m := st[o.id];
    && o.event == At(m, o.inst.value)
    && m.IsMaster() && !m.cancelled && ValidRule(m.rule)
    && OccursIn(m, o.inst.value) && w.Shows(o.event)
  }

  function At(m: Event, t: int): Event {
    m.(start := t, end := t + m.Duration())
  }

  /** Some override that matters replaces this occurrence. */
  ghost predicate Replaced(st: Table, rows: seq<ID>, l: Link) {
    exists k :: Considered(st, rows, k) && st[k].link == Some(l)
  }

  /** What is listed of these rows once the series in `ms` are expanded. */
  ghost predicate Listed(st: Table, rows: seq<ID>, ms: seq<ID>, w: Window, o: Occurrence) {
    || SingleLine(st, rows, w, o)
    || (Considered(st, rows, o.id) && OverrideLine(st, {o.id}, w, o))
    || (SeriesLine(st, ms, w, o) && !Replaced(st, rows, Link(o.id, o.inst.value)))
  }

  /** What the view should show of these rows. */
  ghost predicate Wanted(st: Table, rows: seq<ID>, w: Window, o: Occurrence) {
    Listed(st, rows, rows, w, o)
  }

  // ---------------------------------------------------------------- order

  predicate Before(a: Occurrence, b: Occurrence) {
    a.event.start < b.event.start || (a.event.start == b.event.start && a.id < b.id)
  }

  predicate InOrder(s: seq<Occurrence>) {
    forall i, j :: 0 <= i < j < |s| ==> Before(s[i], s[j])
  }

  predicate Different(a: Occurrence, b: Occurrence) {
    a.id != b.id || a.event.start != b.event.start
  }

  predicate AllDifferent(s: seq<Occurrence>) {
    forall i, j :: 0 <= i < j < |s| ==> Different(s[i], s[j])
  }

  function Put(o: Occurrence, s: seq<Occurrence>): (r: seq<Occurrence>)
    ensures |r| == |s| + 1 && forall x :: x in r <==> x in s || x == o
  {
    if s == [] then [o]
    else if Before(s[0], o) then [s[0]] + Put(o, s[1..])
    else [o] + s
  }

  function SortLines(s: seq<Occurrence>): (r: seq<Occurrence>)
    ensures |r| == |s| && forall x :: x in r <==> x in s
  {
    if s == [] then [] else
      assert s == [s[0]] + s[1..];
      Put(s[0], SortLines(s[1..]))
  }

  lemma {:induction false} PutInOrder(o: Occurrence, s: seq<Occurrence>)
    requires InOrder(s) && forall x :: x in s ==> Different(o, x)
    ensures InOrder(Put(o, s))
  {
    if s != [] {
      if Before(s[0], o) {
        PutInOrder(o, s[1..]);
        forall i | 0 <= i < |Put(o, s[1..])| ensures Before(s[0], Put(o, s[1..])[i]) {
          var x := Put(o, s[1..])[i];
          assert x in Put(o, s[1..]);
          if x != o {
            assert x in s[1..];
            var j :| 1 <= j < |s| && s[j] == x;
            assert Before(s[0], s[j]);
          }
        }
      } else {
        assert Different(o, s[0]);
        forall i | 0 <= i < |s| ensures Before(o, s[i]) {
          assert i > 0 ==> Before(s[0], s[i]);
        }
      }
    }
  }

  lemma {:induction false} SortInOrder(s: seq<Occurrence>)
    requires AllDifferent(s)
    ensures InOrder(SortLines(s))
  {
    if s != [] {
      SortInOrder(s[1..]);
      forall x | x in SortLines(s[1..]) ensures Different(s[0], x) {
        var j :| 0 <= j < |s[1..]| && s[1..][j] == x;
        assert Different(s[0], s[j + 1]);
      }
      PutInOrder(s[0], SortLines(s[1..]));
    }
  }

  /** Lists in order with the same elements are the same: the view does not depend on the order the
      rows and overrides were read in. */
  lemma {:induction false} OrderDecides(a: seq<Occurrence>, b: seq<Occurrence>)
    requires InOrder(a) && InOrder(b) && forall o :: o in a <==> o in b
    ensures a == b
  {
    if a == [] {
      if b != [] { FirstIn(b); }
    } else {
      assert a[0] in a && a[0] in b;
      assert b[0] in b && b[0] in a;
      var i :| 0 <= i < |b| && b[i] == a[0];
      var j :| 0 <= j < |a| && a[j] == b[0];
      assert a[0] == b[0];
      forall o ensures o in a[1..] <==> o in b[1..] {
        TailMembers(a, o);
        TailMembers(b, o);
      }
      OrderDecides(a[1..], b[1..]);
    }
  }

  lemma {:induction false} FirstIn(a: seq<Occurrence>)
    requires a != []
    ensures a[0] in a
  {
  }

  lemma {:induction false} TailMembers(a: seq<Occurrence>, o: Occurrence)
    requires a != [] && InOrder(a)
    ensures o in a[1..] <==> o in a && o != a[0]
  {
    if o in a[1..] {
      var j :| 1 <= j < |a| && a[j] == o;
      assert Before(a[0], a[j]);
    }
  }

  // ---------------------------------------------------------------- building the view

  predicate DistinctRows(st: Table, rows: seq<ID>) {
    (forall i, j :: 0 <= i < j < |rows| ==> rows[i] != rows[j]) && (forall i :: 0 <= i < |rows| ==> rows[i] in st)
  }

  predicate IsSeries(st: Table, k: ID) {
    k in st && !st[k].IsOverride() && st[k].IsMaster()
  }

  /** The series among the rows, in their order. */
  function SeriesAmong(st: Table, rows: seq<ID>): seq<ID> {
    if rows == [] then []
    else
      var n := |rows| - 1;
      SeriesAmong(st, rows[..n]) + if IsSeries(st, rows[n]) then [rows[n]] else []
  }

  lemma {:induction false} SeriesMembers(st: Table, rows: seq<ID>)
    ensures forall k :: k in SeriesAmong(st, rows) <==> k in rows && IsSeries(st, k)
  {
    if rows != [] {
      var n := |rows| - 1;
      SeriesMembers(st, rows[..n]);
      assert rows == rows[..n] + [rows[n]];
    }
  }

  lemma {:induction false} SeriesStep(st: Table, rows: seq<ID>, i: nat)
    requires i < |rows|
    ensures SeriesAmong(st, rows[..i + 1]) ==
      SeriesAmong(st, rows[..i]) + if IsSeries(st, rows[i]) then [rows[i]] else []
  {
    assert rows[..i + 1][..i] == rows[..i];
  }

  lemma {:induction false} SeriesIn(st: Table, rows: seq<ID>, i: nat)
    requires i < |SeriesAmong(st, rows)|
    ensures IsSeries(st, SeriesAmong(st, rows)[i]) && SeriesAmong(st, rows)[i] in rows
  {
    SeriesMembers(st, rows);
    assert SeriesAmong(st, rows)[i] in SeriesAmong(st, rows);
  }

  lemma {:induction false} SeriesDistinct(st: Table, rows: seq<ID>)
    requires DistinctRows(st, rows)
    ensures DistinctRows(st, SeriesAmong(st, rows))
  {
    if rows != [] {
      var n := |rows| - 1;
      SeriesDistinct(st, rows[..n]);
      var before := SeriesAmong(st, rows[..n]);
      forall i | 0 <= i < |before| ensures before[i] != rows[n] && before[i] in st {
        SeriesIn(st, rows[..n], i);
        var j :| 0 <= j < n && rows[..n][j] == before[i];
      }
    }
  }

  /** The lines of a series that no override replaces. */
  function Expand(st: Table, mid: ID, starts: seq<int>, taken: set<Link>): (r: seq<Occurrence>)
    requires mid in st
    ensures forall o :: o in r <==>
      o.inst.Some? && o.inst.value in starts && o == Occurrence(mid, At(st[mid], o.inst.value), o.inst) &&
      Link(mid, o.inst.value) !in taken
    ensures |r| <= |starts|
  {
    if starts == [] then []
    else
      var n := |starts| - 1;
      assert starts == starts[..n] + [starts[n]];
      var r := Expand(st, mid, starts[..n], taken);
      if Link(mid, starts[n]) in taken then r else r + [Occurrence(mid, At(st[mid], starts[n]), Some(starts[n]))]
  }

  lemma {:induction false} ExpandDifferent(st: Table, mid: ID, starts: seq<int>, taken: set<Link>)
    requires mid in st && Increasing(starts)
    ensures AllDifferent(Expand(st, mid, starts, taken))
  {
    if starts != [] {
      var n := |starts| - 1;
      ExpandDifferent(st, mid, starts[..n], taken);
      var r := Expand(st, mid, starts[..n], taken);
      forall i | 0 <= i < |r| ensures r[i].event.start < starts[n] {
        assert r[i] in r;
      }
    }
  }

  lemma {:induction false} JoinDifferent(a: seq<Occurrence>, b: seq<Occurrence>)
    requires AllDifferent(a) && AllDifferent(b) && forall x, y :: x in a && y in b ==> Different(x, y)
    ensures AllDifferent(a + b)
  {
    var c := a + b;
    forall i, j | 0 <= i < j < |c| ensures Different(c[i], c[j]) {
      if i < |a| && j >= |a| { assert a[i] in a && b[j - |a|] in b; }
    }
  }

  /** Sort the rows: single events to show, series, changed occurrences. */
  method Classify(st: Table, rows: seq<ID>, w: Window)
      returns (out: seq<Occurrence>, masters: seq<ID>, overrides: set<ID>)
    requires DistinctRows(st, rows)
    ensures AllDifferent(out) && forall o :: o in out <==> SingleLine(st, rows, w, o)
    ensures masters == SeriesAmong(st, rows)
    ensures forall k :: k in overrides <==> k in rows && st[k].IsOverride()
  {
    out, masters, overrides := [], [], {};
    for i := 0 to |rows|
      invariant AllDifferent(out) && forall o :: o in out <==> SingleLine(st, rows[..i], w, o)
      invariant masters == SeriesAmong(st, rows[..i])
      invariant forall k :: k in overrides <==> k in rows[..i] && st[k].IsOverride()
    {
      var e := st[rows[i]];
      assert rows[..i + 1] == rows[..i] + [rows[i]];
      SeriesStep(st, rows, i);
      assert rows[i] !in rows[..i];
      if e.IsOverride() {
        overrides := overrides + {rows[i]};
      } else if e.IsMaster() {
        masters := masters + [rows[i]];
      } else if !e.cancelled && w.Shows(e) {
        assert forall j :: 0 <= j < |out| ==> out[j] in out;
        out := out + [Occurrence(rows[i], e, None)];
      }
    }
    assert rows[..|rows|] == rows;
  }

  /** Add the changed occurrences and note what they replace. */
  method AddOverrides(st: Table, overrides: set<ID>, w: Window, singles: seq<Occurrence>)
      returns (out: seq<Occurrence>, taken: set<Link>)
    requires forall k :: k in overrides ==> k in st && st[k].IsOverride()
    requires AllDifferent(singles) && forall o :: o in singles ==> o.id !in overrides
    ensures AllDifferent(out) && forall o :: o in out <==> o in singles || OverrideLine(st, overrides, w, o)
    ensures forall l :: l in taken <==> exists k :: k in overrides && st[k].link == Some(l)
  {
    out, taken := singles, {};
    var left, done := overrides, {};
    while left != {}
      invariant left + done == overrides && left !! done
      invariant AllDifferent(out) && forall o :: o in out <==> o in singles || OverrideLine(st, done, w, o)
      invariant forall l :: l in taken <==> exists k :: k in done && st[k].link == Some(l)
      decreases left
    {
      HasElement(left);
      var k :| k in left;
      var o := st[k];
      taken := taken + {o.link.value};
      if !o.cancelled && w.Shows(o) {
        assert forall j :: 0 <= j < |out| ==> out[j] in out;
        out := out + [Occurrence(k, o, Some(o.link.value.at))];
      }
      left, done := left - {k}, done + {k};
    }
    assert done == overrides;
  }

  // ---------------------------------------------------------------- when there is too much

  /** At least `n` lines are listed before the i-th series is expanded. */
  ghost predicate Many(st: Table, rows: seq<ID>, w: Window, i: nat, n: nat)
    requires i <= |SeriesAmong(st, rows)|
  {
    exists cs: seq<Occurrence> :: AllDifferent(cs) && |cs| >= n && forall o :: o in cs ==>
      Listed(st, rows, SeriesAmong(st, rows)[..i], w, o)
  }

  /** With all its occurrences in the window, replaced or not, the i-th series makes more than `max` lines. */
  ghost predicate Overfull(st: Table, rows: seq<ID>, w: Window, i: nat, max: nat)
    requires i < |SeriesAmong(st, rows)|
  {
    exists cs: seq<Occurrence> :: AllDifferent(cs) && |cs| > max &&
      forall o :: o in cs ==>
        Listed(st, rows, SeriesAmong(st, rows)[..i], w, o) || SeriesLine(st, [SeriesAmong(st, rows)[i]], w, o)
  }

  /** The i-th series cannot be expanded: there is no room left before it, its walk cannot reach the end of
      the window, or it does not fit. */
  ghost predicate FailsAt(st: Table, rows: seq<ID>, w: Window, max: nat, i: nat)
    requires i < |SeriesAmong(st, rows)|
  {
    var k := SeriesAmong(st, rows)[i];
    k in st && ValidRule(st[k].rule) && !st[k].cancelled &&
    (Many(st, rows, w, i, max) || R.TooFar(FromEvent(st[k]), w.To(st[k].allDay)) || Overfull(st, rows, w, i, max))
  }

  /** One of the first `n` series cannot be expanded. */
  ghost predicate FailsWithin(st: Table, rows: seq<ID>, w: Window, max: nat, n: nat)
    requires n <= |SeriesAmong(st, rows)|
  {
    exists i: nat :: i < n && FailsAt(st, rows, w, max, i)
  }

  lemma {:induction false} FailsNext(st: Table, rows: seq<ID>, w: Window, max: nat, n: nat)
    requires n < |SeriesAmong(st, rows)|
    ensures FailsWithin(st, rows, w, max, n + 1) <==> FailsWithin(st, rows, w, max, n) || FailsAt(st, rows, w, max, n)
  {
  }

  lemma {:induction false} FailsOn(st: Table, rows: seq<ID>, w: Window, max: nat, n: nat, i: nat)
    requires i < n <= |SeriesAmong(st, rows)| && FailsAt(st, rows, w, max, i)
    ensures FailsWithin(st, rows, w, max, n)
  {
  }

  ghost predicate Fails(st: Table, rows: seq<ID>, w: Window, max: nat) {
    FailsWithin(st, rows, w, max, |SeriesAmong(st, rows)|) || Many(st, rows, w, |SeriesAmong(st, rows)|, max + 1)
  }

  lemma {:induction false} DifferentCount(cs: seq<Occurrence>)
    requires AllDifferent(cs)
    ensures |set o | o in cs| == |cs|
  {
    if cs != [] {
      var n := |cs| - 1;
      DifferentCount(cs[..n]);
      assert cs == cs[..n] + [cs[n]];
      assert cs[n] !in cs[..n];
      assert (set o | o in cs) == (set o | o in cs[..n]) + {cs[n]};
    }
  }

  lemma {:induction false} SeqCount(cs: seq<Occurrence>)
    ensures |set o | o in cs| <= |cs|
  {
    if cs != [] {
      var n := |cs| - 1;
      SeqCount(cs[..n]);
      assert cs == cs[..n] + [cs[n]];
      assert (set o | o in cs) == (set o | o in cs[..n]) + {cs[n]};
    }
  }

  /** Different lines out of a list are no more than the list has. */
  lemma {:induction false} NoMore(cs: seq<Occurrence>, out: seq<Occurrence>)
    requires AllDifferent(cs) && forall o :: o in cs ==> o in out
    ensures |cs| <= |out|
  {
    DifferentCount(cs);
    SeqCount(out);
    SubsetSize(set o | o in cs, set o | o in out);
  }

  /** The starts of one series in the window. */
  method Starts(st: Table, mid: ID, w: Window, limit: nat) returns (starts: seq<int>, err: bool)
    requires mid in st && ValidEvent(st[mid])
    ensures !err ==> Increasing(starts) && forall t :: t in starts <==> OccursIn(st[mid], t) && w.Shows(At(st[mid], t))
    ensures !err ==> |starts| <= limit && !R.TooFar(FromEvent(st[mid]), w.To(st[mid].allDay))
    ensures err && !R.TooFar(FromEvent(st[mid]), w.To(st[mid].allDay)) ==>
      exists xs: seq<int> :: Increasing(xs) && |xs| > limit && forall t :: t in xs ==>
        OccursIn(st[mid], t) && w.Shows(At(st[mid], t))
  {
    var m := st[mid];
    FromEventOccurs(m);
    starts, err := R.Between(FromEvent(m), w.From(m.allDay), w.To(m.allDay), limit);
    if err && !R.TooFar(FromEvent(m), w.To(m.allDay)) {
      ghost var xs: seq<int> :| Increasing(xs) && |xs| > R.Room(limit) &&
        forall x :: x in xs ==> R.InWindow(FromEvent(m), w.From(m.allDay), w.To(m.allDay), x);
      assert forall t :: t in xs ==> R.InWindow(FromEvent(m), w.From(m.allDay), w.To(m.allDay), t);
    }
  }

  lemma {:induction false} ExpandShows(st: Table, mid: ID, starts: seq<int>, taken: set<Link>, w: Window, o: Occurrence)
    requires mid in st && st[mid].IsMaster() && !st[mid].cancelled && ValidRule(st[mid].rule)
    requires forall t :: t in starts <==> OccursIn(st[mid], t) && w.Shows(At(st[mid], t))
    ensures o in Expand(st, mid, starts, taken) <==> SeriesLine(st, [mid], w, o) && Link(o.id, o.inst.value) !in taken
    ensures o in Expand(st, mid, starts, {}) <==> SeriesLine(st, [mid], w, o)
  {
  }

  lemma {:induction false} SeriesGrow(st: Table, ms: seq<ID>, mid: ID, w: Window, o: Occurrence)
    ensures SeriesLine(st, ms + [mid], w, o) <==> SeriesLine(st, ms, w, o) || SeriesLine(st, [mid], w, o)
  {
  }

  /** `out` has exactly what is listed before the i-th series. */
  ghost predicate ListedSoFar(st: Table, rows: seq<ID>, w: Window, i: nat, out: seq<Occurrence>)
    requires i <= |SeriesAmong(st, rows)|
  {
    AllDifferent(out) && forall o :: o in out <==> Listed(st, rows, SeriesAmong(st, rows)[..i], w, o)
  }

  lemma {:induction false} ManyIs(st: Table, rows: seq<ID>, w: Window, i: nat, n: nat, out: seq<Occurrence>)
    requires i <= |SeriesAmong(st, rows)| && ListedSoFar(st, rows, w, i, out)
    ensures Many(st, rows, w, i, n) <==> |out| >= n
  {
    if Many(st, rows, w, i, n) {
      var cs: seq<Occurrence> :| AllDifferent(cs) && |cs| >= n &&
        forall o :: o in cs ==> Listed(st, rows, SeriesAmong(st, rows)[..i], w, o);
      NoMore(cs, out);
    }
  }

  /** `k` is the i-th series, and not cancelled. */
  predicate Expandable(st: Table, rows: seq<ID>, i: nat, k: ID)
    requires i < |SeriesAmong(st, rows)|
  {
    SeriesAmong(st, rows)[i] == k && IsSeries(st, k) && !st[k].cancelled && ValidRule(st[k].rule)
  }

  /** Too many starts of one series on top of what is listed already. */
  lemma {:induction false} OverfullBy(st: Table, rows: seq<ID>, w: Window, max: nat, i: nat, k: ID,
                                      out: seq<Occurrence>, xs: seq<int>)
    requires i < |SeriesAmong(st, rows)|
    requires ListedSoFar(st, rows, w, i, out) && Expandable(st, rows, i, k) && (forall o :: o in out ==> o.id != k)
    requires Increasing(xs) && |xs| > max - |out| && forall t :: t in xs ==> OccursIn(st[k], t) && w.Shows(At(st[k], t))
    ensures Overfull(st, rows, w, i, max)
  {
    var more := Expand(st, k, xs, {});
    ExpandDifferent(st, k, xs, {});
    ExpandAll(st, k, xs);
    JoinDifferent(out, more);
    var cs := out + more;
    forall o | o in cs ensures Listed(st, rows, SeriesAmong(st, rows)[..i], w, o) || SeriesLine(st, [k], w, o) { }
    assert |cs| > max;
  }

  lemma {:induction false} NotOverfull(st: Table, rows: seq<ID>, w: Window, max: nat, i: nat, k: ID,
                                       out: seq<Occurrence>, starts: seq<int>)
    requires i < |SeriesAmong(st, rows)|
    requires ListedSoFar(st, rows, w, i, out) && Expandable(st, rows, i, k)
    requires |out| + |starts| <= max && forall t :: t in starts <==> OccursIn(st[k], t) && w.Shows(At(st[k], t))
    ensures !Overfull(st, rows, w, i, max)
  {
    if Overfull(st, rows, w, i, max) {
      var cs: seq<Occurrence> :| AllDifferent(cs) && |cs| > max &&
        forall o :: o in cs ==> Listed(st, rows, SeriesAmong(st, rows)[..i], w, o) || SeriesLine(st, [k], w, o);
      var all := out + Expand(st, k, starts, {});
      forall o | o in cs ensures o in all { ExpandShows(st, k, starts, {}, w, o); }
      NoMore(cs, all);
    }
  }

  lemma {:induction false} ExpandAll(st: Table, mid: ID, xs: seq<int>)
    requires mid in st
    ensures |Expand(st, mid, xs, {})| == |xs|
  {
    if xs != [] { ExpandAll(st, mid, xs[..|xs| - 1]); }
  }

  /** Expanding the i-th series lists its occurrences that no override replaces. */
  lemma {:induction false} ExpandLists(st: Table, rows: seq<ID>, w: Window, i: nat, k: ID, out: seq<Occurrence>,
                                       starts: seq<int>, taken: set<Link>)
    requires i < |SeriesAmong(st, rows)|
    requires ListedSoFar(st, rows, w, i, out) && Increasing(starts) && Expandable(st, rows, i, k)
    requires (forall o :: o in out ==> o.id != k)
    requires forall l :: l in taken <==> Replaced(st, rows, l)
    requires forall t :: t in starts <==> OccursIn(st[k], t) && w.Shows(At(st[k], t))
    ensures ListedSoFar(st, rows, w, i + 1, out + Expand(st, k, starts, taken))
  {
    var ms := SeriesAmong(st, rows);
    assert ms[..i + 1] == ms[..i] + [k];
    ExpandDifferent(st, k, starts, taken);
    JoinDifferent(out, Expand(st, k, starts, taken));
    forall o ensures o in out + Expand(st, k, starts, taken) <==> Listed(st, rows, ms[..i + 1], w, o) {
      SeriesGrow(st, ms[..i], k, w, o);
      ExpandShows(st, k, starts, taken, w, o);
    }
  }

  lemma {:induction false} SkipCancelled(st: Table, rows: seq<ID>, w: Window, i: nat, out: seq<Occurrence>)
    requires i < |SeriesAmong(st, rows)| && ListedSoFar(st, rows, w, i, out) && SeriesAmong(st, rows)[i] in st
    requires st[SeriesAmong(st, rows)[i]].cancelled
    ensures ListedSoFar(st, rows, w, i + 1, out)
  {
    var ms := SeriesAmong(st, rows);
    assert ms[..i + 1] == ms[..i] + [ms[i]];
    forall o ensures Listed(st, rows, ms[..i + 1], w, o) <==> Listed(st, rows, ms[..i], w, o) {
      SeriesGrow(st, ms[..i], ms[i], w, o);
    }
  }

  lemma {:induction false} NotYetListed(st: Table, rows: seq<ID>, w: Window, i: nat, o: Occurrence)
    requires DistinctRows(st, rows) && i < |SeriesAmong(st, rows)| && Listed(st, rows, SeriesAmong(st, rows)[..i], w, o)
    ensures o.id != SeriesAmong(st, rows)[i]
  {
    SeriesDistinct(st, rows);
    SeriesIn(st, rows, i);
    var ms := SeriesAmong(st, rows);
    if SeriesLine(st, ms[..i], w, o) {
      var j :| 0 <= j < i && ms[..i][j] == o.id;
    }
  }

  /** Expand the i-th series, if there is room and it is not cancelled. */
  method ExpandOne(st: Table, ghost rows: seq<ID>, ghost i: nat, mid: ID, taken: set<Link>, w: Window, max: nat,
                   lines: seq<Occurrence>)
      returns (out: seq<Occurrence>, err: bool)
    requires DistinctRows(st, rows) && i < |SeriesAmong(st, rows)| && SeriesAmong(st, rows)[i] == mid
    requires IsSeries(st, mid) && ValidEvent(st[mid])
    requires ListedSoFar(st, rows, w, i, lines) && forall l :: l in taken <==> Replaced(st, rows, l)
    ensures !err ==> ListedSoFar(st, rows, w, i + 1, out)
    ensures err <==> FailsAt(st, rows, w, max, i)
  {
    var m := st[mid];
    out, err := lines, false;
    if m.cancelled {
      SkipCancelled(st, rows, w, i, out);
      return;
    }
    ManyIs(st, rows, w, i, max, out);
    if max - |out| <= 0 {
      return out, true;
    }
    forall o | o in out ensures o.id != mid { NotYetListed(st, rows, w, i, o); }
    var starts, tooMany := Starts(st, mid, w, max - |out|);
    if tooMany {
      if !R.TooFar(FromEvent(m), w.To(m.allDay)) {
        ghost var xs: seq<int> :| Increasing(xs) && |xs| > max - |out| &&
          forall t :: t in xs ==> OccursIn(m, t) && w.Shows(At(m, t));
        OverfullBy(st, rows, w, max, i, mid, out, xs);
      }
      return out, true;
    }
    NotOverfull(st, rows, w, max, i, mid, out, starts);
    ExpandLists(st, rows, w, i, mid, out, starts, taken);
    out := out + Expand(st, mid, starts, taken);
  }

  /** Expand the series on top of the singles and overrides. */
  method AddSeries(st: Table, ghost rows: seq<ID>, masters: seq<ID>, taken: set<Link>, w: Window, max: nat,
                   lines: seq<Occurrence>)
      returns (out: seq<Occurrence>, err: bool)
    requires DistinctRows(st, rows) && masters == SeriesAmong(st, rows) && ListedSoFar(st, rows, w, 0, lines)
    requires forall k :: k in st ==> ValidEvent(st[k])
    requires forall l :: l in taken <==> Replaced(st, rows, l)
    ensures !err ==> ListedSoFar(st, rows, w, |masters|, out)
    ensures err <==> FailsWithin(st, rows, w, max, |masters|)
  {
    out := lines;
    for i := 0 to |masters|
      invariant ListedSoFar(st, rows, w, i, out)
      invariant !FailsWithin(st, rows, w, max, i)
    {
      SeriesIn(st, rows, i);
      FailsNext(st, rows, w, max, i);
      out, err := ExpandOne(st, rows, i, masters[i], taken, w, max, out);
      if err {
        FailsOn(st, rows, w, max, |masters|, i);
        return;
      }
    }
    err := false;
  }

  lemma {:induction false} AllListed(st: Table, rows: seq<ID>, w: Window, o: Occurrence)
    ensures Listed(st, rows, SeriesAmong(st, rows), w, o) <==> Wanted(st, rows, w, o)
  {
    SeriesMembers(st, rows);
    assert SeriesLine(st, SeriesAmong(st, rows), w, o) <==> SeriesLine(st, rows, w, o);
  }

  /** The view of the given rows.  On success it shows exactly what it should, in order, at most `max`
      lines; it fails if and only if, with the series taken in the order of the rows, one of them cannot be
      expanded or there are more than `max` lines in the end. */
  method List(st: Table, rows: seq<ID>, w: Window, max: nat) returns (r: Result<seq<Occurrence>, Error>)
    requires (forall k :: k in st ==> ValidEvent(st[k])) && DistinctRows(st, rows)
    ensures r.Ok? ==> InOrder(r.value) && |r.value| <= max && forall o :: o in r.value <==> Wanted(st, rows, w, o)
    ensures r.Err? <==> Fails(st, rows, w, max)
  {
    var singles, masters, overrides := Classify(st, rows, w);
    if |masters| > 0 {
      overrides := overrides + set k | k in st && st[k].IsOverride() && st[k].link.value.series in masters;
    }
    OverridesAre(st, rows, overrides);
    var lines, taken := AddOverrides(st, overrides, w, singles);
    FirstLines(st, rows, w, overrides, lines);
    var out, err := AddSeries(st, rows, masters, taken, w, max, lines);
    if err {
      return Err(TooMany);
    }
    ManyIs(st, rows, w, |masters|, max + 1, out);
    if |out| > max {
      return Err(TooMany);
    }
    assert masters[..|masters|] == masters;
    forall o ensures o in out <==> Wanted(st, rows, w, o) {
      AllListed(st, rows, w, o);
    }
    SortInOrder(out);
    return Ok(SortLines(out));
  }

  lemma {:induction false} OverridesAre(st: Table, rows: seq<ID>, overrides: set<ID>)
    requires DistinctRows(st, rows)
    requires forall k :: k in overrides <==>
      (k in rows && st[k].IsOverride()) ||
      (k in st && st[k].IsOverride() && st[k].link.value.series in SeriesAmong(st, rows))
    ensures forall k :: k in overrides <==> Considered(st, rows, k)
  {
    SeriesMembers(st, rows);
    assert forall k :: k in rows ==> k in st;
  }

  /** Before any series is expanded, the singles and the overrides are listed. */
  lemma {:induction false} FirstLines(st: Table, rows: seq<ID>, w: Window, overrides: set<ID>, lines: seq<Occurrence>)
    requires forall k :: k in overrides <==> Considered(st, rows, k)
    requires AllDifferent(lines)
    requires forall o :: o in lines <==> SingleLine(st, rows, w, o) || OverrideLine(st, overrides, w, o)
    ensures ListedSoFar(st, rows, w, 0, lines)
  {
    var none := SeriesAmong(st, rows)[..0];
    forall o ensures o in lines <==> Listed(st, rows, none, w, o) {
      assert OverrideLine(st, overrides, w, o) <==> Considered(st, rows, o.id) && OverrideLine(st, {o.id}, w, o);
      assert !SeriesLine(st, none, w, o);
    }
  }

  /** Each occurrence of a series is listed at most once, whether replaced or not. */
  lemma {:induction false} ListedOnce(st: Table, rows: seq<ID>, w: Window, a: Occurrence, b: Occurrence)
    requires DistinctLinks(st) && Wanted(st, rows, w, a) && Wanted(st, rows, w, b)
    requires a.inst.Some? && a.inst == b.inst && SeriesOf(a) == SeriesOf(b)
    ensures a == b
  {
    assert a.event.link == st[a.id].link && b.event.link == st[b.id].link;
  }

  function SeriesOf(o: Occurrence): ID {
    if o.event.IsOverride() then o.event.link.value.series else o.id
  }
}

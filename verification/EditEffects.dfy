/** What a command leaves in the table, said of the rows themselves: which occurrences and overrides are
    gone, which rows are untouched, and what the edited row holds. */
module EditEffects {
  import opened Common
  import opened Rules
  import opened EventEdits
  import R = Recurrence
  import Text

  // ---------------------------------------------------------------- what a patch asks for

  /** A value that was given, or else the one there was. */
  predicate Takes<T(==)>(given: Option<T>, was: T, now: T) {
    if given.Some? then now == given.value else now == was
  }

  /** The end: as given; a day or an hour after the start where none was asked for or the day kind changed;
      otherwise the event is as long as it was. */
  predicate TakesEnd(given: EndPatch, switched: bool, duration: int, e: Event) {
    match given
    case EndAt(t) => e.end == t
    case DefaultEnd => e.end - e.start == if e.allDay then 86_400 else 3_600
    case KeepEnd => e.end - e.start == if !switched then duration else if e.allDay then 86_400 else 3_600
  }

  /** Dates as a set: those given, none after a change of the day kind, or those there were. */
  ghost predicate TakesDates(given: Option<seq<int>>, switched: bool, was: seq<int>, now: seq<int>) {
    if given.Some? then Increasing(now) && forall t :: t in now <==> t in given.value
    else now == if switched then [] else was
  }

  /** Text, status and times of `e` are those of the patch, or of an event with these where it gives none. */
  predicate Shows(p: Patch, title: string, cancelled: bool, allDay: bool, start: int, duration: int, e: Event) {
    && Takes(p.title, title, e.title) && Takes(p.cancelled, cancelled, e.cancelled) && Takes(p.allDay, allDay, e.allDay)
    && Takes(p.start, start, e.start) && TakesEnd(p.end, e.allDay != allDay, duration, e)
  }

  /** What no accepted event violates. */
  predicate Sensible(e: Event) {
    e.end - e.start <= 366 * 86_400 && if e.allDay then e.end > e.start else e.end >= e.start
  }

  lemma {:induction false} CompactOrdered(ts: seq<int>)
    requires NonDecreasing(ts)
    ensures Increasing(Compact(ts))
    ensures ts != [] ==> Compact(ts) != [] && Compact(ts)[|Compact(ts)| - 1] == ts[|ts| - 1]
  {
    if |ts| > 1 {
      CompactOrdered(ts[..|ts| - 1]);
    }
  }

  lemma {:induction false} DatesTaken(o: Option<seq<int>>, cur: seq<int>, switched: bool)
    ensures TakesDates(o, switched, cur, PatchedDates(o, cur, switched))
  {
    if o.Some? {
      SortSorted(o.value);
      CompactOrdered(Sort(o.value));
    }
  }

  /** A patch that is accepted sets what it gives and leaves the rest; an override keeps to having no
      recurrence of its own. */
  lemma {:induction false} PatchMeans(e: Event, p: Patch)
    requires ApplyPatch(e, p).Ok?
    ensures var r := ApplyPatch(e, p).value;
      && Shows(p, e.title, e.cancelled, e.allDay, e.start, e.end - e.start, r) && Sensible(r)
      && r.link == e.link && r.uid == e.uid
      && (e.link.Some? ==> r.rule == e.rule && r.rdate == e.rdate && r.exdate == e.exdate)
      && (e.link.None? ==>
            && Takes(p.rule, e.rule, r.rule)
            && TakesDates(p.rdate, r.allDay != e.allDay, e.rdate, r.rdate)
            && TakesDates(p.exdate, r.allDay != e.allDay, e.exdate, r.exdate))
  {
    var r := ApplyPatch(e, p).value;
    DatesTaken(p.rdate, e.rdate, r.allDay != e.allDay);
    DatesTaken(p.exdate, e.exdate, r.allDay != e.allDay);
  }

  /** All of these are midnights where the event is all-day. */
  ghost predicate Dated(allDay: bool, ts: seq<int>) {
    allDay ==> forall i :: 0 <= i < |ts| ==> ts[i] % 86_400 == 0
  }

  /** The recurrence a patch gives: none for an override, and for others a possible rule and not too many dates,
      midnights for an all-day event. */
  ghost predicate Repeatable(e: Event, p: Patch, allDay: bool) {
    if e.link.Some? then
      && (p.rule.Some? ==> p.rule.value.NoRule?)
      && (p.rdate.Some? ==> p.rdate.value == []) && (p.exdate.Some? ==> p.exdate.value == [])
    else
      && (p.rule.Some? ==> ValidRule(p.rule.value))
      && (p.rdate.Some? ==> |p.rdate.value| <= 1000 && Dated(allDay, p.rdate.value))
      && (p.exdate.Some? ==> |p.exdate.value| <= 5000 && Dated(allDay, p.exdate.value))
  }

  /** A patch is accepted exactly when the event it describes is sensible, a change of the day kind comes with a
      new start, the times given to an all-day event are midnights, and the recurrence can be had. */
  lemma {:induction false} PatchAccepts(e: Event, p: Patch, r: Event)
    requires Shows(p, e.title, e.cancelled, e.allDay, e.start, e.end - e.start, r)
    ensures ApplyPatch(e, p).Ok? <==>
      && Sensible(r) && (r.allDay != e.allDay ==> p.start.Some?) && Repeatable(e, p, r.allDay)
      && (p.start.Some? ==> Dated(r.allDay, [p.start.value])) && (p.end.EndAt? ==> Dated(r.allDay, [p.end.at]))
    ensures ApplyPatch(e, p).Err? ==> ApplyPatch(e, p).error == Invalid
  {
    assert [r.start][0] == r.start && [r.end][0] == r.end;
    assert r.end == PatchedEnd(e, p, r.allDay);
  }

  lemma {:induction false} TimelessAccepted(e: Event, p: Patch)
    requires Timeless(p) && Lasts(e)
    ensures ApplyPatch(e, p).Ok?
  {
  }

  // ---------------------------------------------------------------- what a command addresses

  /** The series and the occurrence an edit speaks of: those of an override given by its own id, or the series
      itself at the instant given. */
  predicate Speaks(st: Table, id: ID, inst: Option<int>, mid: ID, at: int) {
    id in st && mid in st &&
    (st[id].link == Some(Link(mid, at)) || (st[id].link.None? && st[id].IsMaster() && id == mid && inst == Some(at)))
  }

  /** "This", also where nothing is said. */
  predicate OneOnly(scope: Scope) {
    scope.This? || scope.Unset?
  }

  /** All rows but these two are as they were. */
  ghost predicate OnlyRows(st: Table, out: Table, i: ID, j: ID) {
    forall k :: k != i && k != j ==> (k in out <==> k in st) && (k in st ==> out[k] == st[k])
  }

  /** The series was named with an instant that is none of its occurrences, or that the walk cannot reach. */
  ghost predicate Unfound(st: Table, id: ID, mid: ID, at: int)
    requires id in st && mid in st && ValidRule(st[mid].rule)
  {
    st[id].link.None? && (R.TooFar(FromEvent(st[mid]), at) || !OccursIn(st[mid], at))
  }

  lemma {:induction false} SpeaksResolves(st: Table, id: ID, scope: Scope, inst: Option<int>, mid: ID, at: int)
    requires Inv(st) && Speaks(st, id, inst, mid, at)
    ensures ValidEvent(st[mid]) && st[mid].IsMaster() && st[mid].link.None?
    ensures var r := Resolve(st, id, scope, inst);
      && (r.Ok? ==> r.value.master == mid && r.value.inst == Some(at) && OccursIn(st[mid], at))
      && (r.Ok? ==> r.value.scope == (if OneOnly(scope) then This else scope))
      && (r.Ok? ==> r.value.override.Some? == st[id].link.Some?)
      && (r.Ok? && r.value.override.Some? ==> r.value.override == Some(id))
      && (r.Err? <==> Unfound(st, id, mid, at))
      && (r.Err? ==> r.error == if R.TooFar(FromEvent(st[mid]), at) then TooMany else NotFound)
  {
    if st[id].link.Some? { assert Attached(st, id); }
  }

  // ---------------------------------------------------------------- deletes

  /** Exactly the occurrence of `mid` at `at` and its override are gone. */
  ghost predicate OneGone(st: Table, out: Table, mid: ID, at: int)
    requires mid in st && ValidRule(st[mid].rule)
  {
    && mid in out && ValidRule(out[mid].rule) && out[mid] == st[mid].(exdate := out[mid].exdate)
    && (forall t :: OccursIn(out[mid], t) <==> OccursIn(st[mid], t) && t != at)
    && (forall k :: k != mid ==> (k in out <==> k in st && st[k].link != Some(Link(mid, at))))
    && (forall k :: k in out && k != mid ==> out[k] == st[k])
  }

  /** The row and all its overrides are gone, and nothing else. */
  ghost predicate SeriesGone(st: Table, out: Table, mid: ID) {
    && (forall k :: k in out <==> k in st && k != mid && !(st[k].link.Some? && st[k].link.value.series == mid))
    && (forall k :: k in out ==> out[k] == st[k])
  }

  /** The overrides from `at` on are gone, no other row, and the occurrences from `at` on exactly when the
      cut leaves a clean head; text, times and day kind of the series are as they were. */
  ghost predicate RestGone(st: Table, out: Table, mid: ID, at: int)
    requires mid in st && ValidRule(st[mid].rule) && st[mid].rule.Every?
  {
    && mid in out && ValidRule(out[mid].rule)
    && out[mid] == st[mid].(rule := out[mid].rule, rdate := out[mid].rdate, exdate := out[mid].exdate)
    && ((forall t :: OccursIn(out[mid], t) <==> OccursIn(st[mid], t) && t < at) <==> CleanHead(st[mid], at))
    && (forall k :: k != mid ==> (k in out <==> k in st && !(OverrideOf(st, k, mid) && st[k].link.value.at >= at)))
    && (forall k :: k in out && k != mid ==> out[k] == st[k])
  }

  lemma {:induction false} ExcludeIsOneGone(st: Table, mid: ID, at: int)
    requires Inv(st) && mid in st && st[mid].IsMaster()
    ensures OneGone(st, ExcludeInstance(st, mid, at), mid, at)
  {
    ExcludeRemoves(st, mid, at);
    var out := ExcludeInstance(st, mid, at);
    assert out[mid] == Excluding(st[mid], at);
    forall k | k != mid ensures k in out <==> k in st && st[k].link != Some(Link(mid, at)) {
      assert k in st && st[k].link == Some(Link(mid, at)) ==> OverrideOf(st, k, mid);
    }
  }

  lemma {:induction false} DeletesThis(st: Table, id: ID, scope: Scope, inst: Option<int>, mid: ID, at: int)
    requires Inv(st) && Speaks(st, id, inst, mid, at) && OneOnly(scope) && ValidRule(st[mid].rule)
    ensures var r := Exec(st, Delete(id, scope, inst));
      (r.Err? <==> Unfound(st, id, mid, at)) && (r.Ok? ==> r.value == ExcludeInstance(st, mid, at))
  {
    SpeaksResolves(st, id, scope, inst, mid, at);
  }

  /** Deleting one instance, by its series and instant or by the id of its override, also where no scope is
      given: exactly that occurrence and its override go.  It fails exactly where the series has no such
      occurrence or the walk cannot tell. */
  lemma {:induction false} DeleteOne(st: Table, id: ID, scope: Scope, inst: Option<int>, mid: ID, at: int)
    requires Inv(st) && Speaks(st, id, inst, mid, at) && OneOnly(scope) && ValidRule(st[mid].rule)
    ensures var r := Exec(st, Delete(id, scope, inst));
      && (r.Ok? ==> OccursIn(st[mid], at) && OneGone(st, r.value, mid, at))
      && (r.Err? <==> Unfound(st, id, mid, at))
  {
    DeletesThis(st, id, scope, inst, mid, at);
    SpeaksResolves(st, id, scope, inst, mid, at);
    ExcludeIsOneGone(st, mid, at);
  }

  /** Deleting an instance and what follows: from the first one on the whole series goes. */
  lemma {:induction false} DeleteFollowing(st: Table, id: ID, inst: Option<int>, mid: ID, at: int)
    requires Inv(st) && Speaks(st, id, inst, mid, at) && ValidRule(st[mid].rule)
    ensures var r := Exec(st, Delete(id, Following, inst));
      && (r.Ok? && at <= st[mid].start ==> SeriesGone(st, r.value, mid))
      && (r.Ok? && at > st[mid].start ==> st[mid].rule.Every? && RestGone(st, r.value, mid, at))
      && (r.Err? ==> (at > st[mid].start && st[mid].rule.NoRule?) || Unfound(st, id, mid, at))
  {
    SpeaksResolves(st, id, Following, inst, mid, at);
    var r := Exec(st, Delete(id, Following, inst));
    if r.Ok? && at > st[mid].start {
      TruncateRemoves(st, mid, at);
      assert r.value[mid] == HeadPart(st[mid], at, Split(st[mid], at).value.0);
    }
  }

  lemma {:induction false} RemovedIsGone(st: Table, mid: ID)
    ensures SeriesGone(st, Removed(st, mid), mid)
  {
  }

  lemma {:induction false} AllResolves(st: Table, id: ID, inst: Option<int>)
    requires Inv(st) && id in st
    ensures var r := Resolve(st, id, All, inst);
      && (r.Ok? ==> r.value.scope.All?)
      && (r.Ok? ==> r.value.master == if st[id].link.Some? then st[id].link.value.series else id)
      && (st[id].link.Some? || !st[id].IsMaster() || inst.None? ==> r.Ok?)
  {
    if st[id].link.Some? { assert Attached(st, id); }
  }

  /** Deleting all of it: the row and its overrides go, of the whole series where an override was named. */
  lemma {:induction false} DeleteAll(st: Table, id: ID, inst: Option<int>)
    requires Inv(st) && id in st
    ensures var r := Exec(st, Delete(id, All, inst));
      r.Ok? ==> SeriesGone(st, r.value, if st[id].link.Some? then st[id].link.value.series else id)
    ensures st[id].link.Some? || !st[id].IsMaster() || inst.None? ==> Exec(st, Delete(id, All, inst)).Ok?
  {
    AllResolves(st, id, inst);
    RemovedIsGone(st, if st[id].link.Some? then st[id].link.value.series else id);
  }

  /** Without an instance a delete of a series or of a single event takes all of it, and "this" or "following"
      of a series is refused. */
  lemma {:induction false} DeleteWhole(st: Table, id: ID, scope: Scope)
    requires Inv(st) && id in st && st[id].link.None?
    ensures var r := Exec(st, Delete(id, scope, None));
      if st[id].IsMaster() && (scope.This? || scope.Following?) then r == Err(Invalid)
      else r.Ok? && SeriesGone(st, r.value, id)
  {
  }

  /** A single event has no instances: whatever instance or scope is given, it goes as a whole. */
  lemma {:induction false} DeleteSingle(st: Table, id: ID, scope: Scope, inst: Option<int>)
    requires Inv(st) && id in st && st[id].link.None? && !st[id].IsMaster()
    ensures var r := Exec(st, Delete(id, scope, inst)); r.Ok? && SeriesGone(st, r.value, id)
  {
  }

  /** A series named with an instant it does not have is not found, and one too far along is given up on,
      whatever the scope; nothing is changed. */
  lemma {:induction false} NoSuchInstant(st: Table, id: ID, scope: Scope, at: int, p: Patch, nid: ID)
    requires Inv(st) && id in st && st[id].link.None? && st[id].IsMaster() && ValidRule(st[id].rule)
    requires R.TooFar(FromEvent(st[id]), at) || !OccursIn(st[id], at)
    ensures var e := if R.TooFar(FromEvent(st[id]), at) then TooMany else NotFound;
      && Exec(st, Delete(id, scope, Some(at))) == Err(e)
      && Exec(st, Update(id, scope, Some(at), p, nid)) == Err(e)
  {
    assert Speaks(st, id, Some(at), id, at);
    SpeaksResolves(st, id, scope, Some(at), id, at);
  }

  lemma {:induction false} NothingThere(st: Table, id: ID, scope: Scope, inst: Option<int>, p: Patch, nid: ID)
    requires Inv(st) && id !in st
    ensures Exec(st, Delete(id, scope, inst)) == Err(NotFound)
    ensures Exec(st, Update(id, scope, inst, p, nid)) == Err(NotFound)
  {
  }

  // ---------------------------------------------------------------- updates of one occurrence

  /** The row `k` now stands for the occurrence of `m` at `at`, with the patch on it: on the override there was,
      or on the occurrence itself, which starts at `at` and is as long as the series says. */
  ghost predicate Edited(st: Table, out: Table, mid: ID, at: int, p: Patch, k: ID)
    requires mid in st
  {
    var m := st[mid];
    && k in out && out[k].link == Some(Link(mid, at)) && Sensible(out[k])
    && out[k].rule.NoRule? && out[k].rdate == [] && out[k].exdate == []
    && (if k in st then
          var o := st[k];
          o.link == Some(Link(mid, at)) && out[k].uid == o.uid
          && Shows(p, o.title, o.cancelled, o.allDay, o.start, o.end - o.start, out[k])
        else
          (forall j :: j in st ==> st[j].link != Some(Link(mid, at))) && out[k].uid == m.uid
          && Shows(p, m.title, m.cancelled, m.allDay, at, m.end - m.start, out[k]))
  }

  lemma {:induction false} ThisEdits(st: Table, t: Target, p: Patch, nid: ID) returns (k: ID)
    requires Inv(st) && ValidTarget(st, t) && t.inst.Some? && UpdateThis(st, t, p, nid).Ok?
    ensures var out := UpdateThis(st, t, p, nid).value;
      Edited(st, out, t.master, t.inst.value, p, k) && OnlyRows(st, out, k, k) && (k in st || k == nid)
  {
    var at := t.inst.value;
    var found := if t.override.Some? then t.override else OverrideAt(st, t.master, at);
    k := if found.Some? then found.value else nid;
    PatchMeans(if found.Some? then st[found.value] else NewOverride(st[t.master], t.master, at), p);
  }

  /** The series and its overrides have lengths that are accepted. */
  ghost predicate AllLast(st: Table, mid: ID)
    requires mid in st
  {
    Lasts(st[mid]) && forall k :: OverrideOf(st, k, mid) ==> Lasts(st[k])
  }

  /** `k` alone was edited, and alone stands for the occurrence. */
  ghost predicate SolelyEdited(st: Table, out: Table, mid: ID, at: int, p: Patch, nid: ID, k: ID)
    requires mid in st
  {
    && Edited(st, out, mid, at, p, k) && OnlyRows(st, out, k, k) && (k in st || k == nid)
    && forall j :: j in out && out[j].link == Some(Link(mid, at)) ==> j == k
  }

  /** Editing one instance, by its series and instant or by the id of its override, also where no scope is
      given: one row stands for that occurrence afterwards and holds what the patch says; every other row is
      as it was. */
  lemma {:induction false} UpdateOne(st: Table, id: ID, scope: Scope, inst: Option<int>, p: Patch, nid: ID, mid: ID,
                                     at: int)
    requires Inv(st) && Speaks(st, id, inst, mid, at) && OneOnly(scope) && ValidRule(st[mid].rule)
    ensures var r := Exec(st, Update(id, scope, inst, p, nid));
      && (r.Ok? ==> exists k :: SolelyEdited(st, r.value, mid, at, p, nid, k))
      && (Timeless(p) && AllLast(st, mid) && nid !in st && r.Err? ==> Unfound(st, id, mid, at))
  {
    SpeaksResolves(st, id, scope, inst, mid, at);
    var r := Exec(st, Update(id, scope, inst, p, nid));
    if r.Ok? {
      var k := ThisEdits(st, Resolve(st, id, scope, inst).value, p, nid);
      CommandKeeps(st, Update(id, scope, inst, p, nid));
      forall j | j in r.value && r.value[j].link == Some(Link(mid, at)) ensures j == k {
        assert r.value[j].link == r.value[k].link;
      }
      assert SolelyEdited(st, r.value, mid, at, p, nid, k);
    }
    if Timeless(p) && AllLast(st, mid) {
      TimelessAccepted(NewOverride(st[mid], mid, at), p);
      forall k | OverrideOf(st, k, mid) ensures ApplyPatch(st[k], p).Ok? { TimelessAccepted(st[k], p); }
    }
  }

  /** An edit of the text of one occurrence leaves it where it is: at its instant and as long as the series, or
      as its override had it. */
  lemma {:induction false} TextStaysPut(st: Table, out: Table, mid: ID, at: int, p: Patch, k: ID)
    requires mid in st && Edited(st, out, mid, at, p, k) && Timeless(p)
    ensures k !in st ==>
      && out[k].start == at && out[k].end == at + (st[mid].end - st[mid].start) && out[k].allDay == st[mid].allDay
    ensures k in st ==> out[k].start == st[k].start && out[k].end == st[k].end && out[k].allDay == st[k].allDay
  {
  }

  // ---------------------------------------------------------------- updates of all

  /** The command is about the row `mid` as a whole: "all", or no instance, or a single event, or "following"
      from the very first occurrence on. */
  ghost predicate Wholly(st: Table, id: ID, scope: Scope, inst: Option<int>, mid: ID) {
    id in st && mid in st && st[mid].link.None? &&
    ( || (scope.All? && st[id].link.Some? && st[id].link.value.series == mid)
      || (scope.All? && id == mid)
      || (id == mid && !st[mid].IsMaster())
      || (id == mid && inst.None? && scope.Unset?)
      || (scope.Following? && st[id].link.Some? && st[id].link.value == Link(mid, st[id].link.value.at)
          && st[id].link.value.at <= st[mid].start)
      || (scope.Following? && id == mid && inst.Some? && inst.value <= st[mid].start))
  }

  lemma {:induction false} WhollyIsAll(st: Table, id: ID, scope: Scope, inst: Option<int>, p: Patch, nid: ID, mid: ID)
    requires Inv(st) && Wholly(st, id, scope, inst, mid)
    ensures ValidEvent(st[mid])
    ensures var r := Exec(st, Update(id, scope, inst, p, nid));
      && (r.Ok? ==> r == UpdateAll(st, mid, p))
      && (inst.None? || st[id].link.Some? || !st[mid].IsMaster() ==> r == UpdateAll(st, mid, p))
  {
    if st[id].link.Some? { assert Attached(st, id); }
  }

  /** The row holds what the patch says of it. */
  predicate WholeEdited(m: Event, p: Patch, e: Event) {
    && e.link.None? && e.uid == m.uid && Takes(p.rule, m.rule, e.rule) && Sensible(e)
    && Shows(p, m.title, m.cancelled, m.allDay, m.start, m.end - m.start, e)
  }

  /** Rows that are no overrides of `mid` are as they were, and no row is new. */
  ghost predicate OthersKept(st: Table, out: Table, mid: ID) {
    && (forall k :: k in out ==> k in st)
    && (forall k :: k in st && k != mid && !OverrideOf(st, k, mid) ==> k in out && out[k] == st[k])
  }

  lemma {:induction false} ShiftedEdited(m: Event, p: Patch)
    requires m.link.None? && ApplyPatch(m, p).Ok?
    ensures WholeEdited(m, p, ShiftSeries(m, ApplyPatch(m, p).value, p))
  {
    PatchMeans(m, p);
  }

  /** Editing all of it: the row holds what the patch says, rows that are no overrides of it are as they were,
      and no row is new.  Of a single event just that row is changed. */
  lemma {:induction false} UpdateWhole(st: Table, id: ID, scope: Scope, inst: Option<int>, p: Patch, nid: ID, mid: ID)
    requires Inv(st) && Wholly(st, id, scope, inst, mid)
    ensures var r := Exec(st, Update(id, scope, inst, p, nid));
      r.Ok? ==>
        && mid in r.value && WholeEdited(st[mid], p, r.value[mid]) && OthersKept(st, r.value, mid)
        && (!st[mid].IsMaster() ==> OnlyRows(st, r.value, mid, mid))
  {
    WhollyIsAll(st, id, scope, inst, p, nid, mid);
    if ApplyPatch(st[mid], p).Ok? {
      ShiftedEdited(st[mid], p);
      WholeRow(st, mid, p, ShiftSeries(st[mid], ApplyPatch(st[mid], p).value, p));
    }
  }

  lemma {:induction false} WholeRow(st: Table, mid: ID, p: Patch, after: Event)
    requires Inv(st) && mid in st && st[mid].link.None? && ApplyPatch(st[mid], p).Ok?
    requires after == ShiftSeries(st[mid], ApplyPatch(st[mid], p).value, p)
    ensures var r := UpdateAll(st, mid, p);
      r.Ok? ==>
        && mid in r.value && r.value[mid] == after && OthersKept(st, r.value, mid)
        && (!st[mid].IsMaster() ==> OnlyRows(st, r.value, mid, mid))
  {
    var st1 := st[mid := after];
    forall k | k in st ensures OverrideOf(st1, k, mid) <==> OverrideOf(st, k, mid) { }
  }

  /** How far the overrides of a series go with it: as far as its start, if day kind and rule stay. */
  function Shift(m: Event, e: Event): int {
    if e.allDay == m.allDay && e.rule == m.rule then e.start - m.start else 0
  }

  /** The override was kept at its instant moved along, or went because that is no occurrence any more. */
  ghost predicate Followed(o: Event, mid: ID, m: Event, e: Event, out: Table, k: ID)
    requires o.link.Some? && ValidRule(e.rule)
  {
    var at := o.link.value.at + Shift(m, e);
    && (k in out <==> e.IsMaster() && OccursIn(e, at))
    && (k in out ==> out[k] == o.(link := Some(Link(mid, at))))
  }

  lemma {:induction false} SyncFollows(st: Table, mid: ID, before: Event, after: Event, k: ID)
    requires ValidRule(after.rule) && before.IsMaster() && OverrideOf(st, k, mid)
    requires Sync(st, mid, before, after).Ok?
    ensures Followed(st[k], mid, before, after, Sync(st, mid, before, after).value, k)
  {
    assert Shift(before, after) == NewAt(before, after, 0);
    assert st[k].link == Some(Link(mid, st[k].link.value.at));
    assert st[k] == st[k].(link := Some(Link(mid, st[k].link.value.at)));
  }

  /** An override stays exactly when its instant, moved along, is an occurrence of what the series has become; it
      keeps all but that instant.  With the series no longer one, all its overrides go. */
  lemma {:induction false} OverridesFollow(st: Table, mid: ID, p: Patch, k: ID)
    requires Inv(st) && mid in st && st[mid].IsMaster() && OverrideOf(st, k, mid) && UpdateAll(st, mid, p).Ok?
    ensures var out := UpdateAll(st, mid, p).value;
      mid in out && ValidRule(out[mid].rule) && Followed(st[k], mid, st[mid], out[mid], out, k)
  {
    var after := ShiftSeries(st[mid], ApplyPatch(st[mid], p).value, p);
    WholeRow(st, mid, p, after);
    SyncFollows(st[mid := after], mid, st[mid], after, k);
  }

  /** Editing the text of a whole series changes that and nothing else: every override stays. */
  lemma {:induction false} TextOfAll(st: Table, id: ID, scope: Scope, inst: Option<int>, p: Patch, nid: ID, mid: ID)
    requires Inv(st) && Wholly(st, id, scope, inst, mid) && Timeless(p)
    ensures var r := Exec(st, Update(id, scope, inst, p, nid));
      && (inst.None? && Lasts(st[mid]) && r.Err? ==>
            exists k :: OverrideOf(st, k, mid) && R.TooFar(FromEvent(st[mid]), st[k].link.value.at))
      && (r.Ok? ==>
        && OnlyRows(st, r.value, mid, mid) && mid in r.value
        && r.value[mid] == st[mid].(title := r.value[mid].title, cancelled := r.value[mid].cancelled)
        && Takes(p.title, st[mid].title, r.value[mid].title)
        && Takes(p.cancelled, st[mid].cancelled, r.value[mid].cancelled))
  {
    WhollyIsAll(st, id, scope, inst, p, nid, mid);
    if Lasts(st[mid]) { TimelessAccepted(st[mid], p); }
    if ApplyPatch(st[mid], p).Ok? {
      var after := ApplyPatch(st[mid], p).value;
      assert after == st[mid].(title := after.title, cancelled := after.cancelled);
      if st[mid].IsMaster() {
        TextLands(st, st[mid := after], mid, after);
        SyncKeepsAll(st[mid := after], mid, st[mid], after);
        TextErrs(st, st[mid := after], mid, after);
      }
    }
  }

  lemma {:induction false} TextErrs(st: Table, st1: Table, mid: ID, after: Event)
    requires ValidRule(after.rule) && mid in st && st[mid].link.None? && after.link.None? && st1 == st[mid := after]
    requires after == st[mid].(title := after.title, cancelled := after.cancelled)
    ensures (exists k :: OverrideOf(st1, k, mid) && R.TooFar(FromEvent(after), st1[k].link.value.at)) ==>
      exists k :: OverrideOf(st, k, mid) && R.TooFar(FromEvent(st[mid]), st[k].link.value.at)
  {
    if k :| OverrideOf(st1, k, mid) && R.TooFar(FromEvent(after), st1[k].link.value.at) {
      assert OverrideOf(st, k, mid) && st1[k] == st[k];
      assert R.TooFar(FromEvent(st[mid]), st[k].link.value.at);
    }
  }

  lemma {:induction false} TextLands(st: Table, st1: Table, mid: ID, after: Event)
    requires Inv(st) && mid in st && st[mid].link.None? && st1 == st[mid := after]
    requires after == st[mid].(title := after.title, cancelled := after.cancelled)
    ensures forall k :: OverrideOf(st1, k, mid) ==> OccursIn(after, st1[k].link.value.at)
  {
    forall k | OverrideOf(st1, k, mid) ensures OccursIn(after, st1[k].link.value.at) {
      assert Attached(st, k);
    }
  }

  // ---------------------------------------------------------------- updates of what follows

  lemma {:induction false} FollowingIs(st: Table, id: ID, inst: Option<int>, p: Patch, nid: ID, mid: ID, at: int)
    requires Inv(st) && Speaks(st, id, inst, mid, at) && at > st[mid].start
    ensures st[mid].IsMaster() && st[mid].link.None? && ValidEvent(st[mid])
    ensures var r := Exec(st, Update(id, Following, inst, p, nid));
      && (r.Ok? ==> OccursIn(st[mid], at) && r == UpdateFollowing(st, mid, at, p, nid))
      && (r == UpdateFollowing(st, mid, at, p, nid) || Unfound(st, id, mid, at))
  {
    SpeaksResolves(st, id, Following, inst, mid, at);
  }

  /** The old uid with the instant, as long as that fits in 1000 bytes with 18 for the instant. */
  function RestUid(uid: string, at: int, nid: ID): string {
    if Text.Bytes(uid) <= 982 then uid + "_R" + Written(at) else Written(nid)
  }

  /** The old series keeps its text, times and uid, the new one holds what the patch says of an event that
      starts at the instant and is as long as the old one, and rows other than the overrides from there on are
      as they were. */
  ghost predicate RestEdited(st: Table, out: Table, p: Patch, nid: ID, mid: ID, at: int)
    requires mid in st
  {
    && mid in out && nid in out && nid !in st
    && out[mid] == st[mid].(rule := out[mid].rule, rdate := out[mid].rdate, exdate := out[mid].exdate)
    && Shows(p, st[mid].title, st[mid].cancelled, st[mid].allDay, at, st[mid].end - st[mid].start, out[nid])
    && out[nid].link.None? && Sensible(out[nid]) && out[nid].uid == RestUid(st[mid].uid, at, nid)
    && (forall k :: k in out ==> k in st || k == nid)
    && (forall k :: k in st && k != mid && !(OverrideOf(st, k, mid) && st[k].link.value.at >= at) ==>
          k in out && out[k] == st[k])
  }

  lemma {:induction false} NextShows(m: Event, at: int, p: Patch, nid: ID, base: Event)
    requires m.link.None? && ValidRule(m.rule) && m.rule.Every? && base == SplitOff(m, at, Split(m, at).value.1, nid)
    requires ApplyPatch(base, p).Ok?
    ensures var next := ShiftSeries(base, ApplyPatch(base, p).value, p);
      && Shows(p, m.title, m.cancelled, m.allDay, at, m.end - m.start, next) && next.link.None? && Sensible(next)
      && next.uid == RestUid(m.uid, at, nid) && (ValidEvent(base) ==> ValidEvent(next))
  {
    PatchMeans(base, p);
  }

  /** Editing an instance and what follows. */
  lemma {:induction false} UpdateRest(st: Table, id: ID, inst: Option<int>, p: Patch, nid: ID, mid: ID, at: int)
    requires Inv(st) && Speaks(st, id, inst, mid, at) && at > st[mid].start
    ensures var r := Exec(st, Update(id, Following, inst, p, nid));
      r.Ok? ==> RestEdited(st, r.value, p, nid, mid, at)
  {
    FollowingIs(st, id, inst, p, nid, mid, at);
    if Exec(st, Update(id, Following, inst, p, nid)).Ok? {
      RestIs(st, mid, at, p, nid);
    }
  }

  lemma {:induction false} RestIs(st: Table, mid: ID, at: int, p: Patch, nid: ID)
    requires Inv(st) && mid in st && st[mid].link.None? && at > st[mid].start
    requires UpdateFollowing(st, mid, at, p, nid).Ok?
    ensures RestEdited(st, UpdateFollowing(st, mid, at, p, nid).value, p, nid, mid, at)
  {
    var base := SplitOff(st[mid], at, Split(st[mid], at).value.1, nid);
    NextShows(st[mid], at, p, nid, base);
    RestRows(st, mid, at, nid, base, ShiftSeries(base, ApplyPatch(base, p).value, p));
  }

  /** Rows that are no overrides of the series are left alone. */
  lemma {:induction false} SyncLeaves(st: Table, aid: ID, before: Event, after: Event)
    requires ValidRule(after.rule)
    ensures var r := Sync(st, aid, before, after);
      r.Ok? ==>
        && (forall k :: k in r.value ==> k in st)
        && (forall k :: k in st && !OverrideOf(st, k, aid) ==> k in r.value && r.value[k] == st[k])
  {
  }

  lemma {:induction false} RestRows(st: Table, mid: ID, at: int, nid: ID, base: Event, next: Event)
    requires Inv(st) && mid in st && st[mid].link.None? && st[mid].rule.Every? && at > st[mid].start
    requires nid !in st && next.link.None? && ValidEvent(next)
    ensures var r := Sync(CutTable(st, mid, at, nid, next), nid, base, next);
      r.Ok? ==>
        && mid in r.value && r.value[mid] == HeadPart(st[mid], at, Split(st[mid], at).value.0)
        && nid in r.value && r.value[nid] == next
        && (forall k :: k in r.value ==> k in st || k == nid)
        && (forall k :: k in st && k != mid && !(OverrideOf(st, k, mid) && st[k].link.value.at >= at) ==>
              k in r.value && r.value[k] == st[k])
  {
    var st2 := CutTable(st, mid, at, nid, next);
    forall k | k in st && k != mid && !(OverrideOf(st, k, mid) && st[k].link.value.at >= at)
      ensures k in st2 && st2[k] == st[k] && !OverrideOf(st2, k, nid)
    {
      assert st[k].link.Some? ==> Attached(st, k);
    }
    assert mid in st2 && nid in st2 && st2[nid] == next && !OverrideOf(st2, mid, nid) && !OverrideOf(st2, nid, nid);
    SyncLeaves(st2, nid, base, next);
  }

  /** Without new timing the command divides the series as it should. */
  lemma {:induction false} TextOfRest(st: Table, id: ID, inst: Option<int>, p: Patch, nid: ID, mid: ID, at: int)
    requires Inv(st) && Speaks(st, id, inst, mid, at) && at > st[mid].start && nid !in st
    requires Timeless(p) && st[mid].rule.Every? && Lasts(st[mid])
    ensures var r := Exec(st, Update(id, Following, inst, p, nid));
      r.Ok? ==>
        && mid in r.value && nid in r.value
        && (SeriesDivided(st[mid], at, r.value[mid], r.value[nid]) <==> CleanCut(st[mid], at))
    ensures Exec(st, Update(id, Following, inst, p, nid)).Err? ==>
      || Unfound(st, id, mid, at) || UidTaken(st, SplitUid(st[mid].uid, at, nid))
      || LaterOutOfReach(st, mid, at, NewSeries(st[mid], at, p, nid))
  {
    FollowingIs(st, id, inst, p, nid, mid, at);
    if OccursIn(st[mid], at) { FollowingConserves(st, mid, at, p, nid); }
  }

  // ---------------------------------------------------------------- creating

  /** A new event is stored as given, next to all that was there, unless its id or uid is taken. */
  lemma {:induction false} CreateStores(st: Table, id: ID, e: Event)
    requires Inv(st)
    ensures var r := Exec(st, Create(id, e));
      && (r.Ok? ==> id !in st && OnlyRows(st, r.value, id, id) && id in r.value && r.value[id] == e)
      && (r.Ok? ==> forall k :: k in st && st[k].link.None? ==> st[k].uid != e.uid)
      && (r.Err? <==> id in st || UidTaken(st, e.uid) || e.link.Some? || !ValidRule(e.rule))
      && (r.Err? ==> r.error == if e.link.Some? || !ValidRule(e.rule) then Invalid else Conflict)
  {
  }
}

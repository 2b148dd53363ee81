/** Edits of the event table by scope: one occurrence, an occurrence and all after it, or the
    whole series.  This module says what each edit makes of the table; EventStore runs them. */
module EventEdits {
  import opened Common
  import opened Rules
  import R = Recurrence
  import Text

  const MAX_RDATES := 1000
  const MAX_EXDATES := 5000
  const MAX_DURATION: int := 366 * DAY

  /** The live rows. */
  type Table = map<ID, Event>

  datatype EndPatch = KeepEnd | DefaultEnd | EndAt(at: int)

  datatype Patch = Patch(
    title: Option<string>, cancelled: Option<bool>, allDay: Option<bool>, start: Option<int>, end: EndPatch,
    rule: Option<Rule>, rdate: Option<seq<int>>, exdate: Option<seq<int>>)

  // ---------------------------------------------------------------- applying a patch

  function Compact(ts: seq<int>): (r: seq<int>)
    ensures forall t :: t in r <==> t in ts
  {
    if |ts| <= 1 then ts
    else
      assert ts == ts[..|ts| - 1] + [ts[|ts| - 1]];
      var r := Compact(ts[..|ts| - 1]);
      if ts[|ts| - 1] == ts[|ts| - 2] then r else r + [ts[|ts| - 1]]
  }

  /** The instants a time of the event may be given as: dates for an all-day event. */
  predicate Readable(allDay: bool, t: int) {
    allDay ==> t % DAY == 0
  }

  predicate AllReadable(allDay: bool, ts: seq<int>) {
    forall i :: 0 <= i < |ts| ==> Readable(allDay, ts[i])
  }

  function PatchedStart(e: Event, p: Patch): int {
    if p.start.Some? then p.start.value else e.start
  }

  function PatchedEnd(e: Event, p: Patch, allDay: bool): int {
    var start := PatchedStart(e, p);
    if p.end.EndAt? then p.end.at
    else if allDay != e.allDay || p.end.DefaultEnd? then start + (if allDay then DAY else 3600)
    else if p.start.Some? then start + e.Duration()
    else e.end
  }

  function PatchedDates(o: Option<seq<int>>, cur: seq<int>, switched: bool): seq<int> {
    if o.Some? then Compact(Sort(o.value)) else if switched then [] else cur
  }

  /** What a patch may not ask for. */
  predicate PatchAllowed(e: Event, p: Patch, allDay: bool) {
    var start, end := PatchedStart(e, p), PatchedEnd(e, p, allDay);
    && (allDay != e.allDay ==> p.start.Some?)
    && (p.start.Some? ==> Readable(allDay, p.start.value))
    && (p.end.EndAt? ==> Readable(allDay, p.end.at))
    && (if allDay then end > start else end >= start)
    && end - start <= MAX_DURATION
    && (if e.IsOverride() then
          && (p.rule.Some? ==> p.rule.value.NoRule?)
          && (p.rdate.Some? ==> p.rdate.value == [])
          && (p.exdate.Some? ==> p.exdate.value == [])
        else
          && (p.rule.Some? ==> ValidRule(p.rule.value))
          && (p.rdate.Some? ==> |p.rdate.value| <= MAX_RDATES && AllReadable(allDay, p.rdate.value))
          && (p.exdate.Some? ==> |p.exdate.value| <= MAX_EXDATES && AllReadable(allDay, p.exdate.value)))
  }

  function ApplyPatch(e: Event, p: Patch): (r: Result<Event, Error>)
    ensures r.Ok? ==> r.value.link == e.link
    ensures r.Ok? && ValidEvent(e) ==> ValidEvent(r.value)
  {
    var allDay := if p.allDay.Some? then p.allDay.value else e.allDay;
    if !PatchAllowed(e, p, allDay) then Err(Invalid)
    else
      var e' := e.(title := if p.title.Some? then p.title.value else e.title,
                   cancelled := if p.cancelled.Some? then p.cancelled.value else e.cancelled,
                   allDay := allDay, start := PatchedStart(e, p), end := PatchedEnd(e, p, allDay));
      if e.IsOverride() then Ok(e')
      else
        var switched := allDay != e.allDay;
        Ok(e'.(rule := if p.rule.Some? then p.rule.value else e.rule,
               rdate := PatchedDates(p.rdate, e.rdate, switched),
               exdate := PatchedDates(p.exdate, e.exdate, switched)))
  }

  /** The start moved and the edit left day kind and rule alone. */
  predicate Moves(before: Event, after: Event) {
    after.start != before.start && before.allDay == after.allDay && before.rule == after.rule
  }

  /** Excluded and extra dates move along with the start unless the patch sets them. */
  function ShiftSeries(before: Event, after: Event, p: Patch): Event {
    if !before.IsMaster() || !Moves(before, after) then after
    else
      var d := after.start - before.start;
      after.(exdate := if p.exdate.Some? then after.exdate else ShiftTimes(after.exdate, d),
             rdate := if p.rdate.Some? then after.rdate else ShiftTimes(after.rdate, d))
  }

  // ---------------------------------------------------------------- the invariant of the table

  predicate ValidEvent(e: Event) {
    ValidRule(e.rule) && (e.IsOverride() ==> e.rule.NoRule? && e.rdate == [] && e.exdate == [])
  }

  predicate OverrideOf(st: Table, id: ID, series: ID) {
    id in st && st[id].link.Some? && st[id].link.value.series == series
  }

  /** The override replaces an occurrence of a live series. */
  predicate Attached(st: Table, id: ID)
    requires id in st && st[id].link.Some?
  {
    var l := st[id].link.value;
    l.series in st && ValidEvent(st[l.series]) && st[l.series].IsMaster() && OccursIn(st[l.series], l.at)
  }

  /** No two overrides replace the same occurrence. */
  ghost predicate DistinctLinks(st: Table) {
    forall i, j :: i in st && j in st && i != j && st[i].link.Some? ==> st[i].link != st[j].link
  }

  /** Everything but the overrides of `except` is attached. */
  ghost predicate Settled(st: Table, except: ID) {
    && (forall id :: id in st ==> ValidEvent(st[id]))
    && DistinctLinks(st)
    && (forall id :: id in st && st[id].link.Some? && !OverrideOf(st, id, except) ==> Attached(st, id))
  }

  ghost predicate Inv(st: Table) {
    && (forall id :: id in st ==> ValidEvent(st[id]))
    && DistinctLinks(st)
    && (forall id :: id in st && st[id].link.Some? ==> Attached(st, id))
  }

  // ---------------------------------------------------------------- uids

  const MAX_UID := 1000

  /** What a split adds to the uid: a mark and the instant in sixteen characters. */
  const SUFFIX := 18

  function Digits(n: nat): string {
    (if n < 10 then "" else Digits(n / 10)) + [('0' as int + n % 10) as char]
  }

  /** A number written out.  It stands for the date and time of an instant, and for a new id. */
  function Written(n: int): string {
    if n < 0 then "-" + Digits(-n) else Digits(n)
  }

  /** The uid of the series split off at `at`; one that would be too long gives way to a new id. */
  function SplitUid(uid: string, at: int, nid: ID): string {
    if Text.Bytes(uid) + SUFFIX > MAX_UID then Written(nid) else uid + "_R" + Written(at)
  }

  /** The unique index on the uids of events that are not overrides would refuse another one. */
  predicate UidTaken(st: Table, uid: string) {
    exists k :: k in st && st[k].link.None? && st[k].uid == uid
  }

  // ---------------------------------------------------------------- what each edit does

  /** The row and the overrides that hang on it. */
  function Removed(st: Table, id: ID): Table {
    map k | k in st && k != id && !OverrideOf(st, k, id) :: st[k]
  }

  /** The instant an override of `after` replaces once the edit is done. */
  function NewAt(before: Event, after: Event, at: int): int {
    if Moves(before, after) then at + (after.start - before.start) else at
  }

  /** Overrides follow their series: they move with it, and those off the series are dropped. */
  ghost function Sync(st: Table, aid: ID, before: Event, after: Event): Result<Table, Error>
    requires ValidRule(after.rule)
  {
    if !after.IsMaster() then Ok(map k | k in st && !OverrideOf(st, k, aid) :: st[k])
    else if exists k :: OverrideOf(st, k, aid) && R.TooFar(FromEvent(after), NewAt(before, after, st[k].link.value.at))
    then Err(TooMany)
    else Ok(map k | k in st &&
              (OverrideOf(st, k, aid) ==> OccursIn(after, NewAt(before, after, st[k].link.value.at))) ::
              if OverrideOf(st, k, aid) && Moves(before, after)
              then st[k].(link := Some(Link(aid, NewAt(before, after, st[k].link.value.at))))
              else st[k])
  }

  function NewOverride(m: Event, mid: ID, at: int): Event {
    m.(link := Some(Link(mid, at)), start := at, end := at + m.Duration(), rule := NoRule, rdate := [], exdate := [])
  }

  /** The override that replaces the occurrence at `at`, if there is one. */
  ghost function OverrideAt(st: Table, series: ID, at: int): (r: Option<ID>)
    ensures r.Some? ==> r.value in st && st[r.value].link == Some(Link(series, at))
    ensures r.None? ==> forall id :: id in st ==> st[id].link != Some(Link(series, at))
  {
    if exists id :: id in st && st[id].link == Some(Link(series, at)) then
      var id :| id in st && st[id].link == Some(Link(series, at));
      Some(id)
    else None
  }

  datatype Scope = Unset | This | Following | All

  /** What an edit addresses: a row, or an occurrence of a series. */
  datatype Target = Target(master: ID, override: Option<ID>, inst: Option<int>, scope: Scope)

  function Or(scope: Scope, other: Scope): Scope {
    if scope == Unset then other else scope
  }

  ghost function Resolve(st: Table, id: ID, scope: Scope, instance: Option<int>): (r: Result<Target, Error>)
    requires Inv(st)
    ensures r.Ok? ==> ValidTarget(st, r.value)
  {
    if id !in st then Err(NotFound)
    else if st[id].IsOverride() then
      assert Attached(st, id);
      Ok(Target(st[id].link.value.series, Some(id), Some(st[id].link.value.at), Or(scope, This)))
    else if st[id].IsMaster() && instance.Some? then
      if R.TooFar(FromEvent(st[id]), instance.value) then Err(TooMany)
      else if !OccursIn(st[id], instance.value) then Err(NotFound)
      else Ok(Target(id, None, instance, Or(scope, This)))
    else if st[id].IsMaster() && (scope.This? || scope.Following?) then Err(Invalid)
    else Ok(Target(id, None, None, All))
  }

  ghost predicate ValidTarget(st: Table, t: Target) {
    && t.master in st && st[t.master].link.None? && ValidEvent(st[t.master])
    && (t.inst.Some? ==> st[t.master].IsMaster() && OccursIn(st[t.master], t.inst.value))
    && (t.override.Some? ==> t.inst.Some? && t.override.value in st
                             && st[t.override.value].link == Some(Link(t.master, t.inst.value)))
    && (!t.scope.All? ==> t.inst.Some?)
  }

  ghost function UpdateThis(st: Table, t: Target, p: Patch, nid: ID): Result<Table, Error>
    requires Inv(st) && ValidTarget(st, t) && t.inst.Some?
  {
    var at := t.inst.value;
    var found := if t.override.Some? then t.override else OverrideAt(st, t.master, at);
    var r := ApplyPatch(if found.Some? then st[found.value] else NewOverride(st[t.master], t.master, at), p);
    if r.Err? then Err(r.error)
    else if found.Some? then Ok(st[found.value := r.value])
    else if nid in st then Err(Conflict)
    else Ok(st[nid := r.value])
  }

  ghost function UpdateAll(st: Table, mid: ID, p: Patch): Result<Table, Error>
    requires mid in st && ValidEvent(st[mid])
  {
    var before := st[mid];
    var r := ApplyPatch(before, p);
    if r.Err? then Err(r.error)
    else
      var after := ShiftSeries(before, r.value, p);
      if before.IsMaster() then Sync(st[mid := after], mid, before, after) else Ok(st[mid := after])
  }

  /** Overrides from `since` on go over to another series and take its uid. */
  function MoveOverrides(st: Table, from: ID, to: ID, since: int): Table
    requires to in st
  {
    map k | k in st ::
      if OverrideOf(st, k, from) && st[k].link.value.at >= since
      then st[k].(link := Some(Link(to, st[k].link.value.at)), uid := st[to].uid)
      else st[k]
  }

  /** The series split off, before the patch. */
  function SplitOff(m: Event, at: int, tail: Rule, nid: ID): Event {
    TailPart(m, at, tail).(uid := SplitUid(m.uid, at, nid))
  }

  ghost function UpdateFollowing(st: Table, mid: ID, at: int, p: Patch, nid: ID): Result<Table, Error>
    requires mid in st && ValidEvent(st[mid]) && st[mid].link.None?
  {
    var m := st[mid];
    var split := Split(m, at);
    if split.Err? then Err(split.error)
    else
      var (head, tail) := split.value;
      var base := SplitOff(m, at, tail, nid);
      var r := ApplyPatch(base, p);
      if r.Err? then Err(r.error)
      else if nid in st || UidTaken(st, base.uid) then Err(Conflict)
      else
        var next := ShiftSeries(base, r.value, p);
        Sync(MoveOverrides(st[mid := HeadPart(m, at, head)][nid := next], mid, nid, at), nid, base, next)
  }

  function Excluding(m: Event, at: int): Event {
    if at in m.exdate then m else m.(exdate := Sort(m.exdate + [at]))
  }

  ghost function ExcludeInstance(st: Table, mid: ID, at: int): Table
    requires mid in st
  {
    var st' := st[mid := Excluding(st[mid], at)];
    var ov := OverrideAt(st', mid, at);
    if ov.None? then st' else Removed(st', ov.value)
  }

  function TruncateSeries(st: Table, mid: ID, at: int): Result<Table, Error>
    requires mid in st && ValidEvent(st[mid])
  {
    var split := Split(st[mid], at);
    if split.Err? then Err(split.error)
    else
      var st' := st[mid := HeadPart(st[mid], at, split.value.0)];
      Ok(map k | k in st' && !(OverrideOf(st', k, mid) && st'[k].link.value.at >= at) :: st'[k])
  }

  // ---------------------------------------------------------------- commands and runs

  datatype Command =
    | Create(id: ID, event: Event)
    | Update(id: ID, scope: Scope, instance: Option<int>, patch: Patch, nid: ID)
    | Delete(id: ID, scope: Scope, instance: Option<int>)

  function ExecCreate(st: Table, id: ID, e: Event): Result<Table, Error> {
    if e.IsOverride() || !ValidEvent(e) then Err(Invalid)
    else if id in st || UidTaken(st, e.uid) then Err(Conflict)
    else Ok(st[id := e])
  }

  ghost function ExecUpdate(st: Table, t: Target, p: Patch, nid: ID): Result<Table, Error>
    requires Inv(st) && ValidTarget(st, t)
  {
    var m := st[t.master];
    if t.scope.This? && m.IsMaster() then UpdateThis(st, t, p, nid)
    else if t.scope.Following? && m.IsMaster() && t.inst.value > m.start then
      UpdateFollowing(st, t.master, t.inst.value, p, nid)
    else UpdateAll(st, t.master, p)
  }

  ghost function ExecDelete(st: Table, t: Target): Result<Table, Error>
    requires Inv(st) && ValidTarget(st, t)
  {
    var m := st[t.master];
    if !m.IsMaster() || t.scope.All? then Ok(Removed(st, t.master))
    else if t.scope.Following? && t.inst.value <= m.start then Ok(Removed(st, t.master))
    else if t.scope.Following? then TruncateSeries(st, t.master, t.inst.value)
    else Ok(ExcludeInstance(st, t.master, t.inst.value))
  }

  ghost function Exec(st: Table, c: Command): Result<Table, Error>
    requires Inv(st)
  {
    match c
    case Create(id, e) => ExecCreate(st, id, e)
    case Update(id, scope, instance, p, nid) =>
      var r := Resolve(st, id, scope, instance);
      if r.Err? then Err(r.error) else ExecUpdate(st, r.value, p, nid)
    case Delete(id, scope, instance) =>
      var r := Resolve(st, id, scope, instance);
      if r.Err? then Err(r.error) else ExecDelete(st, r.value)
  }

  /** A command that fails leaves the table as it was: it runs in one transaction. */
  ghost function After(st: Table, c: Command): Table
    requires Inv(st)
  {
    if Exec(st, c).Ok? then Exec(st, c).value else st
  }

  // ---------------------------------------------------------------- the invariant is kept

  lemma {:induction false} RemovedKeeps(st: Table, id: ID)
    requires Inv(st)
    ensures Inv(Removed(st, id))
  {
    var st' := Removed(st, id);
    forall k | k in st' && st'[k].link.Some? ensures Attached(st', k) {
      assert Attached(st, k);
      assert !OverrideOf(st, k, id);
      var s := st[k].link.value.series;
      assert s != id && !OverrideOf(st, s, id);
    }
  }

  lemma {:induction false} SyncKeeps(st: Table, aid: ID, before: Event)
    requires Settled(st, aid) && aid in st && st[aid].link.None?
    ensures Sync(st, aid, before, st[aid]).Ok? ==> Inv(Sync(st, aid, before, st[aid]).value)
  {
    var after := st[aid];
    var r := Sync(st, aid, before, after);
    if r.Ok? {
      var st' := r.value;
      assert forall k :: k in st && st[k].link.None? ==> k in st' && st'[k] == st[k];
      forall k | k in st' && st'[k].link.Some? ensures Attached(st', k) {
        if !OverrideOf(st, k, aid) { assert Attached(st, k); }
      }
      SyncApart(st, aid, before);
    }
  }

  /** What Sync makes of one override: it stays with its series, moved by the same amount as all others. */
  lemma {:induction false} SyncRow(st: Table, aid: ID, before: Event, k: ID)
    requires aid in st && st[aid].link.None? && ValidRule(st[aid].rule) && Sync(st, aid, before, st[aid]).Ok?
    requires var st' := Sync(st, aid, before, st[aid]).value; k in st' && st'[k].link.Some?
    ensures k in st && st[k].link.Some?
    ensures Sync(st, aid, before, st[aid]).value[k].link ==
      if OverrideOf(st, k, aid) then Some(Link(aid, NewAt(before, st[aid], st[k].link.value.at))) else st[k].link
  {
  }

  lemma {:induction false} SyncApart(st: Table, aid: ID, before: Event)
    requires Settled(st, aid) && aid in st && st[aid].link.None? && Sync(st, aid, before, st[aid]).Ok?
    ensures DistinctLinks(Sync(st, aid, before, st[aid]).value)
  {
    var st' := Sync(st, aid, before, st[aid]).value;
    forall i, j | i in st' && j in st' && i != j && st'[i].link.Some? ensures st'[i].link != st'[j].link {
      SyncRow(st, aid, before, i);
      if st'[j].link.Some? { SyncRow(st, aid, before, j); }
      assert st[i].link != st[j].link;
    }
  }

  lemma {:induction false} UpdateThisKeeps(st: Table, t: Target, p: Patch, nid: ID)
    requires Inv(st) && ValidTarget(st, t) && t.inst.Some?
    ensures UpdateThis(st, t, p, nid).Ok? ==> Inv(UpdateThis(st, t, p, nid).value)
  {
    var r := UpdateThis(st, t, p, nid);
    if r.Ok? {
      var found := if t.override.Some? then t.override else OverrideAt(st, t.master, t.inst.value);
      var id := if found.Some? then found.value else nid;
      var st' := r.value;
      assert st'[id].link == Some(Link(t.master, t.inst.value)) && id != t.master;
      assert forall k :: k in st && st[k].link.None? ==> st'[k] == st[k];
      forall k | k in st' && st'[k].link.Some? ensures Attached(st', k) {
        if k != id { assert Attached(st, k); }
      }
    }
  }

  /** A row that is not an override may change freely if its overrides are then looked after. */
  lemma {:induction false} RowChanged(st: Table, id: ID, e: Event)
    requires Inv(st) && id in st && st[id].link.None? && e.link.None? && ValidEvent(e)
    ensures Settled(st[id := e], id)
    ensures !st[id].IsMaster() ==> Inv(st[id := e])
    ensures (forall k :: OverrideOf(st, k, id) ==> e.IsMaster() && OccursIn(e, st[k].link.value.at)) ==>
      Inv(st[id := e])
  {
    var st' := st[id := e];
    assert forall k :: k in st' && st'[k].link.Some? ==> k in st && st'[k] == st[k] && Attached(st, k);
    forall k | k in st' && st'[k].link.Some? && !OverrideOf(st', k, id) ensures Attached(st', k) {
      assert Attached(st, k);
    }
  }

  lemma {:induction false} UpdateAllKeeps(st: Table, mid: ID, p: Patch)
    requires Inv(st) && mid in st && st[mid].link.None?
    ensures UpdateAll(st, mid, p).Ok? ==> Inv(UpdateAll(st, mid, p).value)
  {
    var before := st[mid];
    var r := ApplyPatch(before, p);
    if r.Ok? {
      var after := ShiftSeries(before, r.value, p);
      RowChanged(st, mid, after);
      SyncKeeps(st[mid := after], mid, before);
    }
  }

  /** Cut after its start, a series keeps a rule. */
  lemma {:induction false} HeadIsMaster(m: Event, at: int)
    requires ValidEvent(m) && m.link.None? && m.rule.Every? && at > m.start
    ensures HeadPart(m, at, Split(m, at).value.0).IsMaster()
  {
    if m.rule.bound.Count? { CountDivides(m, at); }
  }

  lemma {:induction false} UpdateFollowingKeeps(st: Table, mid: ID, at: int, p: Patch, nid: ID)
    requires Inv(st) && mid in st && st[mid].link.None? && at > st[mid].start
    ensures UpdateFollowing(st, mid, at, p, nid).Ok? ==> Inv(UpdateFollowing(st, mid, at, p, nid).value)
  {
    if UpdateFollowing(st, mid, at, p, nid).Ok? {
      var m := st[mid];
      var (head, tail) := Split(m, at).value;
      var base := SplitOff(m, at, tail, nid);
      var next := ShiftSeries(base, ApplyPatch(base, p).value, p);
      var st1 := st[mid := HeadPart(m, at, head)][nid := next];
      var st2 := MoveOverrides(st1, mid, nid, at);
      FollowingSettles(st, mid, at, nid, next);
      SyncKeeps(st2, nid, base);
    }
  }

  /** The table once the head is stored, the new series inserted and the later overrides moved to it. */
  function CutTable(st: Table, mid: ID, at: int, nid: ID, next: Event): Table
    requires mid in st && ValidRule(st[mid].rule) && st[mid].rule.Every?
  {
    MoveOverrides(st[mid := HeadPart(st[mid], at, Split(st[mid], at).value.0)][nid := next], mid, nid, at)
  }

  /** An override that was not moved still hangs on its occurrence. */
  lemma {:induction false} StillAttached(st: Table, mid: ID, at: int, nid: ID, next: Event, k: ID)
    requires Inv(st) && mid in st && st[mid].link.None? && st[mid].rule.Every? && at > st[mid].start
    requires nid !in st && next.link.None? && ValidEvent(next)
    requires var st2 := CutTable(st, mid, at, nid, next); k in st2 && st2[k].link.Some? && !OverrideOf(st2, k, nid)
    ensures var st2 := CutTable(st, mid, at, nid, next);
      (forall i :: i in st2 ==> ValidEvent(st2[i])) && Attached(st2, k)
  {
    var m := st[mid];
    HeadIsMaster(m, at);
    var st2 := CutTable(st, mid, at, nid, next);
    assert k in st && k != mid && k != nid && st2[k] == st[k] && Attached(st, k);
    var l := st[k].link.value;
    if l.series == mid { HeadKeeps(m, at, l.at); }
  }

  lemma {:induction false} FollowingSettles(st: Table, mid: ID, at: int, nid: ID, next: Event)
    requires Inv(st) && mid in st && st[mid].link.None? && st[mid].rule.Every? && at > st[mid].start
    requires nid !in st && next.link.None? && ValidEvent(next)
    ensures Settled(CutTable(st, mid, at, nid, next), nid)
  {
    var head := HeadPart(st[mid], at, Split(st[mid], at).value.0);
    HeadIsMaster(st[mid], at);
    var st2 := CutTable(st, mid, at, nid, next);
    forall k | k in st2 && st2[k].link.Some? && !OverrideOf(st2, k, nid) ensures Attached(st2, k) {
      StillAttached(st, mid, at, nid, next, k);
    }
    MovedApart(st, mid, at, nid, head, next);
  }

  /** Overrides moved to a new series stay apart. */
  lemma {:induction false} MovedApart(st: Table, mid: ID, at: int, nid: ID, head: Event, next: Event)
    requires Inv(st) && mid in st && st[mid].link.None? && head.link.None? && next.link.None? && nid !in st
    ensures var st2 := MoveOverrides(st[mid := head][nid := next], mid, nid, at);
      forall i, j :: i in st2 && j in st2 && i != j && st2[i].link.Some? ==> st2[i].link != st2[j].link
  {
    var st1 := st[mid := head][nid := next];
    var st2 := MoveOverrides(st1, mid, nid, at);
    forall k | k in st2 && st2[k].link.Some? ensures k in st && st[k].link.Some? && st1[k] == st[k] && Attached(st, k)
      && st[k].link.value.series != nid
    {
    }
    forall i, j | i in st2 && j in st2 && i != j && st2[i].link.Some? ensures st2[i].link != st2[j].link {
      assert st[i].link.Some? && st1[i] == st[i];
      if st2[j].link.Some? { assert st[j].link.Some? && st[i].link != st[j].link; }
    }
  }

  lemma {:induction false} ExcludingKeeps(m: Event, at: int, t: int)
    requires ValidRule(m.rule) && t != at
    ensures OccursIn(Excluding(m, at), t) <==> OccursIn(m, t)
  {
    SortSorted(m.exdate + [at]);
  }

  /** What is left hangs where it hung, on a row that is still there. */
  lemma {:induction false} LeftAttached(st: Table, mid: ID, at: int, k: ID)
    requires Inv(st) && mid in st && st[mid].IsMaster()
    requires k in ExcludeInstance(st, mid, at) && ExcludeInstance(st, mid, at)[k].link.Some?
    ensures ValidEvent(Excluding(st[mid], at)) && Attached(ExcludeInstance(st, mid, at), k)
  {
    var st' := st[mid := Excluding(st[mid], at)];
    var out, ov := ExcludeInstance(st, mid, at), OverrideAt(st', mid, at);
    assert k != mid && out[k] == st[k] && Attached(st, k);
    var l := st[k].link.value;
    assert st[l.series].link.None?;
    assert ov.Some? ==> st[ov.value].link.Some? && !OverrideOf(st', l.series, ov.value);
    assert l.series in out;
    if l.series == mid {
      assert l.at != at;
      ExcludingKeeps(st[mid], at, l.at);
    }
  }

  lemma {:induction false} ExcludeInstanceKeeps(st: Table, mid: ID, at: int)
    requires Inv(st) && mid in st && st[mid].IsMaster()
    ensures Inv(ExcludeInstance(st, mid, at))
  {
    var out := ExcludeInstance(st, mid, at);
    forall k | k in out && out[k].link.Some? ensures Attached(out, k) { LeftAttached(st, mid, at, k); }
  }

  lemma {:induction false} TruncateKeeps(st: Table, mid: ID, at: int)
    requires Inv(st) && mid in st && st[mid].IsMaster() && at > st[mid].start
    ensures TruncateSeries(st, mid, at).Ok? ==> Inv(TruncateSeries(st, mid, at).value)
  {
    var r := TruncateSeries(st, mid, at);
    if r.Ok? {
      var m := st[mid];
      HeadIsMaster(m, at);
      var out := r.value;
      forall k | k in out && out[k].link.Some? ensures Attached(out, k) {
        assert k in st && out[k] == st[k] && Attached(st, k);
        var l := st[k].link.value;
        if l.series == mid { HeadKeeps(m, at, l.at); }
      }
    }
  }

  lemma {:induction false} CreateKeeps(st: Table, id: ID, e: Event)
    requires Inv(st)
    ensures ExecCreate(st, id, e).Ok? ==> Inv(ExecCreate(st, id, e).value)
  {
    if ExecCreate(st, id, e).Ok? {
      forall k | k in st && st[k].link.Some? ensures Attached(st[id := e], k) {
        assert Attached(st, k);
      }
    }
  }

  lemma {:induction false} UpdateKeeps(st: Table, t: Target, p: Patch, nid: ID)
    requires Inv(st) && ValidTarget(st, t)
    ensures ExecUpdate(st, t, p, nid).Ok? ==> Inv(ExecUpdate(st, t, p, nid).value)
  {
    var m := st[t.master];
    if t.scope.This? && m.IsMaster() {
      UpdateThisKeeps(st, t, p, nid);
    } else if t.scope.Following? && m.IsMaster() && t.inst.value > m.start {
      UpdateFollowingKeeps(st, t.master, t.inst.value, p, nid);
    } else {
      UpdateAllKeeps(st, t.master, p);
    }
  }

  lemma {:induction false} DeleteKeeps(st: Table, t: Target)
    requires Inv(st) && ValidTarget(st, t)
    ensures ExecDelete(st, t).Ok? ==> Inv(ExecDelete(st, t).value)
  {
    RemovedKeeps(st, t.master);
    if t.inst.Some? {
      if t.inst.value > st[t.master].start { TruncateKeeps(st, t.master, t.inst.value); }
      ExcludeInstanceKeeps(st, t.master, t.inst.value);
    }
  }

  /** Every command, successful or not, leaves every override on an occurrence of its series and no
      two overrides on the same one. */
  lemma {:induction false} CommandKeeps(st: Table, c: Command)
    requires Inv(st)
    ensures Inv(After(st, c))
  {
    match c
    case Create(id, e) => CreateKeeps(st, id, e);
    case Update(id, scope, instance, p, nid) =>
      var r := Resolve(st, id, scope, instance);
      if r.Ok? { UpdateKeeps(st, r.value, p, nid); }
    case Delete(id, scope, instance) =>
      var r := Resolve(st, id, scope, instance);
      if r.Ok? { DeleteKeeps(st, r.value); }
  }

  /** The table after a run of commands. */
  ghost function Run(st: Table, cs: seq<Command>): (r: Table)
    requires Inv(st)
    ensures Inv(r)
    decreases |cs|
  {
    if cs == [] then st
    else
      CommandKeeps(st, cs[0]);
      Run(After(st, cs[0]), cs[1..])
  }

  /** Over every run of creations, edits and deletions, starting from nothing. */
  lemma {:induction false} EveryRunKeeps(cs: seq<Command>)
    ensures var st := Run(map[], cs);
      && (forall i, j :: i in st && j in st && i != j && st[i].link.Some? ==> st[i].link != st[j].link)
      && (forall id :: id in st && st[id].link.Some? ==>
            var l := st[id].link.value;
            l.series in st && st[l.series].IsMaster() && ValidRule(st[l.series].rule) && OccursIn(st[l.series], l.at))
  {
    var st := Run(map[], cs);
    assert Inv(st);
    forall id | id in st && st[id].link.Some?
      ensures var l := st[id].link.value;
        l.series in st && st[l.series].IsMaster() && ValidRule(st[l.series].rule) && OccursIn(st[l.series], l.at)
    {
      assert Attached(st, id);
    }
  }

  // ---------------------------------------------------------------- what an edit conserves

  /** The patch changes no timing. */
  predicate Timeless(p: Patch) {
    p.allDay.None? && p.start.None? && p.end.KeepEnd? && p.rule.None? && p.rdate.None? && p.exdate.None?
  }

  predicate Lasts(e: Event) {
    (if e.allDay then e.end > e.start else e.end >= e.start) && e.Duration() <= MAX_DURATION
  }

  function Relabel(e: Event, p: Patch): Event {
    e.(title := if p.title.Some? then p.title.value else e.title,
       cancelled := if p.cancelled.Some? then p.cancelled.value else e.cancelled)
  }

  /** The tail series with the patch on it. */
  function NewSeries(m: Event, at: int, p: Patch, nid: ID): Event
    requires ValidRule(m.rule) && m.rule.Every?
  {
    Relabel(SplitOff(m, at, Split(m, at).value.1, nid), p)
  }

  /** The old series has the occurrences before `at`, the new one those from `at` on. */
  ghost predicate SeriesDivided(m: Event, at: int, old_: Event, new_: Event) {
    && old_.link.None? && new_.link.None? && ValidRule(m.rule) && ValidRule(old_.rule) && ValidRule(new_.rule)
    && old_.start == m.start && new_.start == at && old_.Duration() == m.Duration() && new_.Duration() == m.Duration()
    && (forall t :: OccursIn(old_, t) <==> OccursIn(m, t) && t < at)
    && (forall t :: OccursIn(new_, t) <==> OccursIn(m, t) && t >= at)
  }

  /** Sync keeps every override if each is still on an occurrence, and fails only past the budget. */
  lemma {:induction false} SyncKeepsAll(st: Table, aid: ID, before: Event, after: Event)
    requires ValidRule(after.rule) && after.IsMaster() && !Moves(before, after)
    requires forall k :: OverrideOf(st, k, aid) ==> OccursIn(after, st[k].link.value.at)
    ensures Sync(st, aid, before, after) ==
      if exists k :: OverrideOf(st, k, aid) && R.TooFar(FromEvent(after), st[k].link.value.at) then Err(TooMany)
      else Ok(st)
  {
    var r := Sync(st, aid, before, after);
    if r.Ok? { assert r.value == st; }
  }

  /** Where an override of `mid` belongs once the series is cut. */
  function Rehung(st: Table, k: ID, mid: ID, nid: ID, at: int): Event
    requires k in st && mid in st
  {
    if OverrideOf(st, k, mid) && st[k].link.value.at >= at
    then st[k].(link := Some(Link(nid, st[k].link.value.at)), uid := SplitUid(st[mid].uid, at, nid)) else st[k]
  }

  /** The table just before overrides are checked against the new series. */
  lemma {:induction false} FollowingTable(st: Table, mid: ID, at: int, p: Patch, nid: ID) returns (st2: Table)
    requires Inv(st) && mid in st && st[mid].IsMaster() && st[mid].rule.Every? && nid !in st
    requires Timeless(p) && Lasts(st[mid]) && !UidTaken(st, SplitUid(st[mid].uid, at, nid))
    ensures UpdateFollowing(st, mid, at, p, nid) ==
            Sync(st2, nid, SplitOff(st[mid], at, Split(st[mid], at).value.1, nid), NewSeries(st[mid], at, p, nid))
    ensures st2.Keys == st.Keys + {nid}
    ensures st2[nid] == NewSeries(st[mid], at, p, nid) && st2[mid] == HeadPart(st[mid], at, Split(st[mid], at).value.0)
    ensures forall k :: k in st && k != mid ==> st2[k] == Rehung(st, k, mid, nid, at)
  {
    var m := st[mid];
    var (head, tail) := Split(m, at).value;
    var base, next := SplitOff(m, at, tail, nid), NewSeries(m, at, p, nid);
    assert ApplyPatch(base, p) == Ok(next);
    assert ShiftSeries(base, next, p) == next;
    st2 := MoveOverrides(st[mid := HeadPart(m, at, head)][nid := next], mid, nid, at);
  }

  /** "This and following" without a change of timing conserves the series if and only if the cut is clean:
      every earlier occurrence stays with the old series and every later one goes to the new series.  Then
      every override stays on its occurrence, whichever of the two now has it, and nothing else changes.
      It fails if and only if the uid of the new series is taken or the walk cannot reach an override it
      has to check. */
  lemma {:induction false} FollowingConserves(st: Table, mid: ID, at: int, p: Patch, nid: ID)
    requires Inv(st) && mid in st && st[mid].IsMaster() && st[mid].rule.Every? && nid !in st
    requires at > st[mid].start && OccursIn(st[mid], at) && Timeless(p) && Lasts(st[mid])
    ensures var r := UpdateFollowing(st, mid, at, p, nid);
      r.Ok? ==>
        && mid in r.value && nid in r.value
        && (SeriesDivided(st[mid], at, r.value[mid], r.value[nid]) <==> CleanCut(st[mid], at))
        && (CleanCut(st[mid], at) ==>
              r.value.Keys == st.Keys + {nid} && forall k :: k in st && k != mid ==>
                r.value[k] == Rehung(st, k, mid, nid, at))
    ensures UpdateFollowing(st, mid, at, p, nid).Err? <==>
      UidTaken(st, SplitUid(st[mid].uid, at, nid)) || LaterOutOfReach(st, mid, at, NewSeries(st[mid], at, p, nid))
  {
    if !UidTaken(st, SplitUid(st[mid].uid, at, nid)) {
      FollowingGoes(st, mid, at, p, nid);
    }
  }

  /** The walk of the new series cannot reach an override from the cut on. */
  ghost predicate LaterOutOfReach(st: Table, mid: ID, at: int, next: Event)
    requires ValidRule(next.rule)
  {
    exists k :: OverrideOf(st, k, mid) && st[k].link.value.at >= at && R.TooFar(FromEvent(next), st[k].link.value.at)
  }

  /** The overrides of the new series are the later ones of the old. */
  lemma {:induction false} RehungOnly(st: Table, mid: ID, at: int, nid: ID, st2: Table, k: ID)
    requires Inv(st) && mid in st && st[mid].link.None? && nid !in st && st2.Keys == st.Keys + {nid}
    requires st2[nid].link.None? && st2[mid].link.None?
    requires forall k :: k in st && k != mid ==> st2[k] == Rehung(st, k, mid, nid, at)
    ensures OverrideOf(st2, k, nid) <==> OverrideOf(st, k, mid) && st[k].link.value.at >= at
    ensures OverrideOf(st2, k, nid) ==> st2[k].link.value.at == st[k].link.value.at
  {
    if k in st && k != mid {
      assert st2[k] == Rehung(st, k, mid, nid, at);
      assert st[k].link.Some? ==> Attached(st, k);
    }
  }

  lemma {:induction false} FollowingGoes(st: Table, mid: ID, at: int, p: Patch, nid: ID)
    requires Inv(st) && mid in st && st[mid].IsMaster() && st[mid].rule.Every? && nid !in st
    requires at > st[mid].start && OccursIn(st[mid], at) && Timeless(p) && Lasts(st[mid])
    requires !UidTaken(st, SplitUid(st[mid].uid, at, nid))
    ensures var r := UpdateFollowing(st, mid, at, p, nid);
      r.Ok? ==>
        && mid in r.value && nid in r.value
        && (SeriesDivided(st[mid], at, r.value[mid], r.value[nid]) <==> CleanCut(st[mid], at))
        && (CleanCut(st[mid], at) ==>
              r.value.Keys == st.Keys + {nid} && forall k :: k in st && k != mid ==>
                r.value[k] == Rehung(st, k, mid, nid, at))
    ensures UpdateFollowing(st, mid, at, p, nid).Err? <==> LaterOutOfReach(st, mid, at, NewSeries(st[mid], at, p, nid))
  {
    var m := st[mid];
    var base, next := SplitOff(m, at, Split(m, at).value.1, nid), NewSeries(m, at, p, nid);
    var st2 := FollowingTable(st, mid, at, p, nid);
    assert next.IsMaster() by {
      if next.rule.NoRule? { RuleEndedIsExtra(m, at); }
    }
    DividedIsClean(m, at, p, nid);
    forall k ensures OverrideOf(st2, k, nid) <==> OverrideOf(st, k, mid) && st[k].link.value.at >= at {
      RehungOnly(st, mid, at, nid, st2, k);
    }
    forall k | OverrideOf(st2, k, nid) ensures st2[k].link.value.at == st[k].link.value.at {
      RehungOnly(st, mid, at, nid, st2, k);
    }
    SyncErrs(st2, nid, base, next);
    if CleanCut(m, at) {
      RehungLand(st, mid, at, p, nid, st2);
      SyncKeepsAll(st2, nid, base, next);
    }
  }

  lemma {:induction false} SyncErrs(st: Table, aid: ID, before: Event, after: Event)
    requires ValidRule(after.rule) && after.IsMaster() && !Moves(before, after)
    ensures Sync(st, aid, before, after).Err? <==>
      exists k :: OverrideOf(st, k, aid) && R.TooFar(FromEvent(after), st[k].link.value.at)
  {
  }

  lemma {:induction false} DividedIsClean(m: Event, at: int, p: Patch, nid: ID)
    requires m.link.None? && ValidRule(m.rule) && m.rule.Every? && at > m.start && OccursIn(m, at)
    ensures SeriesDivided(m, at, HeadPart(m, at, Split(m, at).value.0), NewSeries(m, at, p, nid)) <==> CleanCut(m, at)
  {
    var (head, tail) := Split(m, at).value;
    SplitConserves(m, at);
    forall t ensures OccursIn(NewSeries(m, at, p, nid), t) <==> OccursIn(TailPart(m, at, tail), t) { }
    if CleanCut(m, at) {
      forall t
        ensures (OccursIn(HeadPart(m, at, head), t) <==> OccursIn(m, t) && t < at) &&
          (OccursIn(NewSeries(m, at, p, nid), t) <==> OccursIn(m, t) && t >= at)
      {
        assert ConservesAt(m, at, head, tail, t);
      }
    } else {
      var t :| !ConservesAt(m, at, head, tail, t);
      assert OccursIn(NewSeries(m, at, p, nid), t) <==> OccursIn(TailPart(m, at, tail), t);
    }
  }

  lemma {:induction false} RehungLand(st: Table, mid: ID, at: int, p: Patch, nid: ID, st2: Table)
    requires Inv(st) && mid in st && st[mid].link.None? && st[mid].rule.Every? && nid !in st && at > st[mid].start
    requires OccursIn(st[mid], at)
    requires CleanCut(st[mid], at) && st2.Keys == st.Keys + {nid} && st2[nid].link.None? && st2[mid].link.None?
    requires forall k :: k in st && k != mid ==> st2[k] == Rehung(st, k, mid, nid, at)
    ensures forall k :: OverrideOf(st2, k, nid) ==> OccursIn(NewSeries(st[mid], at, p, nid), st2[k].link.value.at)
  {
    var m := st[mid];
    SplitConserves(m, at);
    forall k | OverrideOf(st2, k, nid) ensures OccursIn(NewSeries(m, at, p, nid), st2[k].link.value.at) {
      assert k in st && k != mid && st2[k] == Rehung(st, k, mid, nid, at);
      assert Attached(st, k);
      assert ConservesAt(m, at, Split(m, at).value.0, Split(m, at).value.1, st[k].link.value.at);
    }
  }

  /** When the tail has no rule left, the cut was at an extra date. */
  lemma {:induction false} RuleEndedIsExtra(m: Event, at: int)
    requires ValidRule(m.rule) && m.rule.Every? && at > m.start && OccursIn(m, at) && Split(m, at).value.1.NoRule?
    ensures at in m.rdate
  {
    if Hits(m.start, m.rule, at) {
      CountAtHit(m, at, at);
    }
  }

  /** A patch with nothing but a new start moves the series as a whole. */
  lemma {:induction false} StartPatchShifts(m: Event, p: Patch)
    requires m.link.None? && ValidEvent(m) && m.IsMaster() && Lasts(m)
    requires p.start.Some? && p.start.value != m.start && Readable(m.allDay, p.start.value)
    requires Timeless(p.(start := None))
    ensures ApplyPatch(m, p).Ok?
    ensures ShiftSeries(m, ApplyPatch(m, p).value, p) == Relabel(Shifted(m, p.start.value - m.start), p)
  {
  }

  /** Sync moves every override along if each lands on an occurrence, and fails only past the budget. */
  lemma {:induction false} SyncMovesAll(st: Table, aid: ID, before: Event, after: Event, d: int)
    requires ValidRule(after.rule) && after.IsMaster() && Moves(before, after) && d == after.start - before.start
    requires AllLand(st, aid, after, d)
    ensures var r := Sync(st, aid, before, after);
      r.Ok? ==> r.value.Keys == st.Keys && forall k :: k in st ==> r.value[k] == Moved(st, k, aid, d)
    ensures Sync(st, aid, before, after).Err? ==>
      exists k :: OverrideOf(st, k, aid) && R.TooFar(FromEvent(after), st[k].link.value.at + d)
  {
  }

  /** An override of `mid` after its series moved by `d`. */
  function Moved(st: Table, k: ID, mid: ID, d: int): Event
    requires k in st
  {
    if OverrideOf(st, k, mid) then st[k].(link := Some(Link(mid, st[k].link.value.at + d))) else st[k]
  }

  /** The series is the same but for a move of every occurrence by `d`. */
  ghost predicate SeriesMoved(m: Event, d: int, after: Event) {
    && after.link.None? && after.IsMaster() && ValidRule(m.rule) && after.rule == m.rule &&
      after.Duration() == m.Duration()
    && (forall t :: OccursIn(after, t) <==> OccursIn(m, t - d))
  }

  lemma {:induction false} ShiftedMoved(m: Event, p: Patch, d: int)
    requires ValidRule(m.rule) && m.IsMaster()
    ensures SeriesMoved(m, d, Relabel(Shifted(m, d), p)) <==> MovesWhole(m, d)
  {
    var after := Relabel(Shifted(m, d), p);
    MovesWholeIs(m, d);
    forall t
      ensures (OccursIn(after, t) <==> OccursIn(m, t - d)) <==> MovedHit(m.start, m.rule, d, t - d) || Beside(m, t - d)
    {
      ShiftMoves(m, d, t - d);
      assert OccursIn(after, t) <==> OccursIn(Shifted(m, d), t);
    }
    if SeriesMoved(m, d, after) {
      forall t ensures MovedHit(m.start, m.rule, d, t) || Beside(m, t) {
        assert OccursIn(after, t + d) <==> OccursIn(m, t + d - d);
      }
    }
  }

  /** Every override, moved by `d`, is on an occurrence of `after`. */
  ghost predicate AllLand(st: Table, mid: ID, after: Event, d: int)
    requires ValidRule(after.rule)
  {
    forall k :: OverrideOf(st, k, mid) ==> OccursIn(after, st[k].link.value.at + d)
  }

  lemma {:induction false} OverridesLand(st: Table, mid: ID, after: Event, d: int)
    requires Inv(st) && mid in st && SeriesMoved(st[mid], d, after)
    ensures AllLand(st, mid, after, d)
  {
    forall k | OverrideOf(st, k, mid) ensures OccursIn(after, st[k].link.value.at + d) {
      assert Attached(st, k);
    }
  }

  lemma {:induction false} StartPatchTable(st: Table, mid: ID, p: Patch, d: int)
    requires mid in st && ValidEvent(st[mid]) && st[mid].IsMaster() && Lasts(st[mid])
    requires d != 0 && p.start == Some(st[mid].start + d) && Readable(st[mid].allDay, p.start.value)
    requires Timeless(p.(start := None))
    ensures var after := Relabel(Shifted(st[mid], d), p);
      && UpdateAll(st, mid, p) == Sync(st[mid := after], mid, st[mid], after)
      && Moves(st[mid], after) && d == after.start - st[mid].start && after.IsMaster() && ValidRule(after.rule)
  {
    StartPatchShifts(st[mid], p);
  }

  lemma {:induction false} RowSwapLands(st: Table, mid: ID, after: Event, d: int)
    requires ValidRule(after.rule) && after.link.None? && mid in st && st[mid].link.None? && AllLand(st, mid, after, d)
    ensures AllLand(st[mid := after], mid, after, d)
  {
    var st1 := st[mid := after];
    forall k | OverrideOf(st1, k, mid) ensures OccursIn(after, st1[k].link.value.at + d) {
      assert OverrideOf(st, k, mid);
    }
  }

  /** "All" with nothing but a new start moves every occurrence by the same amount if and only if no step
      of the rule that matters crosses UNTIL.  Then every override moves along and none is lost; it fails
      only when the walk cannot reach an override it has to check. */
  lemma {:induction false} AllMoves(st: Table, mid: ID, p: Patch, d: int)
    requires Inv(st) && mid in st && st[mid].IsMaster() && Lasts(st[mid])
    requires d != 0 && p.start == Some(st[mid].start + d) && Readable(st[mid].allDay, p.start.value)
    requires Timeless(p.(start := None))
    ensures var r := UpdateAll(st, mid, p);
      r.Ok? ==>
        && mid in r.value && (SeriesMoved(st[mid], d, r.value[mid]) <==> MovesWhole(st[mid], d))
        && (MovesWhole(st[mid], d) ==>
              r.value.Keys == st.Keys && forall k :: k in st && k != mid ==> r.value[k] == Moved(st, k, mid, d))
    ensures UpdateAll(st, mid, p).Err? ==>
      exists k ::
        OverrideOf(st, k, mid) && R.TooFar(FromEvent(Relabel(Shifted(st[mid], d), p)), st[k].link.value.at + d)
  {
    var after := Relabel(Shifted(st[mid], d), p);
    ShiftedMoved(st[mid], p, d);
    StartPatchTable(st, mid, p, d);
    SyncTouches(st, mid, st[mid], after, d);
    if MovesWhole(st[mid], d) {
      OverridesLand(st, mid, after, d);
      AllMovesCore(st, mid, p, d, after);
    }
  }

  /** Sync leaves the series itself alone, and fails only past the budget. */
  lemma {:induction false} SyncTouches(st: Table, mid: ID, before: Event, after: Event, d: int)
    requires mid in st && st[mid].link.None? && ValidRule(after.rule) && after.link.None? && Moves(before, after)
    requires d == after.start - before.start
    ensures var r := Sync(st[mid := after], mid, before, after);
      (r.Ok? ==> mid in r.value && r.value[mid] == after)
      && (r.Err? ==> exists k :: OverrideOf(st, k, mid) && R.TooFar(FromEvent(after), st[k].link.value.at + d))
  {
    var st1 := st[mid := after];
    var r := Sync(st1, mid, before, after);
    if r.Err? {
      var k :| OverrideOf(st1, k, mid) && R.TooFar(FromEvent(after), NewAt(before, after, st1[k].link.value.at));
      assert OverrideOf(st, k, mid);
    }
  }

  lemma {:induction false} AllMovesCore(st: Table, mid: ID, p: Patch, d: int, after: Event)
    requires mid in st && ValidEvent(st[mid]) && st[mid].IsMaster() && Lasts(st[mid])
    requires d != 0 && p.start == Some(st[mid].start + d) && Readable(st[mid].allDay, p.start.value)
    requires Timeless(p.(start := None))
    requires after == Relabel(Shifted(st[mid], d), p) && AllLand(st, mid, after, d)
    ensures MoveOutcome(st, mid, after, d, UpdateAll(st, mid, p))
  {
    StartPatchTable(st, mid, p, d);
    SyncSwapped(st, mid, st[mid], after, d);
  }

  /** The series is replaced by `after` and every override moves along. */
  ghost predicate MoveOutcome(st: Table, mid: ID, after: Event, d: int, r: Result<Table, Error>)
    requires ValidRule(after.rule)
  {
    && (r.Ok? ==>
          && r.value.Keys == st.Keys && mid in st && r.value[mid] == after
          && forall k :: k in st && k != mid ==> r.value[k] == Moved(st, k, mid, d))
    && (r.Err? ==> exists k :: OverrideOf(st, k, mid) && R.TooFar(FromEvent(after), st[k].link.value.at + d))
  }

  lemma {:induction false} SyncSwapped(st: Table, mid: ID, before: Event, after: Event, d: int)
    requires mid in st && st[mid].link.None? && ValidRule(after.rule) && after.IsMaster()
    requires Moves(before, after) && d == after.start - before.start && AllLand(st, mid, after, d)
    ensures MoveOutcome(st, mid, after, d, Sync(st[mid := after], mid, before, after))
  {
    var st1 := st[mid := after];
    RowSwapLands(st, mid, after, d);
    SyncMovesAll(st1, mid, before, after, d);
    var r := Sync(st1, mid, before, after);
    if r.Err? {
      var k :| OverrideOf(st1, k, mid) && R.TooFar(FromEvent(after), st1[k].link.value.at + d);
      assert OverrideOf(st, k, mid);
    } else {
      forall k | k in st && k != mid ensures r.value[k] == Moved(st, k, mid, d) {
        assert r.value[k] == Moved(st1, k, mid, d);
      }
    }
  }

  /** A series whose rule moves freely, one without UNTIL among them, moves as a whole. */
  lemma {:induction false} FreeSeriesMoves(st: Table, mid: ID, p: Patch, d: int)
    requires Inv(st) && mid in st && st[mid].IsMaster() && Lasts(st[mid]) && MovesFreely(st[mid].start, st[mid].rule, d)
    requires d != 0 && p.start == Some(st[mid].start + d) && Readable(st[mid].allDay, p.start.value)
    requires Timeless(p.(start := None))
    ensures var r := UpdateAll(st, mid, p);
      r.Ok? ==>
        && r.value.Keys == st.Keys && SeriesMoved(st[mid], d, r.value[mid])
        && forall k :: k in st && k != mid ==> r.value[k] == Moved(st, k, mid, d)
  {
    FreelyIsWhole(st[mid], d);
    AllMoves(st, mid, p, d);
  }

  // ---------------------------------------------------------------- splitting twice at one instant

  lemma {:induction false} SyncSpares(st: Table, aid: ID, before: Event, after: Event, k: ID)
    requires ValidRule(after.rule) && k in st && st[k].link.None?
    ensures var r := Sync(st, aid, before, after); r.Ok? ==> k in r.value && r.value[k] == st[k]
  {
  }

  lemma {:induction false} PatchKeepsUid(before: Event, p: Patch)
    requires ApplyPatch(before, p).Ok?
    ensures var after := ShiftSeries(before, ApplyPatch(before, p).value, p);
      after.uid == before.uid && after.link == before.link && (ValidEvent(before) ==> ValidEvent(after))
  {
  }

  /** An edit of a whole series leaves the uids of events that are not overrides alone. */
  lemma {:induction false} AllKeepsUids(st: Table, mid: ID, p: Patch, k: ID)
    requires Inv(st) && mid in st && st[mid].link.None? && k in st && st[k].link.None?
    ensures var r := UpdateAll(st, mid, p);
      r.Ok? ==> k in r.value && r.value[k].link.None? && r.value[k].uid == st[k].uid
  {
    if ApplyPatch(st[mid], p).Ok? {
      PatchKeepsUid(st[mid], p);
      var after := ShiftSeries(st[mid], ApplyPatch(st[mid], p).value, p);
      SyncSpares(st[mid := after], mid, st[mid], after, k);
    }
  }

  lemma {:induction false} FollowingSetsUid(st: Table, mid: ID, at: int, p: Patch, nid: ID)
    requires Inv(st) && mid in st && st[mid].link.None? && at > st[mid].start
    ensures var r := UpdateFollowing(st, mid, at, p, nid);
      r.Ok? ==>
        && mid in r.value && r.value[mid].link.None? && r.value[mid].uid == st[mid].uid
        && nid in r.value && r.value[nid].link.None? && r.value[nid].uid == SplitUid(st[mid].uid, at, nid)
  {
    if UpdateFollowing(st, mid, at, p, nid).Ok? {
      var base := SplitOff(st[mid], at, Split(st[mid], at).value.1, nid);
      PatchKeepsUid(base, p);
      var next := ShiftSeries(base, ApplyPatch(base, p).value, p);
      var st2 := CutTable(st, mid, at, nid, next);
      SyncSpares(st2, nid, base, next, mid);
      SyncSpares(st2, nid, base, next, nid);
    }
  }

  /** Split a series, edit the old one as a whole, whatever the edit gives it back, and split it at the same
      instant again: the uid of the first tail is in the way, and the second split is refused. */
  lemma {:induction false} SecondSplitRefused(st: Table, mid: ID, at: int, p: Patch, nid: ID, q: Patch, p2: Patch,
                                              nid2: ID)
    requires Inv(st) && mid in st && st[mid].link.None? && at > st[mid].start
    requires Text.Bytes(st[mid].uid) + SUFFIX <= MAX_UID
    requires UpdateFollowing(st, mid, at, p, nid).Ok?
    ensures var st1 := UpdateFollowing(st, mid, at, p, nid).value;
      && Inv(st1) && mid in st1 && st1[mid].link.None?
      && (UpdateAll(st1, mid, q).Ok? ==>
            var st2 := UpdateAll(st1, mid, q).value;
            && Inv(st2) && mid in st2 && st2[mid].link.None?
            && UpdateFollowing(st2, mid, at, p2, nid2).Err?)
  {
    var st1 := UpdateFollowing(st, mid, at, p, nid).value;
    UpdateFollowingKeeps(st, mid, at, p, nid);
    FollowingSetsUid(st, mid, at, p, nid);
    if UpdateAll(st1, mid, q).Ok? {
      UpdateAllKeeps(st1, mid, q);
      AllKeepsUids(st1, mid, q, mid);
      AllKeepsUids(st1, mid, q, nid);
      var st2 := UpdateAll(st1, mid, q).value;
      assert UidTaken(st2, SplitUid(st2[mid].uid, at, nid2));
    }
  }

  // ---------------------------------------------------------------- what a delete takes away

  /** Deleting one instance takes away that occurrence and its override, and nothing else. */
  lemma {:induction false} ExcludeRemoves(st: Table, mid: ID, at: int)
    requires Inv(st) && mid in st && st[mid].IsMaster()
    ensures var out := ExcludeInstance(st, mid, at);
      && mid in out && (forall t :: OccursIn(out[mid], t) <==> OccursIn(st[mid], t) && t != at)
      && (forall k :: k != mid ==> (k in out <==> k in st && !(OverrideOf(st, k, mid) && st[k].link.value.at == at)))
      && (forall k :: k in out && k != mid ==> out[k] == st[k])
  {
    var m := Excluding(st[mid], at);
    var st' := st[mid := m];
    SortSorted(st[mid].exdate + [at]);
    var out := ExcludeInstance(st, mid, at);
    var ov := OverrideAt(st', mid, at);
    if ov.Some? {
      forall k ensures !OverrideOf(st', k, ov.value) {
        assert k in st && st[k].link.Some? ==> Attached(st, k);
      }
    }
    assert out[mid] == m;
  }

  /** Deleting an instance and all that follow takes away exactly the overrides from there on, and exactly
      the occurrences from there on if and only if the cut leaves a clean head. */
  lemma {:induction false} TruncateRemoves(st: Table, mid: ID, at: int)
    requires Inv(st) && mid in st && st[mid].IsMaster() && st[mid].rule.Every? && at > st[mid].start
    requires OccursIn(st[mid], at)
    ensures var r := TruncateSeries(st, mid, at);
      && r.Ok? && mid in r.value
      && ((forall t :: OccursIn(r.value[mid], t) <==> OccursIn(st[mid], t) && t < at) <==> CleanHead(st[mid], at))
      && (forall k :: k != mid ==>
            (k in r.value <==> k in st && !(OverrideOf(st, k, mid) && st[k].link.value.at >= at)))
      && (forall k :: k in r.value && k != mid ==> r.value[k] == st[k])
  {
    SplitConserves(st[mid], at);
  }
}

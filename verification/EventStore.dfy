/** The event table of one account and the edits that run on it, each as one transaction. */
module EventStore {
  import opened Common
  import opened Rules
  import opened EventEdits
  import Spec = EventEdits
  import R = Recurrence

  predicate AtBefore(st: Table, i: ID, j: ID) {
    i in st && j in st && st[i].link.Some? && st[j].link.Some? && st[i].link.value.at < st[j].link.value.at
  }

  predicate Ascending(st: Table, ids: seq<ID>) {
    forall i, j :: 0 <= i < j < |ids| ==> AtBefore(st, ids[i], ids[j])
  }

  predicate AllOverridesOf(st: Table, ids: seq<ID>, series: ID) {
    forall i :: 0 <= i < |ids| ==> OverrideOf(st, ids[i], series)
  }

  function Place(st: Table, ids: seq<ID>, k: ID, series: ID): (r: seq<ID>)
    requires AllOverridesOf(st, ids, series) && OverrideOf(st, k, series)
    ensures forall x :: x in r <==> x in ids || x == k
  {
    if ids == [] then [k]
    else if st[ids[0]].link.value.at < st[k].link.value.at then [ids[0]] + Place(st, ids[1..], k, series)
    else [k] + ids
  }

  lemma {:induction false} PlaceAscends(st: Table, ids: seq<ID>, k: ID, series: ID)
    requires DistinctLinks(st) && Ascending(st, ids) && AllOverridesOf(st, ids, series) && OverrideOf(st, k, series)
    requires k !in ids
    ensures Ascending(st, Place(st, ids, k, series)) && AllOverridesOf(st, Place(st, ids, k, series), series)
  {
    if ids != [] {
      if st[ids[0]].link.value.at < st[k].link.value.at {
        PlaceAscends(st, ids[1..], k, series);
        var r := Place(st, ids[1..], k, series);
        forall i | 0 <= i < |r| ensures AtBefore(st, ids[0], r[i]) {
          if r[i] != k {
            assert r[i] in r && r[i] in ids[1..];
            var j :| 1 <= j < |ids| && ids[j] == r[i];
            assert AtBefore(st, ids[0], ids[j]);
          }
        }
      } else {
        assert st[ids[0]].link != st[k].link;
        forall i | 0 <= i < |ids| ensures AtBefore(st, k, ids[i]) {
          assert i > 0 ==> AtBefore(st, ids[0], ids[i]);
        }
      }
    }
  }

  function Reverse(ids: seq<ID>): (r: seq<ID>)
    ensures |r| == |ids| && forall i :: 0 <= i < |r| ==> r[i] == ids[|ids| - 1 - i]
  {
    seq(|ids|, i requires 0 <= i < |ids| => ids[|ids| - 1 - i])
  }

  /** Sync after it has dealt with the overrides in `done`. */
  ghost function PartialSync(st: Table, aid: ID, before: Event, after: Event, done: set<ID>): Table
    requires ValidRule(after.rule)
  {
    map k | k in st &&
            (k in done && OverrideOf(st, k, aid) ==> OccursIn(after, NewAt(before, after, st[k].link.value.at))) ::
      if k in done && OverrideOf(st, k, aid) && Moves(before, after)
      then st[k].(link := Some(Link(aid, NewAt(before, after, st[k].link.value.at))))
      else st[k]
  }

  /** Moving `i` by `d` does not put it on `j`. */
  predicate Clear(st: Table, i: ID, j: ID, d: int) {
    && i in st && j in st && st[i].link.Some? && st[j].link.Some?
    && i != j && st[j].link.value.at != st[i].link.value.at + d
  }

  /** Worked through in this order, no override is moved onto one still waiting. */
  predicate SafeOrder(st: Table, ids: seq<ID>, d: int) {
    forall i, j :: 0 <= i < j < |ids| ==> Clear(st, ids[i], ids[j], d)
  }

  lemma {:induction false} OrderIsSafe(st: Table, ids: seq<ID>, d: int)
    requires Ascending(st, ids)
    ensures d <= 0 ==> SafeOrder(st, ids, d)
    ensures d >= 0 ==> SafeOrder(st, Reverse(ids), d)
  {
    var n := |ids|;
    forall i, j | 0 <= i < j < n && d <= 0 ensures Clear(st, ids[i], ids[j], d) {
      assert AtBefore(st, ids[i], ids[j]);
    }
    forall i, j | 0 <= i < j < n && d >= 0 ensures Clear(st, Reverse(ids)[i], Reverse(ids)[j], d) {
      assert AtBefore(st, ids[n - 1 - j], ids[n - 1 - i]);
    }
  }

  lemma {:induction false} ReverseMembers(ids: seq<ID>)
    ensures forall k :: k in Reverse(ids) <==> k in ids
  {
    forall k | k in ids ensures k in Reverse(ids) {
      var i :| 0 <= i < |ids| && ids[i] == k;
      assert Reverse(ids)[|ids| - 1 - i] == k;
    }
  }

  /** Nothing hangs on an override, so deleting one deletes just its row. */
  lemma {:induction false} NothingHangs(st: Table, aid: ID, id: ID)
    requires Settled(st, aid) && aid in st && st[aid].link.None? && id in st && st[id].link.Some?
    ensures forall k :: !OverrideOf(st, k, id)
  {
    assert forall k :: OverrideOf(st, k, id) ==> !OverrideOf(st, k, aid);
  }

  lemma {:induction false} DropStep(st: Table, aid: ID, before: Event, after: Event, done: set<ID>, id: ID)
    requires Settled(st, aid) && aid in st && st[aid].link.None? && ValidRule(after.rule)
    requires (forall k :: k in done ==> OverrideOf(st, k, aid)) && OverrideOf(st, id, aid) && id !in done
    requires !OccursIn(after, NewAt(before, after, st[id].link.value.at))
    ensures Removed(PartialSync(st, aid, before, after, done), id) == PartialSync(st, aid, before, after, done + {id})
  {
    NothingHangs(st, aid, id);
    var ps := PartialSync(st, aid, before, after, done);
    forall k ensures !OverrideOf(ps, k, id) {
      assert OverrideOf(ps, k, id) ==> OverrideOf(st, k, id);
    }
  }

  lemma {:induction false} KeepStep(st: Table, aid: ID, before: Event, after: Event, done: set<ID>, id: ID)
    requires ValidRule(after.rule) && (forall k :: k in done ==> OverrideOf(st, k, aid)) && OverrideOf(st, id, aid)
    requires id !in done
    requires OccursIn(after, NewAt(before, after, st[id].link.value.at))
    ensures id in PartialSync(st, aid, before, after, done) && PartialSync(st, aid, before, after, done)[id] == st[id]
    ensures PartialSync(st, aid, before, after, done + {id}) ==
            if Moves(before, after)
            then PartialSync(st, aid, before, after, done)
                  [id := st[id].(link := Some(Link(aid, NewAt(before, after, st[id].link.value.at))))]
            else PartialSync(st, aid, before, after, done)
  {
  }

  /** The moved override meets no other: those dealt with moved by the same amount, and those
      waiting are on the far side. */
  lemma {:induction false} NoClash(st: Table, aid: ID, before: Event, after: Event, done: set<ID>, ids: seq<ID>, i: nat)
    requires DistinctLinks(st) && ValidRule(after.rule) && i < |ids| && SafeOrder(st, ids, after.start - before.start)
    requires Moves(before, after) && forall k :: k in ids <==> OverrideOf(st, k, aid)
    requires (forall k :: k in done <==> k in ids[..i]) && (forall k :: k in done ==> OverrideOf(st, k, aid))
    requires ids[i] in ids && OverrideOf(st, ids[i], aid)
    ensures var at := NewAt(before, after, st[ids[i]].link.value.at);
      forall k :: k in PartialSync(st, aid, before, after, done) && k != ids[i] ==>
        PartialSync(st, aid, before, after, done)[k].link != Some(Link(aid, at))
  {
    var id, d := ids[i], after.start - before.start;
    var at := st[id].link.value.at + d;
    var ps := PartialSync(st, aid, before, after, done);
    forall k | k in ps && k != id ensures ps[k].link != Some(Link(aid, at)) {
      if k in done {
        assert st[k].link != st[id].link;
      } else if OverrideOf(st, k, aid) {
        assert k in ids;
        var j :| 0 <= j < |ids| && ids[j] == k;
        assert i <= j;
        assert Clear(st, ids[i], ids[j], d);
      }
    }
  }

  /** Move excluded and extra dates along with the start unless the patch sets them. */
  method MoveDates(before: Event, after: Event, p: Patch) returns (r: Event)
    ensures r == ShiftSeries(before, after, p)
  {
    r := after;
    if !before.IsMaster() || !Moves(before, after) {
      return;
    }
    var d := after.start - before.start;
    if p.exdate.None? {
      var moved := ShiftAll(r.exdate, d);
      r := r.(exdate := moved);
    }
    if p.rdate.None? {
      var moved := ShiftAll(r.rdate, d);
      r := r.(rdate := moved);
    }
  }

  /** The head of a cut series, its tail, and the tail with the patch on it. */
  method CutSeries(m: Event, at: int, p: Patch, nid: ID) returns (r: Result<(Event, Event, Event), Error>)
    requires ValidRule(m.rule)
    ensures r == if Split(m, at).Err? then Err(Split(m, at).error)
                 else
                   var (head, tail) := Split(m, at).value;
                   var base := SplitOff(m, at, tail, nid);
                   var patched := ApplyPatch(base, p);
                   if patched.Err? then Err(patched.error)
                   else Ok((HeadPart(m, at, head), base, ShiftSeries(base, patched.value, p)))
  {
    var split := SplitRule(m, at);
    if split.Err? {
      return Err(split.error);
    }
    var headR, tailR := SplitTimes(m.rdate, at);
    var headX, tailX := SplitTimes(m.exdate, at);
    var base := m.(uid := SplitUid(m.uid, at, nid), start := at, end := at + m.Duration(),
                   rule := split.value.1, rdate := tailR, exdate := tailX);
    var patched := ApplyPatch(base, p);
    if patched.Err? {
      return Err(patched.error);
    }
    var next := MoveDates(base, patched.value, p);
    return Ok((m.(rule := split.value.0, rdate := headR, exdate := headX), base, next));
  }

  lemma {:induction false} SameUids(st: Table, id: ID, e: Event, uid: string)
    requires id in st && e.link == st[id].link && e.uid == st[id].uid
    ensures UidTaken(st[id := e], uid) <==> UidTaken(st, uid)
  {
    if UidTaken(st, uid) {
      var k :| k in st && st[k].link.None? && st[k].uid == uid;
      assert st[id := e][k].uid == uid;
    }
  }

  class Store {
    var events: Table

    constructor ()
      ensures events == map[] && Inv(events)
    {
      events := map[];
    }

    // -------------------------------------------------------------- statements on the table

    /** The overrides of a series in the order of the instants they replace. */
    method Overrides(series: ID) returns (ids: seq<ID>)
      requires DistinctLinks(events)
      ensures Ascending(events, ids)
      ensures forall k :: k in ids <==> OverrideOf(events, k, series)
    {
      ids := [];
      var left := set k | k in events && OverrideOf(events, k, series);
      while left != {}
        invariant forall k :: k in left ==> OverrideOf(events, k, series)
        invariant Ascending(events, ids) && AllOverridesOf(events, ids, series)
        invariant forall k :: OverrideOf(events, k, series) <==> k in ids || k in left
        invariant forall k :: k in left ==> k !in ids
      {
        var k :| k in left;
        PlaceAscends(events, ids, k, series);
        left, ids := left - {k}, Place(events, ids, k, series);
      }
    }

    method Override(series: ID, at: int) returns (r: Option<ID>)
      requires DistinctLinks(events)
      ensures r == OverrideAt(events, series, at)
    {
      var found := set k | k in events && events[k].link == Some(Link(series, at));
      if k :| k in found {
        return Some(k);
      }
      assert forall k :: k in events && events[k].link == Some(Link(series, at)) ==> k in found;
      return None;
    }

    /** The unique index on series and replaced instant must not reject the row. */
    method UpdateRow(id: ID, e: Event)
      requires id in events
      requires e.link.Some? ==> forall k :: k in events && k != id ==> events[k].link != e.link
      modifies this
      ensures events == old(events)[id := e]
    {
      events := events[id := e];
    }

    method InsertRow(id: ID, e: Event) returns (ok: bool)
      requires e.link.Some? ==> forall k :: k in events ==> events[k].link != e.link
      modifies this
      ensures ok == (id !in old(events) && !(e.link.None? && UidTaken(old(events), e.uid)))
      ensures events == if ok then old(events)[id := e] else old(events)
    {
      ok := id !in events && !(e.link.None? && UidTaken(events, e.uid));
      if ok {
        events := events[id := e];
      }
    }

    method DeleteRow(id: ID)
      modifies this
      ensures events == Removed(old(events), id)
    {
      events := Removed(events, id);
    }

    // -------------------------------------------------------------- overrides follow their series

    method SyncOverrides(aid: ID, before: Event, after: Event) returns (err: Option<Error>)
      requires Settled(events, aid) && aid in events && events[aid] == after && after.link.None?
      modifies this
      ensures err.None? ==> Sync(old(events), aid, before, after) == Ok(events)
      ensures err.Some? ==> Sync(old(events), aid, before, after) == Err(err.value)
    {
      ghost var st := events;
      var ovs := Overrides(aid);
      if !after.IsMaster() {
        DropAll(aid, ovs);
        return None;
      }
      if Moves(before, after) && after.start - before.start > 0 {
        ReverseMembers(ovs);
        OrderIsSafe(st, ovs, after.start - before.start);
        ovs := Reverse(ovs);
      } else if Moves(before, after) {
        OrderIsSafe(st, ovs, after.start - before.start);
      } else {
        OrderIsSafe(st, ovs, 0);
      }
      err := FollowAll(aid, before, after, ovs);
    }

    method DropAll(aid: ID, ovs: seq<ID>)
      requires Settled(events, aid) && aid in events && events[aid].link.None? && Ascending(events, ovs)
      requires forall k :: k in ovs <==> OverrideOf(events, k, aid)
      modifies this
      ensures events == map k | k in old(events) && !OverrideOf(old(events), k, aid) :: old(events)[k]
    {
      ghost var st := events;
      for i := 0 to |ovs|
        invariant events == map k | k in st && k !in ovs[..i] :: st[k]
      {
        assert ovs[i] in ovs;
        NothingHangs(st, aid, ovs[i]);
        assert forall k :: OverrideOf(events, k, ovs[i]) ==> OverrideOf(st, k, ovs[i]);
        assert ovs[..i + 1] == ovs[..i] + [ovs[i]];
        DeleteRow(ovs[i]);
      }
      assert ovs[..|ovs|] == ovs;
    }

    method FollowAll(aid: ID, before: Event, after: Event, ovs: seq<ID>) returns (err: Option<Error>)
      requires Settled(events, aid) && aid in events && events[aid] == after && after.link.None? && after.IsMaster()
      requires forall k :: k in ovs <==> OverrideOf(events, k, aid)
      requires SafeOrder(events, ovs, if Moves(before, after) then after.start - before.start else 0)
      modifies this
      ensures err.None? ==> Sync(old(events), aid, before, after) == Ok(events)
      ensures err.Some? ==> Sync(old(events), aid, before, after) == Err(err.value)
    {
      ghost var st := events;
      ghost var done: set<ID> := {};
      for i := 0 to |ovs|
        invariant forall k :: k in done <==> k in ovs[..i]
        invariant forall k :: k in done ==>
          OverrideOf(st, k, aid) && !R.TooFar(FromEvent(after), NewAt(before, after, st[k].link.value.at))
        invariant events == PartialSync(st, aid, before, after, done)
      {
        assert ovs[i] in ovs && ovs[..i + 1] == ovs[..i] + [ovs[i]];
        var tooFar := FollowOne(aid, before, after, ovs, i, st, done);
        assert OverrideOf(st, ovs[i], aid);
        if tooFar {
          return Some(TooMany);
        }
        done := done + {ovs[i]};
      }
      assert ovs[..|ovs|] == ovs;
      assert PartialSync(st, aid, before, after, done) == Sync(st, aid, before, after).value;
      return None;
    }

    /** One turn of the loop over the overrides. */
    method FollowOne(aid: ID, before: Event, after: Event, ovs: seq<ID>, i: nat, ghost st: Table, ghost done: set<ID>)
        returns (tooFar: bool)
      requires Settled(st, aid) && aid in st && st[aid] == after && after.link.None? && after.IsMaster()
      requires forall k :: k in ovs <==> OverrideOf(st, k, aid)
      requires SafeOrder(st, ovs, if Moves(before, after) then after.start - before.start else 0)
      requires i < |ovs| && forall k :: k in done <==> k in ovs[..i]
      requires events == PartialSync(st, aid, before, after, done)
      modifies this
      ensures ovs[i] in st && st[ovs[i]].link.Some?
      ensures tooFar == R.TooFar(FromEvent(after), NewAt(before, after, st[ovs[i]].link.value.at))
      ensures !tooFar ==> events == PartialSync(st, aid, before, after, done + {ovs[i]})
    {
      var id := ovs[i];
      assert id in ovs;
      assert id !in ovs[..i];
      assert id in events && events[id] == st[id];
      var shift := Moves(before, after);
      var rid := events[id].link.value.at;
      if shift {
        rid := rid + (after.start - before.start);
      }
      FromEventOccurs(after);
      var ok;
      ok, tooFar := R.Contains(FromEvent(after), rid);
      if tooFar {
        return;
      }
      if !ok {
        DropStep(st, aid, before, after, done, id);
        DeleteRow(id);
      } else {
        KeepStep(st, aid, before, after, done, id);
        if shift {
          NoClash(st, aid, before, after, done, ovs, i);
          UpdateRow(id, events[id].(link := Some(Link(aid, rid))));
        }
      }
    }

    // -------------------------------------------------------------- the edits

    method Resolve(id: ID, scope: Scope, instance: Option<int>) returns (r: Result<Target, Error>)
      requires Inv(events)
      ensures r == Spec.Resolve(events, id, scope, instance)
    {
      if id !in events {
        return Err(NotFound);
      }
      var e := events[id];
      if e.IsOverride() {
        return Ok(Target(e.link.value.series, Some(id), Some(e.link.value.at), Or(scope, This)));
      } else if e.IsMaster() && instance.Some? {
        FromEventOccurs(e);
        var found, tooFar := R.Contains(FromEvent(e), instance.value);
        if tooFar {
          return Err(TooMany);
        } else if !found {
          return Err(NotFound);
        }
        return Ok(Target(id, None, instance, Or(scope, This)));
      } else if e.IsMaster() && (scope.This? || scope.Following?) {
        return Err(Invalid);
      }
      return Ok(Target(id, None, None, All));
    }

    method UpdateThis(t: Target, p: Patch, nid: ID) returns (err: Option<Error>)
      requires Inv(events) && ValidTarget(events, t) && t.inst.Some?
      modifies this
      ensures Spec.UpdateThis(old(events), t, p, nid) == if err.None? then Ok(events) else Err(err.value)
    {
      var found := t.override;
      if found.None? {
        found := Override(t.master, t.inst.value);
      }
      var r := ApplyPatch(if found.Some? then events[found.value]
                         else NewOverride(events[t.master], t.master, t.inst.value), p);
      if r.Err? {
        return Some(r.error);
      }
      if found.Some? {
        UpdateRow(found.value, r.value);
        return None;
      }
      var ok := InsertRow(nid, r.value);
      return if ok then None else Some(Conflict);
    }

    method UpdateAll(mid: ID, p: Patch) returns (err: Option<Error>)
      requires Inv(events) && mid in events && events[mid].link.None?
      modifies this
      ensures Spec.UpdateAll(old(events), mid, p) == if err.None? then Ok(events) else Err(err.value)
    {
      var before := events[mid];
      var r := ApplyPatch(before, p);
      if r.Err? {
        return Some(r.error);
      }
      var after := MoveDates(before, r.value, p);
      RowChanged(events, mid, after);
      UpdateRow(mid, after);
      if before.IsMaster() {
        err := SyncOverrides(mid, before, after);
      } else {
        err := None;
      }
    }

    method UpdateFollowing(mid: ID, at: int, p: Patch, nid: ID) returns (err: Option<Error>)
      requires Inv(events) && mid in events && events[mid].link.None? && at > events[mid].start
      modifies this
      ensures Spec.UpdateFollowing(old(events), mid, at, p, nid) == if err.None? then Ok(events) else Err(err.value)
    {
      var cut := CutSeries(events[mid], at, p, nid);
      if cut.Err? {
        return Some(cut.error);
      }
      var (head, base, next) := cut.value;
      ghost var st := events;
      UpdateRow(mid, head);
      SameUids(st, mid, head, next.uid);
      var ok := InsertRow(nid, next);
      if !ok {
        return Some(Conflict);
      }
      MoveRows(mid, nid, at);
      FollowingSettles(st, mid, at, nid, next);
      err := SyncOverrides(nid, base, next);
    }

    method MoveRows(from: ID, to: ID, since: int)
      requires to in events
      modifies this
      ensures events == MoveOverrides(old(events), from, to, since)
    {
      events := MoveOverrides(events, from, to, since);
    }

    method ExcludeInstance(mid: ID, at: int)
      requires Inv(events) && mid in events && events[mid].IsMaster()
      modifies this
      ensures events == Spec.ExcludeInstance(old(events), mid, at)
    {
      RowChanged(events, mid, Excluding(events[mid], at));
      UpdateRow(mid, Excluding(events[mid], at));
      var ov := Override(mid, at);
      if ov.Some? {
        DeleteRow(ov.value);
      }
    }

    method TruncateSeries(mid: ID, at: int) returns (err: Option<Error>)
      requires Inv(events) && mid in events && events[mid].link.None?
      modifies this
      ensures Spec.TruncateSeries(old(events), mid, at) == if err.None? then Ok(events) else Err(err.value)
    {
      var m := events[mid];
      var split := SplitRule(m, at);
      if split.Err? {
        return Some(split.error);
      }
      var headR, _ := SplitTimes(m.rdate, at);
      var headX, _ := SplitTimes(m.exdate, at);
      var head := m.(rule := split.value.0, rdate := headR, exdate := headX);
      RowChanged(events, mid, head);
      UpdateRow(mid, head);
      DropFrom(mid, at);
      return None;
    }

    /** Delete the overrides of a series from an instant on. */
    method DropFrom(mid: ID, at: int)
      requires Settled(events, mid) && mid in events && events[mid].link.None?
      modifies this
      ensures events ==
        map k | k in old(events) && !(OverrideOf(old(events), k, mid) && old(events)[k].link.value.at >= at)
          :: old(events)[k]
    {
      ghost var st := events;
      var ovs := Overrides(mid);
      for i := 0 to |ovs|
        invariant events ==
          map k | k in st && !(k in ovs[..i] && OverrideOf(st, k, mid) && st[k].link.value.at >= at) :: st[k]
      {
        var id := ovs[i];
        assert id in ovs && ovs[..i + 1] == ovs[..i] + [id];
        NothingHangs(st, mid, id);
        assert forall k :: OverrideOf(events, k, id) ==> OverrideOf(st, k, id);
        assert id !in ovs[..i] by { assert forall j :: 0 <= j < i ==> AtBefore(st, ovs[j], ovs[i]); }
        if events[id].link.value.at >= at {
          DeleteRow(id);
        }
      }
      assert ovs[..|ovs|] == ovs;
    }

    /** Run one command; a failure rolls the table back. */
    method Execute(c: Command) returns (err: Option<Error>)
      requires Inv(events)
      modifies this
      ensures Inv(events) && events == After(old(events), c)
      ensures Exec(old(events), c) == if err.None? then Ok(events) else Err(err.value)
    {
      var saved := events;
      CommandKeeps(events, c);
      match c {
        case Create(id, e) =>
          if e.IsOverride() || !ValidEvent(e) {
            err := Some(Invalid);
          } else {
            var ok := InsertRow(id, e);
            err := if ok then None else Some(Conflict);
          }
        case Update(id, scope, instance, p, nid) =>
          var t := Resolve(id, scope, instance);
          if t.Err? {
            err := Some(t.error);
          } else {
            err := RunUpdate(t.value, p, nid);
          }
        case Delete(id, scope, instance) =>
          var t := Resolve(id, scope, instance);
          if t.Err? {
            err := Some(t.error);
          } else {
            err := RunDelete(t.value);
          }
      }
      if err.Some? {
        events := saved;
      }
    }

    method RunUpdate(t: Target, p: Patch, nid: ID) returns (err: Option<Error>)
      requires Inv(events) && ValidTarget(events, t)
      modifies this
      ensures ExecUpdate(old(events), t, p, nid) == if err.None? then Ok(events) else Err(err.value)
    {
      var m := events[t.master];
      if t.scope.This? && m.IsMaster() {
        err := UpdateThis(t, p, nid);
      } else if t.scope.Following? && m.IsMaster() && t.inst.value > m.start {
        err := UpdateFollowing(t.master, t.inst.value, p, nid);
      } else {
        err := UpdateAll(t.master, p);
      }
    }

    method RunDelete(t: Target) returns (err: Option<Error>)
      requires Inv(events) && ValidTarget(events, t)
      modifies this
      ensures ExecDelete(old(events), t) == if err.None? then Ok(events) else Err(err.value)
    {
      var m := events[t.master];
      err := None;
      if !m.IsMaster() || t.scope.All? || (t.scope.Following? && t.inst.value <= m.start) {
        DeleteRow(t.master);
      } else if t.scope.Following? {
        err := TruncateSeries(t.master, t.inst.value);
      } else {
        ExcludeInstance(t.master, t.inst.value);
      }
    }
  }
}

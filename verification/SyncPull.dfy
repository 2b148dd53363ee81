/** Pulling a calendar from Google: what one remote event, one batch and one full snapshot do to the
    local events, the mapping of local to remote ids and the outbox of edits still to be pushed.
    Writes made here carry the origin google and put nothing into the outbox. */
module SyncPull {
  import opened Common
  import Text

  const MAX_EXCLUDED := 5000
  const MAX_UID := 1000

  type LID = nat

  /** What the two sides exchange: text and times as one value, and the excluded starts. */
  datatype Body = Body(text: string, excluded: set<int>)

  /** A uid taken from the remote event, or made from the local id. */
  datatype UID = Given(uid: string) | Own(id: LID)

  datatype Link = Link(series: LID, at: int)

  datatype Local = Local(uid: UID, link: Option<Link>, body: Body, readOnly: bool)

  /** A remote event.  `parent` names the series of an instance and is empty otherwise; an event
      without a readable start has no body.  An etag of zero stands for none. */
  datatype Item = Item(id: string, uid: string, parent: string, cancelled: bool, original: Option<int>,
                       body: Option<Body>, editable: bool, etag: nat, updated: int)

  datatype Mapping = Mapping(remote: string, etag: nat)

  datatype Op = Upsert | Delete

  datatype Binding = Binding(pushes: bool, readOnly: bool)

  datatype State = State(local: map<LID, Local>, times: map<LID, int>, mapping: map<LID, Mapping>,
                         outbox: map<LID, Op>, next: LID)

  // ---------------------------------------------------------------- the tables

  ghost function ByRemote(s: State, remote: string): (r: Option<LID>)
    ensures r.Some? ==> r.value in s.mapping && s.mapping[r.value].remote == remote
    ensures r.None? ==> forall l :: l in s.mapping ==> s.mapping[l].remote != remote
  {
    if exists l :: l in s.mapping && s.mapping[l].remote == remote
    then var l :| l in s.mapping && s.mapping[l].remote == remote; Some(l)
    else None
  }

  ghost function EventByUID(s: State, uid: string): (r: Option<LID>)
    ensures r.Some? ==> r.value in s.local && s.local[r.value].link.None? && s.local[r.value].uid == Given(uid)
    ensures r.None? ==> forall l :: l in s.local && s.local[l].link.None? ==> s.local[l].uid != Given(uid)
  {
    if exists l :: l in s.local && s.local[l].link.None? && s.local[l].uid == Given(uid)
    then var l :| l in s.local && s.local[l].link.None? && s.local[l].uid == Given(uid); Some(l)
    else None
  }

  ghost function OverrideAt(s: State, series: LID, at: int): (r: Option<LID>)
    ensures r.Some? ==> r.value in s.local && s.local[r.value].link == Some(Link(series, at))
    ensures r.None? ==> forall l :: l in s.local ==> s.local[l].link != Some(Link(series, at))
  {
    if exists l :: l in s.local && s.local[l].link == Some(Link(series, at))
    then var l :| l in s.local && s.local[l].link == Some(Link(series, at)); Some(l)
    else None
  }

  /** Insert or replace by local id. */
  function PutMapping(s: State, l: LID, m: Mapping): State {
    s.(mapping := s.mapping[l := m])
  }

  /** Other local events mapped to the remote one let go of it. */
  function Release(s: State, l: LID, remote: string): State {
    s.(mapping := map k | k in s.mapping && (k == l || s.mapping[k].remote != remote) :: s.mapping[k])
  }

  /** What the store does.  A pull never has anything to release, so its steps are stated with PutMapping. */
  function SaveMapping(s: State, l: LID, m: Mapping): State {
    PutMapping(Release(s, l, m.remote), l, m)
  }

  ghost predicate NoRival(s: State, l: LID, remote: string) {
    forall k :: k in s.mapping && k != l ==> s.mapping[k].remote != remote
  }

  ghost predicate Unmapped(s: State, remote: string) {
    forall k :: k in s.mapping ==> s.mapping[k].remote != remote
  }

  lemma {:induction false} NothingReleased(s: State, l: LID, m: Mapping)
    requires NoRival(s, l, m.remote)
    ensures SaveMapping(s, l, m) == PutMapping(s, l, m)
  {
    assert Release(s, l, m.remote).mapping == s.mapping;
  }

  function DeleteMapping(s: State, l: LID): State {
    s.(mapping := s.mapping - {l})
  }

  predicate StartsWith(s: string, prefix: string) {
    prefix <= s
  }

  function DeletePrefix(s: State, prefix: string): State {
    s.(mapping := map k | k in s.mapping && !StartsWith(s.mapping[k].remote, prefix) :: s.mapping[k])
  }

  function DropOutbox(s: State, l: LID): State {
    s.(outbox := s.outbox - {l})
  }

  function PutLocal(s: State, l: LID, e: Local, now: int): State {
    s.(local := s.local[l := e], times := s.times[l := now])
  }

  /** A deleted series takes its overrides along. */
  function DeleteLocal(s: State, l: LID): State {
    s.(local := map k | k in s.local && k != l &&
                   !(s.local[k].link.Some? && s.local[k].link.value.series == l) :: s.local[k])
  }

  // ---------------------------------------------------------------- one remote event

  /** The local event with the content of the remote one; an instance has no excluded starts. */
  function Convert(b: Binding, re: Item, base: Local): Option<Local> {
    if re.body.None? then None
    else Some(base.(body := if re.parent == "" then re.body.value else Body(re.body.value.text, {}),
                    readOnly := !re.editable || b.readOnly))
  }

  /** The uid without white space around it; one that is too long counts as none. */
  function CleanUID(uid: string): string {
    var u := Text.Trim(uid);
    if Text.Bytes(u) > MAX_UID then "" else u
  }

  function RemoveLocal(s: State, l: LID): State {
    DeleteMapping(DropOutbox(if l in s.local then DeleteLocal(s, l) else s, l), l)
  }

  /** A conflict exists only while an edit waits to be pushed; then the strictly later side wins, and
      a lost edit leaves the outbox. */
  function LocalWins(s: State, b: Binding, l: LID, localAt: int, remoteAt: int): (bool, State) {
    if !b.pushes || l !in s.outbox then (false, s)
    else if localAt > remoteAt then (true, s)
    else (false, DropOutbox(s, l))
  }

  function TimeOf(s: State, l: LID): int {
    if l in s.times then s.times[l] else 0
  }

  /** Bring a mapped local event up to date. */
  function Refresh(s: State, b: Binding, l: LID, etag: nat, re: Item, now: int): State
    requires l in s.local
  {
    if etag != 0 && etag == re.etag then s
    else
      var (wins, s1) := LocalWins(s, b, l, TimeOf(s, l), re.updated);
      if wins then s1
      else
        var e := Convert(b, re, s1.local[l]);
        if e.None? then s1
        else PutMapping(PutLocal(s1, l, e.value, now), l, Mapping(re.id, re.etag))
  }

  /** The local event with this uid is linked again if nothing else is linked to it. */
  ghost function Adopts(s: State, b: Binding, uid: string, re: Item): Option<LID> {
    var cur := EventByUID(s, uid);
    if uid == "" || cur.None? || cur.value in s.mapping || re.body.None? then None else cur
  }

  ghost function Create(s: State, b: Binding, re: Item, now: int): State {
    var uid := CleanUID(re.uid);
    var cur := Adopts(s, b, uid, re);
    if cur.Some? then
      PutMapping(PutLocal(s, cur.value, Convert(b, re, s.local[cur.value]).value, now),
                 cur.value, Mapping(re.id, re.etag))
    else
      var l := s.next;
      var given := uid != "" && EventByUID(s, uid).None?;
      var e := Convert(b, re, Local(if given then Given(uid) else Own(l), None, Body("", {}), false));
      if e.None? then s
      else PutMapping(PutLocal(s.(next := l + 1), l, e.value, now), l, Mapping(re.id, re.etag))
  }

  ghost function Update(s: State, b: Binding, l: LID, etag: nat, re: Item, now: int, recreate: bool): State {
    if l in s.local then Refresh(s, b, l, etag, re, now)
    else if l in s.outbox && s.outbox[l].Delete? then s
    else if recreate then Create(DeleteMapping(s, l), b, re, now)
    else DeleteMapping(s, l)
  }

  function Exclude(s: State, l: LID, at: int, now: int): State
    requires l in s.local && l in s.mapping
  {
    var e := s.local[l];
    if at in e.body.excluded || |e.body.excluded| >= MAX_EXCLUDED then s
    else PutMapping(PutLocal(s, l, e.(body := e.body.(excluded := e.body.excluded + {at})), now), l, s.mapping[l])
  }

  ghost function ApplyInstance(s: State, b: Binding, re: Item, now: int): State {
    var mm := ByRemote(s, re.parent);
    if mm.None? || mm.value !in s.local || re.original.None? then s
    else
      var master, at := mm.value, re.original.value;
      var m := ByRemote(s, re.id);
      if re.cancelled then
        var s1 := if m.Some? then RemoveLocal(s, m.value) else s;
        if master in s1.local && master in s1.mapping then Exclude(s1, master, at, now) else s1
      else if m.Some? then Update(s, b, m.value, s.mapping[m.value].etag, re, now, false)
      else
        var ov := OverrideAt(s, master, at);
        if ov.Some? then Update(s, b, ov.value, 0, re, now, false)
        else
          var l := s.next;
          var e := Convert(b, re, Local(s.local[master].uid, Some(Link(master, at)), Body("", {}), false));
          if e.None? then s
          else
            var locked := e.value.readOnly || s.local[master].readOnly;
            PutMapping(PutLocal(s.(next := l + 1), l, e.value.(readOnly := locked), now),
                        l, Mapping(re.id, re.etag))
  }

  ghost function Apply(s: State, b: Binding, re: Item, now: int): State {
    if re.parent != "" then ApplyInstance(s, b, re, now)
    else
      var m := ByRemote(s, re.id);
      if re.cancelled then
        if m.None? then s else DeletePrefix(RemoveLocal(s, m.value), re.id + "_")
      else if m.None? then Create(s, b, re, now)
      else Update(s, b, m.value, s.mapping[m.value].etag, re, now, true)
  }

  // ---------------------------------------------------------------- what every step keeps

  /** The mapping is one to one. */
  ghost predicate OneToOne(s: State) {
    forall i, j :: i in s.mapping && j in s.mapping && i != j ==> s.mapping[i].remote != s.mapping[j].remote
  }

  /** The unique indexes of the event table: uids of events that are not overrides, and overrides by
      series and replaced start.  Local ids are handed out in order. */
  ghost predicate UniqueEvents(s: State) {
    && (forall i, j :: i in s.local && j in s.local && i != j && s.local[i].link.None? && s.local[j].link.None? ==>
          s.local[i].uid != s.local[j].uid)
    && (forall i, j :: i in s.local && j in s.local && i != j && s.local[i].link.Some? ==>
          s.local[i].link != s.local[j].link)
    && (forall i :: i in s.local ==> i < s.next && (s.local[i].uid.Own? ==> s.local[i].uid.id < s.next))
  }

  ghost predicate Inv(s: State) {
    OneToOne(s) && UniqueEvents(s)
  }

  lemma {:induction false} MappingKeeps(s: State, l: LID, m: Mapping)
    requires Inv(s) && NoRival(s, l, m.remote)
    ensures Inv(PutMapping(s, l, m))
  {
  }

  lemma {:induction false} PutKeeps(s: State, l: LID, e: Local, now: int)
    requires Inv(s) && l in s.local && e.uid == s.local[l].uid && e.link == s.local[l].link
    ensures Inv(PutLocal(s, l, e, now))
  {
  }

  lemma {:induction false} InsertKeeps(s: State, e: Local, now: int)
    requires Inv(s) && (e.uid.Own? ==> e.uid.id <= s.next)
    requires e.link.None? ==> forall k :: k in s.local && s.local[k].link.None? ==> s.local[k].uid != e.uid
    requires e.link.Some? ==> forall k :: k in s.local ==> s.local[k].link != e.link
    ensures Inv(PutLocal(s.(next := s.next + 1), s.next, e, now))
  {
  }

  lemma {:induction false} UnlinkKeeps(s: State, l: LID, prefix: string)
    requires Inv(s)
    ensures Inv(DeleteMapping(s, l)) && Inv(DeletePrefix(s, prefix))
  {
  }

  lemma {:induction false} DropKeeps(s: State, l: LID)
    requires Inv(s)
    ensures Inv(DropOutbox(s, l))
  {
  }

  lemma {:induction false} RemoveLocalKeeps(s: State, l: LID)
    requires Inv(s)
    ensures Inv(RemoveLocal(s, l))
  {
  }

  lemma {:induction false} RefreshKeeps(s: State, b: Binding, l: LID, etag: nat, re: Item, now: int)
    requires Inv(s) && l in s.local && NoRival(s, l, re.id)
    ensures Inv(Refresh(s, b, l, etag, re, now))
  {
    DropKeeps(s, l);
    var (wins, s1) := LocalWins(s, b, l, TimeOf(s, l), re.updated);
    var e := Convert(b, re, s1.local[l]);
    if e.Some? {
      PutKeeps(s1, l, e.value, now);
      MappingKeeps(PutLocal(s1, l, e.value, now), l, Mapping(re.id, re.etag));
    }
  }

  /** A new row for `re` with this uid. */
  function NewEvent(b: Binding, re: Item, uid: UID): Local
    requires re.body.Some?
  {
    Convert(b, re, Local(uid, None, Body("", {}), false)).value
  }

  lemma {:induction false} AdoptKeeps(s: State, b: Binding, re: Item, l: LID, now: int)
    requires Inv(s) && Unmapped(s, re.id) && l in s.local && re.body.Some?
    ensures Inv(PutMapping(PutLocal(s, l, Convert(b, re, s.local[l]).value, now), l, Mapping(re.id, re.etag)))
  {
    var e := Convert(b, re, s.local[l]).value;
    PutKeeps(s, l, e, now);
    MappingKeeps(PutLocal(s, l, e, now), l, Mapping(re.id, re.etag));
  }

  lemma {:induction false} NewEventKeeps(s: State, b: Binding, re: Item, uid: UID, now: int)
    requires Inv(s) && Unmapped(s, re.id) && re.body.Some? && (uid.Own? ==> uid.id == s.next)
    requires uid.Given? ==> EventByUID(s, uid.uid).None?
    ensures Inv(PutMapping(PutLocal(s.(next := s.next + 1), s.next, NewEvent(b, re, uid), now),
                           s.next, Mapping(re.id, re.etag)))
  {
    var e := NewEvent(b, re, uid);
    InsertKeeps(s, e, now);
    MappingKeeps(PutLocal(s.(next := s.next + 1), s.next, e, now), s.next, Mapping(re.id, re.etag));
  }

  lemma {:induction false} CreateKeeps(s: State, b: Binding, re: Item, now: int)
    requires Inv(s) && Unmapped(s, re.id)
    ensures Inv(Create(s, b, re, now))
  {
    var uid := CleanUID(re.uid);
    var cur := Adopts(s, b, uid, re);
    if cur.Some? {
      AdoptKeeps(s, b, re, cur.value, now);
    } else if re.body.Some? {
      NewEventKeeps(s, b, re, if uid != "" && EventByUID(s, uid).None? then Given(uid) else Own(s.next), now);
    }
  }

  lemma {:induction false} UpdateKeeps(s: State, b: Binding, l: LID, etag: nat, re: Item, now: int, recreate: bool)
    requires Inv(s) && NoRival(s, l, re.id)
    ensures Inv(Update(s, b, l, etag, re, now, recreate))
  {
    if l in s.local {
      RefreshKeeps(s, b, l, etag, re, now);
    } else {
      UnlinkKeeps(s, l, "");
      CreateKeeps(DeleteMapping(s, l), b, re, now);
    }
  }

  lemma {:induction false} InstanceKeeps(s: State, b: Binding, re: Item, now: int)
    requires Inv(s)
    ensures Inv(ApplyInstance(s, b, re, now))
  {
    var mm := ByRemote(s, re.parent);
    if mm.Some? && mm.value in s.local && re.original.Some? {
      var master, at := mm.value, re.original.value;
      var m := ByRemote(s, re.id);
      if re.cancelled {
        var s1 := if m.Some? then RemoveLocal(s, m.value) else s;
        if m.Some? { RemoveLocalKeeps(s, m.value); }
        if master in s1.local && master in s1.mapping { ExcludeKeeps(s1, master, at, now); }
      } else if m.Some? {
        UpdateKeeps(s, b, m.value, s.mapping[m.value].etag, re, now, false);
      } else if OverrideAt(s, master, at).Some? {
        UpdateKeeps(s, b, OverrideAt(s, master, at).value, 0, re, now, false);
      } else if re.body.Some? {
        NewInstanceKeeps(s, b, re, now, master, at);
      }
    }
  }

  lemma {:induction false} ExcludeKeeps(s: State, l: LID, at: int, now: int)
    requires Inv(s) && l in s.local && l in s.mapping
    ensures Inv(Exclude(s, l, at, now))
  {
    var e := s.local[l];
    var e' := e.(body := e.body.(excluded := e.body.excluded + {at}));
    PutKeeps(s, l, e', now);
    MappingKeeps(PutLocal(s, l, e', now), l, s.mapping[l]);
  }

  function NewInstance(s: State, b: Binding, re: Item, master: LID, at: int): Local
    requires master in s.local && re.body.Some?
  {
    var e := Convert(b, re, Local(s.local[master].uid, Some(Link(master, at)), Body("", {}), false)).value;
    e.(readOnly := e.readOnly || s.local[master].readOnly)
  }

  lemma {:induction false} NewInstanceKeeps(s: State, b: Binding, re: Item, now: int, master: LID, at: int)
    requires Inv(s) && master in s.local && re.body.Some? && OverrideAt(s, master, at).None? && Unmapped(s, re.id)
    ensures Inv(PutMapping(PutLocal(s.(next := s.next + 1), s.next, NewInstance(s, b, re, master, at), now),
                           s.next, Mapping(re.id, re.etag)))
  {
    var e := NewInstance(s, b, re, master, at);
    InsertKeeps(s, e, now);
    MappingKeeps(PutLocal(s.(next := s.next + 1), s.next, e, now), s.next, Mapping(re.id, re.etag));
  }

  /** No remote event, whatever it is, makes the mapping many to one or breaks a unique index, although
      each step only inserts or replaces the row of its own event. */
  lemma {:induction false} ApplyKeeps(s: State, b: Binding, re: Item, now: int)
    requires Inv(s)
    ensures Inv(Apply(s, b, re, now))
  {
    var m := ByRemote(s, re.id);
    if re.parent != "" {
      InstanceKeeps(s, b, re, now);
    } else if re.cancelled {
      if m.Some? {
        RemoveLocalKeeps(s, m.value);
        UnlinkKeeps(RemoveLocal(s, m.value), m.value, re.id + "_");
      }
    } else if m.None? {
      CreateKeeps(s, b, re, now);
    } else {
      UpdateKeeps(s, b, m.value, s.mapping[m.value].etag, re, now, true);
    }
  }

  // ---------------------------------------------------------------- batches

  function Masters(items: seq<Item>): seq<Item> {
    if items == [] then [] else (if items[0].parent == "" then [items[0]] else []) + Masters(items[1..])
  }

  function Instances(items: seq<Item>): seq<Item> {
    if items == [] then [] else (if items[0].parent != "" then [items[0]] else []) + Instances(items[1..])
  }

  /** Instances after everything else, otherwise in the order given. */
  function Ordered(items: seq<Item>): seq<Item> {
    Masters(items) + Instances(items)
  }

  ghost function ApplyAll(s: State, b: Binding, items: seq<Item>, now: int): State
    decreases |items|
  {
    if items == [] then s else ApplyAll(Apply(s, b, items[0], now), b, items[1..], now)
  }

  function Ids(items: seq<Item>): set<string> {
    set i | 0 <= i < |items| :: items[i].id
  }

  /** Go through the rows of the mapping table as it was read, and remove what the snapshot does not have. */
  function Reconcile(s: State, read: map<LID, Mapping>, seen: set<string>, rows: seq<LID>): State
    decreases |rows|
  {
    if rows == [] then s
    else
      var l := rows[0];
      Reconcile(if l in read && read[l].remote !in seen then RemoveLocal(s, l) else s, read, seen, rows[1..])
  }

  /** One pull.  `rows` lists the mapping table in the order it is read back for a full pull. */
  ghost function Pull(s: State, b: Binding, items: seq<Item>, full: bool, now: int, rows: seq<LID>): State {
    var s1 := ApplyAll(s, b, Ordered(items), now);
    if full then Reconcile(s1, s1.mapping, Ids(items), rows) else s1
  }

  lemma {:induction false} ApplyAllKeeps(s: State, b: Binding, items: seq<Item>, now: int)
    requires Inv(s)
    ensures Inv(ApplyAll(s, b, items, now))
    decreases |items|
  {
    if items != [] {
      ApplyKeeps(s, b, items[0], now);
      ApplyAllKeeps(Apply(s, b, items[0], now), b, items[1..], now);
    }
  }

  lemma {:induction false} ReconcileKeeps(s: State, read: map<LID, Mapping>, seen: set<string>, rows: seq<LID>)
    requires Inv(s)
    ensures var r := Reconcile(s, read, seen, rows);
      Inv(r) && (forall l :: l in r.mapping <==> l in s.mapping && !(l in rows && l in read && read[l].remote !in seen))
      && (forall l :: l in r.mapping ==> r.mapping[l] == s.mapping[l])
    decreases |rows|
  {
    if rows != [] {
      var l := rows[0];
      var s1 := if l in read && read[l].remote !in seen then RemoveLocal(s, l) else s;
      RemoveLocalKeeps(s, l);
      ReconcileKeeps(s1, read, seen, rows[1..]);
      assert forall k :: k in rows <==> k == l || k in rows[1..];
    }
  }

  /** Every pull keeps the mapping one to one, and after a full one it names only what the snapshot has. */
  lemma {:induction false} PullKeeps(s: State, b: Binding, items: seq<Item>, full: bool, now: int, rows: seq<LID>)
    requires Inv(s)
    requires Elements(rows) == ApplyAll(s, b, Ordered(items), now).mapping.Keys
    ensures Inv(Pull(s, b, items, full, now, rows))
    ensures full ==> forall l :: l in Pull(s, b, items, full, now, rows).mapping ==>
      Pull(s, b, items, full, now, rows).mapping[l].remote in Ids(items)
  {
    ApplyAllKeeps(s, b, Ordered(items), now);
    var s1 := ApplyAll(s, b, Ordered(items), now);
    ReconcileKeeps(s1, s1.mapping, Ids(items), rows);
    forall l | l in s1.mapping ensures l in rows { assert l in Elements(rows); }
  }

  /** A batch is applied whole, every instance after every event that is not one. */
  lemma {:induction false} OrderedIs(items: seq<Item>)
    ensures multiset(Masters(items)) + multiset(Instances(items)) == multiset(items)
    ensures forall x :: x in Masters(items) ==> x.parent == ""
    ensures forall x :: x in Instances(items) ==> x.parent != ""
  {
    if items != [] {
      var rest := items[1..];
      OrderedIs(rest);
      assert items == [items[0]] + rest;
      var m, n := if items[0].parent == "" then [items[0]] else [], if items[0].parent != "" then [items[0]] else [];
      assert multiset(m + Masters(rest)) == multiset(m) + multiset(Masters(rest));
      assert multiset(n + Instances(rest)) == multiset(n) + multiset(Instances(rest));
      assert multiset(m) + multiset(n) == multiset([items[0]]);
    }
  }
}

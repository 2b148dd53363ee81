/** What a pull and a push leave on the two sides, said of the rows themselves: what is gone, what is there with
    which content, and that nothing else changed. */
module SyncEffects {
  import opened Common
  import opened SyncPull
  import opened SyncPush

  // ---------------------------------------------------------------- what goes

  /** `k` is `l` or hangs on it. */
  predicate Hangs(s: State, k: LID, l: LID)
    requires k in s.local
  {
    k == l || (s.local[k].link.Some? && s.local[k].link.value.series == l)
  }

  /** The event `l`, its overrides and its waiting edit are gone; all other events and edits are as they were. */
  ghost predicate EventGone(s: State, r: State, l: LID) {
    && (forall k :: k in r.local <==> k in s.local && !(l in s.local && Hangs(s, k, l)))
    && (forall k :: k in r.local ==> r.local[k] == s.local[k])
    && (forall k :: k in r.outbox <==> k in s.outbox && k != l)
    && (forall k :: k in r.outbox ==> r.outbox[k] == s.outbox[k])
  }

  /** An event deleted remotely is deleted here, with its overrides, its waiting edit, its mapping and those of its
      instances; nothing else changes. */
  lemma {:induction false} CancelledGoes(s: State, b: Binding, re: Item, now: int, l: LID)
    requires OneToOne(s) && re.parent == "" && re.cancelled && l in s.mapping && s.mapping[l].remote == re.id
    ensures var r := Apply(s, b, re, now);
      && EventGone(s, r, l) && l !in r.local && l !in r.outbox
      && (forall k :: k in r.mapping <==> k in s.mapping && k != l && !(re.id + "_" <= s.mapping[k].remote))
      && (forall k :: k in r.mapping ==> r.mapping[k] == s.mapping[k])
  {
    assert ByRemote(s, re.id) == Some(l);
  }

  /** One that is not known here changes nothing. */
  lemma {:induction false} CancelledUnknown(s: State, b: Binding, re: Item, now: int)
    requires re.parent == "" && re.cancelled && Unmapped(s, re.id)
    ensures Apply(s, b, re, now) == s
  {
  }

  /** The series has the start `at` among its excluded ones, as long as there is room for it, and is otherwise as
      it was. */
  ghost predicate StartExcluded(was: Local, now: Local, at: int) {
    && now == was.(body := was.body.(excluded := now.body.excluded))
    && now.body.excluded == if |was.body.excluded| >= 5000 then was.body.excluded else was.body.excluded + {at}
  }

  /** An instance deleted remotely: its override is gone with its mapping and waiting edit, and its start is
      excluded from the series; nothing else changes. */
  lemma {:induction false} InstanceGoes(s: State, b: Binding, re: Item, now: int, q: LID, at: int)
    requires OneToOne(s) && re.parent != "" && re.cancelled && re.original == Some(at)
    requires q in s.mapping && s.mapping[q].remote == re.parent && q in s.local && s.local[q].link.None?
    requires re.id != re.parent
    ensures var r := Apply(s, b, re, now);
      && q in r.local && StartExcluded(s.local[q], r.local[q], at)
      && (forall k :: k in s.mapping && s.mapping[k].remote == re.id ==> k !in r.local && k !in r.outbox)
      && (forall k :: k in r.mapping <==> k in s.mapping && s.mapping[k].remote != re.id)
      && (forall k :: k in r.mapping ==> r.mapping[k] == s.mapping[k])
      && (forall k :: k in r.local && k != q ==> k in s.local && r.local[k] == s.local[k])
      && (forall k :: k in s.local && k !in r.local ==>
            exists l :: l in s.mapping && s.mapping[l].remote == re.id && Hangs(s, k, l))
      && (r.local[q] == s.local[q] ==> r.times == s.times)
  {
    assert ByRemote(s, re.parent) == Some(q);
    var m := ByRemote(s, re.id);
    if m.None? {
      assert s.local[q].body.excluded + {at} == s.local[q].body.excluded || at !in s.local[q].body.excluded;
      InstanceExcluded(s, s, q, at, now);
    } else {
      var s1 := RemoveLocal(s, m.value);
      assert q in s1.local && q in s1.mapping;
      InstanceExcluded(s, s1, q, at, now);
    }
  }

  lemma {:induction false} InstanceExcluded(s: State, s1: State, q: LID, at: int, now: int)
    requires q in s.local && q in s1.local && q in s1.mapping && s1.local[q] == s.local[q]
    ensures var r := Exclude(s1, q, at, now);
      && q in r.local && StartExcluded(s.local[q], r.local[q], at) && r.mapping == s1.mapping && r.outbox == s1.outbox
      && r.local.Keys == s1.local.Keys && forall k :: k in s1.local && k != q ==> r.local[k] == s1.local[k]
    ensures Exclude(s1, q, at, now).local[q] == s1.local[q] ==> Exclude(s1, q, at, now).times == s1.times
  {
    if at in s.local[q].body.excluded {
      assert s.local[q].body.excluded + {at} == s.local[q].body.excluded;
    }
  }

  /** `l` was mapped to a remote event the snapshot does not have. */
  ghost predicate Lacking(read: map<LID, Mapping>, seen: set<string>, rows: seq<LID>, l: LID) {
    l in rows && l in read && read[l].remote !in seen
  }

  /** Reconciling deletes the events the snapshot lacks, and the overrides of their series; no other event, and no
      other waiting edit. */
  lemma {:induction false} ReconcileRemoves(s: State, read: map<LID, Mapping>, seen: set<string>, rows: seq<LID>)
    ensures var r := Reconcile(s, read, seen, rows);
      && (forall k :: k in r.local ==> k in s.local && r.local[k] == s.local[k] && !Lacking(read, seen, rows, k))
      && (forall k :: k in s.local && k !in r.local ==> LackingOrHangs(s, read, seen, rows, k))
      && (forall k :: k in r.local && r.local[k].link.Some? ==>
            !DroppedSeries(s, read, seen, rows, r.local[k].link.value.series))
      && (forall k :: k in r.outbox <==> k in s.outbox && !Lacking(read, seen, rows, k))
      && (forall k :: k in r.outbox ==> r.outbox[k] == s.outbox[k])
    decreases |rows|
  {
    if rows != [] {
      var l := rows[0];
      var s1 := if l in read && read[l].remote !in seen then RemoveLocal(s, l) else s;
      ReconcileRemoves(s1, read, seen, rows[1..]);
      assert forall k :: k in rows <==> k == l || k in rows[1..];
      ReconcileStep(s, s1, read, seen, rows, l);
    }
  }

  ghost predicate LackingOrHangs(s: State, read: map<LID, Mapping>, seen: set<string>, rows: seq<LID>, k: LID)
    requires k in s.local
  {
    Lacking(read, seen, rows, k) || (s.local[k].link.Some? && Lacking(read, seen, rows, s.local[k].link.value.series))
  }

  /** A series that is no override itself and goes. */
  ghost predicate DroppedSeries(s: State, read: map<LID, Mapping>, seen: set<string>, rows: seq<LID>, q: LID) {
    q in s.local && s.local[q].link.None? && Lacking(read, seen, rows, q)
  }

  lemma {:induction false} ReconcileStep(s: State, s1: State, read: map<LID, Mapping>, seen: set<string>,
                                         rows: seq<LID>, l: LID)
    requires rows != [] && rows[0] == l && (forall k :: k in rows <==> k == l || k in rows[1..])
    requires s1 == if l in read && read[l].remote !in seen then RemoveLocal(s, l) else s
    ensures forall k :: k in s1.local ==> k in s.local && s1.local[k] == s.local[k]
    ensures Lacking(read, seen, rows, l) ==> l !in s1.local && l !in s1.outbox
    ensures forall k :: k in s.local && k !in s1.local ==> LackingOrHangs(s, read, seen, rows, k)
    ensures forall k :: k in s1.local && s1.local[k].link.Some? ==>
      var q := s1.local[k].link.value.series;
      DroppedSeries(s, read, seen, rows, q) ==> q != l && DroppedSeries(s1, read, seen, rows[1..], q)
  {
  }

  /** After a full pull no event is left that was mapped to a remote one the snapshot lacks, nor an override of such a
      series, and nothing else went: every other event, edit and mapping is as the batch left it. */
  lemma {:induction false} FullPullRemoves(s: State, b: Binding, items: seq<Item>, now: int, rows: seq<LID>)
    requires Elements(rows) == ApplyAll(s, b, Ordered(items), now).mapping.Keys
    ensures var s1, r := ApplyAll(s, b, Ordered(items), now), Pull(s, b, items, true, now, rows);
      && (forall k :: k in s1.mapping && s1.mapping[k].remote !in Ids(items) ==> k !in r.local && k !in r.outbox)
      && (forall k :: k in r.local ==> k in s1.local && r.local[k] == s1.local[k])
      && (forall k :: k in r.local && r.local[k].link.Some? ==> !SeriesLacks(s1, items, r.local[k].link.value.series))
      && (forall k :: k in s1.local && k !in r.local ==> EventLacks(s1, items, k))
      && (forall k :: k in s1.outbox && !(k in s1.mapping && s1.mapping[k].remote !in Ids(items)) ==>
            k in r.outbox && r.outbox[k] == s1.outbox[k])
  {
    var s1 := ApplyAll(s, b, Ordered(items), now);
    ReconcileRemoves(s1, s1.mapping, Ids(items), rows);
    forall k
      ensures Lacking(s1.mapping, Ids(items), rows, k) <==> k in s1.mapping && s1.mapping[k].remote !in Ids(items)
    {
      assert k in s1.mapping ==> k in Elements(rows);
    }
  }

  ghost predicate SeriesLacks(s: State, items: seq<Item>, q: LID) {
    q in s.local && s.local[q].link.None? && q in s.mapping && s.mapping[q].remote !in Ids(items)
  }

  ghost predicate EventLacks(s: State, items: seq<Item>, k: LID)
    requires k in s.local
  {
    || (k in s.mapping && s.mapping[k].remote !in Ids(items))
    || (s.local[k].link.Some? && s.local[k].link.value.series in s.mapping &&
        s.mapping[s.local[k].link.value.series].remote !in Ids(items))
  }

  // ---------------------------------------------------------------- what comes

  /** `k` holds the content of the remote event and is mapped to it. */
  ghost predicate Holds(r: State, b: Binding, re: Item, k: LID) {
    && re.body.Some? && k in r.local && r.local[k].body.text == re.body.value.text
    && r.local[k].body.excluded == (if re.parent == "" then re.body.value.excluded else {})
    && k in r.mapping && r.mapping[k] == Mapping(re.id, re.etag)
  }

  /** All events and mappings but those of `k` are as they were, and the outbox too. */
  ghost predicate OnlyEvent(s: State, r: State, k: LID) {
    && (forall j :: j != k ==> (j in r.local <==> j in s.local) && (j in s.local ==> r.local[j] == s.local[j]))
    && (forall j :: j != k ==> (j in r.mapping <==> j in s.mapping))
    && (forall j :: j != k && j in s.mapping ==> r.mapping[j] == s.mapping[j])
    && r.outbox == s.outbox
  }

  /** A remote event not known here comes in: on the unmapped local event with its uid, or as a new one, which has
      that uid if it is free. */
  ghost predicate CameIn(s: State, r: State, b: Binding, re: Item, k: LID) {
    && Holds(r, b, re, k) && OnlyEvent(s, r, k) && (r.local[k].readOnly <==> !re.editable || b.readOnly)
    && r.local[k].link.None?
    && (k in s.local ==>
          k !in s.mapping && r.local[k].uid == s.local[k].uid == Given(CleanUID(re.uid)) && r.next == s.next)
    && (k !in s.local ==>
          && k == s.next && r.next == s.next + 1
          && (r.local[k].uid == Given(CleanUID(re.uid)) || (r.local[k].uid == Own(k))))
  }

  lemma {:induction false} NewComesIn(s: State, b: Binding, re: Item, now: int)
    requires UniqueEvents(s) && Unmapped(s, re.id) && s.next !in s.mapping
    requires re.parent == "" && !re.cancelled && re.body.Some?
    ensures exists k :: CameIn(s, Apply(s, b, re, now), b, re, k)
  {
    CreateComesIn(s, b, re, now);
    var k :| CameIn(s, Create(s, b, re, now), b, re, k);
    assert CameIn(s, Apply(s, b, re, now), b, re, k);
  }

  lemma {:induction false} CreateComesIn(s: State, b: Binding, re: Item, now: int)
    requires UniqueEvents(s) && re.parent == "" && re.body.Some? && s.next !in s.mapping
    ensures exists k :: CameIn(s, Create(s, b, re, now), b, re, k)
  {
    var cur := Adopts(s, b, CleanUID(re.uid), re);
    assert CameIn(s, Create(s, b, re, now), b, re, if cur.Some? then cur.value else s.next);
  }

  /** The uid that counts is the remote one without white space around it, unless it is longer than 1000 bytes. */
  lemma {:induction false} UidCleaned(a: string, t: string, b: string)
    requires Text.AllSpace(a) && Text.AllSpace(b) && t != "" && !Text.IsSpace(t[0]) && !Text.IsSpace(t[|t| - 1])
    ensures CleanUID(a + t + b) == if Text.Bytes(t) <= 1000 then t else ""
  {
    Text.TrimOf(a, t, b);
  }

  /** A new local event has the uid exactly when it is a usable one and no other event has it. */
  lemma {:induction false} UidIfFree(s: State, b: Binding, re: Item, now: int, k: LID)
    requires UniqueEvents(s) && re.parent == "" && s.next !in s.mapping && k !in s.local
    requires CameIn(s, Create(s, b, re, now), b, re, k)
    ensures Create(s, b, re, now).local[k].uid == Given(CleanUID(re.uid)) <==>
      && CleanUID(re.uid) != ""
      && forall j :: j in s.local && s.local[j].link.None? ==> s.local[j].uid != Given(CleanUID(re.uid))
  {
  }

  /** Nothing comes of an event without a readable start. */
  lemma {:induction false} UnreadableIgnored(s: State, b: Binding, re: Item, now: int)
    requires !re.cancelled && re.body.None? && Unmapped(s, re.id) && re.parent == ""
    ensures Apply(s, b, re, now) == s
  {
  }

  /** A mapped event whose local side was deleted: left alone while that deletion waits to be pushed, otherwise it
      comes in again. */
  lemma {:induction false} DeletedHere(s: State, b: Binding, re: Item, now: int, l: LID)
    requires Inv(s) && re.parent == "" && !re.cancelled && re.body.Some? && s.next !in s.mapping
    requires l in s.mapping && s.mapping[l].remote == re.id && l !in s.local
    ensures var r := Apply(s, b, re, now);
      if l in s.outbox && s.outbox[l].Delete? then r == s else exists k :: CameIn(DeleteMapping(s, l), r, b, re, k)
  {
    assert ByRemote(s, re.id) == Some(l);
    var s1 := DeleteMapping(s, l);
    CreateComesIn(s1, b, re, now);
    var k :| CameIn(s1, Create(s1, b, re, now), b, re, k);
    assert !(l in s.outbox && s.outbox[l].Delete?) ==> CameIn(s1, Apply(s, b, re, now), b, re, k);
  }

  ghost predicate Refreshed(s: State, r: State, b: Binding, re: Item, now: int, l: LID, etag: nat)
    requires l in s.local
  {
    if etag != 0 && etag == re.etag then r == s
    else if b.pushes && l in s.outbox && TimeOf(s, l) > re.updated then r == s
    else
      && Holds(r, b, re, l) && (r.local[l].readOnly <==> !re.editable || b.readOnly)
      && r.local[l].uid == s.local[l].uid && r.local[l].link == s.local[l].link
      && OnlyEvent(s.(outbox := r.outbox), r, l) && TimeOf(r, l) == now
      && r.outbox == if b.pushes then s.outbox - {l} else s.outbox
  }

  lemma {:induction false} RefreshIs(s: State, b: Binding, re: Item, now: int, l: LID, etag: nat)
    requires l in s.local && re.body.Some?
    ensures Refreshed(s, Refresh(s, b, l, etag, re, now), b, re, now, l, etag)
  {
    assert l !in s.outbox ==> s.outbox - {l} == s.outbox;
  }

  /** A mapped event: untouched where the etag is the known one or a strictly later edit waits, otherwise it takes the
      remote content and a waiting edit is dropped. */
  lemma {:induction false} MappedRefreshed(s: State, b: Binding, re: Item, now: int, l: LID)
    requires OneToOne(s) && re.parent == "" && !re.cancelled && re.body.Some?
    requires l in s.mapping && s.mapping[l].remote == re.id && l in s.local
    ensures Refreshed(s, Apply(s, b, re, now), b, re, now, l, s.mapping[l].etag)
  {
    assert ByRemote(s, re.id) == Some(l);
    RefreshIs(s, b, re, now, l, s.mapping[l].etag);
  }

  /** A changed instance not known here: a new override of the series at its start, with the uid of the series and
      read-only where the series is. */
  lemma {:induction false} InstanceComesIn(s: State, b: Binding, re: Item, now: int, q: LID, at: int)
    requires Inv(s) && Unmapped(s, re.id)
    requires re.parent != "" && !re.cancelled && re.original == Some(at) && re.body.Some?
    requires q in s.mapping && s.mapping[q].remote == re.parent && q in s.local && s.next !in s.mapping
    requires forall k :: k in s.local ==> s.local[k].link != Some(Link(q, at))
    ensures var r := Apply(s, b, re, now);
      && Holds(r, b, re, s.next) && OnlyEvent(s, r, s.next) && r.next == s.next + 1
      && r.local[s.next].link == Some(Link(q, at)) && r.local[s.next].uid == s.local[q].uid
      && (r.local[s.next].readOnly <==> !re.editable || b.readOnly || s.local[q].readOnly)
  {
    assert ByRemote(s, re.parent) == Some(q);
  }

  /** A changed instance known here, by its mapping or by the override at its start: the override takes its content,
      unless it has that already or a strictly later edit waits. */
  lemma {:induction false} InstanceRefreshed(s: State, b: Binding, re: Item, now: int, q: LID, at: int, l: LID)
    requires Inv(s) && re.parent != "" && !re.cancelled && re.original == Some(at) && re.body.Some?
    requires q in s.mapping && s.mapping[q].remote == re.parent && q in s.local && l in s.local
    requires if l in s.mapping && s.mapping[l].remote == re.id then true
      else Unmapped(s, re.id) && s.local[l].link == Some(Link(q, at))
    ensures Refreshed(s, Apply(s, b, re, now), b, re, now, l,
                      if l in s.mapping && s.mapping[l].remote == re.id then s.mapping[l].etag else 0)
  {
    assert ByRemote(s, re.parent) == Some(q);
    if l in s.mapping && s.mapping[l].remote == re.id {
      assert ByRemote(s, re.id) == Some(l);
      RefreshIs(s, b, re, now, l, s.mapping[l].etag);
    } else {
      assert OverrideAt(s, q, at) == Some(l);
      RefreshIs(s, b, re, now, l, 0);
    }
  }

  /** A mapped instance whose override was deleted here: left alone while that deletion waits, otherwise unlinked. */
  lemma {:induction false} InstanceDeletedHere(s: State, b: Binding, re: Item, now: int, q: LID, l: LID)
    requires OneToOne(s) && re.parent != "" && !re.cancelled && re.original.Some?
    requires q in s.mapping && s.mapping[q].remote == re.parent && q in s.local
    requires l in s.mapping && s.mapping[l].remote == re.id && l !in s.local
    ensures Apply(s, b, re, now) ==
      if l in s.outbox && s.outbox[l].Delete? then s else s.(mapping := s.mapping - {l})
  {
    assert ByRemote(s, re.parent) == Some(q) && ByRemote(s, re.id) == Some(l);
  }

  /** Instances of a series that is not known here, or without a readable start, change nothing. */
  lemma {:induction false} InstanceIgnored(s: State, b: Binding, re: Item, now: int)
    requires re.parent != "" && (Unmapped(s, re.parent) || re.original.None?)
    ensures Apply(s, b, re, now) == s
  {
  }

  // ---------------------------------------------------------------- pushing a deletion

  /** The remote id a push of `l` is about. */
  function RemoteOf(w: World, l: LID, hint: string): string {
    if l in w.db.mapping then w.db.mapping[l].remote else hint
  }

  /** `id` is missing on the remote side, as a change of its own if it was there; nothing else changed. */
  ghost predicate Cancelled(w: World, r: World, id: string, at: int) {
    && (id in r.remote <==> id in w.remote)
    && (id in w.remote && !w.remote[id].cancelled ==>
          r.remote[id] == w.remote[id].(cancelled := true, etag := w.tag + 1, updated := at) && r.tag == w.tag + 1)
    && (id in w.remote && w.remote[id].cancelled ==> r.remote[id] == w.remote[id])
    && (forall k :: k != id ==> (k in r.remote <==> k in w.remote) && (k in w.remote ==> r.remote[k] == w.remote[k]))
  }

  /** The mapping of `l` and of the instances of `id` is gone, no other. */
  ghost predicate Unlinked(w: World, r: World, l: LID, id: string) {
    && (forall k :: k in r.db.mapping <==>
          k in w.db.mapping && k != l && !(id + "_" <= w.db.mapping[k].remote))
    && (forall k :: k in r.db.mapping ==> r.db.mapping[k] == w.db.mapping[k])
  }

  lemma {:induction false} ErasedRemotely(w: World, l: LID, id: string, env: Env)
    requires id != ""
    ensures var r := Erase(w, l, id, env);
      (id !in r.remote || r.remote[id].cancelled) && Cancelled(w, r, id, env.remoteNow)
  {
  }

  lemma {:induction false} ErasedHere(w: World, l: LID, id: string, env: Env)
    requires id != ""
    ensures var r := Erase(w, l, id, env);
      Unlinked(w, r, l, id) && r.db.outbox == w.db.outbox && r.db.local == w.db.local
  {
    assert RemoteDelete(w, id, env).db == w.db;
  }

  /** An event deleted here is deleted remotely: it is missing there afterwards, no other remote event changed, and
      its mapping, those of its instances and the waiting edit are gone. */
  lemma {:induction false} DeletionPushed(w: World, b: Binding, l: LID, hint: string, env: Env)
    requires l in w.db.outbox && (w.db.outbox[l].Delete? || l !in w.db.local) && RemoteOf(w, l, hint) != ""
    ensures var r, id := PushItem(w, b, l, hint, env), RemoteOf(w, l, hint);
      && (id !in r.remote || r.remote[id].cancelled) && Cancelled(w, r, id, env.remoteNow) && Unlinked(w, r, l, id)
      && l !in r.db.mapping && r.db.outbox == w.db.outbox - {l} && l !in r.attempts && r.db.local == w.db.local
  {
    var id := RemoteOf(w, l, hint);
    assert PushItem(w, b, l, hint, env) == Finish(Erase(w, l, id, env), l);
    ErasedRemotely(w, l, id, env);
    ErasedHere(w, l, id, env);
  }

  /** Where there is no remote event to delete, the edit is just done. */
  lemma {:induction false} DeletionIdle(w: World, b: Binding, l: LID, hint: string, env: Env)
    requires l in w.db.outbox && (w.db.outbox[l].Delete? || l !in w.db.local) && RemoteOf(w, l, hint) == ""
    ensures var r := PushItem(w, b, l, hint, env);
      && r.remote == w.remote && r.db.mapping == w.db.mapping && r.db.local == w.db.local
      && r.db.outbox == w.db.outbox - {l}
  {
  }

  // ---------------------------------------------------------------- pushing an edit

  /** The remote event `id` has the content of the local event `l`, which is mapped to it with the new etag; no other
      remote event and no local event changed, and the edit is done. */
  ghost predicate Sent(w: World, r: World, l: LID, id: string)
    requires l in w.db.local
  {
    var e := w.db.local[l];
    && id in r.remote && !r.remote[id].cancelled && r.remote[id].body.Some?
    && r.remote[id].body.value.text == e.body.text
    && r.remote[id].body.value.excluded == (if e.link.Some? then {} else e.body.excluded)
    && r.remote[id].etag == w.tag + 1 == r.tag
    && (forall k :: k != id ==> (k in r.remote <==> k in w.remote) && (k in w.remote ==> r.remote[k] == w.remote[k]))
    && r.db.local == w.db.local && l in r.db.mapping && r.db.mapping[l] == Mapping(id, w.tag + 1)
    && r.db.outbox == w.db.outbox - {l} && l !in r.attempts
  }

  /** The edit of a writable event that is no unmapped override. */
  ghost predicate Sendable(w: World, l: LID) {
    && l in w.db.outbox && w.db.outbox[l].Upsert? && l in w.db.local && !w.db.local[l].readOnly
    && (w.db.local[l].link.Some? ==> l in w.db.mapping)
  }

  /** A new event, or one whose remote side is gone, is inserted under the id the remote side gives. */
  lemma {:induction false} EventInserted(w: World, b: Binding, l: LID, hint: string, env: Env)
    requires Sendable(w, l)
    requires var id := RemoteOf(w, l, hint);
      id == "" || (w.db.local[l].link.None? && (id !in w.remote || w.remote[id].cancelled))
    ensures var r := PushItem(w, b, l, hint, env);
      && Sent(w, r, l, env.newId) && r.remote[env.newId].id == env.newId && r.remote[env.newId].parent == ""
      && r.remote[env.newId].editable && r.remote[env.newId].uid == env.newUid
  {
  }

  /** A remote event that has not changed since it was last seen, or that no etag is known of, is overwritten. */
  lemma {:induction false} EventPatched(w: World, b: Binding, l: LID, hint: string, env: Env)
    requires Sendable(w, l)
    requires var id := RemoteOf(w, l, hint);
      id != "" && id in w.remote && !w.remote[id].cancelled && w.remote[id].id == id
    requires l in w.db.mapping ==>
      w.db.mapping[l].etag == 0 || w.db.mapping[l].etag == w.remote[w.db.mapping[l].remote].etag
    ensures var r, id := PushItem(w, b, l, hint, env), RemoteOf(w, l, hint);
      && Sent(w, r, l, id)
      && r.remote[id] == w.remote[id].(body := r.remote[id].body, etag := w.tag + 1, updated := env.remoteNow)
  {
  }

  /** A remote event that has changed is overwritten all the same by a strictly later edit. */
  lemma {:induction false} LaterEditSent(w: World, b: Binding, l: LID, hint: string, env: Env)
    requires Sendable(w, l) && l in w.db.mapping && w.db.mapping[l].remote != ""
    requires var id := w.db.mapping[l].remote; id in w.remote && !w.remote[id].cancelled && w.remote[id].id == id
    requires TimeOf(w.db, l) > w.remote[w.db.mapping[l].remote].updated
    ensures Sent(w, PushItem(w, b, l, hint, env), l, w.db.mapping[l].remote)
  {
  }

  /** An override whose remote instance is gone is unlinked; the remote side is left alone. */
  lemma {:induction false} InstanceUnlinked(w: World, b: Binding, l: LID, hint: string, env: Env)
    requires Sendable(w, l) && w.db.local[l].link.Some? && w.db.mapping[l].remote != ""
    requires var id := w.db.mapping[l].remote; id !in w.remote || w.remote[id].cancelled
    ensures var r := PushItem(w, b, l, hint, env);
      && r.remote == w.remote && r.db.local == w.db.local && r.db.mapping == w.db.mapping - {l}
      && r.db.outbox == w.db.outbox - {l}
  {
  }

  /** A read-only event is not pushed; its edit is dropped. */
  lemma {:induction false} ReadOnlySkipped(w: World, b: Binding, l: LID, hint: string, env: Env)
    requires l in w.db.outbox && w.db.outbox[l].Upsert? && l in w.db.local && w.db.local[l].readOnly
    ensures var r := PushItem(w, b, l, hint, env);
      r.remote == w.remote && r.db == w.db.(outbox := w.db.outbox - {l})
  {
  }

  /** An override waits for its series to be pushed, twenty times at most. */
  lemma {:induction false} OverrideWaits(w: World, b: Binding, l: LID, hint: string, env: Env)
    requires l in w.db.outbox && w.db.outbox[l].Upsert? && l in w.db.local && !w.db.local[l].readOnly
    requires w.db.local[l].link.Some? && l !in w.db.mapping
    requires w.db.local[l].link.value.series !in w.db.mapping || env.instance.None?
    ensures var r := PushItem(w, b, l, hint, env);
      && r.remote == w.remote && r.db.local == w.db.local && r.db.mapping == w.db.mapping
      && (Tries(w, l) < 19 ==> r.db.outbox == w.db.outbox && Tries(r, l) == Tries(w, l) + 1)
      && (Tries(w, l) >= 19 ==> r.db.outbox == w.db.outbox - {l})
  {
  }

  /** Once its series is there, it is sent to the remote instance found for it. */
  lemma {:induction false} OverrideSent(w: World, b: Binding, l: LID, hint: string, env: Env)
    requires l in w.db.outbox && w.db.outbox[l].Upsert? && l in w.db.local && !w.db.local[l].readOnly
    requires w.db.local[l].link.Some? && l !in w.db.mapping && w.db.local[l].link.value.series in w.db.mapping
    requires env.instance.Some? && env.instance.value.remote != ""
    requires var id := env.instance.value.remote; id in w.remote && !w.remote[id].cancelled && w.remote[id].id == id
    requires w.remote[env.instance.value.remote].etag == env.instance.value.etag
    ensures Sent(w, PushItem(w, b, l, hint, env), l, env.instance.value.remote)
  {
  }
}

/** An event edited on both sides since they last agreed: what one push and the landing of one fetched
    version make of it.  SyncRuns puts these steps together. */
module SyncConflict {
  import opened Common
  import opened SyncPull
  import opened SyncPush

  // ---------------------------------------------------------------- the conflict

  /** Applying `x` reaches the local event `l`. */
  ghost predicate Linked(db: State, l: LID, x: Item) {
    && l in db.local && l in db.mapping && db.mapping[l].remote == x.id
    && !x.cancelled && x.body.Some?
    && (x.parent == "" <==> db.local[l].link.None?)
    && (x.parent != "" ==>
          x.original.Some? && x.parent != x.id && ByRemote(db, x.parent).Some? &&
          ByRemote(db, x.parent).value in db.local)
  }

  /** A writable event in a two-way binding, linked to a remote one, with an edit waiting to be pushed.
      Overrides carry no excluded starts. */
  ghost predicate Clash(w: World, b: Binding, l: LID, id: string) {
    && b.pushes && !b.readOnly && Inv(w.db)
    && id != "" && id in w.remote && w.remote[id].id == id && w.remote[id].editable && 0 < w.remote[id].etag <= w.tag
    && Linked(w.db, l, w.remote[id])
    && !w.db.local[l].readOnly && w.db.mapping[l].etag <= w.tag
    && (w.db.local[l].link.Some? ==> w.db.local[l].body.excluded == {})
    && l in w.db.outbox && w.db.outbox[l].Upsert?
  }

  /** The local edit is the later one, or the remote event has not changed at all. */
  ghost predicate LocalLater(w: World, l: LID, id: string)
    requires l in w.db.mapping && id in w.remote
  {
    w.db.mapping[l].etag == w.remote[id].etag || TimeOf(w.db, l) > w.remote[id].updated
  }

  /** A push that knows no etag overwrites the remote event unseen. */
  ghost predicate PushWins(w: World, l: LID, id: string)
    requires l in w.db.mapping && id in w.remote
  {
    w.db.mapping[l].etag == 0 || LocalLater(w, l, id)
  }

  /** The local event with the remote content. */
  function Taken(w: World, b: Binding, l: LID, id: string): Local
    requires id in w.remote && w.remote[id].body.Some? && l in w.db.local
  {
    Convert(b, w.remote[id], w.db.local[l]).value
  }

  // ---------------------------------------------------------------- how far a run has come

  /** The tables as they were, but for the event, its mapping and its waiting edit. */
  ghost predicate Settled(db: State, db0: State, l: LID, e: Local, m: Mapping) {
    db.local == db0.local[l := e] && db.mapping == db0.mapping[l := m] && db.outbox == db0.outbox - {l} &&
      db.next == db0.next
  }

  ghost predicate IsPushed(y: Item, x: Item, e: Local, tag: nat) {
    y == x.(body := Some(ToRemote(e)), etag := tag, updated := y.updated)
  }

  /** Nothing is decided yet. */
  ghost predicate Open(w: World, w0: World) {
    w.db == w0.db && w.remote == w0.remote && w.tag == w0.tag
  }

  ghost predicate RemoteWon(w: World, w0: World, b: Binding, l: LID, id: string)
    requires Clash(w0, b, l, id)
  {
    && !LocalLater(w0, l, id) && w.remote == w0.remote && w.tag == w0.tag
    && Settled(w.db, w0.db, l, Taken(w0, b, l, id), Mapping(id, w0.remote[id].etag))
  }

  /** The local content is on the remote side; on this side too, unless an older version fetched before
      the push has landed after it. */
  ghost predicate LocalWon(w: World, w0: World, b: Binding, l: LID, id: string, stale: bool)
    requires Clash(w0, b, l, id)
  {
    && PushWins(w0, l, id) && w.tag == w0.tag + 1
    && id in w.remote && IsPushed(w.remote[id], w0.remote[id], w0.db.local[l], w0.tag + 1)
    && w.remote == w0.remote[id := w.remote[id]]
    && Settled(w.db, w0.db, l,
               if stale then Taken(w0, b, l, id) else w0.db.local[l],
               if stale then Mapping(id, w0.remote[id].etag) else Mapping(id, w0.tag + 1))
  }

  ghost predicate Known(w: World, w0: World, b: Binding, l: LID, id: string)
    requires Clash(w0, b, l, id)
  {
    Open(w, w0) || RemoteWon(w, w0, b, l, id) || LocalWon(w, w0, b, l, id, false) || LocalWon(w, w0, b, l, id, true)
  }

  // ---------------------------------------------------------------- single steps

  lemma {:induction false} OnlyMapping(db: State, l: LID, remote: string)
    requires OneToOne(db) && l in db.mapping && db.mapping[l].remote == remote
    ensures ByRemote(db, remote) == Some(l)
  {
  }

  lemma {:induction false} LandIsRefresh(db: State, b: Binding, l: LID, x: Item, now: int)
    requires OneToOne(db) && Linked(db, l, x)
    ensures Apply(db, b, x, now) == Refresh(db, b, l, db.mapping[l].etag, x, now)
  {
    OnlyMapping(db, l, x.id);
  }

  lemma {:induction false} SaveIs(db: State, l: LID, m: Mapping)
    requires OneToOne(db) && l in db.mapping && db.mapping[l].remote == m.remote
    ensures SaveMapping(db, l, m) == PutMapping(db, l, m) && Release(db, l, m.remote) == db
  {
    NothingReleased(db, l, m);
    assert Release(db, l, m.remote).mapping == db.mapping;
  }

  lemma {:induction false} RefreshIs(db: State, b: Binding, l: LID, x: Item, now: int)
    requires b.pushes && l in db.local && l in db.mapping && x.body.Some?
    requires x.etag != 0 && x.etag != db.mapping[l].etag
    requires l in db.outbox ==> TimeOf(db, l) <= x.updated
    ensures Refresh(db, b, l, db.mapping[l].etag, x, now) ==
      PutMapping(PutLocal(DropOutbox(db, l), l, Convert(b, x, db.local[l]).value, now), l, Mapping(x.id, x.etag))
  {
    assert l !in db.outbox ==> DropOutbox(db, l) == db;
  }

  /** A changed remote event that meets no later waiting edit is taken over. */
  lemma {:induction false} RefreshTakes(db: State, db0: State, b: Binding, l: LID, x: Item, now: int)
    requires b.pushes && OneToOne(db) && l in db.local && l in db.mapping && db.mapping[l].remote == x.id
    requires x.body.Some?
    requires x.etag != 0 && x.etag != db.mapping[l].etag
    requires l in db.outbox ==> TimeOf(db, l) <= x.updated
    requires l in db0.local && l in db0.mapping
    requires Settled(db.(outbox := db.outbox - {l}), db0, l, db.local[l], db.mapping[l])
    ensures Settled(Refresh(db, b, l, db.mapping[l].etag, x, now), db0, l,
                    Convert(b, x, db.local[l]).value, Mapping(x.id, x.etag))
  {
    RefreshIs(db, b, l, x, now);
  }

  lemma {:induction false} SettledLinked(db: State, db0: State, l: LID, e: Local, m: Mapping, x: Item)
    requires Inv(db0) && Linked(db0, l, x) && Settled(db, db0, l, e, m)
    requires e.uid == db0.local[l].uid && e.link == db0.local[l].link && m.remote == x.id
    ensures OneToOne(db) && Linked(db, l, x)
  {
    if x.parent != "" {
      var q := ByRemote(db0, x.parent).value;
      assert q in db.mapping && db.mapping[q].remote == x.parent;
      OnlyMapping(db, q, x.parent);
    }
  }

  lemma {:induction false} PatchIs(w: World, b: Binding, l: LID, id: string, etag: nat, env: Env)
    requires Clash(w, b, l, id) && (etag == 0 || etag == w.remote[id].etag)
    ensures Patch(w, id, ToRemote(w.db.local[l]), etag, env).Patched?
    ensures var p := Patch(w, id, ToRemote(w.db.local[l]), etag, env);
      LocalWon(Finish(SavePushed(p.w, l, p.item), l), w, b, l, id, false) || !PushWins(w, l, id)
  {
    var p := Patch(w, id, ToRemote(w.db.local[l]), etag, env);
    SaveIs(p.w.db, l, Mapping(id, w.tag + 1));
    assert w.db.local == w.db.local[l := w.db.local[l]];
  }

  lemma {:induction false} SendIs(w: World, b: Binding, l: LID, id: string, hint: string, env: Env)
    requires Clash(w, b, l, id)
    ensures PushItem(w, b, l, hint, env) == Finish(Write(w, b, l, w.db.mapping[l], env), l)
  {
  }

  lemma {:induction false} SendWins(w: World, b: Binding, l: LID, id: string, env: Env)
    requires Clash(w, b, l, id) && PushWins(w, l, id)
    ensures LocalWon(Finish(Write(w, b, l, w.db.mapping[l], env), l), w, b, l, id, false)
  {
    var m := w.db.mapping[l];
    if m.etag == 0 || m.etag == w.remote[id].etag {
      PatchIs(w, b, l, id, m.etag, env);
    } else {
      PatchIs(w, b, l, id, 0, env);
    }
  }

  lemma {:induction false} SendLoses(w: World, b: Binding, l: LID, id: string, env: Env)
    requires Clash(w, b, l, id) && !PushWins(w, l, id)
    ensures RemoteWon(Finish(Write(w, b, l, w.db.mapping[l], env), l), w, b, l, id)
  {
    var m := w.db.mapping[l];
    assert w.db.local == w.db.local[l := w.db.local[l]] && w.db.mapping == w.db.mapping[l := m];
    SaveIs(w.db, l, Mapping(id, m.etag));
    RefreshTakes(w.db, w.db, b, l, w.remote[id], env.now);
  }

  /** Pushing the waiting edit decides the conflict. */
  lemma {:induction false} SendDecides(w: World, w0: World, b: Binding, l: LID, id: string, hint: string, env: Env)
    requires Clash(w0, b, l, id) && Open(w, w0)
    ensures var w' := PushItem(w, b, l, hint, env);
      if PushWins(w0, l, id) then LocalWon(w', w0, b, l, id, false) else RemoteWon(w', w0, b, l, id)
  {
    SendIs(w, b, l, id, hint, env);
    if PushWins(w0, l, id) {
      SendWins(w, b, l, id, env);
    } else {
      SendLoses(w, b, l, id, env);
    }
  }

  /** The world with `x` applied to its local side. */
  ghost function Landed(w: World, b: Binding, x: Item, now: int): World {
    w.(db := Apply(w.db, b, x, now))
  }

  lemma {:induction false} LandOpen(w: World, w0: World, b: Binding, l: LID, id: string, now: int)
    requires Clash(w0, b, l, id) && Open(w, w0)
    ensures var w' := Landed(w, b, w0.remote[id], now);
      if LocalLater(w0, l, id) then Open(w', w0) else RemoteWon(w', w0, b, l, id)
  {
    var x, db := w0.remote[id], w0.db;
    LandIsRefresh(db, b, l, x, now);
    if !LocalLater(w0, l, id) {
      assert db.local == db.local[l := db.local[l]] && db.mapping == db.mapping[l := db.mapping[l]];
      RefreshTakes(db, db, b, l, x, now);
    }
  }

  lemma {:induction false} LandRemoteWon(w: World, w0: World, b: Binding, l: LID, id: string, now: int)
    requires Clash(w0, b, l, id) && RemoteWon(w, w0, b, l, id)
    ensures Landed(w, b, w0.remote[id], now) == w
  {
    SettledLinked(w.db, w0.db, l, Taken(w0, b, l, id), Mapping(id, w0.remote[id].etag), w0.remote[id]);
    LandIsRefresh(w.db, b, l, w0.remote[id], now);
  }

  /** What was pushed comes back as the event it was made from. */
  lemma {:induction false} BackAgain(w0: World, b: Binding, l: LID, id: string, y: Item)
    requires Clash(w0, b, l, id) && IsPushed(y, w0.remote[id], w0.db.local[l], w0.tag + 1)
    ensures Convert(b, y, Taken(w0, b, l, id)).value == w0.db.local[l]
  {
  }

  /** The current version lands: both sides agree. */
  lemma {:induction false} LandPushed(w: World, w0: World, b: Binding, l: LID, id: string, stale: bool, now: int)
    requires Clash(w0, b, l, id) && LocalWon(w, w0, b, l, id, stale)
    ensures LocalWon(Landed(w, b, w.remote[id], now), w0, b, l, id, false)
  {
    var y, db := w.remote[id], w.db;
    assert Linked(w0.db, l, y);
    SettledLinked(db, w0.db, l, db.local[l], db.mapping[l], y);
    LandIsRefresh(db, b, l, y, now);
    if stale {
      RefreshTakes(db, w0.db, b, l, y, now);
      BackAgain(w0, b, l, id, y);
    }
  }

  /** A version older than the push lands after it. */
  lemma {:induction false} LandStale(w: World, w0: World, b: Binding, l: LID, id: string, stale: bool, now: int)
    requires Clash(w0, b, l, id) && LocalWon(w, w0, b, l, id, stale)
    ensures LocalWon(Landed(w, b, w0.remote[id], now), w0, b, l, id, true)
  {
    var x, db := w0.remote[id], w.db;
    SettledLinked(db, w0.db, l, db.local[l], db.mapping[l], x);
    LandIsRefresh(db, b, l, x, now);
    if !stale {
      RefreshTakes(db, w0.db, b, l, x, now);
    }
  }

  // ---------------------------------------------------------------- agreement

  /** Both sides hold the winner's content, agree on the etag, and nothing waits any more. */
  ghost predicate Agreed(w: World, w0: World, b: Binding, l: LID, id: string, localWins: bool)
    requires Clash(w0, b, l, id)
  {
    && l in w.db.local && id in w.remote && l in w.db.mapping && w.db.mapping[l] == Mapping(id, w.remote[id].etag)
    && w.db.local[l] == (if localWins then w0.db.local[l] else Taken(w0, b, l, id))
    && w.remote[id].body == (if localWins then Some(ToRemote(w0.db.local[l])) else w0.remote[id].body)
    && w.db.outbox == w0.db.outbox - {l}
    && w.db.local - {l} == w0.db.local - {l} && w.db.mapping - {l} == w0.db.mapping - {l} &&
      w.remote - {id} == w0.remote - {id}
  }

  lemma {:induction false} WonAgrees(w: World, w0: World, b: Binding, l: LID, id: string)
    requires Clash(w0, b, l, id)
    ensures RemoteWon(w, w0, b, l, id) ==> Agreed(w, w0, b, l, id, false)
    ensures LocalWon(w, w0, b, l, id, false) ==> Agreed(w, w0, b, l, id, true)
  {
  }
}

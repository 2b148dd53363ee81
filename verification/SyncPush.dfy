/** Pushing waiting edits to Google.  The remote calendar is a table of events with an etag each; a
    write made with If-Match fails when the etag has moved on (section 13.1.1 of RFC 9110). */
module SyncPush {
  import opened Common
  import opened SyncPull

  const MAX_TRIES := 20

  /** Both sides: the local tables, the failed tries of each waiting edit, the remote calendar, and the
      last etag it gave out. */
  datatype World = World(db: State, attempts: map<LID, nat>, remote: map<string, Item>, tag: nat)

  /** What a push learns from outside: both clocks, the ids of an event inserted remotely, and the
      remote instance found for an override that has no mapping yet. */
  datatype Env = Env(now: int, remoteNow: int, newId: string, newUid: string, instance: Option<Mapping>)

  datatype Answer = Done | MasterPending

  datatype Patched = Patched(w: World, item: Item) | Stale | Gone

  // ---------------------------------------------------------------- the remote calendar

  predicate Missing(w: World, id: string) {
    id !in w.remote || w.remote[id].cancelled
  }

  function Patch(w: World, id: string, body: Body, ifMatch: nat, env: Env): Patched {
    if Missing(w, id) then Gone
    else if ifMatch != 0 && w.remote[id].etag != ifMatch then Stale
    else
      var item := w.remote[id].(body := Some(body), etag := w.tag + 1, updated := env.remoteNow);
      Patched(w.(remote := w.remote[id := item], tag := w.tag + 1), item)
  }

  function RemoteInsert(w: World, body: Body, env: Env): (World, Item) {
    var item := Item(env.newId, env.newUid, "", false, None, Some(body), true, w.tag + 1, env.remoteNow);
    (w.(remote := w.remote[env.newId := item], tag := w.tag + 1), item)
  }

  function RemoteDelete(w: World, id: string, env: Env): World {
    if Missing(w, id) then w
    else w.(remote := w.remote[id := w.remote[id].(cancelled := true, etag := w.tag + 1, updated := env.remoteNow)],
            tag := w.tag + 1)
  }

  // ---------------------------------------------------------------- one waiting edit

  /** What is sent: an instance carries no recurrence. */
  function ToRemote(e: Local): Body {
    if e.link.Some? then Body(e.body.text, {}) else e.body
  }

  function SavePushed(w: World, l: LID, item: Item): World {
    w.(db := SaveMapping(w.db, l, Mapping(item.id, item.etag)))
  }

  /** Bring the local event up to date; other events mapped to the remote one let go of it. */
  function TakeOver(s: State, b: Binding, l: LID, etag: nat, cur: Item, now: int): State
    requires l in s.local
  {
    Refresh(if cur.body.Some? then Release(s, l, cur.id) else s, b, l, etag, cur, now)
  }

  /** The remote event changed since it was last seen: the strictly later side wins. */
  function Resolve(w: World, b: Binding, l: LID, m: Mapping, env: Env): World
    requires l in w.db.local && !Missing(w, m.remote)
  {
    var cur := w.remote[m.remote];
    if !(TimeOf(w.db, l) > cur.updated) then w.(db := TakeOver(w.db, b, l, m.etag, cur, env.now))
    else
      var p := Patch(w, m.remote, ToRemote(w.db.local[l]), 0, env);
      SavePushed(p.w, l, p.item)
  }

  function InsertPushed(w: World, l: LID, env: Env): World
    requires l in w.db.local
  {
    var (w1, item) := RemoteInsert(w, ToRemote(w.db.local[l]), env);
    SavePushed(w1, l, item)
  }

  function Write(w: World, b: Binding, l: LID, m: Mapping, env: Env): World
    requires l in w.db.local
  {
    if m.remote == "" then InsertPushed(w, l, env)
    else
      match Patch(w, m.remote, ToRemote(w.db.local[l]), m.etag, env)
      case Stale => Resolve(w, b, l, m, env)
      case Gone => if w.db.local[l].link.Some? then w.(db := DeleteMapping(w.db, l)) else InsertPushed(w, l, env)
      case Patched(w1, item) => SavePushed(w1, l, item)
  }

  function Erase(w: World, l: LID, remote: string, env: Env): World {
    if remote == "" then w
    else var w1 := RemoteDelete(w, remote, env); w1.(db := DeletePrefix(DeleteMapping(w1.db, l), remote + "_"))
  }

  /** Push the edit of `l`.  `hint` is the remote id noted when the edit was queued. */
  function PushEvent(w: World, b: Binding, l: LID, hint: string, env: Env): (World, Answer)
    requires l in w.db.outbox
  {
    var mapped := l in w.db.mapping;
    var m := if mapped then w.db.mapping[l] else Mapping(hint, 0);
    if w.db.outbox[l].Delete? || l !in w.db.local then (Erase(w, l, m.remote, env), Done)
    else
      var e := w.db.local[l];
      if e.readOnly then (w, Done)
      else if e.link.Some? && !mapped then
        if e.link.value.series !in w.db.mapping || env.instance.None? then (w, MasterPending)
        else (Write(w, b, l, env.instance.value, env), Done)
      else (Write(w, b, l, m, env), Done)
  }

  function Tries(w: World, l: LID): nat {
    if l in w.attempts then w.attempts[l] else 0
  }

  function Finish(w: World, l: LID): World {
    w.(db := DropOutbox(w.db, l), attempts := w.attempts - {l})
  }

  /** One turn of the push loop: done edits and those tried too often leave the outbox. */
  function PushItem(w: World, b: Binding, l: LID, hint: string, env: Env): World {
    if l !in w.db.outbox then w
    else
      var (w1, answer) := PushEvent(w, b, l, hint, env);
      if answer.Done? || Tries(w, l) + 1 >= MAX_TRIES then Finish(w1, l)
      else w1.(attempts := w1.attempts[l := Tries(w, l) + 1])
  }

  datatype Turn = Turn(l: LID, hint: string, env: Env)

  function PushAll(w: World, b: Binding, turns: seq<Turn>): World
    decreases |turns|
  {
    if turns == [] then w
    else PushAll(PushItem(w, b, turns[0].l, turns[0].hint, turns[0].env), b, turns[1..])
  }

  // ---------------------------------------------------------------- what a push keeps

  lemma {:induction false} ReleaseKeeps(s: State, l: LID, remote: string)
    requires Inv(s)
    ensures Inv(Release(s, l, remote)) && NoRival(Release(s, l, remote), l, remote)
  {
  }

  lemma {:induction false} SavePushedKeeps(w: World, l: LID, item: Item)
    requires Inv(w.db)
    ensures Inv(SavePushed(w, l, item).db) && SavePushed(w, l, item).db.local == w.db.local
  {
    ReleaseKeeps(w.db, l, item.id);
    MappingKeeps(Release(w.db, l, item.id), l, Mapping(item.id, item.etag));
  }

  lemma {:induction false} TakeOverKeeps(s: State, b: Binding, l: LID, etag: nat, cur: Item, now: int)
    requires Inv(s) && l in s.local
    ensures Inv(TakeOver(s, b, l, etag, cur, now))
  {
    if cur.body.Some? {
      ReleaseKeeps(s, l, cur.id);
      RefreshKeeps(Release(s, l, cur.id), b, l, etag, cur, now);
    } else {
      DropKeeps(s, l);
    }
  }

  lemma {:induction false} ResolveKeeps(w: World, b: Binding, l: LID, m: Mapping, env: Env)
    requires Inv(w.db) && l in w.db.local && !Missing(w, m.remote)
    ensures Inv(Resolve(w, b, l, m, env).db)
  {
    if TimeOf(w.db, l) > w.remote[m.remote].updated {
      var p := Patch(w, m.remote, ToRemote(w.db.local[l]), 0, env);
      SavePushedKeeps(p.w, l, p.item);
    } else {
      TakeOverKeeps(w.db, b, l, m.etag, w.remote[m.remote], env.now);
    }
  }

  lemma {:induction false} InsertKeepsSound(w: World, l: LID, env: Env)
    requires Inv(w.db) && l in w.db.local
    ensures Inv(InsertPushed(w, l, env).db)
  {
    var (w1, item) := RemoteInsert(w, ToRemote(w.db.local[l]), env);
    SavePushedKeeps(w1, l, item);
  }

  lemma {:induction false} WriteKeeps(w: World, b: Binding, l: LID, m: Mapping, env: Env)
    requires Inv(w.db) && l in w.db.local
    ensures Inv(Write(w, b, l, m, env).db)
  {
    if m.remote == "" {
      InsertKeepsSound(w, l, env);
    } else {
      match Patch(w, m.remote, ToRemote(w.db.local[l]), m.etag, env)
      case Stale => ResolveKeeps(w, b, l, m, env);
      case Gone =>
        if w.db.local[l].link.Some? { UnlinkKeeps(w.db, l, ""); } else { InsertKeepsSound(w, l, env); }
      case Patched(w1, item) => SavePushedKeeps(w1, l, item);
    }
  }

  lemma {:induction false} EraseKeeps(w: World, l: LID, remote: string, env: Env)
    requires Inv(w.db)
    ensures Inv(Erase(w, l, remote, env).db)
  {
    UnlinkKeeps(w.db, l, "");
    UnlinkKeeps(DeleteMapping(w.db, l), l, remote + "_");
  }

  lemma {:induction false} PushEventKeeps(w: World, b: Binding, l: LID, hint: string, env: Env)
    requires Inv(w.db) && l in w.db.outbox
    ensures Inv(PushEvent(w, b, l, hint, env).0.db)
  {
    var m := if l in w.db.mapping then w.db.mapping[l] else Mapping(hint, 0);
    if w.db.outbox[l].Delete? || l !in w.db.local {
      EraseKeeps(w, l, m.remote, env);
    } else if !w.db.local[l].readOnly {
      if w.db.local[l].link.Some? && l !in w.db.mapping {
        if env.instance.Some? { WriteKeeps(w, b, l, env.instance.value, env); }
      } else {
        WriteKeeps(w, b, l, m, env);
      }
    }
  }

  /** A push, whatever the remote side answers, keeps the mapping one to one and the local tables sound. */
  lemma {:induction false} PushItemKeeps(w: World, b: Binding, l: LID, hint: string, env: Env)
    requires Inv(w.db)
    ensures Inv(PushItem(w, b, l, hint, env).db)
  {
    if l in w.db.outbox {
      var (w1, answer) := PushEvent(w, b, l, hint, env);
      PushEventKeeps(w, b, l, hint, env);
      DropKeeps(w1.db, l);
    }
  }

  lemma {:induction false} PushAllKeeps(w: World, b: Binding, turns: seq<Turn>)
    requires Inv(w.db)
    ensures Inv(PushAll(w, b, turns).db)
    decreases |turns|
  {
    if turns != [] {
      PushItemKeeps(w, b, turns[0].l, turns[0].hint, turns[0].env);
      PushAllKeeps(PushItem(w, b, turns[0].l, turns[0].hint, turns[0].env), b, turns[1..]);
    }
  }

  // ---------------------------------------------------------------- whose mapping a push takes away

  /** The remote event a push of `l` writes to; none while the series of an override is not there yet. */
  function Target(w: World, l: LID, hint: string, env: Env): Option<Mapping>
    requires l in w.db.local
  {
    if l in w.db.mapping then Some(w.db.mapping[l])
    else if w.db.local[l].link.None? then Some(Mapping(hint, 0))
    else if w.db.local[l].link.value.series in w.db.mapping then env.instance
    else None
  }

  /** The remote id `l` is mapped to after the write, if that saves a mapping at all. */
  function SavedAs(w: World, l: LID, m: Mapping, env: Env): Option<string>
    requires l in w.db.local
  {
    if m.remote == "" || (Missing(w, m.remote) && w.db.local[l].link.None?) then Some(env.newId)
    else if Missing(w, m.remote) then None
    else
      var cur := w.remote[m.remote];
      if m.etag == 0 || m.etag == cur.etag || TimeOf(w.db, l) > cur.updated || cur.body.Some?
      then Some(cur.id) else None
  }

  /** The event `k` loses its mapping to the push of `l`. */
  predicate Loses(w: World, l: LID, hint: string, env: Env, k: LID)
    requires l in w.db.outbox && k in w.db.mapping
  {
    if w.db.outbox[l].Delete? || l !in w.db.local then
      var remote := if l in w.db.mapping then w.db.mapping[l].remote else hint;
      remote != "" && StartsWith(w.db.mapping[k].remote, remote + "_")
    else
      && !w.db.local[l].readOnly && Target(w, l, hint, env).Some?
      && SavedAs(w, l, Target(w, l, hint, env).value, env) == Some(w.db.mapping[k].remote)
  }

  /** After a change, `k` has the mapping it had, unless that named the remote id saved. */
  ghost predicate KeepsUnless(before: State, after: State, k: LID, saved: Option<string>)
    requires k in before.mapping
  {
    (k in after.mapping <==> saved != Some(before.mapping[k].remote)) &&
      (k in after.mapping ==> after.mapping[k] == before.mapping[k])
  }

  lemma {:induction false} SaveTakes(s: State, l: LID, m: Mapping, k: LID)
    requires k in s.mapping && k != l
    ensures KeepsUnless(s, SaveMapping(s, l, m), k, Some(m.remote))
  {
  }

  lemma {:induction false} TakeOverTakes(s: State, b: Binding, l: LID, etag: nat, cur: Item, now: int, k: LID)
    requires l in s.local && k in s.mapping && k != l && (etag == 0 || etag != cur.etag) && TimeOf(s, l) <= cur.updated
    ensures KeepsUnless(s, TakeOver(s, b, l, etag, cur, now), k, if cur.body.Some? then Some(cur.id) else None)
  {
  }

  lemma {:induction false} WriteTakes(w: World, b: Binding, l: LID, m: Mapping, env: Env, k: LID)
    requires l in w.db.local && k in w.db.mapping && k != l
    ensures KeepsUnless(w.db, Write(w, b, l, m, env).db, k, SavedAs(w, l, m, env))
  {
    if m.remote != "" && !Missing(w, m.remote) {
      var cur := w.remote[m.remote];
      SaveTakes(w.db, l, Mapping(cur.id, w.tag + 1), k);
      if m.etag != 0 && m.etag != cur.etag && TimeOf(w.db, l) <= cur.updated {
        TakeOverTakes(w.db, b, l, m.etag, cur, env.now, k);
      }
    } else {
      SaveTakes(w.db, l, Mapping(env.newId, w.tag + 1), k);
    }
  }

  /** Of all other events, a push takes the mapping of exactly those that stand in its way: instances of
      the event it deletes, and an event mapped to the very remote one it wrote. */
  lemma {:induction false} PushTakes(w: World, b: Binding, l: LID, hint: string, env: Env, k: LID)
    requires l in w.db.outbox && k in w.db.mapping && k != l
    ensures var after := PushItem(w, b, l, hint, env).db.mapping;
      (k in after <==> !Loses(w, l, hint, env, k)) && (k in after ==> after[k] == w.db.mapping[k])
  {
    if !w.db.outbox[l].Delete? && l in w.db.local && !w.db.local[l].readOnly && Target(w, l, hint, env).Some? {
      WriteTakes(w, b, l, Target(w, l, hint, env).value, env, k);
    }
  }

  /** The push of an edit to a mapped event, or to one whose target nobody is mapped to, takes no mapping
      away, provided the remote side gives new events ids that were not in use. */
  lemma {:induction false} PushTakesNone(w: World, b: Binding, l: LID, hint: string, env: Env, k: LID)
    requires OneToOne(w.db) && (forall id :: id in w.remote ==> w.remote[id].id == id)
    requires l in w.db.outbox && w.db.outbox[l].Upsert? && l in w.db.local && k in w.db.mapping && k != l
    requires Unmapped(w.db, env.newId)
    requires l in w.db.mapping ||
      (Target(w, l, hint, env).Some? ==> Unmapped(w.db, Target(w, l, hint, env).value.remote))
    ensures k in PushItem(w, b, l, hint, env).db.mapping
    ensures PushItem(w, b, l, hint, env).db.mapping[k] == w.db.mapping[k]
  {
    PushTakes(w, b, l, hint, env, k);
  }

  // ---------------------------------------------------------------- the push as it runs

  class Pusher {
    const b: Binding
    var w: World

    constructor (b: Binding, w: World)
      ensures this.b == b && this.w == w
    {
      this.b, this.w := b, w;
    }

    method SaveEventMapping(l: LID, item: Item)
      modifies this`w
      ensures w == SavePushed(old(w), l, item)
    {
      w := w.(db := SaveMapping(w.db, l, Mapping(item.id, item.etag)));
    }

    method InsertEvent(l: LID, body: Body, env: Env)
      requires l in w.db.local && body == ToRemote(w.db.local[l])
      modifies this`w
      ensures w == InsertPushed(old(w), l, env)
    {
      var (w1, item) := RemoteInsert(w, body, env);
      w := w1;
      SaveEventMapping(l, item);
    }

    method ResolveEvent(l: LID, body: Body, m: Mapping, env: Env)
      requires l in w.db.local && !Missing(w, m.remote) && body == ToRemote(w.db.local[l])
      modifies this`w
      ensures w == Resolve(old(w), b, l, m, env)
    {
      var cur := w.remote[m.remote];
      if !(TimeOf(w.db, l) > cur.updated) {
        w := w.(db := TakeOver(w.db, b, l, m.etag, cur, env.now));
        return;
      }
      var out := Patch(w, m.remote, body, 0, env);
      w := out.w;
      SaveEventMapping(l, out.item);
    }

    method Push(l: LID, hint: string, env: Env) returns (answer: Answer)
      requires l in w.db.outbox
      modifies this`w
      ensures (w, answer) == PushEvent(old(w), b, l, hint, env)
    {
      var mapped := l in w.db.mapping;
      var m := Mapping(hint, 0);
      if mapped {
        m := w.db.mapping[l];
      }
      if w.db.outbox[l].Delete? || l !in w.db.local {
        if m.remote != "" {
          w := RemoteDelete(w, m.remote, env);
          w := w.(db := DeleteMapping(w.db, l));
          w := w.(db := DeletePrefix(w.db, m.remote + "_"));
        }
        return Done;
      }
      var local := w.db.local[l];
      if local.readOnly {
        return Done;
      }
      var instance := local.link.Some?;
      if instance && !mapped {
        if local.link.value.series !in w.db.mapping || env.instance.None? {
          return MasterPending;
        }
        m := env.instance.value;
      }
      var body := ToRemote(local);
      if m.remote == "" {
        InsertEvent(l, body, env);
        return Done;
      }
      var out := Patch(w, m.remote, body, m.etag, env);
      if out.Stale? {
        ResolveEvent(l, body, m, env);
      } else if out.Gone? && instance {
        w := w.(db := DeleteMapping(w.db, l));
      } else if out.Gone? {
        InsertEvent(l, body, env);
      } else {
        w := out.w;
        SaveEventMapping(l, out.item);
      }
      return Done;
    }

    /** Go through the waiting edits, each in a transaction of its own. */
    method HandlePush(turns: seq<Turn>)
      modifies this`w
      ensures w == if b.pushes then PushAll(old(w), b, turns) else old(w)
      ensures Inv(old(w).db) ==> Inv(w.db)
    {
      if !b.pushes {
        return;
      }
      ghost var w0 := w;
      for i := 0 to |turns|
        invariant PushAll(w0, b, turns) == PushAll(w, b, turns[i..])
      {
        assert turns[i..][1..] == turns[i + 1..];
        var t := turns[i];
        if t.l in w.db.outbox {
          var attempt := Tries(w, t.l) + 1;
          var answer := Push(t.l, t.hint, t.env);
          if answer.Done? || attempt >= MAX_TRIES {
            w := Finish(w, t.l);
          } else {
            w := w.(attempts := w.attempts[t.l := attempt]);
          }
        }
      }
      if Inv(w0.db) { PushAllKeeps(w0, b, turns); }
    }
  }
}

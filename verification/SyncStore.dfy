/** The pull as it runs: one transaction over the tables, one remote event after the other. */
module SyncStore {
  import opened Common
  import opened SyncPull
  import Spec = SyncPull

  class Puller {
    const b: Binding
    var st: State

    constructor (b: Binding, st: State)
      ensures this.b == b && this.st == st
    {
      this.b, this.st := b, st;
    }

    // -------------------------------------------------------------- queries

    method ByRemote(remote: string) returns (r: Option<LID>)
      requires OneToOne(st)
      ensures r == Spec.ByRemote(st, remote)
    {
      var found := set l | l in st.mapping && st.mapping[l].remote == remote;
      if l :| l in found {
        return Some(l);
      }
      assert forall l :: l in st.mapping && st.mapping[l].remote == remote ==> l in found;
      return None;
    }

    method EventByUID(uid: string) returns (r: Option<LID>)
      requires UniqueEvents(st)
      ensures r == Spec.EventByUID(st, uid)
    {
      var found := set l | l in st.local && st.local[l].link.None? && st.local[l].uid == Given(uid);
      if l :| l in found {
        return Some(l);
      }
      assert forall l :: l in st.local && st.local[l].link.None? && st.local[l].uid == Given(uid) ==> l in found;
      return None;
    }

    method OverrideAt(series: LID, at: int) returns (r: Option<LID>)
      requires UniqueEvents(st)
      ensures r == Spec.OverrideAt(st, series, at)
    {
      var found := set l | l in st.local && st.local[l].link == Some(Link(series, at));
      if l :| l in found {
        return Some(l);
      }
      assert forall l :: l in st.local && st.local[l].link == Some(Link(series, at)) ==> l in found;
      return None;
    }

    // -------------------------------------------------------------- steps

    method RemoveLocal(l: LID)
      modifies this`st
      ensures st == Spec.RemoveLocal(old(st), l)
    {
      if l in st.local {
        st := DeleteLocal(st, l);
      }
      st := DropOutbox(st, l);
      st := DeleteMapping(st, l);
    }

    method LocalWins(l: LID, localAt: int, remoteAt: int) returns (wins: bool)
      modifies this`st
      ensures (wins, st) == Spec.LocalWins(old(st), b, l, localAt, remoteAt)
    {
      if !b.pushes || l !in st.outbox {
        return false;
      }
      if localAt > remoteAt {
        return true;
      }
      st := DropOutbox(st, l);
      return false;
    }

    /** The store would release other events mapped to the remote one; a pull never leaves it any. */
    method Save(l: LID, e: Local, re: Item, now: int)
      requires NoRival(st, l, re.id)
      modifies this`st
      ensures st == PutMapping(PutLocal(old(st), l, e, now), l, Mapping(re.id, re.etag))
    {
      st := PutLocal(st, l, e, now);
      NothingReleased(st, l, Mapping(re.id, re.etag));
      st := SaveMapping(st, l, Mapping(re.id, re.etag));
    }

    method Create(re: Item, now: int)
      requires Inv(st) && Unmapped(st, re.id)
      modifies this`st
      ensures st == Spec.Create(old(st), b, re, now)
    {
      var uid := CleanUID(re.uid);
      if uid != "" {
        var cur := EventByUID(uid);
        if cur.Some? && cur.value !in st.mapping {
          var e := Convert(b, re, st.local[cur.value]);
          if e.Some? {
            Save(cur.value, e.value, re, now);
            return;
          }
        }
      }
      var taken := EventByUID(uid);
      var l := st.next;
      var given := uid != "" && taken.None?;
      var e := Convert(b, re, Local(if given then Given(uid) else Own(l), None, Body("", {}), false));
      if e.None? {
        return;
      }
      st := st.(next := l + 1);
      Save(l, e.value, re, now);
    }

    method Update(l: LID, etag: nat, re: Item, now: int, recreate: bool)
      requires Inv(st) && NoRival(st, l, re.id)
      modifies this`st
      ensures st == Spec.Update(old(st), b, l, etag, re, now, recreate)
    {
      if l !in st.local {
        if l in st.outbox && st.outbox[l].Delete? {
          return;
        }
        UnlinkKeeps(st, l, "");
        st := DeleteMapping(st, l);
        if recreate {
          Create(re, now);
        }
        return;
      }
      if etag != 0 && etag == re.etag {
        return;
      }
      var wins := LocalWins(l, TimeOf(st, l), re.updated);
      if wins {
        return;
      }
      var e := Convert(b, re, st.local[l]);
      if e.None? {
        return;
      }
      Save(l, e.value, re, now);
    }

    method Exclude(l: LID, at: int, now: int)
      requires OneToOne(st) && l in st.local && l in st.mapping
      modifies this`st
      ensures st == Spec.Exclude(old(st), l, at, now)
    {
      var e := st.local[l];
      if at in e.body.excluded || |e.body.excluded| >= MAX_EXCLUDED {
        return;
      }
      var m := st.mapping[l];
      st := PutLocal(st, l, e.(body := e.body.(excluded := e.body.excluded + {at})), now);
      NothingReleased(st, l, m);
      st := SaveMapping(st, l, m);
    }

    method ApplyInstance(re: Item, now: int)
      requires Inv(st)
      modifies this`st
      ensures st == Spec.ApplyInstance(old(st), b, re, now)
    {
      var mm := ByRemote(re.parent);
      if mm.None? || mm.value !in st.local || re.original.None? {
        return;
      }
      var master, at := mm.value, re.original.value;
      var m := ByRemote(re.id);
      if re.cancelled {
        if m.Some? {
          RemoveLocal(m.value);
        }
        if master in st.local && master in st.mapping {
          Exclude(master, at, now);
        }
        return;
      }
      if m.Some? {
        Update(m.value, st.mapping[m.value].etag, re, now, false);
        return;
      }
      var ov := OverrideAt(master, at);
      if ov.Some? {
        Update(ov.value, 0, re, now, false);
        return;
      }
      var l := st.next;
      var e := Convert(b, re, Local(st.local[master].uid, Some(Link(master, at)), Body("", {}), false));
      if e.None? {
        return;
      }
      var locked := e.value.readOnly || st.local[master].readOnly;
      st := st.(next := l + 1);
      Save(l, e.value.(readOnly := locked), re, now);
    }

    method Apply(re: Item, now: int)
      requires Inv(st)
      modifies this`st
      ensures st == Spec.Apply(old(st), b, re, now)
    {
      if re.parent != "" {
        ApplyInstance(re, now);
        return;
      }
      var m := ByRemote(re.id);
      if re.cancelled {
        if m.Some? {
          RemoveLocal(m.value);
          st := DeletePrefix(st, re.id + "_");
        }
      } else if m.None? {
        Create(re, now);
      } else {
        Update(m.value, st.mapping[m.value].etag, re, now, true);
      }
    }

    // -------------------------------------------------------------- a whole pull

    /** List the mapping table, in no particular order. */
    method Rows() returns (rows: seq<LID>)
      ensures Elements(rows) == st.mapping.Keys
    {
      rows := [];
      var left := set l | l in st.mapping;
      while left != {}
        invariant left <= st.mapping.Keys && Elements(rows) == st.mapping.Keys - left
        decreases left
      {
        HasElement(left);
        var l :| l in left;
        assert Elements(rows + [l]) == Elements(rows) + {l};
        rows, left := rows + [l], left - {l};
      }
    }

    method Reconcile(seen: set<string>) returns (rows: seq<LID>)
      modifies this`st
      ensures Elements(rows) == old(st).mapping.Keys
      ensures st == Spec.Reconcile(old(st), old(st).mapping, seen, rows)
    {
      rows := Rows();
      var read := st.mapping;
      ghost var s0 := st;
      for i := 0 to |rows|
        invariant Spec.Reconcile(s0, read, seen, rows) == Spec.Reconcile(st, read, seen, rows[i..])
      {
        assert rows[i..][1..] == rows[i + 1..];
        if rows[i] in read && read[rows[i]].remote !in seen {
          RemoveLocal(rows[i]);
        }
      }
    }

    /** Apply a batch, instances last, and after a full one remove what it does not have. */
    method PullEvents(items: seq<Item>, full: bool, now: int) returns (ghost rows: seq<LID>)
      requires Inv(st)
      modifies this`st
      ensures st == Pull(old(st), b, items, full, now, rows) && Inv(st)
      ensures full ==> forall l :: l in st.mapping ==> st.mapping[l].remote in Ids(items)
    {
      ghost var s0 := st;
      var xs := Ordered(items);
      var seen: set<string> := {};
      for i := 0 to |xs|
        invariant Inv(st) && ApplyAll(s0, b, xs, now) == ApplyAll(st, b, xs[i..], now)
        invariant seen == set j | 0 <= j < i :: xs[j].id
      {
        assert xs[i..][1..] == xs[i + 1..];
        ApplyKeeps(st, b, xs[i], now);
        seen := seen + {xs[i].id};
        Apply(xs[i], now);
      }
      assert seen == Ids(xs);
      SameIds(items);
      ghost var s1 := st;
      rows := Rows();
      PullKeeps(s0, b, items, full, now, rows);
      if full {
        rows := Reconcile(seen);
        PullKeeps(s0, b, items, full, now, rows);
      }
    }
  }

  lemma {:induction false} IdsSplit(xs: seq<Item>, ys: seq<Item>)
    ensures Ids(xs + ys) == Ids(xs) + Ids(ys)
  {
    forall i | 0 <= i < |ys| ensures ys[i].id in Ids(xs + ys) {
      assert (xs + ys)[|xs| + i] == ys[i];
    }
    forall i | 0 <= i < |xs| ensures xs[i].id in Ids(xs + ys) {
      assert (xs + ys)[i] == xs[i];
    }
  }

  lemma {:induction false} SameIds(items: seq<Item>)
    ensures Ids(Masters(items)) + Ids(Instances(items)) == Ids(items)
    ensures Ids(Ordered(items)) == Ids(items)
  {
    IdsSplit(Masters(items), Instances(items));
    if items != [] {
      SameIds(items[1..]);
      assert items == [items[0]] + items[1..];
      IdsSplit([items[0]], items[1..]);
      IdsSplit(if items[0].parent == "" then [items[0]] else [], Masters(items[1..]));
      IdsSplit(if items[0].parent != "" then [items[0]] else [], Instances(items[1..]));
    }
  }
}

/** Reconnecting a calendar loses the mapping of local to remote events.  A full pull then has to find
    the events it already holds and not insert them again. */
module SyncRepull {
  import opened Common
  import opened SyncPull

  /** The remote ids, the uids of live events and the replaced starts of live instances do not repeat. */
  ghost predicate WellFormed(items: seq<Item>) {
    && (forall x :: x in items ==> multiset(items)[x] == 1)
    && (forall x, y :: x in items && y in items && x != y ==> x.id != y.id)
    && (forall x :: x in items && x.parent == "" && !x.cancelled ==> CleanUID(x.uid) != "")
    && (forall x, y ::
          x in items && y in items && x != y && x.parent == "" && y.parent == "" && !x.cancelled && !y.cancelled
          ==> CleanUID(x.uid) != CleanUID(y.uid))
    && (forall x, y :: x in items && y in items && x != y && x.parent != "" &&
          x.parent == y.parent && !x.cancelled && !y.cancelled && x.original.Some?
          ==> x.original != y.original)
  }

  predicate SameIdentity(a: Local, b: Local) {
    a.uid == b.uid && a.link == b.link
  }

  /** `e` is the event `l` of the first pull, except that an override made by the first pull also has
      the read-only mark of its series, and one that was adopted has only its own. */
  predicate Alike(a: State, l: LID, e: Local)
    requires l in a.local
  {
    && SameIdentity(e, a.local[l]) && e.body == a.local[l].body
    && (if a.local[l].link.None? then e.readOnly == a.local[l].readOnly
        else
          var q := a.local[l].link.value.series;
          q in a.local && (a.local[l].readOnly <==> e.readOnly || a.local[q].readOnly))
  }

  // ---------------------------------------------------------------- the first pull

  /** What an item does the first time it is seen. */
  datatype Effect = Skip | Add(e: Local) | Omit(series: LID, at: int)

  ghost function EffectOf(s: State, b: Binding, x: Item): Effect {
    if x.parent == "" then
      if x.cancelled || x.body.None? then Skip
      else Add(Local(Given(CleanUID(x.uid)), None, x.body.value, !x.editable || b.readOnly))
    else
      var mm := ByRemote(s, x.parent);
      if mm.None? || mm.value !in s.local || x.original.None? then Skip
      else if x.cancelled then Omit(mm.value, x.original.value)
      else if x.body.None? then Skip
      else Add(NewInstance(s, b, x, mm.value, x.original.value))
  }

  function Insert(s: State, e: Local, x: Item, now: int): State {
    PutMapping(PutLocal(s.(next := s.next + 1), s.next, e, now), s.next, Mapping(x.id, x.etag))
  }

  ghost function Do(s: State, eff: Effect, x: Item, now: int): State
    requires eff.Omit? ==> eff.series in s.local && eff.series in s.mapping
  {
    match eff
    case Skip => s
    case Add(e) => Insert(s, e, x, now)
    case Omit(q, at) => Exclude(s, q, at, now)
  }

  /** The remote ids, uids and instance starts that a list of items has used. */
  datatype Trace = Trace(ids: set<string>, uids: set<UID>, slots: set<(string, int)>)

  predicate LiveEvent(x: Item) { x.parent == "" && !x.cancelled }

  predicate LiveInstance(x: Item) { x.parent != "" && !x.cancelled && x.original.Some? }

  function Grow(tr: Trace, x: Item): Trace {
    Trace(tr.ids + {x.id},
          if LiveEvent(x) then tr.uids + {Given(CleanUID(x.uid))} else tr.uids,
          if LiveInstance(x) then tr.slots + {(x.parent, x.original.value)} else tr.slots)
  }

  function TraceOf(items: seq<Item>): Trace {
    if items == [] then Trace({}, {}, {}) else Grow(TraceOf(items[..|items| - 1]), items[|items| - 1])
  }

  /** The item uses nothing that was used before. */
  predicate NewTo(tr: Trace, x: Item) {
    && x.id !in tr.ids
    && (LiveEvent(x) ==> CleanUID(x.uid) != "" && Given(CleanUID(x.uid)) !in tr.uids)
    && (LiveInstance(x) ==> (x.parent, x.original.value) !in tr.slots)
  }

  /** A state the first pull is in after such items: everything it holds it has from them. */
  ghost predicate FirstState(s: State, tr: Trace) {
    Inv(s) && s.outbox == map[] && Traced(s, tr)
  }

  ghost predicate Traced(s: State, tr: Trace) {
    && s.mapping.Keys == s.local.Keys
    && (forall l :: l in s.mapping ==> s.mapping[l].remote in tr.ids)
    && (forall l :: l in s.local && s.local[l].link.None? ==> s.local[l].uid in tr.uids)
    && (forall l :: l in s.local && s.local[l].link.Some? ==> HasSlot(s, tr, s.local[l].link.value))
  }

  predicate HasSlot(s: State, tr: Trace, k: Link) {
    k.series in s.mapping && (s.mapping[k.series].remote, k.at) in tr.slots
  }

  lemma {:induction false} FirstMaster(s: State, b: Binding, x: Item, now: int)
    requires x.parent == "" && ByRemote(s, x.id).None?
    requires !x.cancelled ==> CleanUID(x.uid) != "" && EventByUID(s, CleanUID(x.uid)).None?
    ensures Apply(s, b, x, now) == Do(s, EffectOf(s, b, x), x, now)
  {
  }

  lemma {:induction false} FirstInstance(s: State, b: Binding, x: Item, now: int)
    requires x.parent != "" && ByRemote(s, x.id).None? && s.mapping.Keys == s.local.Keys
    requires var mm := ByRemote(s, x.parent);
      mm.Some? && x.original.Some? && !x.cancelled ==> OverrideAt(s, mm.value, x.original.value).None?
    ensures EffectOf(s, b, x).Omit? ==> EffectOf(s, b, x).series in s.local && EffectOf(s, b, x).series in s.mapping
    ensures Apply(s, b, x, now) == Do(s, EffectOf(s, b, x), x, now)
  {
  }

  /** The first time, an item is skipped, added under a new id or left out of its series. */
  lemma {:induction false} FirstStep(s: State, b: Binding, tr: Trace, x: Item, now: int)
    requires FirstState(s, tr) && NewTo(tr, x)
    ensures EffectOf(s, b, x).Omit? ==> EffectOf(s, b, x).series in s.local && EffectOf(s, b, x).series in s.mapping
    ensures ByRemote(s, x.id).None? && Apply(s, b, x, now) == Do(s, EffectOf(s, b, x), x, now)
  {
    if x.parent == "" {
      FirstMaster(s, b, x, now);
    } else {
      var mm := ByRemote(s, x.parent);
      if mm.Some? && x.original.Some? && !x.cancelled {
        var ov := OverrideAt(s, mm.value, x.original.value);
        assert ov.Some? ==> HasSlot(s, tr, Link(mm.value, x.original.value));
      }
      FirstInstance(s, b, x, now);
    }
  }

  /** Nothing the first pull holds is lost or renamed. */
  ghost predicate Extends(s: State, s': State) {
    && s.next <= s'.next
    && (forall l :: l in s.local ==> l in s'.local && SameIdentity(s.local[l], s'.local[l]))
  }

  /** Omitting a start leaves the mapping alone. */
  lemma {:induction false} ExcludeIs(s: State, q: LID, at: int, now: int)
    requires OneToOne(s) && q in s.local && q in s.mapping
    ensures Exclude(s, q, at, now).mapping == s.mapping && Exclude(s, q, at, now).outbox == s.outbox
    ensures Exclude(s, q, at, now).next == s.next
    ensures Exclude(s, q, at, now).local.Keys == s.local.Keys
    ensures forall l :: l in s.local && l != q ==> Exclude(s, q, at, now).local[l] == s.local[l]
    ensures SameIdentity(Exclude(s, q, at, now).local[q], s.local[q])
    ensures Exclude(s, q, at, now).local[q].readOnly == s.local[q].readOnly
    ensures Exclude(s, q, at, now).local[q].body ==
      if |s.local[q].body.excluded| >= MAX_EXCLUDED then s.local[q].body
      else s.local[q].body.(excluded := s.local[q].body.excluded + {at})
  {
    if at in s.local[q].body.excluded { assert s.local[q].body.excluded + {at} == s.local[q].body.excluded; }
  }

  lemma {:induction false} InsertIs(s: State, e: Local, x: Item, now: int)
    requires ByRemote(s, x.id).None?
    ensures var s' := Insert(s, e, x, now);
      && s'.local == s.local[s.next := e] && s'.mapping == s.mapping[s.next := Mapping(x.id, x.etag)]
      && s'.outbox == s.outbox && s'.next == s.next + 1
  {
  }

  /** What the item says is what the new row holds. */
  predicate Explains(s: State, x: Item, e: Local) {
    && (e.link.None? ==> LiveEvent(x) && e.uid == Given(CleanUID(x.uid)))
    && (e.link.Some? ==>
          LiveInstance(x) && e.link.value.series in s.mapping &&
          x.parent == s.mapping[e.link.value.series].remote && x.original.value == e.link.value.at)
  }

  lemma {:induction false} AddExplains(s: State, b: Binding, x: Item)
    requires EffectOf(s, b, x).Add?
    ensures Explains(s, x, EffectOf(s, b, x).e)
  {
  }

  lemma {:induction false} AddTraced(s: State, s': State, e: Local, tr: Trace, x: Item)
    requires Traced(s, tr) && Explains(s, x, e) && s.next !in s.local
    requires s'.local == s.local[s.next := e] && s'.mapping == s.mapping[s.next := Mapping(x.id, x.etag)]
    ensures Traced(s', Grow(tr, x))
  {
    forall l | l in s'.local && s'.local[l].link.Some? ensures HasSlot(s', Grow(tr, x), s'.local[l].link.value) {
      if l != s.next { assert HasSlot(s, tr, s.local[l].link.value); }
    }
  }

  lemma {:induction false} AddState(s: State, s': State, e: Local, tr: Trace, x: Item)
    requires FirstState(s, tr) && Explains(s, x, e) && Inv(s') && s'.outbox == map[] && s'.next == s.next + 1
    requires s'.local == s.local[s.next := e] && s'.mapping == s.mapping[s.next := Mapping(x.id, x.etag)]
    ensures FirstState(s', Grow(tr, x)) && Extends(s, s')
  {
    assert s.next !in s.local;
    AddTraced(s, s', e, tr, x);
  }

  /** A state explained by some items is explained by more of them. */
  lemma {:induction false} MoreItems(s: State, s': State, tr: Trace, x: Item)
    requires FirstState(s, tr) && Inv(s') && s'.outbox == map[] && s'.mapping == s.mapping
    requires s'.local.Keys == s.local.Keys && s'.next == s.next
    requires forall l :: l in s.local ==> SameIdentity(s.local[l], s'.local[l])
    ensures FirstState(s', Grow(tr, x)) && Extends(s, s')
  {
    forall l | l in s'.local && s'.local[l].link.Some? ensures HasSlot(s', Grow(tr, x), s'.local[l].link.value) {
      assert HasSlot(s, tr, s.local[l].link.value);
    }
  }

  lemma {:induction false} DoState(s: State, tr: Trace, x: Item, eff: Effect, now: int)
    requires FirstState(s, tr) && ByRemote(s, x.id).None?
    requires eff.Omit? ==> eff.series in s.local && eff.series in s.mapping
    requires eff.Add? ==> Explains(s, x, eff.e)
    requires Inv(Do(s, eff, x, now))
    ensures FirstState(Do(s, eff, x, now), Grow(tr, x)) && Extends(s, Do(s, eff, x, now))
  {
    match eff
    case Add(e) =>
      InsertIs(s, e, x, now);
      AddState(s, Insert(s, e, x, now), e, tr, x);
    case Skip => MoreItems(s, s, tr, x);
    case Omit(q, at) =>
      ExcludeIs(s, q, at, now);
      MoreItems(s, Exclude(s, q, at, now), tr, x);
  }

  lemma {:induction false} FirstStepState(s: State, b: Binding, tr: Trace, x: Item, now: int) returns (s': State)
    requires FirstState(s, tr) && NewTo(tr, x)
    ensures s' == Apply(s, b, x, now) && FirstState(s', Grow(tr, x)) && Extends(s, s')
  {
    FirstStep(s, b, tr, x, now);
    ApplyKeeps(s, b, x, now);
    s' := Do(s, EffectOf(s, b, x), x, now);
    if EffectOf(s, b, x).Add? { AddExplains(s, b, x); }
    DoState(s, tr, x, EffectOf(s, b, x), now);
  }

  // ---------------------------------------------------------------- the second pull, in step with the first

  /** The second pull, in state `t`, is where the first was in state `a`: it has the same mapping, and
      the events the first had by then look as they did.  `f` is what the first pull ended with. */
  ghost predicate InStep(a: State, t: State, f: State) {
    && t.mapping == a.mapping && t.outbox == map[] && t.next == f.next
    && t.local.Keys == f.local.Keys && a.local.Keys <= f.local.Keys
    && (forall l :: l in f.local ==> SameIdentity(t.local[l], f.local[l]))
    && (forall l :: l in a.local ==> Alike(a, l, t.local[l]))
  }

  /** The same effect on events that exist already: adopt instead of insert. */
  function Redo(t: State, b: Binding, eff: Effect, l: LID, x: Item, now: int): State
    requires eff.Add? ==> l in t.local && x.body.Some?
    requires eff.Omit? ==> eff.series in t.local && eff.series in t.mapping
  {
    match eff
    case Skip => t
    case Add(_) => PutMapping(PutLocal(t, l, Convert(b, x, t.local[l]).value, now), l, Mapping(x.id, x.etag))
    case Omit(q, at) => Exclude(t, q, at, now)
  }

  lemma {:induction false} SameRemote(a: State, t: State, remote: string)
    requires OneToOne(a) && t.mapping == a.mapping
    ensures ByRemote(t, remote) == ByRemote(a, remote)
  {
  }

  /** Among the events of the first pull the row with this identity is the only one. */
  lemma {:induction false} OnlyOne(t: State, f: State, l: LID, e: Local)
    requires UniqueEvents(f) && t.local.Keys == f.local.Keys
    requires (forall k :: k in f.local ==> SameIdentity(t.local[k], f.local[k]))
    requires l in f.local && SameIdentity(f.local[l], e)
    ensures e.link.None? && e.uid.Given? ==> EventByUID(t, e.uid.uid) == Some(l)
    ensures e.link.Some? ==> OverrideAt(t, e.link.value.series, e.link.value.at) == Some(l)
  {
    if e.link.None? && e.uid.Given? {
      var r := EventByUID(t, e.uid.uid);
      assert t.local[l].uid == e.uid && t.local[l].link.None?;
      assert r.Some?;
      assert SameIdentity(t.local[r.value], f.local[r.value]);
    }
    if e.link.Some? {
      var r := OverrideAt(t, e.link.value.series, e.link.value.at);
      assert t.local[l].link == e.link;
      assert r.Some?;
      assert SameIdentity(t.local[r.value], f.local[r.value]);
    }
  }

  lemma {:induction false} AgainMaster(t: State, b: Binding, x: Item, l: LID, now: int)
    requires x.parent == "" && ByRemote(t, x.id).None?
    requires !x.cancelled && x.body.Some? ==>
      l in t.local && CleanUID(x.uid) != "" && EventByUID(t, CleanUID(x.uid)) == Some(l) && l !in t.mapping
    ensures Apply(t, b, x, now) ==
      if x.cancelled || x.body.None? then t
      else PutMapping(PutLocal(t, l, Convert(b, x, t.local[l]).value, now), l, Mapping(x.id, x.etag))
  {
  }

  lemma {:induction false} AgainInstance(t: State, b: Binding, x: Item, l: LID, q: LID, now: int)
    requires x.parent != "" && ByRemote(t, x.id).None? && ByRemote(t, x.parent) == Some(q)
    requires q in t.local && t.outbox == map[]
    requires x.original.Some? && !x.cancelled
    requires l in t.local && OverrideAt(t, q, x.original.value) == Some(l)
    ensures Apply(t, b, x, now) ==
      if x.body.None? then t
      else PutMapping(PutLocal(t, l, Convert(b, x, t.local[l]).value, now), l, Mapping(x.id, x.etag))
  {
  }

  lemma {:induction false} AgainIdle(t: State, b: Binding, x: Item, now: int)
    requires x.parent != "" && ByRemote(t, x.id).None? && t.outbox == map[] && t.mapping.Keys <= t.local.Keys
    requires var mm := ByRemote(t, x.parent); mm.None? || x.original.None? || x.cancelled || x.body.None?
    ensures var mm := ByRemote(t, x.parent);
      Apply(t, b, x, now) ==
        if mm.Some? && x.original.Some? && x.cancelled then Exclude(t, mm.value, x.original.value, now) else t
  {
  }

  /** The second time, the item does to the events at hand what it did to new ones. */
  lemma {:induction false} SecondStep(a: State, t: State, f: State, b: Binding, tr: Trace, x: Item, now: int)
    requires FirstState(a, tr) && NewTo(tr, x) && InStep(a, t, f) && Inv(f)
    requires EffectOf(a, b, x).Add? ==> a.next in f.local && SameIdentity(f.local[a.next], EffectOf(a, b, x).e)
    ensures EffectOf(a, b, x).Add? ==> x.body.Some?
    ensures EffectOf(a, b, x).Omit? ==> EffectOf(a, b, x).series in t.local && EffectOf(a, b, x).series in t.mapping
    ensures Apply(t, b, x, now) == Redo(t, b, EffectOf(a, b, x), a.next, x, now)
  {
    FirstStep(a, b, tr, x, now);
    SameRemote(a, t, x.id);
    SameRemote(a, t, x.parent);
    var eff := EffectOf(a, b, x);
    assert a.next !in a.local;
    if eff.Add? { OnlyOne(t, f, a.next, eff.e); }
    if x.parent == "" {
      AgainMaster(t, b, x, a.next, now);
    } else if eff.Add? {
      AgainInstance(t, b, x, a.next, ByRemote(a, x.parent).value, now);
    } else {
      AgainIdle(t, b, x, now);
    }
  }

  /** The new row is what converting the item onto it gives, but for the mark of the series. */
  predicate MadeFrom(s: State, b: Binding, x: Item, e: Local) {
    x.body.Some? &&
    var c := Convert(b, x, e).value;
    && e.body == c.body
    && (if e.link.None? then e.readOnly == c.readOnly
        else e.link.value.series in s.local && (e.readOnly <==> c.readOnly || s.local[e.link.value.series].readOnly))
  }

  lemma {:induction false} AddInStep(a: State, t: State, f: State, b: Binding, x: Item, e: Local, now: int, now': int)
    requires InStep(a, t, f) && ByRemote(a, x.id).None? && a.next !in a.mapping && a.next !in a.local && x.body.Some?
    requires a.next in f.local && SameIdentity(f.local[a.next], e) && MadeFrom(a, b, x, e)
    ensures InStep(Insert(a, e, x, now), Redo(t, b, Add(e), a.next, x, now'), f)
  {
    InsertIs(a, e, x, now);
    AdoptIs(t, b, x, a.next, now');
    var a', t' := Insert(a, e, x, now), Redo(t, b, Add(e), a.next, x, now');
    forall l | l in a'.local ensures Alike(a', l, t'.local[l]) {
      if l != a.next { assert Alike(a, l, t.local[l]); }
    }
  }

  lemma {:induction false} OmitInStep(a: State, t: State, f: State, q: LID, at: int, now: int, now': int)
    requires InStep(a, t, f) && OneToOne(a) && q in a.local && q in a.mapping
    ensures InStep(Exclude(a, q, at, now), Exclude(t, q, at, now'), f)
  {
    ExcludeIs(a, q, at, now);
    ExcludeIs(t, q, at, now');
    var a', t' := Exclude(a, q, at, now), Exclude(t, q, at, now');
    assert Alike(a, q, t.local[q]);
    forall l | l in a'.local ensures Alike(a', l, t'.local[l]) {
      assert Alike(a, l, t.local[l]);
      if l != q { assert a'.local[l] == a.local[l] && t'.local[l] == t.local[l]; }
    }
  }

  lemma {:induction false} AdoptIs(t: State, b: Binding, x: Item, l: LID, now: int)
    requires x.body.Some? && l in t.local && l !in t.mapping
    requires forall k :: k in t.mapping ==> t.mapping[k].remote != x.id
    ensures var t' := PutMapping(PutLocal(t, l, Convert(b, x, t.local[l]).value, now), l, Mapping(x.id, x.etag));
      && t'.local == t.local[l := Convert(b, x, t.local[l]).value] &&
        t'.mapping == t.mapping[l := Mapping(x.id, x.etag)]
      && t'.outbox == t.outbox && t'.next == t.next
  {
  }

  lemma {:induction false} AddBody(s: State, b: Binding, x: Item)
    requires EffectOf(s, b, x).Add?
    ensures x.body.Some? && MadeFrom(s, b, x, EffectOf(s, b, x).e)
  {
  }

  /** One item, in both pulls. */
  lemma {:induction false} BothStep(a: State, t: State, f: State, b: Binding, tr: Trace, x: Item, now: int, now': int)
    requires FirstState(a, tr) && NewTo(tr, x) && InStep(a, t, f) && Inv(f)
    requires Extends(Apply(a, b, x, now), f)
    ensures InStep(Apply(a, b, x, now), Apply(t, b, x, now'), f)
  {
    FirstStep(a, b, tr, x, now);
    var eff := EffectOf(a, b, x);
    assert a.next !in a.local && a.mapping.Keys == a.local.Keys;
    if eff.Add? {
      AddBody(a, b, x);
      InsertIs(a, eff.e, x, now);
      assert a.next in Insert(a, eff.e, x, now).local;
      SecondStep(a, t, f, b, tr, x, now');
      AddInStep(a, t, f, b, x, eff.e, now, now');
    } else {
      SecondStep(a, t, f, b, tr, x, now');
      if eff.Omit? { OmitInStep(a, t, f, eff.series, eff.at, now, now'); }
    }
  }

  predicate NewList(tr: Trace, items: seq<Item>)
    decreases |items|
  {
    items == [] || (NewTo(tr, items[0]) && NewList(Grow(tr, items[0]), items[1..]))
  }

  lemma {:induction false} FirstRun(s: State, b: Binding, tr: Trace, items: seq<Item>, now: int)
    requires FirstState(s, tr) && NewList(tr, items)
    ensures Extends(s, ApplyAll(s, b, items, now)) && Inv(ApplyAll(s, b, items, now))
    ensures forall l :: l in ApplyAll(s, b, items, now).mapping ==>
      ApplyAll(s, b, items, now).mapping[l].remote in tr.ids + Ids(items)
    ensures ApplyAll(s, b, items, now).outbox == map[]
    ensures ApplyAll(s, b, items, now).mapping.Keys == ApplyAll(s, b, items, now).local.Keys
    decreases |items|
  {
    if items != [] {
      var s' := FirstStepState(s, b, tr, items[0], now);
      FirstRun(s', b, Grow(tr, items[0]), items[1..], now);
      forall i | 0 <= i < |items[1..]| ensures items[1..][i].id in Ids(items) {
        assert items[1..][i] == items[i + 1];
      }
      assert items[0].id in Ids(items);
    }
  }

  lemma {:induction false} BothRun(a: State, t: State, f: State, b: Binding, tr: Trace, items: seq<Item>, now: int,
                                   now': int)
    requires FirstState(a, tr) && NewList(tr, items) && InStep(a, t, f) && f == ApplyAll(a, b, items, now)
    ensures InStep(f, ApplyAll(t, b, items, now'), f)
    decreases |items|
  {
    if items != [] {
      var x := items[0];
      var a' := FirstStepState(a, b, tr, x, now);
      FirstRun(a', b, Grow(tr, x), items[1..], now);
      BothStep(a, t, f, b, tr, x, now, now');
      BothRun(a', Apply(t, b, x, now'), f, b, Grow(tr, x), items[1..], now, now');
    }
  }

  // ---------------------------------------------------------------- the read-only mark

  /** The mark an item gives its event by itself. */
  predicate OwnMark(b: Binding, x: Item) {
    !x.editable || b.readOnly
  }

  ghost predicate MarkedBy(e: Local, remote: string, b: Binding, items: seq<Item>) {
    exists x :: x in items && x.id == remote && (e.readOnly <==> OwnMark(b, x))
  }

  /** In the second pull, every event met so far has the mark of its own item. */
  ghost predicate Marked(a: State, t: State, b: Binding, done: seq<Item>) {
    forall l :: l in a.local ==> l in a.mapping && l in t.local && MarkedBy(t.local[l], a.mapping[l].remote, b, done)
  }

  lemma {:induction false} MarkedMore(e: Local, remote: string, b: Binding, done: seq<Item>, x: Item)
    ensures MarkedBy(e, remote, b, done) ==> MarkedBy(e, remote, b, done + [x])
    ensures remote == x.id && e.readOnly == OwnMark(b, x) ==> MarkedBy(e, remote, b, done + [x])
  {
    assert x in done + [x];
    if MarkedBy(e, remote, b, done) {
      var y :| y in done && y.id == remote && (e.readOnly <==> OwnMark(b, y));
      assert y in done + [x];
    }
  }

  lemma {:induction false} MarkAdd(a: State, t: State, b: Binding, x: Item, e: Local, now: int, now': int,
                                   done: seq<Item>)
    requires Marked(a, t, b, done) && ByRemote(a, x.id).None? && a.next !in a.mapping && a.next !in a.local
    requires a.next in t.local && x.body.Some? && ByRemote(t, x.id).None? && t.mapping == a.mapping
    ensures Marked(Insert(a, e, x, now), Redo(t, b, Add(e), a.next, x, now'), b, done + [x])
  {
    InsertIs(a, e, x, now);
    AdoptIs(t, b, x, a.next, now');
    var a', t' := Insert(a, e, x, now), Redo(t, b, Add(e), a.next, x, now');
    forall l | l in a'.local
      ensures l in a'.mapping && l in t'.local && MarkedBy(t'.local[l], a'.mapping[l].remote, b, done + [x])
    {
      MarkedMore(t'.local[l], a'.mapping[l].remote, b, done, x);
    }
  }

  lemma {:induction false} MarkOmit(a: State, t: State, b: Binding, q: LID, at: int, now: int, now': int,
                                    done: seq<Item>, x: Item)
    requires Marked(a, t, b, done) && OneToOne(a) && OneToOne(t) && q in a.local && q in a.mapping && q in t.local
    requires q in t.mapping
    ensures Marked(Exclude(a, q, at, now), Exclude(t, q, at, now'), b, done + [x])
  {
    ExcludeIs(a, q, at, now);
    ExcludeIs(t, q, at, now');
    var a', t' := Exclude(a, q, at, now), Exclude(t, q, at, now');
    forall l | l in a'.local
      ensures l in a'.mapping && l in t'.local && MarkedBy(t'.local[l], a'.mapping[l].remote, b, done + [x])
    {
      assert t'.local[l].readOnly == t.local[l].readOnly;
      MarkedMore(t.local[l], a.mapping[l].remote, b, done, x);
      MarkedSame(t.local[l], t'.local[l], a.mapping[l].remote, b, done + [x]);
    }
  }

  lemma {:induction false} MarkedSame(e: Local, e': Local, remote: string, b: Binding, items: seq<Item>)
    requires e.readOnly == e'.readOnly && MarkedBy(e, remote, b, items)
    ensures MarkedBy(e', remote, b, items)
  {
  }

  lemma {:induction false} MarkStep(a: State, t: State, f: State, b: Binding, tr: Trace, x: Item, now: int, now': int,
                                    done: seq<Item>)
    requires FirstState(a, tr) && NewTo(tr, x) && InStep(a, t, f) && Inv(f) && Extends(Apply(a, b, x, now), f)
    requires Marked(a, t, b, done)
    ensures Marked(Apply(a, b, x, now), Apply(t, b, x, now'), b, done + [x])
  {
    FirstStep(a, b, tr, x, now);
    var eff := EffectOf(a, b, x);
    if eff.Add? {
      AddBody(a, b, x);
      InsertIs(a, eff.e, x, now);
      assert a.next in Insert(a, eff.e, x, now).local;
      SecondStep(a, t, f, b, tr, x, now');
      SameRemote(a, t, x.id);
      MarkAdd(a, t, b, x, eff.e, now, now', done);
    } else {
      SecondStep(a, t, f, b, tr, x, now');
      if eff.Omit? {
        MarkOmit(a, t, b, eff.series, eff.at, now, now', done, x);
      } else {
        forall l | l in a.local ensures MarkedBy(t.local[l], a.mapping[l].remote, b, done + [x]) {
          MarkedMore(t.local[l], a.mapping[l].remote, b, done, x);
        }
      }
    }
  }

  /** The first item of a list, in both pulls, with all that the rest of the list needs. */
  lemma {:induction false} MarkHead(a: State, t: State, f: State, b: Binding, tr: Trace, items: seq<Item>, now: int,
                                    now': int, done: seq<Item>)
      returns (a': State, t': State)
    requires items != [] && FirstState(a, tr) && NewList(tr, items) && InStep(a, t, f)
    requires f == ApplyAll(a, b, items, now) && Marked(a, t, b, done)
    ensures t' == Apply(t, b, items[0], now') && f == ApplyAll(a', b, items[1..], now)
    ensures NewList(Grow(tr, items[0]), items[1..])
    ensures FirstState(a', Grow(tr, items[0])) && InStep(a', t', f) && Marked(a', t', b, done + [items[0]])
  {
    var x := items[0];
    a' := FirstStepState(a, b, tr, x, now);
    t' := Apply(t, b, x, now');
    FirstRun(a', b, Grow(tr, x), items[1..], now);
    BothStep(a, t, f, b, tr, x, now, now');
    MarkStep(a, t, f, b, tr, x, now, now', done);
  }

  lemma {:induction false} MarkRun(a: State, t: State, f: State, b: Binding, tr: Trace, items: seq<Item>, now: int,
                                   now': int, done: seq<Item>)
    requires FirstState(a, tr) && NewList(tr, items) && InStep(a, t, f) && f == ApplyAll(a, b, items, now)
    requires Marked(a, t, b, done)
    ensures Marked(f, ApplyAll(t, b, items, now'), b, done + items)
    decreases |items|
  {
    if items == [] {
      assert done + items == done;
    } else {
      var a', t' := MarkHead(a, t, f, b, tr, items, now, now', done);
      MarkRun(a', t', f, b, Grow(tr, items[0]), items[1..], now, now', done + [items[0]]);
      assert done + [items[0]] + items[1..] == done + items;
    }
  }

  // ---------------------------------------------------------------- from lists to traces

  lemma {:induction false} TraceMembers(items: seq<Item>)
    ensures forall i :: i in TraceOf(items).ids ==> exists x :: x in items && x.id == i
    ensures forall u :: u in TraceOf(items).uids ==>
      exists x :: x in items && LiveEvent(x) && Given(CleanUID(x.uid)) == u
    ensures forall k :: k in TraceOf(items).slots ==>
      exists x :: x in items && LiveInstance(x) && (x.parent, x.original.value) == k
  {
    if items != [] {
      var n := |items| - 1;
      TraceMembers(items[..n]);
      assert items == items[..n] + [items[n]];
    }
  }

  /** The last item of a well-formed list uses nothing that was used before it. */
  lemma {:induction false} LastIsNew(done: seq<Item>, x: Item, rest: seq<Item>)
    requires WellFormed(done + [x] + rest)
    ensures NewTo(TraceOf(done), x)
  {
    var all := done + [x] + rest;
    assert multiset(all) == multiset(done) + multiset{x} + multiset(rest);
    assert all[|done|] == x;
    assert x in all && multiset(all)[x] == 1;
    assert multiset(done)[x] == 0;
    TraceMembers(done);
    forall y | y in done ensures y in all && y != x {
      assert y in multiset(done);
    }
  }

  lemma {:induction false} WellFormedIsNew(done: seq<Item>, rest: seq<Item>)
    requires WellFormed(done + rest)
    ensures NewList(TraceOf(done), rest)
    decreases |rest|
  {
    if rest != [] {
      var x := rest[0];
      assert done + rest == done + [x] + rest[1..];
      LastIsNew(done, x, rest[1..]);
      assert (done + [x])[..|done|] == done;
      WellFormedIsNew(done + [x], rest[1..]);
    }
  }

  lemma {:induction false} OrderedWellFormed(items: seq<Item>)
    requires WellFormed(items)
    ensures WellFormed(Ordered(items))
  {
    OrderedIs(items);
    assert multiset(Ordered(items)) == multiset(items);
    forall x ensures x in Ordered(items) <==> x in items {
      assert x in multiset(Ordered(items)) <==> x in multiset(items);
    }
  }

  // ---------------------------------------------------------------- the main result

  function Empty(next: LID): State {
    State(map[], map[], map[], map[], next)
  }

  lemma {:induction false} NothingToRemove(s: State, read: map<LID, Mapping>, seen: set<string>, rows: seq<LID>)
    requires forall l :: l in read ==> read[l].remote in seen
    ensures Reconcile(s, read, seen, rows) == s
    decreases |rows|
  {
    if rows != [] { NothingToRemove(s, read, seen, rows[1..]); }
  }

  lemma {:induction false} OrderedIds(items: seq<Item>)
    ensures forall i :: i in Ids(Ordered(items)) ==> i in Ids(items)
  {
    OrderedIs(items);
    forall i | 0 <= i < |Ordered(items)| ensures Ordered(items)[i].id in Ids(items) {
      assert Ordered(items)[i] in multiset(Ordered(items));
      assert multiset(Ordered(items)) == multiset(items);
      assert Ordered(items)[i] in items;
      var j :| 0 <= j < |items| && items[j] == Ordered(items)[i];
    }
  }

  /** Every mapping names an item of the snapshot, so a full pull removes nothing. */
  lemma {:induction false} NothingMissing(f: State, items: seq<Item>, rows: seq<LID>, before: set<string>)
    requires before == {} && forall l :: l in f.mapping ==> f.mapping[l].remote in before + Ids(Ordered(items))
    ensures Reconcile(f, f.mapping, Ids(items), rows) == f
  {
    OrderedIds(items);
    NothingToRemove(f, f.mapping, Ids(items), rows);
  }

  lemma {:induction false} SnapshotIsNew(items: seq<Item>)
    requires WellFormed(items)
    ensures NewList(Trace({}, {}, {}), Ordered(items))
  {
    OrderedWellFormed(items);
    assert [] + Ordered(items) == Ordered(items);
    WellFormedIsNew([], Ordered(items));
  }

  lemma {:induction false} StartsEmpty(next: LID)
    ensures FirstState(Empty(next), Trace({}, {}, {}))
  {
  }

  lemma {:induction false} StartsInStep(next: LID, f: State)
    requires f.outbox == map[]
    ensures InStep(Empty(next), f.(mapping := map[]), f)
  {
  }

  /** What two runs over the same list, the second without the mapping of the first, come to. */
  lemma {:induction false} RunTwice(b: Binding, items: seq<Item>, next: LID, now: int, now': int)
    requires WellFormed(items)
    ensures var f := ApplyAll(Empty(next), b, Ordered(items), now);
      var t := ApplyAll(f.(mapping := map[]), b, Ordered(items), now');
      && InStep(f, t, f) && f.mapping.Keys == f.local.Keys && Marked(f, t, b, Ordered(items))
      && forall l :: l in f.mapping ==> f.mapping[l].remote in {} + Ids(Ordered(items))
  {
    var xs := Ordered(items);
    SnapshotIsNew(items);
    StartsEmpty(next);
    FirstRun(Empty(next), b, Trace({}, {}, {}), xs, now);
    var f := ApplyAll(Empty(next), b, xs, now);
    StartsInStep(next, f);
    BothRun(Empty(next), f.(mapping := map[]), f, b, Trace({}, {}, {}), xs, now, now');
    MarkRun(Empty(next), f.(mapping := map[]), f, b, Trace({}, {}, {}), xs, now, now', []);
    assert [] + xs == xs;
  }

  /** An override keeps its mark when it has that by itself, or its series has none to give. */
  predicate KeepsMark(s1: State, l: LID, b: Binding, x: Item)
    requires l in s1.local
  {
    var link := s1.local[l].link;
    link.None? || OwnMark(b, x) || (link.value.series in s1.local && !s1.local[link.value.series].readOnly)
  }

  /** After the second pull every event has the mark of its own item, and is all as it was exactly when it
      keeps its mark. */
  ghost predicate MarksExact(s1: State, s2: State, b: Binding, items: seq<Item>) {
    forall l, x :: l in s1.local && l in s1.mapping && l in s2.local && x in items && x.id == s1.mapping[l].remote ==>
      MarkExact(s1, l, s2.local[l], b, x)
  }

  predicate MarkExact(s1: State, l: LID, e: Local, b: Binding, x: Item)
    requires l in s1.local
  {
    e.readOnly == OwnMark(b, x) && (e == s1.local[l] <==> KeepsMark(s1, l, b, x))
  }

  lemma {:induction false} OrderedMember(items: seq<Item>, y: Item)
    requires y in Ordered(items)
    ensures y in items
  {
    OrderedIs(items);
    assert y in multiset(Ordered(items));
    assert multiset(Ordered(items)) == multiset(items);
  }

  lemma {:induction false} SameItem(items: seq<Item>, x: Item, y: Item)
    requires WellFormed(items) && x in items && y in items && x.id == y.id
    ensures x == y
  {
  }

  lemma {:induction false} MarkAt(s1: State, l: LID, e: Local, b: Binding, items: seq<Item>, x: Item)
    requires WellFormed(items) && l in s1.local && l in s1.mapping && Alike(s1, l, e)
    requires MarkedBy(e, s1.mapping[l].remote, b, Ordered(items))
    requires x in items && x.id == s1.mapping[l].remote
    ensures MarkExact(s1, l, e, b, x)
  {
    var y :| y in Ordered(items) && y.id == s1.mapping[l].remote && (e.readOnly <==> OwnMark(b, y));
    OrderedMember(items, y);
    SameItem(items, x, y);
  }

  lemma {:induction false} MarksAre(s1: State, s2: State, b: Binding, items: seq<Item>)
    requires WellFormed(items) && Marked(s1, s2, b, Ordered(items))
    requires (forall l :: l in s1.local ==> l in s2.local && Alike(s1, l, s2.local[l]))
    ensures MarksExact(s1, s2, b, items)
  {
    forall l, x | l in s1.local && l in s1.mapping && l in s2.local && x in items && x.id == s1.mapping[l].remote
      ensures MarkExact(s1, l, s2.local[l], b, x)
    {
      MarkAt(s1, l, s2.local[l], b, items, x);
    }
  }

  lemma {:induction false} FirstPullIs(b: Binding, items: seq<Item>, next: LID, now: int, rows: seq<LID>)
    requires WellFormed(items)
    ensures Pull(Empty(next), b, items, true, now, rows) == ApplyAll(Empty(next), b, Ordered(items), now)
  {
    RunTwice(b, items, next, now, now);
    NothingMissing(ApplyAll(Empty(next), b, Ordered(items), now), items, rows, {});
  }

  /** Pull a well-formed snapshot into an empty calendar, lose every mapping and pull it again: nothing
      is inserted, every remote event is paired with the local event it had, and the events are as they
      were, except that an override loses the read-only mark it had only from its series. */
  lemma {:induction false} RepullAdopts(b: Binding, items: seq<Item>, next: LID, now: int, now': int, rows: seq<LID>,
                                        rows': seq<LID>)
    requires WellFormed(items)
    ensures var s1 := Pull(Empty(next), b, items, true, now, rows);
      var s2 := Pull(s1.(mapping := map[]), b, items, true, now', rows');
      && s2.mapping == s1.mapping && s2.next == s1.next && s2.outbox == map[]
      && s2.local.Keys == s1.local.Keys && s1.mapping.Keys == s1.local.Keys
      && (forall l :: l in s1.local ==> Alike(s1, l, s2.local[l]))
      && MarksExact(s1, s2, b, items)
  {
    var f := ApplyAll(Empty(next), b, Ordered(items), now);
    var t := ApplyAll(f.(mapping := map[]), b, Ordered(items), now');
    RunTwice(b, items, next, now, now');
    NothingMissing(f, items, rows, {});
    NothingMissing(t, items, rows', {});
    MarksAre(f, t, b, items);
  }

  /** A series nobody may edit, and an editable instance of it. */
  function ClosedSeries(): Item {
    Item("s", "u", "", false, None, Some(Body("series", {})), false, 1, 0)
  }

  function OpenInstance(): Item {
    Item("s_1", "u", "s", false, Some(7), Some(Body("moved", {})), true, 2, 0)
  }

  /** What the first pull of these two makes. */
  lemma {:induction false} ClosedSeriesPulled(now: int)
    ensures var s1 := ApplyAll(Empty(0), Binding(true, false), [ClosedSeries(), OpenInstance()], now);
      && s1.local.Keys == {0, 1} && s1.mapping.Keys == {0, 1} && s1.mapping[1].remote == "s_1"
      && s1.local[1].link == Some(Link(0, 7)) && s1.local[0].readOnly && s1.local[1].readOnly
  {
    var b, x, y := Binding(true, false), ClosedSeries(), OpenInstance();
    var a0 := Empty(0);
    TrimmedWord();
    var a1 := Apply(a0, b, x, now);
    assert a1.local == map[0 := Local(Given("u"), None, Body("series", {}), true)];
    assert a1.mapping == map[0 := Mapping("s", 1)] && a1.next == 1;
    assert 0 in a1.mapping && a1.mapping[0].remote == "s" && |"s_1"| != |"s"|;
    assert ByRemote(a1, "s") == Some(0) && ByRemote(a1, "s_1") == None && OverrideAt(a1, 0, 7) == None;
    var a2 := Apply(a1, b, y, now);
    assert a2.local == a1.local[1 := Local(Given("u"), Some(Link(0, 7)), Body("moved", {}), true)];
    assert a2.mapping == a1.mapping[1 := Mapping("s_1", 2)];
    assert [x, y][1..] == [y] && [y][1..] == [];
    assert ApplyAll(a1, b, [y], now) == a2;
  }

  lemma {:induction false} TrimmedWord()
    ensures CleanUID("u") == "u"
  {
  }

  /** Its override is read-only after the first pull and editable after the second. */
  lemma {:induction false} MarkIsLost(now: int, now': int, rows: seq<LID>, rows': seq<LID>)
    ensures var b, items := Binding(true, false), [ClosedSeries(), OpenInstance()];
      var s1 := Pull(Empty(0), b, items, true, now, rows);
      var s2 := Pull(s1.(mapping := map[]), b, items, true, now', rows');
      1 in s1.local && s1.local[1].readOnly && 1 in s2.local && !s2.local[1].readOnly
  {
    var b, x, y := Binding(true, false), ClosedSeries(), OpenInstance();
    var items := [x, y];
    SmallSnapshot(x, y);
    InOrder(x, y);
    ClosedSeriesPulled(now);
    FirstPullIs(b, items, 0, now, rows);
    RepullAdopts(b, items, 0, now, now', rows, rows');
    var s1 := Pull(Empty(0), b, items, true, now, rows);
    var s2 := Pull(s1.(mapping := map[]), b, items, true, now', rows');
    MarkSeen(s1, s2, b, items, 1, y);
  }

  lemma {:induction false} MarkSeen(s1: State, s2: State, b: Binding, items: seq<Item>, l: LID, x: Item)
    requires MarksExact(s1, s2, b, items) && l in s1.local && l in s1.mapping && l in s2.local && x in items
    requires x.id == s1.mapping[l].remote
    ensures s2.local[l].readOnly == OwnMark(b, x)
  {
  }

  lemma {:induction false} SmallSnapshot(x: Item, y: Item)
    requires x == ClosedSeries() && y == OpenInstance()
    ensures WellFormed([x, y])
  {
    TrimmedWord();
    assert |x.id| != |y.id|;
    assert multiset([x, y])[x] == 1 && multiset([x, y])[y] == 1;
  }

  lemma {:induction false} InOrder(x: Item, y: Item)
    requires x.parent == "" && y.parent != ""
    ensures Ordered([x, y]) == [x, y]
  {
    assert [x, y][1..] == [y] && [y][1..] == [];
    assert Masters([y]) == [] && Instances([y]) == [y];
  }
}

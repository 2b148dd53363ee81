/** Finding duplicates and removing them: pairs are found by uid, by fingerprint and by similar titles
    at nearly the same time; a policy says which pairs lose their second member at once. */
module Dedup {
  import opened Common

  const MAX_PAIRS := 500
  const WINDOW := 900

  type Id = nat

  /** An event or a task as the scan sees it; `mark` is its fingerprint (for a task, with its list),
      and a title without anything visible is empty. */
  datatype Item = Item(id: Id, uid: string, mark: string, title: string, allDay: bool, start: int)

  datatype Reason = ByUid | ByPrint | Fuzzy

  datatype Policy = Off | Flag | AutoExact | AutoPrint

  datatype Pair = Pair(todo: bool, a: Id, b: Id, reason: Reason)

  predicate Auto(p: Pair, policy: Policy) {
    match policy
    case AutoPrint => p.reason.ByUid? || p.reason.ByPrint?
    case AutoExact => p.reason.ByUid?
    case _ => false
  }

  function PairKey(x: Id, y: Id): (Id, Id) {
    if y < x then (y, x) else (x, y)
  }

  function Duplicate(todo: bool, x: Id, y: Id, reason: Reason): Pair {
    if y < x then Pair(todo, y, x, reason) else Pair(todo, x, y, reason)
  }

  // ---------------------------------------------------------------- what a pair means

  ghost predicate Distinct(items: seq<Item>) {
    forall i, j :: 0 <= i < j < |items| ==> items[i].id != items[j].id
  }

  /** Titles the similarity test accepts, in the order it is asked. */
  type Likeness = set<(string, string)>

  predicate Similar(x: Item, y: Item, alike: Likeness) {
    && x.allDay == y.allDay && x.title != "" && y.title != "" && -WINDOW <= x.start - y.start <= WINDOW
    && ((x.title, y.title) in alike || (y.title, x.title) in alike)
  }

  predicate Matches(x: Item, y: Item, reason: Reason, alike: Likeness) {
    match reason
    case ByUid => x.uid != "" && x.uid == y.uid
    case ByPrint => x.mark == y.mark
    case Fuzzy => Similar(x, y, alike)
  }

  ghost predicate Backed(p: Pair, items: seq<Item>, alike: Likeness) {
    p.a < p.b && exists x, y :: x in items && y in items && x.id == p.a && y.id == p.b && Matches(x, y, p.reason, alike)
  }

  // ---------------------------------------------------------------- groups

  function KeyOf(x: Item, reason: Reason): string {
    if reason.ByUid? then x.uid else x.mark
  }

  predicate Grouped(x: Item, reason: Reason) {
    reason.ByUid? ==> x.uid != ""
  }

  function Group(items: seq<Item>, key: string, reason: Reason): (r: seq<Item>)
    ensures forall x :: x in r <==> x in items && Grouped(x, reason) && KeyOf(x, reason) == key
  {
    if items == [] then []
    else
      var x, rest := items[|items| - 1], Group(items[..|items| - 1], key, reason);
      if Grouped(x, reason) && KeyOf(x, reason) == key then rest + [x] else rest
  }

  ghost predicate GroupsOf(m: map<string, seq<Item>>, items: seq<Item>, reason: Reason) {
    forall k :: Group(items, k, reason) == if k in m then m[k] else []
  }

  function AddTo(m: map<string, seq<Item>>, x: Item, reason: Reason): map<string, seq<Item>> {
    var k := KeyOf(x, reason);
    if !Grouped(x, reason) then m else m[k := (if k in m then m[k] else []) + [x]]
  }

  lemma {:induction false} GroupsMore(m: map<string, seq<Item>>, items: seq<Item>, x: Item, reason: Reason)
    requires GroupsOf(m, items, reason)
    ensures GroupsOf(AddTo(m, x, reason), items + [x], reason)
  {
    assert (items + [x])[..|items|] == items;
    forall k ensures Group(items + [x], k, reason) == if k in AddTo(m, x, reason) then AddTo(m, x, reason)[k] else [] {
      assert Group(items, k, reason) == if k in m then m[k] else [];
    }
  }

  method BuildGroups(items: seq<Item>, reason: Reason) returns (m: map<string, seq<Item>>)
    ensures GroupsOf(m, items, reason)
  {
    m := map[];
    for i := 0 to |items|
      invariant GroupsOf(m, items[..i], reason)
    {
      var x := items[i];
      GroupsMore(m, items[..i], x, reason);
      assert items[..i + 1] == items[..i] + [x];
      m := AddTo(m, x, reason);
    }
    assert items[..|items|] == items;
  }

  lemma {:induction false} GroupDistinct(items: seq<Item>, key: string, reason: Reason)
    requires Distinct(items)
    ensures Distinct(Group(items, key, reason))
  {
    if items != [] {
      var before, x := items[..|items| - 1], items[|items| - 1];
      GroupDistinct(before, key, reason);
      var rest := Group(before, key, reason);
      forall i | 0 <= i < |rest| ensures rest[i].id != x.id {
        assert rest[i] in before;
      }
    }
  }

  /** The head of every group is paired with all its other members. */
  ghost predicate Covers(seen: set<(Id, Id)>, group: seq<Item>) {
    forall i :: 1 <= i < |group| ==> PairKey(group[0].id, group[i].id) in seen
  }

  ghost predicate CoversBut(seen: set<(Id, Id)>, items: seq<Item>, reason: Reason, left: set<string>) {
    forall k :: k !in left ==> Covers(seen, Group(items, k, reason))
  }

  lemma {:induction false} CoversMore(was: set<(Id, Id)>, seen: set<(Id, Id)>, items: seq<Item>, reason: Reason,
                                      left: set<string>)
    requires was <= seen && CoversBut(was, items, reason, left)
    ensures CoversBut(seen, items, reason, left)
  {
    forall k | k !in left ensures Covers(seen, Group(items, k, reason)) {
      assert Covers(was, Group(items, k, reason));
    }
  }

  ghost predicate CoversAll(seen: set<(Id, Id)>, items: seq<Item>, reason: Reason) {
    forall k :: Covers(seen, Group(items, k, reason))
  }

  /** The items in some order of their starts. */
  ghost predicate Arranged(timed: seq<Item>, items: seq<Item>) {
    Distinct(timed) && (forall x :: x in timed <==> x in items) && forall i, j :: 0 <= i < j < |timed| ==>
      timed[i].start <= timed[j].start
  }

  /** Similar, the titles asked about in this order. */
  predicate Wanted(x: Item, y: Item, alike: Likeness) {
    Similar(x, y, alike) && (x.title, y.title) in alike
  }

  ghost predicate CoversLater(seen: set<(Id, Id)>, timed: seq<Item>, i: int, alike: Likeness)
    requires 0 <= i < |timed|
  {
    forall j :: i < j < |timed| && Wanted(timed[i], timed[j], alike) ==> PairKey(timed[i].id, timed[j].id) in seen
  }

  ghost predicate CoversSimilar(seen: set<(Id, Id)>, timed: seq<Item>, alike: Likeness) {
    forall i :: 0 <= i < |timed| ==> CoversLater(seen, timed, i, alike)
  }

  ghost predicate AllBacked(pairs: seq<Pair>, events: seq<Item>, todos: seq<Item>, alike: Likeness) {
    forall p :: p in pairs ==> Backed(p, if p.todo then todos else events, alike)
  }

  // ---------------------------------------------------------------- the scan as it runs

  class Finder {
    /** Pairs the user has dealt with before, and pairs whose lookup fails. */
    const resolved: set<(bool, Id, Id)>
    const broken: set<(bool, Id, Id)>
    const alike: Likeness
    var seen: set<(Id, Id)>
    var out: seq<Pair>

    constructor (resolved: set<(bool, Id, Id)>, broken: set<(bool, Id, Id)>, alike: Likeness)
      ensures out == [] && seen == {} && this.resolved == resolved && this.broken == broken && this.alike == alike
    {
      this.resolved, this.broken, this.alike := resolved, broken, alike;
      seen, out := {}, [];
    }

    /** All pairs found so far for this kind of item are backed by it and found once; a pair seen was
        recorded unless it had been dealt with, or its lookup failed. */
    ghost predicate Valid(todo: bool, items: seq<Item>)
      reads this
    {
      && |out| <= MAX_PAIRS
      && (forall p :: p in out && p.todo == todo ==> Backed(p, items, alike) && (p.a, p.b) in seen)
      && (forall i, j :: 0 <= i < j < |out| ==> (out[i].todo, out[i].a, out[i].b) != (out[j].todo, out[j].a, out[j].b))
    }

    ghost predicate Recorded(todo: bool)
      reads this
    {
      forall k :: k in seen ==>
        (todo, k.0, k.1) in resolved || exists p :: p in out && p.todo == todo && (p.a, p.b) == k
    }

    /** A scan stops early only with all the pairs it may report, or at a lookup that fails. */
    predicate CutShort()
      reads this
    {
      |out| == MAX_PAIRS || broken != {}
    }

    /** Nothing found before is lost, and pairs of the other kind stay as they are. */
    twostate predicate Grows()
      reads this
    {
      old(out) <= out && old(seen) <= seen
    }

    method PairUp(todo: bool, ghost items: seq<Item>, x: Item, y: Item, reason: Reason) returns (go: bool)
      requires Valid(todo, items) && |out| < MAX_PAIRS
      requires x in items && y in items && x.id != y.id && Matches(x, y, reason, alike)
      modifies this
      ensures Valid(todo, items) && Grows() && PairKey(x.id, y.id) in seen
      ensures old(Recorded(todo)) && go ==> Recorded(todo)
      ensures if go then |out| < MAX_PAIRS else CutShort()
      ensures forall p :: p in out ==> p in old(out) || p.todo == todo
    {
      var k := PairKey(x.id, y.id);
      if k in seen {
        return true;
      }
      seen := seen + {k};
      if (todo, k.0, k.1) in broken {
        return false;
      }
      if (todo, k.0, k.1) in resolved {
        return true;
      }
      var p := Duplicate(todo, x.id, y.id, reason);
      assert Backed(p, items, alike);
      out := out + [p];
      assert p in out;
      return |out| < MAX_PAIRS;
    }

    method PairGroup(todo: bool, items: seq<Item>, group: seq<Item>, reason: Reason) returns (go: bool)
      requires Valid(todo, items) && |out| < MAX_PAIRS && group != [] && Distinct(group) && !reason.Fuzzy?
      requires forall x :: x in group ==>
        x in items && Grouped(x, reason) && KeyOf(x, reason) == KeyOf(group[0], reason)
      modifies this
      ensures Valid(todo, items) && Grows()
      ensures if go then |out| < MAX_PAIRS && Covers(seen, group) else CutShort()
      ensures old(Recorded(todo)) && go ==> Recorded(todo)
      ensures forall p :: p in out ==> p in old(out) || p.todo == todo
    {
      for i := 1 to |group|
        invariant Valid(todo, items) && Grows() && |out| < MAX_PAIRS
        invariant forall j :: 1 <= j < i ==> PairKey(group[0].id, group[j].id) in seen
        invariant old(Recorded(todo)) ==> Recorded(todo)
        invariant forall p :: p in out ==> p in old(out) || p.todo == todo
      {
        assert group[0] in group && group[i] in group;
        go := PairUp(todo, items, group[0], group[i], reason);
        if !go {
          return;
        }
      }
      return true;
    }

    /** Pair the head of every group with the rest of it, the groups in any order. */
    method PairGroups(todo: bool, items: seq<Item>, reason: Reason) returns (go: bool)
      requires Valid(todo, items) && |out| < MAX_PAIRS && Distinct(items) && !reason.Fuzzy?
      modifies this
      ensures Valid(todo, items) && Grows()
      ensures if go then |out| < MAX_PAIRS && CoversAll(seen, items, reason) else CutShort()
      ensures old(Recorded(todo)) && go ==> Recorded(todo)
      ensures forall p :: p in out ==> p in old(out) || p.todo == todo
    {
      var m := BuildGroups(items, reason);
      var left := m.Keys;
      forall k | k !in left ensures Covers(seen, Group(items, k, reason)) { }
      while left != {}
        invariant left <= m.Keys && Valid(todo, items) && Grows() && |out| < MAX_PAIRS
        invariant CoversBut(seen, items, reason, left)
        invariant old(Recorded(todo)) ==> Recorded(todo)
        invariant forall p :: p in out ==> p in old(out) || p.todo == todo
        decreases left
      {
        var k :| k in left;
        var group := m[k];
        assert group == Group(items, k, reason);
        GroupDistinct(items, k, reason);
        ghost var was := seen;
        if group != [] {
          assert group[0] in group;
          go := PairGroup(todo, items, group, reason);
          if !go {
            return;
          }
        }
        CoversMore(was, seen, items, reason, left);
        left := left - {k};
      }
      return true;
    }

    /** Pair an item with the similar ones that start no more than the window later. */
    method PairLater(items: seq<Item>, timed: seq<Item>, i: nat) returns (go: bool)
      requires Valid(false, items) && |out| < MAX_PAIRS && Arranged(timed, items) && i < |timed| && timed[i].title != ""
      modifies this
      ensures Valid(false, items) && Grows()
      ensures if go then |out| < MAX_PAIRS && CoversLater(seen, timed, i, alike) else CutShort()
      ensures old(Recorded(false)) && go ==> Recorded(false)
      ensures forall p :: p in out ==> p in old(out) || p.todo == false
    {
      var a := timed[i];
      var j := i + 1;
      while j < |timed|
        invariant i < j <= |timed|
        invariant Valid(false, items) && Grows() && |out| < MAX_PAIRS
        invariant forall k :: i < k < j ==> Wanted(a, timed[k], alike) ==> PairKey(a.id, timed[k].id) in seen
        invariant old(Recorded(false)) ==> Recorded(false)
        invariant forall p :: p in out ==> p in old(out) || p.todo == false
      {
        var b := timed[j];
        if b.start - a.start > WINDOW {
          return true;
        }
        if a.allDay == b.allDay && b.title != "" && PairKey(a.id, b.id) !in seen && (a.title, b.title) in alike {
          go := PairUp(false, items, a, b, Fuzzy);
          if !go {
            return;
          }
        }
        j := j + 1;
      }
      return true;
    }

    method PairSimilar(items: seq<Item>, timed: seq<Item>) returns (go: bool)
      requires Valid(false, items) && |out| < MAX_PAIRS && Arranged(timed, items)
      modifies this
      ensures Valid(false, items) && Grows()
      ensures if go then |out| < MAX_PAIRS && CoversSimilar(seen, timed, alike) else CutShort()
      ensures old(Recorded(false)) && go ==> Recorded(false)
      ensures forall p :: p in out ==> p in old(out) || p.todo == false
    {
      for i := 0 to |timed|
        invariant Valid(false, items) && Grows() && |out| < MAX_PAIRS
        invariant forall k :: 0 <= k < i ==> CoversLater(seen, timed, k, alike)
        invariant old(Recorded(false)) ==> Recorded(false)
        invariant forall p :: p in out ==> p in old(out) || p.todo == false
      {
        ghost var was := seen;
        if timed[i].title != "" {
          go := PairLater(items, timed, i);
          if !go {
            return;
          }
        }
        assert CoversLater(seen, timed, i, alike);
        forall k | 0 <= k < i ensures CoversLater(seen, timed, k, alike) {
          assert CoversLater(was, timed, k, alike);
        }
      }
      return true;
    }

    /** All duplicates among the events and among the tasks; `timed` are the events by start. */
    method Find(events: seq<Item>, timed: seq<Item>, todos: seq<Item>) returns (pairs: seq<Pair>, whole: bool)
      requires out == [] && seen == {} && Distinct(events) && Distinct(todos) && Arranged(timed, events)
      modifies this
      ensures |pairs| <= 500 && (!whole ==> |pairs| == 500 || broken != {})
      ensures AllBacked(pairs, events, todos, alike)
      ensures whole ==>
        AllReported(pairs, resolved, false, events, ByUid) && AllReported(pairs, resolved, false, events, ByPrint)
      ensures whole ==>
        AllReported(pairs, resolved, true, todos, ByUid) && AllReported(pairs, resolved, true, todos, ByPrint)
      ensures whole ==> SimilarReported(pairs, resolved, timed, alike)
      ensures forall i, j :: 0 <= i < j < |pairs| ==>
        (pairs[i].todo, pairs[i].a, pairs[i].b) != (pairs[j].todo, pairs[j].a, pairs[j].b)
    {
      whole := FindEvents(events, timed);
      if whole {
        ghost var found := out;
        seen := {};
        whole := PairGroups(true, todos, ByUid);
        if whole { whole := PairGroups(true, todos, ByPrint); }
        if whole {
          NowReported(out, resolved, seen, true, todos, ByUid);
          NowReported(out, resolved, seen, true, todos, ByPrint);
          StillReported(found, out, resolved, events, timed, alike);
        }
      }
      return out, whole;
    }

    method FindEvents(events: seq<Item>, timed: seq<Item>) returns (whole: bool)
      requires out == [] && seen == {} && Distinct(events) && Arranged(timed, events)
      modifies this
      ensures Valid(false, events) && (forall p :: p in out ==> !p.todo)
      ensures if whole then |out| < MAX_PAIRS else CutShort()
      ensures whole ==>
        AllReported(out, resolved, false, events, ByUid) && AllReported(out, resolved, false, events, ByPrint)
      ensures whole ==> SimilarReported(out, resolved, timed, alike)
    {
      whole := PairGroups(false, events, ByUid);
      if whole { whole := PairGroups(false, events, ByPrint); }
      if whole { whole := PairSimilar(events, timed); }
      if whole {
        NowReported(out, resolved, seen, false, events, ByUid);
        NowReported(out, resolved, seen, false, events, ByPrint);
        SimilarNow(out, resolved, seen, timed, alike);
      }
    }
  }

  // ---------------------------------------------------------------- nothing is missed

  /** A pair found, unless the user has dealt with it before. */
  ghost predicate Reported(pairs: seq<Pair>, resolved: set<(bool, Id, Id)>, todo: bool, k: (Id, Id)) {
    (todo, k.0, k.1) in resolved || exists p :: p in pairs && p.todo == todo && (p.a, p.b) == k
  }

  ghost predicate AllReported(pairs: seq<Pair>, resolved: set<(bool, Id, Id)>, todo: bool, items: seq<Item>,
                              reason: Reason)
  {
    forall key, i :: 1 <= i < |Group(items, key, reason)| ==>
      Reported(pairs, resolved, todo, PairKey(Group(items, key, reason)[0].id, Group(items, key, reason)[i].id))
  }

  ghost predicate SimilarReported(pairs: seq<Pair>, resolved: set<(bool, Id, Id)>, timed: seq<Item>, alike: Likeness) {
    forall i, j :: 0 <= i < j < |timed| && Wanted(timed[i], timed[j], alike) ==>
      Reported(pairs, resolved, false, PairKey(timed[i].id, timed[j].id))
  }

  ghost predicate SeenReported(pairs: seq<Pair>, resolved: set<(bool, Id, Id)>, seen: set<(Id, Id)>, todo: bool) {
    forall k :: k in seen ==> Reported(pairs, resolved, todo, k)
  }

  lemma {:induction false} NowReported(pairs: seq<Pair>, resolved: set<(bool, Id, Id)>, seen: set<(Id, Id)>, todo: bool,
                                       items: seq<Item>, reason: Reason)
    requires SeenReported(pairs, resolved, seen, todo) && CoversAll(seen, items, reason)
    ensures AllReported(pairs, resolved, todo, items, reason)
  {
    forall key, i | 1 <= i < |Group(items, key, reason)|
      ensures Reported(pairs, resolved, todo, PairKey(Group(items, key, reason)[0].id, Group(items, key, reason)[i].id))
    {
      assert Covers(seen, Group(items, key, reason));
    }
  }

  lemma {:induction false} SimilarNow(pairs: seq<Pair>, resolved: set<(bool, Id, Id)>, seen: set<(Id, Id)>,
                                      timed: seq<Item>, alike: Likeness)
    requires SeenReported(pairs, resolved, seen, false) && CoversSimilar(seen, timed, alike)
    ensures SimilarReported(pairs, resolved, timed, alike)
  {
    forall i, j | 0 <= i < j < |timed| && Wanted(timed[i], timed[j], alike)
      ensures PairKey(timed[i].id, timed[j].id) in seen
    {
      assert CoversLater(seen, timed, i, alike);
    }
  }

  lemma {:induction false} StillReported(was: seq<Pair>, pairs: seq<Pair>, resolved: set<(bool, Id, Id)>,
                                         items: seq<Item>, timed: seq<Item>, alike: Likeness)
    requires was <= pairs
    ensures forall k, todo :: Reported(was, resolved, todo, k) ==> Reported(pairs, resolved, todo, k)
    ensures forall reason :: AllReported(was, resolved, false, items, reason) ==>
      AllReported(pairs, resolved, false, items, reason)
    ensures SimilarReported(was, resolved, timed, alike) ==> SimilarReported(pairs, resolved, timed, alike)
  {
    forall k, todo | Reported(was, resolved, todo, k) ensures Reported(pairs, resolved, todo, k) {
      if (todo, k.0, k.1) !in resolved {
        var p :| p in was && p.todo == todo && (p.a, p.b) == k;
        assert p in pairs;
      }
    }
  }

  // ---------------------------------------------------------------- removal

  datatype Ref = Ref(todo: bool, id: Id)

  /** What exists, and the pairs kept for the user to review. */
  datatype Store = Store(live: set<Ref>, review: set<(bool, Id, Id)>)

  function Act(s: Store, policy: Policy, p: Pair): Store {
    if !Auto(p, policy) then s.(review := s.review + {(p.todo, p.a, p.b)})
    else if Ref(p.todo, p.b) !in s.live then s
    else Store(s.live - {Ref(p.todo, p.b)}, set q | q in s.review && !(q.0 == p.todo && (q.1 == p.b || q.2 == p.b)))
  }

  function ActAll(s: Store, policy: Policy, pairs: seq<Pair>): Store {
    if pairs == [] then s else Act(ActAll(s, policy, pairs[..|pairs| - 1]), policy, pairs[|pairs| - 1])
  }

  method HandleScan(s: Store, policy: Policy, pairs: seq<Pair>) returns (r: Store)
    ensures r == if policy.Off? then s else ActAll(s, policy, pairs)
  {
    r := s;
    if policy.Off? {
      return;
    }
    for i := 0 to |pairs|
      invariant r == ActAll(s, policy, pairs[..i])
    {
      var p := pairs[i];
      assert pairs[..i + 1][..i] == pairs[..i];
      if !Auto(p, policy) {
        r := r.(review := r.review + {(p.todo, p.a, p.b)});
      } else if Ref(p.todo, p.b) in r.live {
        r := Store(r.live - {Ref(p.todo, p.b)},
                   set q | q in r.review && !(q.0 == p.todo && (q.1 == p.b || q.2 == p.b)));
      }
    }
    assert pairs[..|pairs|] == pairs;
  }

  /** The second member of a pair the policy removes. */
  ghost predicate Doomed(pairs: seq<Pair>, policy: Policy, r: Ref) {
    exists p :: p in pairs && Auto(p, policy) && r == Ref(p.todo, p.b)
  }

  /** What is left does not depend on the order of the pairs. */
  lemma {:induction false} WhatIsLeft(s: Store, policy: Policy, pairs: seq<Pair>, r: Ref)
    ensures r in ActAll(s, policy, pairs).live <==> r in s.live && !Doomed(pairs, policy, r)
  {
    if pairs != [] {
      var before, p := pairs[..|pairs| - 1], pairs[|pairs| - 1];
      WhatIsLeft(s, policy, before, r);
      assert pairs == before + [p];
      if Doomed(before, policy, r) {
        var q :| q in before && Auto(q, policy) && r == Ref(q.todo, q.b);
        assert q in pairs;
      }
      if Auto(p, policy) && r == Ref(p.todo, p.b) {
        assert p in pairs;
      }
    }
  }

  /** With no removal by policy every item stays and every pair is put up for review. */
  lemma {:induction false} FlagOnlyReviews(s: Store, policy: Policy, pairs: seq<Pair>)
    requires policy.Flag?
    ensures ActAll(s, policy, pairs).live == s.live
    ensures forall p :: p in pairs ==> (p.todo, p.a, p.b) in ActAll(s, policy, pairs).review
    ensures forall q :: q in s.review ==> q in ActAll(s, policy, pairs).review
  {
    if pairs != [] {
      FlagOnlyReviews(s, policy, pairs[..|pairs| - 1]);
      assert pairs == pairs[..|pairs| - 1] + [pairs[|pairs| - 1]];
    }
  }

  /** A removal takes along the pairs put up for review that had the removed item, and no others. */
  lemma {:induction false} RemovalClearsReview(s: Store, policy: Policy, p: Pair)
    requires Auto(p, policy) && Ref(p.todo, p.b) in s.live
    ensures var r := Act(s, policy, p);
      && r.live == s.live - {Ref(p.todo, p.b)}
      && forall q :: q in r.review <==> q in s.review && !(q.0 == p.todo && (q.1 == p.b || q.2 == p.b))
  {
  }

  /** Items count as similar with titles the test accepts, both of the same day kind, starting no more than a quarter
      of an hour apart. */
  lemma {:induction false} SimilarMeans(x: Item, y: Item, alike: Likeness)
    requires x.start <= y.start
    ensures Wanted(x, y, alike) <==>
      && x.title != "" && y.title != "" && (x.title, y.title) in alike && x.allDay == y.allDay
      && y.start - x.start <= 15 * 60
  {
  }

  // ---------------------------------------------------------------- components

  ghost predicate Joined(pairs: seq<Pair>, todo: bool, x: Id, y: Id) {
    exists p :: p in pairs && p.todo == todo && ((p.a == x && p.b == y) || (p.a == y && p.b == x))
  }

  ghost predicate IsPath(pairs: seq<Pair>, todo: bool, path: seq<Id>) {
    path != [] && forall i :: 0 <= i < |path| - 1 ==> Joined(pairs, todo, path[i], path[i + 1])
  }

  ghost predicate Connected(pairs: seq<Pair>, todo: bool, x: Id, y: Id) {
    exists path :: IsPath(pairs, todo, path) && path[0] == x && path[|path| - 1] == y
  }

  ghost predicate Directed(pairs: seq<Pair>) {
    forall p :: p in pairs ==> p.a < p.b
  }

  /** Whatever pairs there are, in whatever order: the smallest item of a connected component stays. */
  lemma {:induction false} SmallestStays(s: Store, policy: Policy, pairs: seq<Pair>, todo: bool, m: Id)
    requires Directed(pairs) && (forall y :: Connected(pairs, todo, m, y) ==> m <= y)
    ensures Ref(todo, m) in ActAll(s, policy, pairs).live <==> Ref(todo, m) in s.live
  {
    WhatIsLeft(s, policy, pairs, Ref(todo, m));
    if Doomed(pairs, policy, Ref(todo, m)) {
      var p :| p in pairs && Auto(p, policy) && Ref(todo, m) == Ref(p.todo, p.b);
      assert Joined(pairs, todo, m, p.a);
      assert IsPath(pairs, todo, [m, p.a]);
      assert Connected(pairs, todo, m, p.a);
    }
  }

  /** Follow removed pairs down to an item that is kept. */
  ghost function Keeper(pairs: seq<Pair>, policy: Policy, todo: bool, x: Id): (r: Id)
    requires Directed(pairs)
    ensures r <= x && !Doomed(pairs, policy, Ref(todo, r))
    decreases x
  {
    if Doomed(pairs, policy, Ref(todo, x)) then
      var p :| p in pairs && Auto(p, policy) && Ref(todo, x) == Ref(p.todo, p.b);
      Keeper(pairs, policy, todo, p.a)
    else x
  }

  /** The scan is up to date: the first members of its pairs still exist. */
  ghost predicate Current(s: Store, pairs: seq<Pair>) {
    forall p :: p in pairs ==> Ref(p.todo, p.a) in s.live
  }

  lemma {:induction false} KeeperStays(s: Store, policy: Policy, pairs: seq<Pair>, todo: bool, x: Id)
    requires Directed(pairs) && Current(s, pairs) && Ref(todo, x) in s.live
    ensures Ref(todo, Keeper(pairs, policy, todo, x)) in ActAll(s, policy, pairs).live
    decreases x
  {
    if Doomed(pairs, policy, Ref(todo, x)) {
      var p :| p in pairs && Auto(p, policy) && Ref(todo, x) == Ref(p.todo, p.b) &&
        Keeper(pairs, policy, todo, x) == Keeper(pairs, policy, todo, p.a);
      KeeperStays(s, policy, pairs, todo, p.a);
    } else {
      WhatIsLeft(s, policy, pairs, Ref(todo, x));
    }
  }

  /** The uid of a scanned item. */
  ghost predicate HasUid(items: seq<Item>, id: Id, uid: string) {
    exists x :: x in items && x.id == id && x.uid == uid
  }

  lemma {:induction false} OneUid(items: seq<Item>, x: Item, y: Item)
    requires Distinct(items) && x in items && y in items && x.id == y.id
    ensures x == y
  {
    var i :| 0 <= i < |items| && items[i] == x;
    var j :| 0 <= j < |items| && items[j] == y;
    assert i == j;
  }

  lemma {:induction false} KeeperSameUid(pairs: seq<Pair>, todo: bool, x: Id, uid: string, events: seq<Item>,
                                         todos: seq<Item>, alike: Likeness)
    requires Directed(pairs) && AllBacked(pairs, events, todos, alike) && Distinct(events) && Distinct(todos)
    requires HasUid(if todo then todos else events, x, uid)
    ensures HasUid(if todo then todos else events, Keeper(pairs, AutoExact, todo, x), uid)
    decreases x
  {
    var items := if todo then todos else events;
    if Doomed(pairs, AutoExact, Ref(todo, x)) {
      var p :| p in pairs && Auto(p, AutoExact) && Ref(todo, x) == Ref(p.todo, p.b) &&
        Keeper(pairs, AutoExact, todo, x) == Keeper(pairs, AutoExact, todo, p.a);
      assert Backed(p, items, alike);
      var a, b :| a in items && b in items && a.id == p.a && b.id == p.b && Matches(a, b, p.reason, alike);
      var y :| y in items && y.id == x && y.uid == uid;
      OneUid(items, b, y);
      KeeperSameUid(pairs, todo, p.a, uid, events, todos, alike);
    }
  }

  /** Where exact duplicates are removed, every removed item leaves one with its uid behind, as long as
      the items found are still there when they are compared. */
  lemma {:induction false} ExactLeavesSurvivor(s: Store, pairs: seq<Pair>, todo: bool, x: Id, uid: string,
                                               events: seq<Item>, todos: seq<Item>, alike: Likeness)
    requires AllBacked(pairs, events, todos, alike) && Distinct(events) && Distinct(todos) && Current(s, pairs)
    requires Ref(todo, x) in s.live && HasUid(if todo then todos else events, x, uid)
    ensures exists k: Id ::
      k <= x && Ref(todo, k) in ActAll(s, AutoExact, pairs).live && HasUid(if todo then todos else events, k, uid)
  {
    assert Directed(pairs) by {
      forall p | p in pairs ensures p.a < p.b { assert Backed(p, if p.todo then todos else events, alike); }
    }
    KeeperStays(s, AutoExact, pairs, todo, x);
    KeeperSameUid(pairs, todo, x, uid, events, todos, alike);
  }

  ghost predicate LeftWithUid(live: set<Ref>, items: seq<Item>, todo: bool, uid: string) {
    exists x :: x in items && x.uid == uid && Ref(todo, x.id) in live
  }

  /** Whatever happened since the scan: an item with this uid is left if and only if one that the scan
      saw still existed and is not the second member of a pair with equal uids. */
  lemma {:induction false} ExactSurvivors(s: Store, pairs: seq<Pair>, todo: bool, items: seq<Item>, uid: string)
    ensures LeftWithUid(ActAll(s, AutoExact, pairs).live, items, todo, uid) <==>
      exists x :: x in items && x.uid == uid && Ref(todo, x.id) in s.live && !SecondByUid(pairs, todo, x.id)
  {
    forall x | x in items
      ensures Ref(todo, x.id) in ActAll(s, AutoExact, pairs).live <==>
        Ref(todo, x.id) in s.live && !SecondByUid(pairs, todo, x.id)
    {
      WhatIsLeft(s, AutoExact, pairs, Ref(todo, x.id));
      DoomedByUid(pairs, todo, x.id);
    }
  }

  ghost predicate SecondByUid(pairs: seq<Pair>, todo: bool, id: Id) {
    exists p :: p in pairs && p.todo == todo && p.b == id && p.reason.ByUid?
  }

  lemma {:induction false} DoomedByUid(pairs: seq<Pair>, todo: bool, id: Id)
    ensures Doomed(pairs, AutoExact, Ref(todo, id)) <==> SecondByUid(pairs, todo, id)
  {
    if SecondByUid(pairs, todo, id) {
      var p :| p in pairs && p.todo == todo && p.b == id && p.reason.ByUid?;
      assert Auto(p, AutoExact) && Ref(todo, id) == Ref(p.todo, p.b);
    }
  }

  // ---------------------------------------------------------------- removal by fingerprint

  /** Two items with one uid or one fingerprint. */
  predicate Kin(x: Item, y: Item) {
    (x.uid != "" && x.uid == y.uid) || x.mark == y.mark
  }

  ghost predicate SecondInPair(pairs: seq<Pair>, todo: bool, id: Id) {
    exists p :: p in pairs && p.todo == todo && p.b == id && !p.reason.Fuzzy?
  }

  lemma {:induction false} DoomedInPair(pairs: seq<Pair>, todo: bool, id: Id)
    ensures Doomed(pairs, AutoPrint, Ref(todo, id)) <==> SecondInPair(pairs, todo, id)
  {
    if SecondInPair(pairs, todo, id) {
      var p :| p in pairs && p.todo == todo && p.b == id && !p.reason.Fuzzy?;
      assert Auto(p, AutoPrint) && Ref(todo, id) == Ref(p.todo, p.b);
    }
  }

  /** Under auto_fingerprint an item that shares the uid or the fingerprint of `x` is left if and only if
      one that the scan saw still existed and is second in no pair by uid or fingerprint. */
  lemma {:induction false} PrintSurvivors(s: Store, pairs: seq<Pair>, todo: bool, items: seq<Item>, x: Item)
    ensures (exists y :: y in items && Kin(x, y) && Ref(todo, y.id) in ActAll(s, AutoPrint, pairs).live) <==>
      (exists y :: y in items && Kin(x, y) && Ref(todo, y.id) in s.live && !SecondInPair(pairs, todo, y.id))
  {
    forall y | y in items
      ensures Ref(todo, y.id) in ActAll(s, AutoPrint, pairs).live <==>
        Ref(todo, y.id) in s.live && !SecondInPair(pairs, todo, y.id)
    {
      WhatIsLeft(s, AutoPrint, pairs, Ref(todo, y.id));
      DoomedInPair(pairs, todo, y.id);
    }
  }

  /** Every item reaches what it was removed for through items that are kin one to the next. */
  ghost predicate KinPath(items: seq<Item>, path: seq<Item>) {
    path != [] && (forall i :: 0 <= i < |path| ==> path[i] in items) && forall i :: 0 <= i < |path| - 1 ==>
      Kin(path[i], path[i + 1])
  }

  ghost predicate KinChain(items: seq<Item>, x: Item, y: Item) {
    exists path :: KinPath(items, path) && path[0] == x && path[|path| - 1] == y
  }

  lemma {:induction false} KinStep(items: seq<Item>, x: Item, y: Item, z: Item)
    requires x in items && Kin(x, y) && KinChain(items, y, z)
    ensures KinChain(items, x, z)
  {
    var path :| KinPath(items, path) && path[0] == y && path[|path| - 1] == z;
    var longer := [x] + path;
    forall i | 0 <= i < |longer| - 1 ensures Kin(longer[i], longer[i + 1]) {
      if i > 0 { assert Kin(path[i - 1], path[i]); }
    }
    assert KinPath(items, longer);
  }

  lemma {:induction false} KeeperIsKin(pairs: seq<Pair>, todo: bool, x: Item, events: seq<Item>, todos: seq<Item>,
                                       alike: Likeness)
      returns (y: Item)
    requires Directed(pairs) && AllBacked(pairs, events, todos, alike) && Distinct(events) && Distinct(todos)
    requires x in if todo then todos else events
    ensures y in (if todo then todos else events) && y.id == Keeper(pairs, AutoPrint, todo, x.id)
    ensures KinChain(if todo then todos else events, x, y)
    decreases x.id
  {
    var items := if todo then todos else events;
    if Doomed(pairs, AutoPrint, Ref(todo, x.id)) {
      var p :| p in pairs && Auto(p, AutoPrint) && Ref(todo, x.id) == Ref(p.todo, p.b) &&
        Keeper(pairs, AutoPrint, todo, x.id) == Keeper(pairs, AutoPrint, todo, p.a);
      assert Backed(p, items, alike);
      var a, b :| a in items && b in items && a.id == p.a && b.id == p.b && Matches(a, b, p.reason, alike);
      OneUid(items, b, x);
      y := KeeperIsKin(pairs, todo, a, events, todos, alike);
      KinStep(items, x, a, y);
    } else {
      y := x;
      assert KinPath(items, [x]);
    }
  }

  /** Under auto_fingerprint every removed item leaves one behind that it is linked to by a chain of equal
      uids and equal fingerprints, as long as the items found are still there. */
  lemma {:induction false} PrintLeavesRelative(s: Store, pairs: seq<Pair>, todo: bool, x: Item, events: seq<Item>,
                                               todos: seq<Item>, alike: Likeness)
    requires AllBacked(pairs, events, todos, alike) && Distinct(events) && Distinct(todos) && Current(s, pairs)
    requires x in (if todo then todos else events) && Ref(todo, x.id) in s.live
    ensures var items := if todo then todos else events;
      exists y :: y in items && KinChain(items, x, y) && Ref(todo, y.id) in ActAll(s, AutoPrint, pairs).live
  {
    assert Directed(pairs) by {
      forall p | p in pairs ensures p.a < p.b { assert Backed(p, if p.todo then todos else events, alike); }
    }
    KeeperStays(s, AutoPrint, pairs, todo, x.id);
    var y := KeeperIsKin(pairs, todo, x, events, todos, alike);
  }

  /** The scan runs before the removal: if the first item of a pair is deleted in between, the second one
      is removed all the same and none is left. */
  lemma {:induction false} OutdatedScanLeavesNone(p: Pair)
    requires p.reason.ByUid? && p.a < p.b
    ensures ActAll(Store({Ref(p.todo, p.b)}, {}), AutoExact, [p]).live == {}
  {
    var s := Store({Ref(p.todo, p.b)}, {});
    assert [p][..0] == [];
    assert ActAll(s, AutoExact, [p]) == Act(s, AutoExact, p);
  }

  /** A pair found later that shares the removed item is still put up for review. */
  lemma {:induction false} ReviewOfRemoved(s: Store, p: Pair, q: Pair)
    requires p.reason.ByUid? && q.reason.Fuzzy? && q.todo == p.todo && q.a == p.b && Ref(p.todo, p.b) in s.live
    ensures var r := ActAll(s, AutoExact, [p, q]); (q.todo, q.a, q.b) in r.review && Ref(q.todo, q.a) !in r.live
  {
    assert [p, q][..1] == [p] && [p][..0] == [];
    assert ActAll(s, AutoExact, [p]) == Act(s, AutoExact, p);
    assert ActAll(s, AutoExact, [p, q]) == Act(Act(s, AutoExact, p), AutoExact, q);
  }

  /** Fingerprints do not chain with uids: the third item goes although nothing that is left shares its
      uid or its fingerprint. */
  lemma {:induction false} PrintsDoNotChain(x: Item, y: Item, z: Item)
    requires x.id < y.id < z.id && x.uid == y.uid != "" && y.mark == z.mark && x.mark != z.mark && x.uid != z.uid
    ensures var pairs := [Pair(false, x.id, y.id, ByUid), Pair(false, y.id, z.id, ByPrint)];
      AllBacked(pairs, [x, y, z], [], {}) &&
        ActAll(Store({Ref(false, x.id), Ref(false, y.id), Ref(false, z.id)}, {}), AutoPrint, pairs).live ==
          {Ref(false, x.id)}
  {
    var p, q := Pair(false, x.id, y.id, ByUid), Pair(false, y.id, z.id, ByPrint);
    var items, s := [x, y, z], Store({Ref(false, x.id), Ref(false, y.id), Ref(false, z.id)}, {});
    assert x in items && y in items && z in items;
    assert Matches(x, y, ByUid, {}) && Matches(y, z, ByPrint, {});
    assert [p, q][..1] == [p] && [p][..0] == [];
    assert ActAll(s, AutoPrint, [p]) == Act(s, AutoPrint, p);
    assert ActAll(s, AutoPrint, [p, q]) == Act(Act(s, AutoPrint, p), AutoPrint, q);
  }
}

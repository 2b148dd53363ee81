/** Lazy expansion of a recurring series (the recurrence set of section 3.8.5 of RFC 5545).
    Instants are whole microseconds.  The rule iterator is any non-decreasing stream, finite
    or not; the walk merges it with the sorted extra dates and skips the excluded ones. */
module Recurrence {
  import opened Common

  const MAX_ITERATIONS: nat := 200_000

  /** What the rule yields on its k-th call; None once it has ended. */
  type Stream = nat -> Option<int>

  /** How the rule says it ends. */
  datatype Bound = Forever | Count(n: nat) | Until(last: int)

  datatype Series = Series(start: int, duration: int, rule: Stream, bound: Option<Bound>,
                         extra: seq<int>, excluded: set<int>)

  ghost predicate OrderedStream(r: Stream) {
    forall i: nat, j: nat :: i < j && r(j).Some? ==> r(i).Some? && r(i).value <= r(j).value
  }

  ghost predicate Valid(s: Series) {
    OrderedStream(s.rule) && NonDecreasing(s.extra)
  }

  ghost predicate Yields(r: Stream, t: int) {
    exists k: nat :: r(k) == Some(t)
  }

  /** `t` is a start of the series. */
  ghost predicate Occurs(s: Series, t: int) {
    (Yields(s.rule, t) || t in s.extra) && t !in s.excluded
  }

  // ---------------------------------------------------------------- the walk

  /** The state of the visitor after the starts of `seen`. */
  function Fold<S>(fn: (S, int) -> (S, bool), init: S, seen: seq<int>): S {
    if seen == [] then init
    else fn(Fold(fn, init, seen[..|seen| - 1]), seen[|seen| - 1]).0
  }

  /** Whether the visitor asked for more after the i-th start. */
  predicate Wants<S>(fn: (S, int) -> (S, bool), init: S, seen: seq<int>, i: nat)
    requires i < |seen|
  {
    fn(Fold(fn, init, seen[..i]), seen[i]).1
  }

  /** The visitor asked for more after each of the first `n` starts. */
  predicate WantsAll<S>(fn: (S, int) -> (S, bool), init: S, seen: seq<int>, n: nat)
    requires n <= |seen|
  {
    forall i :: 0 <= i < n ==> Wants(fn, init, seen, i)
  }

  /** The first `n` values of the rule. */
  ghost function Taken(r: Stream, n: nat): set<int> {
    if n == 0 then {} else Taken(r, n - 1) + if r(n - 1).Some? then {r(n - 1).value} else {}
  }

  /** The starts the walk has passed after `n` rule values and `i` extra dates. */
  ghost function Passed(s: Series, n: nat, i: nat): set<int>
    requires i <= |s.extra|
  {
    Taken(s.rule, n) + Elements(s.extra[..i])
  }

  /** The last value the walk may take from the rule before it gives up. */
  ghost predicate PastBudget(s: Series, t: int) {
    s.rule(MAX_ITERATIONS - 1).Some? && s.rule(MAX_ITERATIONS - 1).value < t
  }

  /** `seen` holds every start up to `t`. */
  ghost predicate Complete(s: Series, seen: seq<int>, t: int) {
    forall x :: x <= t && Occurs(s, x) ==> x in seen
  }

  lemma {:induction false} TakenIs(r: Stream, n: nat, t: int)
    ensures t in Taken(r, n) <==> exists k: nat :: k < n && r(k) == Some(t)
  {
    if n > 0 {
      TakenIs(r, n - 1, t);
      if r(n - 1) == Some(t) { assert t in Taken(r, n); }
    }
  }

  lemma {:induction false} Snoc<S>(fn: (S, int) -> (S, bool), init: S, seen: seq<int>, t: int)
    requires WantsAll(fn, init, seen, |seen|)
    ensures WantsAll(fn, init, seen + [t], |seen|)
    ensures Fold(fn, init, seen + [t]) == fn(Fold(fn, init, seen), t).0
    ensures Wants(fn, init, seen + [t], |seen|) == fn(Fold(fn, init, seen), t).1
  {
    var all := seen + [t];
    assert all[..|seen|] == seen;
    forall i | 0 <= i < |seen| ensures Wants(fn, init, all, i) {
      assert Wants(fn, init, seen, i) && all[..i] == seen[..i];
    }
  }

  /** The walk has passed `n` rule values and `i` extra dates; `last` is the greatest of them. */
  ghost predicate Cursor(s: Series, n: nat, i: nat, last: Option<int>) {
    && i <= |s.extra|
    && n <= MAX_ITERATIONS
    && (n > 0 ==> s.rule(n - 1).Some?)
    && (last.None? ==> n == 0 && i == 0)
    && (last.Some? ==>
          && last.value in Passed(s, n, i)
          && (forall t :: t in Passed(s, n, i) ==> t <= last.value)
          && (s.rule(n).Some? ==> last.value <= s.rule(n).value)
          && (i < |s.extra| ==> last.value <= s.extra[i])
          && !PastBudget(s, last.value))
  }

  /** Of those passed, `seen` are the ones not excluded. */
  ghost predicate Merged(s: Series, n: nat, i: nat, last: Option<int>, seen: seq<int>) {
    Cursor(s, n, i, last) && Elements(seen) == Passed(s, n, i) - s.excluded && Increasing(seen)
  }

  function Advance(last: Option<int>, t: int): Option<int> {
    if last.Some? && t <= last.value then last else Some(t)
  }

  function Grow(s: Series, last: Option<int>, seen: seq<int>, t: int): seq<int> {
    if (last.Some? && t <= last.value) || t in s.excluded then seen else seen + [t]
  }

  /** Passing `t` keeps the set of seen starts and their order. */
  lemma {:induction false} GrowSeen(s: Series, passed: set<int>, last: Option<int>, seen: seq<int>, t: int)
    requires Elements(seen) == passed - s.excluded && Increasing(seen)
    requires last.None? ==> passed == {}
    requires last.Some? ==> last.value in passed && forall x :: x in passed ==> x <= last.value
    requires last.Some? ==> last.value <= t
    ensures Elements(Grow(s, last, seen, t)) == (passed + {t}) - s.excluded
    ensures Increasing(Grow(s, last, seen, t))
  {
    forall j | 0 <= j < |seen| ensures seen[j] in passed {
      assert seen[j] in Elements(seen);
    }
    var out := Grow(s, last, seen, t);
    if out == seen + [t] {
      assert Elements(out) == Elements(seen) + {t};
    } else if t !in s.excluded {
      assert t == last.value && passed + {t} == passed;
    }
  }

  lemma {:induction false} PassRule(s: Series, n: nat, i: nat, last: Option<int>, t: int)
    requires Valid(s) && Cursor(s, n, i, last) && n < MAX_ITERATIONS
    requires s.rule(n) == Some(t) && (i < |s.extra| ==> t <= s.extra[i])
    ensures Cursor(s, n + 1, i, Advance(last, t)) && Passed(s, n + 1, i) == Passed(s, n, i) + {t}
  {
    assert Passed(s, n + 1, i) == Passed(s, n, i) + {t};
    assert s.rule(MAX_ITERATIONS - 1).Some? ==> n == MAX_ITERATIONS - 1 || t <= s.rule(MAX_ITERATIONS - 1).value;
  }

  lemma {:induction false} TakeRule(s: Series, n: nat, i: nat, last: Option<int>, seen: seq<int>, t: int)
    requires Valid(s) && Merged(s, n, i, last, seen) && n < MAX_ITERATIONS
    requires s.rule(n) == Some(t) && (i < |s.extra| ==> t <= s.extra[i])
    ensures Merged(s, n + 1, i, Advance(last, t), Grow(s, last, seen, t))
  {
    PassRule(s, n, i, last, t);
    GrowSeen(s, Passed(s, n, i), last, seen, t);
  }

  lemma {:induction false} PassExtra(s: Series, n: nat, i: nat, last: Option<int>)
    requires Valid(s) && Cursor(s, n, i, last) && n < MAX_ITERATIONS
    requires i < |s.extra| && (s.rule(n).Some? ==> s.extra[i] < s.rule(n).value)
    ensures Cursor(s, n, i + 1, Advance(last, s.extra[i])) && Passed(s, n, i + 1) == Passed(s, n, i) + {s.extra[i]}
  {
    assert s.extra[..i + 1] == s.extra[..i] + [s.extra[i]];
    assert Passed(s, n, i + 1) == Passed(s, n, i) + {s.extra[i]};
    assert s.rule(MAX_ITERATIONS - 1).Some? ==>
      n == MAX_ITERATIONS - 1 || s.rule(n).value <= s.rule(MAX_ITERATIONS - 1).value;
  }

  lemma {:induction false} TakeExtra(s: Series, n: nat, i: nat, last: Option<int>, seen: seq<int>)
    requires Valid(s) && Merged(s, n, i, last, seen) && n < MAX_ITERATIONS
    requires i < |s.extra| && (s.rule(n).Some? ==> s.extra[i] < s.rule(n).value)
    ensures Merged(s, n, i + 1, Advance(last, s.extra[i]), Grow(s, last, seen, s.extra[i]))
  {
    PassExtra(s, n, i, last);
    GrowSeen(s, Passed(s, n, i), last, seen, s.extra[i]);
  }

  /** What was seen are starts within the budget. */
  lemma {:induction false} SeenOccur(s: Series, n: nat, i: nat, last: Option<int>, seen: seq<int>)
    requires Merged(s, n, i, last, seen)
    ensures forall t :: t in seen ==> Occurs(s, t) && !PastBudget(s, t)
  {
    forall t | t in seen ensures Occurs(s, t) && !PastBudget(s, t) {
      assert t in Elements(seen);
      TakenIs(s.rule, n, t);
    }
  }

  /** A start not yet passed lies at or after the next rule value or the next extra date. */
  lemma {:induction false} NotPassed(s: Series, n: nat, i: nat, x: int)
    requires Valid(s) && i <= |s.extra| && Occurs(s, x) && x !in Passed(s, n, i)
    ensures (s.rule(n).Some? && s.rule(n).value <= x) || (i < |s.extra| && s.extra[i] <= x)
  {
    if Yields(s.rule, x) {
      var k: nat :| s.rule(k) == Some(x);
      TakenIs(s.rule, n, x);
      assert n == k || s.rule(n).value <= s.rule(k).value;
    } else {
      var j :| 0 <= j < |s.extra| && s.extra[j] == x;
    }
  }

  /** Nothing up to the greatest passed value was missed. */
  lemma {:induction false} CompleteUpTo(s: Series, n: nat, i: nat, last: Option<int>, seen: seq<int>)
    requires Valid(s) && Merged(s, n, i, last, seen) && last.Some?
    ensures Complete(s, seen, last.value)
  {
    forall x | x <= last.value && Occurs(s, x) ensures x in seen {
      if x !in Passed(s, n, i) { NotPassed(s, n, i, x); }
      assert x in Elements(seen);
    }
  }

  /** Once rule and extra dates have run out nothing was missed at all. */
  lemma {:induction false} CompleteAtEnd(s: Series, n: nat, last: Option<int>, seen: seq<int>)
    requires Valid(s) && Merged(s, n, |s.extra|, last, seen) && n < MAX_ITERATIONS && s.rule(n).None?
    ensures s.rule(MAX_ITERATIONS - 1).None? && forall t :: Occurs(s, t) ==> t in seen
  {
    forall t | Occurs(s, t) ensures t in seen {
      if t !in Passed(s, n, |s.extra|) { NotPassed(s, n, |s.extra|, t); }
      assert t in Elements(seen);
    }
  }

  /** How a walk ends.  `seen` are the starts shown to the visitor, in ascending order. */
  datatype Ending = Stopped | Exhausted | TooMany

  ghost predicate Walked<S>(s: Series, fn: (S, int) -> (S, bool), init: S, seen: seq<int>, ending: Ending) {
    && Increasing(seen)
    && (forall t :: t in seen ==> Occurs(s, t) && !PastBudget(s, t))
    && match ending
       // the visitor refused the last start and had wanted all others
       case Stopped =>
         && seen != []
         && WantsAll(fn, init, seen, |seen| - 1)
         && !Wants(fn, init, seen, |seen| - 1)
         && Complete(s, seen, seen[|seen| - 1])
       // the visitor wanted them all and there are no more
       case Exhausted =>
         && WantsAll(fn, init, seen, |seen|)
         && s.rule(MAX_ITERATIONS - 1).None?
         && (forall t :: Occurs(s, t) ==> t in seen)
       // the visitor wanted them all and the budget is spent
       case TooMany =>
         && WantsAll(fn, init, seen, |seen|)
         && s.rule(MAX_ITERATIONS - 1).Some?
         && Complete(s, seen, s.rule(MAX_ITERATIONS - 1).value)
  }

  lemma {:induction false} EndTooMany<S>(s: Series, fn: (S, int) -> (S, bool), init: S, i: nat, last: Option<int>,
                                         seen: seq<int>)
    requires Valid(s) && Merged(s, MAX_ITERATIONS, i, last, seen) && WantsAll(fn, init, seen, |seen|)
    ensures Walked(s, fn, init, seen, TooMany)
  {
    SeenOccur(s, MAX_ITERATIONS, i, last, seen);
    CompleteUpTo(s, MAX_ITERATIONS, i, last, seen);
  }

  lemma {:induction false} EndExhausted<S>(s: Series, fn: (S, int) -> (S, bool), init: S, n: nat, last: Option<int>,
                                           seen: seq<int>)
    requires Valid(s) && Merged(s, n, |s.extra|, last, seen) && n < MAX_ITERATIONS && s.rule(n).None?
    requires WantsAll(fn, init, seen, |seen|)
    ensures Walked(s, fn, init, seen, Exhausted)
  {
    SeenOccur(s, n, |s.extra|, last, seen);
    CompleteAtEnd(s, n, last, seen);
  }

  lemma {:induction false} EndStopped<S>(s: Series, fn: (S, int) -> (S, bool), init: S, n: nat, i: nat, seen: seq<int>,
                                         t: int)
    requires Valid(s) && Merged(s, n, i, Some(t), seen) && |seen| > 0 && seen[|seen| - 1] == t
    requires WantsAll(fn, init, seen, |seen| - 1) && !Wants(fn, init, seen, |seen| - 1)
    ensures Walked(s, fn, init, seen, Stopped)
  {
    SeenOccur(s, n, i, Some(t), seen);
    CompleteUpTo(s, n, i, Some(t), seen);
  }

  /** `t` is the rule's value number `n`, not later than the next extra date, or the next extra date,
      earlier than that value. */
  ghost predicate IsNext(s: Series, n: nat, i: nat, t: int, n': nat, i': nat) {
    || (s.rule(n) == Some(t) && (i < |s.extra| ==> t <= s.extra[i]) && n' == n + 1 && i' == i)
    || (i < |s.extra| && s.extra[i] == t && (s.rule(n).Some? ==> t < s.rule(n).value) && n' == n && i' == i + 1)
  }

  lemma {:induction false} TakeEither(s: Series, n: nat, i: nat, last: Option<int>, seen: seq<int>, t: int, n': nat,
                                      i': nat)
    requires Valid(s) && Merged(s, n, i, last, seen) && n < MAX_ITERATIONS && IsNext(s, n, i, t, n', i')
    ensures Merged(s, n', i', Advance(last, t), Grow(s, last, seen, t))
  {
    if n' == n + 1 {
      TakeRule(s, n, i, last, seen, t);
    } else {
      TakeExtra(s, n, i, last, seen);
    }
  }

  /** Take the smaller of the rule's current value and the next extra date, the rule first on a tie. */
  method TakeNext(s: Series, steps: nat, i: nat) returns (t: Option<int>, steps': nat, i': nat)
    requires 1 <= steps && i <= |s.extra|
    ensures t.Some? ==> 1 <= steps' && IsNext(s, steps - 1, i, t.value, steps' - 1, i')
    ensures t.None? ==> s.rule(steps - 1).None? && i == |s.extra|
  {
    var cur := s.rule(steps - 1);
    if cur.Some? && (i >= |s.extra| || !(s.extra[i] < cur.value)) {
      return cur, steps + 1, i;
    } else if i < |s.extra| {
      return Some(s.extra[i]), steps, i + 1;
    } else {
      return None, steps, i;
    }
  }

  /** The walk so far: what was passed, what was shown, and what the visitor made of it. */
  ghost predicate Walking<S>(s: Series, fn: (S, int) -> (S, bool), init: S, n: nat, i: nat, last: Option<int>,
                             seen: seq<int>, acc: S)
  {
    Merged(s, n, i, last, seen) && acc == Fold(fn, init, seen) && WantsAll(fn, init, seen, |seen|)
  }

  /** Showing a new start to the visitor. */
  lemma {:induction false} Show<S>(s: Series, fn: (S, int) -> (S, bool), init: S, n: nat, i: nat, seen: seq<int>,
                                   acc: S, t: int)
    requires Valid(s) && Merged(s, n, i, Some(t), seen + [t]) && acc == Fold(fn, init, seen)
    requires WantsAll(fn, init, seen, |seen|)
    ensures fn(acc, t).1 ==> Walking(s, fn, init, n, i, Some(t), seen + [t], fn(acc, t).0)
    ensures !fn(acc, t).1 ==> Walked(s, fn, init, seen + [t], Stopped) && fn(acc, t).0 == Fold(fn, init, seen + [t])
  {
    Snoc(fn, init, seen, t);
    if !fn(acc, t).1 {
      EndStopped(s, fn, init, n, i, seen + [t], t);
    }
  }

  /** Passing the next value, whether it was passed before, is excluded, or is new. */
  lemma {:induction false} Visit<S>(s: Series, fn: (S, int) -> (S, bool), init: S, n: nat, i: nat, last: Option<int>,
                                    seen: seq<int>, acc: S,
                                    t: int, n': nat, i': nat)
    requires Valid(s) && n < MAX_ITERATIONS && Walking(s, fn, init, n, i, last, seen, acc) && IsNext(s, n, i, t, n', i')
    ensures last.Some? && t <= last.value ==> Walking(s, fn, init, n', i', last, seen, acc)
    ensures !(last.Some? && t <= last.value) && t in s.excluded ==> Walking(s, fn, init, n', i', Some(t), seen, acc)
    ensures !(last.Some? && t <= last.value) && t !in s.excluded && fn(acc, t).1 ==>
      Walking(s, fn, init, n', i', Some(t), seen + [t], fn(acc, t).0)
    ensures !(last.Some? && t <= last.value) && t !in s.excluded && !fn(acc, t).1 ==>
      Walked(s, fn, init, seen + [t], Stopped) && fn(acc, t).0 == Fold(fn, init, seen + [t])
  {
    TakeEither(s, n, i, last, seen, t, n', i');
    if !(last.Some? && t <= last.value) && t !in s.excluded {
      Show(s, fn, init, n', i', seen, acc, t);
    }
  }

  /** Walk the starts in ascending order while the visitor asks for more.  The walk gives up
      after MAX_ITERATIONS rule values, so it ends even on an endless rule. */
  method Each<S>(s: Series, fn: (S, int) -> (S, bool), init: S)
      returns (acc: S, err: bool, ghost seen: seq<int>, ghost ending: Ending)
    requires Valid(s)
    ensures acc == Fold(fn, init, seen) && Walked(s, fn, init, seen, ending)
    ensures err <==> ending.TooMany?
  {
    acc, seen := init, [];
    var steps: nat, i: nat := 1, 0;
    var last: Option<int> := None;
    while true
      invariant 1 <= steps <= MAX_ITERATIONS + 1 && i <= |s.extra|
      invariant Walking(s, fn, init, steps - 1, i, last, seen, acc)
      decreases MAX_ITERATIONS + 1 + |s.extra| - steps - i
    {
      if steps > MAX_ITERATIONS {
        EndTooMany(s, fn, init, i, last, seen);
        return acc, true, seen, TooMany;
      }
      var t, steps', i' := TakeNext(s, steps, i);
      if t.None? {
        EndExhausted(s, fn, init, steps - 1, last, seen);
        return acc, false, seen, Exhausted;
      }
      Visit(s, fn, init, steps - 1, i, last, seen, acc, t.value, steps' - 1, i');
      steps, i := steps', i';
      if last.Some? && t.value <= last.value {
        continue;
      }
      last := t;
      if t.value in s.excluded {
        continue;
      }
      var (next, more) := fn(acc, t.value);
      acc, seen := next, seen + [t.value];
      if !more {
        return acc, false, seen, Stopped;
      }
    }
  }

  // ---------------------------------------------------------------- windows and membership

  /** An event of no length counts when it starts inside the window. */
  predicate Overlaps(start: int, end: int, from: int, to: int) {
    if start >= to then false
    else if end > from then true
    else end <= start && start >= from
  }

  predicate Within(t: int, from: int, to: int) {
    from <= t < to
  }

  /** An event of some length counts when some instant of it lies in the window; one of no length when it starts
      there. */
  lemma {:induction false} OverlapsMeans(start: int, end: int, from: int, to: int)
    requires start <= end && from < to
    ensures Overlaps(start, end, from, to) <==>
      if start < end then exists t :: Within(t, start, end) && Within(t, from, to) else Within(start, from, to)
  {
    if start < end && Overlaps(start, end, from, to) {
      var t := if start < from then from else start;
      assert Within(t, start, end) && Within(t, from, to);
    }
  }

  /** The budget of 200000 rule values runs out before the walk reaches a start at or after `t`. */
  ghost predicate TooFar(s: Series, t: int) {
    s.rule(199_999).Some? && forall x :: t <= x <= s.rule(199_999).value ==> !Occurs(s, x)
  }

  ghost predicate InWindow(s: Series, from: int, to: int, t: int) {
    Occurs(s, t) && Overlaps(t, t + s.duration, from, to)
  }

  /** More than `limit` starts lie in the window. */
  ghost predicate MoreThan(s: Series, from: int, to: int, limit: int) {
    exists xs: seq<int> :: Increasing(xs) && |xs| > limit && forall x :: x in xs ==> InWindow(s, from, to, x)
  }

  /** A limit below zero leaves no room, like zero. */
  function Room(limit: int): nat {
    if limit < 0 then 0 else limit
  }

  /** Between's visitor: collect the overlapping starts, stop past the window or at the limit. */
  function Collect(duration: int, from: int, to: int, limit: int): ((seq<int>, bool), int) -> ((seq<int>, bool), bool) {
    (acc: (seq<int>, bool), t: int) =>
      if t >= to then (acc, false)
      else if !Overlaps(t, t + duration, from, to) then (acc, true)
      else if |acc.0| >= limit then ((acc.0, true), false)
      else ((acc.0 + [t], acc.1), true)
  }

  function Kept(duration: int, from: int, to: int, xs: seq<int>): (r: seq<int>)
    ensures forall t :: t in r <==> t in xs && Overlaps(t, t + duration, from, to)
  {
    if xs == [] then []
    else
      var t := xs[|xs| - 1];
      var r := Kept(duration, from, to, xs[..|xs| - 1]);
      assert xs == xs[..|xs| - 1] + [t];
      if Overlaps(t, t + duration, from, to) then r + [t] else r
  }

  lemma {:induction false} KeptIncreasing(duration: int, from: int, to: int, xs: seq<int>)
    requires Increasing(xs)
    ensures Increasing(Kept(duration, from, to, xs))
  {
    if xs != [] {
      KeptIncreasing(duration, from, to, xs[..|xs| - 1]);
      var r := Kept(duration, from, to, xs[..|xs| - 1]);
      forall i | 0 <= i < |r| ensures r[i] < xs[|xs| - 1] {
        assert r[i] in xs[..|xs| - 1];
      }
    }
  }

  lemma {:induction false} CollectWanted(duration: int, from: int, to: int, limit: int, seen: seq<int>, n: nat)
    requires n <= |seen| && WantsAll(Collect(duration, from, to, limit), ([], false), seen, n)
    ensures Fold(Collect(duration, from, to, limit), ([], false), seen[..n]) ==
      (Kept(duration, from, to, seen[..n]), false)
    ensures forall i :: 0 <= i < n ==> seen[i] < to
    ensures |Kept(duration, from, to, seen[..n])| <= Room(limit)
  {
    if n > 0 {
      CollectWanted(duration, from, to, limit, seen, n - 1);
      assert Wants(Collect(duration, from, to, limit), ([], false), seen, n - 1);
      assert seen[..n][..n - 1] == seen[..n - 1];
    }
  }

  lemma {:induction false} IncreasingSize(xs: seq<int>, ys: seq<int>)
    requires Increasing(xs) && forall x :: x in xs ==> x in ys
    ensures |xs| <= |ys|
  {
    IncreasingCard(xs);
    CardAtMost(ys);
    assert Elements(xs) <= Elements(ys);
    SubsetSize(Elements(xs), Elements(ys));
  }

  lemma {:induction false} IncreasingCard(xs: seq<int>)
    requires Increasing(xs)
    ensures |Elements(xs)| == |xs|
  {
    if xs != [] {
      var n := |xs| - 1;
      IncreasingCard(xs[..n]);
      assert Elements(xs) == Elements(xs[..n]) + {xs[n]};
    }
  }

  lemma {:induction false} CardAtMost(xs: seq<int>)
    ensures |Elements(xs)| <= |xs|
  {
    if xs != [] {
      var n := |xs| - 1;
      CardAtMost(xs[..n]);
      assert Elements(xs) == Elements(xs[..n]) + {xs[n]};
    }
  }

  /** The starts that overlap the window, ascending; an error when there are more than `limit`
      or when the rule is too long to reach the end of the window. */
  method Between(s: Series, from: int, to: int, limit: int) returns (out: seq<int>, err: bool)
    requires Valid(s)
    ensures !err ==> Increasing(out) && forall t :: t in out <==> InWindow(s, from, to, t)
    ensures !err ==> |out| <= Room(limit)
    ensures err <==> TooFar(s, to) || MoreThan(s, from, to, Room(limit))
  {
    var fn := Collect(s.duration, from, to, limit);
    var acc, tooMany, seen, ending := Each(s, fn, ([], false));
    out, err := acc.0, tooMany || acc.1;
    BetweenOutcome(s, from, to, limit, seen, ending, out, err);
  }

  lemma {:induction false} BetweenOutcome(s: Series, from: int, to: int, limit: int, seen: seq<int>, ending: Ending,
                                          out: seq<int>, err: bool)
    requires Valid(s) && Walked(s, Collect(s.duration, from, to, limit), ([], false), seen, ending)
    requires var acc := Fold(Collect(s.duration, from, to, limit), ([], false), seen);
      out == acc.0 && err == (ending.TooMany? || acc.1)
    ensures !err ==> Increasing(out) && forall t :: t in out <==> InWindow(s, from, to, t)
    ensures !err ==> |out| <= Room(limit)
    ensures err <==> TooFar(s, to) || MoreThan(s, from, to, Room(limit))
  {
    var fn := Collect(s.duration, from, to, limit);
    KeptIncreasing(s.duration, from, to, seen);
    if ending.Stopped? {
      var n := |seen| - 1;
      CollectWanted(s.duration, from, to, limit, seen, n);
      var t := seen[n];
      assert seen == seen[..n] + [t] && seen[n] in seen;
      assert !fn(Fold(fn, ([], false), seen[..n]), t).1;
      if t >= to {
        KeptIncreasing(s.duration, from, to, seen[..n]);
        assert !TooFar(s, to);
        NotMore(s, from, to, limit, out);
      } else {
        assert Kept(s.duration, from, to, seen) == out + [t];
        assert MoreThan(s, from, to, Room(limit));
      }
    } else {
      CollectWanted(s.duration, from, to, limit, seen, |seen|);
      assert seen[..|seen|] == seen;
      if ending.Exhausted? {
        NotMore(s, from, to, limit, out);
      }
    }
  }

  lemma {:induction false} NotMore(s: Series, from: int, to: int, limit: int, out: seq<int>)
    requires forall t :: InWindow(s, from, to, t) ==> t in out
    requires |out| <= Room(limit)
    ensures !MoreThan(s, from, to, Room(limit))
  {
    if MoreThan(s, from, to, Room(limit)) {
      var xs: seq<int> :| Increasing(xs) && |xs| > Room(limit) && forall x :: x in xs ==> InWindow(s, from, to, x);
      IncreasingSize(xs, out);
    }
  }

  /** Whether `t` is a start; an error exactly when the rule is too long to tell. */
  method Contains(s: Series, t: int) returns (found: bool, err: bool)
    requires Valid(s)
    ensures !err ==> (found <==> Occurs(s, t))
    ensures err <==> TooFar(s, t)
  {
    var fn := (acc: bool, x: int) => (acc || x == t, x < t);
    ghost var seen, ending;
    found, err, seen, ending := Each(s, fn, false);
    ContainsFold(t, fn, seen, |seen|);
    if ending.Stopped? {
      assert seen[|seen| - 1] in seen && !Wants(fn, false, seen, |seen| - 1);
    } else {
      forall x | x in seen ensures x < t {
        var i :| 0 <= i < |seen| && seen[i] == x;
        assert Wants(fn, false, seen, i);
      }
    }
  }

  lemma {:induction false} ContainsFold(t: int, fn: (bool, int) -> (bool, bool), seen: seq<int>, n: nat)
    requires n <= |seen| && forall acc, x :: fn(acc, x) == (acc || x == t, x < t)
    ensures Fold(fn, false, seen[..n]) <==> t in seen[..n]
    ensures seen[..|seen|] == seen
  {
    if n > 0 {
      ContainsFold(t, fn, seen, n - 1);
      assert seen[..n][..n - 1] == seen[..n - 1] && seen[..n] == seen[..n - 1] + [seen[n - 1]];
    }
  }
}

/** A request limiter by virtual scheduling: per key it keeps the instant at which the key is idle
    again, its theoretical arrival time.  Instants and durations are whole nanoseconds. */
module Limiter {
  import opened Common

  const SWEEP_EVERY := 1024
  const MAX_KEYS: nat := 100_000
  const EVICT_FRACTION := 10

  // ---------------------------------------------------------------- one key

  /** A rate of `limit` requests in `period`. */
  datatype Rate = Rate(limit: int, period: int, interval: int)

  /** The interval is the period divided by the count, rounded down. */
  function FromCount(count: int, period: int): Rate {
    Rate(count, period, if count <= 0 then period else period / count)
  }

  predicate ValidRate(r: Rate) {
    0 < r.interval <= r.period
  }

  datatype Decision = Decision(allowed: bool, limit: int, remaining: int, retryAfter: int, reset: int)

  function Max(a: int, b: int): int { if a < b then b else a }

  function Min(a: int, b: int): int { if a < b then a else b }

  /** Division that rounds toward zero. */
  function Quot(a: int, b: int): int
    requires b > 0
  {
    if a >= 0 then a / b else -((-a) / b)
  }

  /** What is left of the burst, between zero and the limit. */
  function Remaining(r: Rate, now: int, tat: int): int
    requires ValidRate(r)
  {
    Min(Max(Quot(r.period - (tat - now), r.interval), 0), r.limit)
  }

  /** When the key is idle at `now` or not known, the schedule starts at `now`. */
  function From(tat: Option<int>, now: int): int {
    if tat.None? then now else Max(tat.value, now)
  }

  /** The decision for `n` requests at `now`. */
  function Decide(r: Rate, tat: Option<int>, now: int, n: nat): Decision
    requires ValidRate(r)
  {
    var from := From(tat, now);
    var next := from + n * r.interval;
    var allowAt := next - r.period;
    if now < allowAt then Decision(false, r.limit, Remaining(r, now, from), allowAt - now, from - now)
    else Decision(true, r.limit, Remaining(r, now, next), 0, next - now)
  }

  /** The arrival time after the decision. */
  function Next(r: Rate, tat: Option<int>, now: int, n: nat): Option<int>
    requires ValidRate(r)
  {
    if Decide(r, tat, now, n).allowed then Some(From(tat, now) + n * r.interval) else tat
  }

  // ---------------------------------------------------------------- what the reports mean

  /** `k` single requests, one after the other at the same instant, all pass. */
  predicate Burst(r: Rate, tat: Option<int>, now: int, k: nat)
    requires ValidRate(r)
    decreases k
  {
    k == 0 || (Decide(r, tat, now, 1).allowed && Burst(r, Next(r, tat, now, 1), now, k - 1))
  }

  lemma {:induction false} BurstRoom(r: Rate, tat: Option<int>, now: int, k: nat)
    requires ValidRate(r)
    ensures Burst(r, tat, now, k) <==> k == 0 || From(tat, now) + k * r.interval <= now + r.period
    decreases k
  {
    if k > 0 {
      var next := Next(r, tat, now, 1);
      BurstRoom(r, next, now, k - 1);
      assert k * r.interval == r.interval + (k - 1) * r.interval;
      assert (k - 1) * r.interval >= 0;
    }
  }

  lemma {:induction false} FloorRoom(room: int, i: int, k: nat)
    requires i > 0 && k > 0
    ensures k * i <= room <==> k <= Quot(room, i)
  {
    if room >= 0 {
      var q := room / i;
      assert q * i <= room < q * i + i;
      if k <= q { assert k * i <= q * i; } else { assert (q + 1) * i <= k * i; }
    } else {
      assert k * i > 0;
      assert Quot(room, i) <= 0;
    }
  }

  /** Remaining is the number of single requests that would still pass at once, up to the limit. */
  lemma {:induction false} RemainingExact(r: Rate, tat: Option<int>, now: int, n: nat, k: nat)
    requires ValidRate(r) && k <= r.limit
    ensures Burst(r, Next(r, tat, now, n), now, k) <==> k <= Decide(r, tat, now, n).remaining
    ensures 0 <= Decide(r, tat, now, n).remaining <= r.limit
  {
    var next := Next(r, tat, now, n);
    BurstRoom(r, next, now, k);
    assert n * r.interval >= 0;
    if k > 0 {
      FloorRoom(r.period - (From(next, now) - now), r.interval, k);
    }
  }

  /** If nothing else arrives, the request passes after a wait exactly from RetryAfter on, and never
      if it is larger than the whole burst. */
  lemma {:induction false} RetryAfterExact(r: Rate, tat: Option<int>, now: int, n: nat, wait: nat)
    requires ValidRate(r)
    ensures Decide(r, tat, now + wait, n).allowed <==>
      n * r.interval <= r.period && Decide(r, tat, now, n).retryAfter <= wait
  {
  }

  /** A request that asks for more than the burst is told to retry in vain. */
  lemma {:induction false} OversizedNeverPasses()
    ensures var r := FromCount(2, 60);
      ValidRate(r) && !Decide(r, None, 0, 3).allowed && Decide(r, None, 0, 3).retryAfter == 30 &&
        !Decide(r, None, 30, 3).allowed
  {
  }

  /** Reset is the least wait after which the key is idle: from then on the schedule starts afresh. */
  lemma {:induction false} ResetExact(r: Rate, tat: Option<int>, now: int, n: nat, wait: nat)
    requires ValidRate(r)
    ensures From(Next(r, tat, now, n), now + wait) == now + wait <==> Decide(r, tat, now, n).reset <= wait
    ensures Decide(r, tat, now, n).limit == r.limit && Decide(r, tat, now, n).reset >= 0
    ensures Decide(r, tat, now, n).allowed <==> Decide(r, tat, now, n).retryAfter == 0
  {
    if Decide(r, tat, now, n).allowed { assert n * r.interval >= 0; }
  }

  /** From idle, a burst of as many requests as intervals fit into the period passes. */
  lemma {:induction false} IdleBurst(r: Rate, now: int, k: nat)
    requires ValidRate(r)
    ensures Burst(r, None, now, k) <==> k <= r.period / r.interval
  {
    BurstRoom(r, None, now, k);
    if k > 0 { FloorRoom(r.period, r.interval, k); }
  }

  /** That burst is at least the count, and exactly the count if and only if the remainder of the
      division is below the interval. */
  lemma {:induction false} BurstIsCount(count: int, period: int)
    requires 0 < count <= period
    ensures var r := FromCount(count, period);
      ValidRate(r) && r.period / r.interval >= count &&
        (r.period / r.interval == count <==> period % count < r.interval)
  {
    DivPositive(period, count);
    DivCount(period, count, period / count, period % count);
  }

  lemma {:induction false} DivCount(period: int, count: int, i: int, rest: int)
    requires count > 0 && i > 0 && rest >= 0 && period == count * i + rest && period > 0
    ensures period / i >= count && (period / i == count <==> rest < i)
  {
    FloorRoom(period, i, count);
    FloorRoom(period, i, count + 1);
    Distribute(count, 1, i);
  }

  lemma {:induction false} Distribute(a: int, b: int, i: int)
    ensures (a + b) * i == a * i + b * i
  {
  }

  lemma {:induction false} DivPositive(a: int, b: int)
    requires 0 < b <= a
    ensures 1 <= a / b <= a
  {
    FloorRoom(a, b, 1);
    FloorRoom(a, b, a + 1);
    MulGrows(a + 1, b);
  }

  lemma {:induction false} MulGrows(a: int, b: int)
    requires a > 0 && b > 0
    ensures a * b >= a
  {
  }

  // ---------------------------------------------------------------- what is admitted over time

  /** Admitted requests of a key, in the order they came. */
  datatype Hit = Hit(at: int, n: nat)

  /** The arrival time that follows from the admitted requests alone. */
  function Tat(r: Rate, log: seq<Hit>): Option<int> {
    if log == [] then None
    else
      var h := log[|log| - 1];
      Some(From(Tat(r, log[..|log| - 1]), h.at) + h.n * r.interval)
  }

  /** Every request of the log was admitted on the strength of those before it. */
  predicate Admitted(r: Rate, log: seq<Hit>)
    requires ValidRate(r)
  {
    && (forall i, j :: 0 <= i < j < |log| ==> log[i].at <= log[j].at)
    && (forall i :: 0 <= i < |log| ==> AdmittedAt(r, log, i))
  }

  predicate AdmittedAt(r: Rate, log: seq<Hit>, i: nat)
    requires ValidRate(r) && i < |log|
  {
    Decide(r, Tat(r, log[..i]), log[i].at, log[i].n).allowed
  }

  /** The units admitted from `s` to `t`. */
  function Units(log: seq<Hit>, s: int, t: int): nat {
    if log == [] then 0
    else
      var h := log[|log| - 1];
      Units(log[..|log| - 1], s, t) + if s <= h.at <= t then h.n else 0
  }

  lemma {:induction false} NoUnitsBefore(log: seq<Hit>, s: int, t: int)
    requires forall i :: 0 <= i < |log| ==> log[i].at < s
    ensures Units(log, s, t) == 0
  {
    if log != [] { NoUnitsBefore(log[..|log| - 1], s, t); }
  }

  /** Units admitted from `s` on push the arrival time ahead of `s`. */
  lemma {:induction false} UnitsPush(r: Rate, log: seq<Hit>, s: int, t: int)
    requires ValidRate(r) && Admitted(r, log) && |log| > 0 && s <= log[|log| - 1].at <= t
    ensures Tat(r, log).value >= s + Units(log, s, t) * r.interval
  {
    var n := |log| - 1;
    var h, prefix := log[n], log[..n];
    if n > 0 && s <= prefix[n - 1].at {
      AdmittedPrefix(r, log, n);
      UnitsPush(r, prefix, s, t);
    } else {
      NoUnitsBefore(prefix, s, t);
    }
    Distribute(Units(prefix, s, t), h.n, r.interval);
  }

  lemma {:induction false} AdmittedPrefix(r: Rate, log: seq<Hit>, n: nat)
    requires ValidRate(r) && Admitted(r, log) && n <= |log|
    ensures Admitted(r, log[..n])
  {
    forall i | 0 <= i < n ensures AdmittedAt(r, log[..n], i) {
      assert log[..n][..i] == log[..i];
      assert AdmittedAt(r, log, i);
    }
  }

  /** In any interval the units admitted, times the interval of the rate, stay within the period plus
      the length of the interval. */
  lemma {:induction false} RateHolds(r: Rate, log: seq<Hit>, s: int, t: int)
    requires ValidRate(r) && Admitted(r, log) && s <= t
    ensures Units(log, s, t) * r.interval <= r.period + (t - s)
    ensures Units(log, s, t) <= (r.period + (t - s)) / r.interval
  {
    if log != [] {
      var n := |log| - 1;
      if s <= log[n].at <= t {
        UnitsPush(r, log, s, t);
        assert AdmittedAt(r, log, n);
      } else {
        AdmittedPrefix(r, log, n);
        RateHolds(r, log[..n], s, t);
      }
    }
    QuotBound(Units(log, s, t), r.interval, r.period + (t - s));
  }

  lemma {:induction false} QuotBound(u: nat, i: int, room: int)
    requires i > 0 && u * i <= room
    ensures u <= room / i
  {
    if u > 0 { FloorRoom(room, i, u); } else { assert room >= 0; }
  }

  // ---------------------------------------------------------------- the table of keys

  lemma {:induction false} AdmitOne(r: Rate, log: seq<Hit>, now: int, n: nat)
    requires ValidRate(r) && Admitted(r, log) && (log != [] ==> log[|log| - 1].at <= now)
    requires Decide(r, Tat(r, log), now, n).allowed
    ensures Admitted(r, log + [Hit(now, n)])
    ensures Tat(r, log + [Hit(now, n)]) == Some(From(Tat(r, log), now) + n * r.interval)
  {
    var log' := log + [Hit(now, n)];
    assert log'[..|log|] == log;
    forall i | 0 <= i < |log'| ensures AdmittedAt(r, log', i) {
      if i < |log| { assert log'[..i] == log[..i] && AdmittedAt(r, log, i); }
    }
  }

  /** The keys of a table in the order of their arrival times. */
  function PlaceKey(tat: map<string, int>, k: string, ks: seq<string>): (r: seq<string>)
    requires k in tat && forall x :: x in ks ==> x in tat
    ensures |r| == |ks| + 1 && forall x :: x in r <==> x in ks || x == k
  {
    if ks == [] then [k]
    else if tat[ks[0]] < tat[k] then [ks[0]] + PlaceKey(tat, k, ks[1..])
    else [k] + ks
  }

  predicate ByArrival(tat: map<string, int>, ks: seq<string>)
    requires forall x :: x in ks ==> x in tat
  {
    Distinct(ks) &&
    (forall i, j :: 0 <= i < j < |ks| ==> tat[ks[i]] <= tat[ks[j]])
  }

  /** The first of an ordered list arrives no later than what is placed behind it. */
  lemma {:induction false} FirstStaysFirst(tat: map<string, int>, k: string, ks: seq<string>, x: string)
    requires k in tat && k !in ks && (forall x :: x in ks ==> x in tat) && ByArrival(tat, ks)
    requires ks != [] && tat[ks[0]] < tat[k] && (x == k || x in ks[1..])
    ensures tat[ks[0]] <= tat[x] && ks[0] != x
  {
    if x != k {
      var j :| 1 <= j < |ks| && ks[j] == x;
    }
  }

  lemma {:induction false} ConsByArrival(tat: map<string, int>, x: string, r: seq<string>)
    requires x in tat && (forall y :: y in r ==> y in tat) && ByArrival(tat, r)
    requires forall y :: y in r ==> tat[x] <= tat[y] && x != y
    ensures ByArrival(tat, [x] + r)
  {
  }

  lemma {:induction false} PlaceKeyOrders(tat: map<string, int>, k: string, ks: seq<string>)
    requires k in tat && k !in ks && (forall x :: x in ks ==> x in tat) && ByArrival(tat, ks)
    ensures ByArrival(tat, PlaceKey(tat, k, ks))
  {
    if ks != [] && tat[ks[0]] < tat[k] {
      PlaceKeyOrders(tat, k, ks[1..]);
      var r := PlaceKey(tat, k, ks[1..]);
      forall y | y in r ensures tat[ks[0]] <= tat[y] && ks[0] != y { FirstStaysFirst(tat, k, ks, y); }
      ConsByArrival(tat, ks[0], r);
    } else if ks != [] {
      forall y | y in ks ensures tat[k] <= tat[y] {
        var j :| 0 <= j < |ks| && ks[j] == y;
      }
      ConsByArrival(tat, k, ks);
    }
  }

  method SortKeys(tat: map<string, int>) returns (ks: seq<string>)
    ensures |ks| == |tat| && (forall x :: x in ks <==> x in tat) && ByArrival(tat, ks)
  {
    ks := [];
    var left := tat.Keys;
    while left != {}
      invariant left <= tat.Keys && |ks| + |left| == |tat|
      invariant forall x :: x in ks <==> x in tat && x !in left
      invariant ByArrival(tat, ks)
      decreases left
    {
      var k :| k in left;
      PlaceKeyOrders(tat, k, ks);
      ks := PlaceKey(tat, k, ks);
      left := left - {k};
    }
  }

  lemma {:induction false} RemoveOne(tat: map<string, int>, k: string)
    requires k in tat
    ensures |tat - {k}| == |tat| - 1
  {
    assert tat.Keys == (tat - {k}).Keys + {k};
  }

  predicate Distinct(ks: seq<string>) {
    forall i, j :: 0 <= i < j < |ks| ==> ks[i] != ks[j]
  }

  /** Delete the first `n` of the keys. */
  method DropFirst(tat: Arrivals, ks: seq<string>, n: nat) returns (out: Arrivals)
    requires n <= |ks| == |tat| && Distinct(ks) && Elements(ks) == tat.Keys
    ensures out == Without(tat, Elements(ks[..n])) && |out| == |tat| - n
  {
    out := tat;
    for i := 0 to n
      invariant |out| == |tat| - i && out == Without(tat, Elements(ks[..i]))
    {
      DropNext(tat, ks, i);
      out := out - {ks[i]};
    }
  }

  lemma {:induction false} DropNext(tat: Arrivals, ks: seq<string>, i: nat)
    requires i < |ks| && Distinct(ks) && Elements(ks) == tat.Keys
    ensures var out := Without(tat, Elements(ks[..i]));
      out - {ks[i]} == Without(tat, Elements(ks[..i + 1])) && |out - {ks[i]}| == |out| - 1
  {
    var out := Without(tat, Elements(ks[..i]));
    FrontStep(ks, i);
    assert ks[i] in Elements(ks);
    RemoveOne(out, ks[i]);
  }

  lemma {:induction false} FrontStep(ks: seq<string>, i: nat)
    requires i < |ks| && Distinct(ks)
    ensures Elements(ks[..i + 1]) == Elements(ks[..i]) + {ks[i]} && ks[i] !in Elements(ks[..i])
  {
    assert ks[..i + 1] == ks[..i] + [ks[i]];
  }

  type Arrivals = map<string, int>
  type Logs = map<string, seq<Hit>>

  function LogOf(logs: Logs, k: string): seq<Hit> {
    if k in logs then logs[k] else []
  }

  /** A key in the table carries the arrival time its log implies; one missing from it is idle. */
  predicate Faithful(r: Rate, tat: Arrivals, logs: Logs, clock: int, k: string)
    requires ValidRate(r)
  {
    var log := LogOf(logs, k);
    && Admitted(r, log)
    && (log != [] ==> log[|log| - 1].at <= clock)
    && (if k in tat then Tat(r, log) == Some(tat[k]) else log == [] || Tat(r, log).value <= clock)
  }

  ghost predicate AllFaithful(r: Rate, tat: Arrivals, logs: Logs, clock: int)
    requires ValidRate(r)
  {
    forall k :: Faithful(r, tat, logs, clock, k)
  }

  function Live(tat: Arrivals, now: int): Arrivals {
    map k | k in tat && tat[k] > now :: tat[k]
  }

  function Without<V>(m: map<string, V>, gone: set<string>): map<string, V> {
    m - gone
  }

  /** Dropping idle keys, or any key together with its log, keeps the table faithful. */
  lemma {:induction false} DropKeeps(r: Rate, tat: Arrivals, logs: Logs, clock: int, now: int, gone: set<string>)
    requires ValidRate(r) && AllFaithful(r, tat, logs, clock) && clock <= now
    ensures AllFaithful(r, Live(tat, now), logs, now)
    ensures AllFaithful(r, tat, logs, now)
    ensures AllFaithful(r, Without(tat, gone), Without(logs, gone), now)
  {
    forall k
      ensures Faithful(r, Live(tat, now), logs, now, k) && Faithful(r, tat, logs, now, k)
      ensures Faithful(r, Without(tat, gone), Without(logs, gone), now, k)
    {
      assert Faithful(r, tat, logs, clock, k);
    }
  }

  lemma {:induction false} AdmitKeeps(r: Rate, tat: Arrivals, logs: Logs, now: int, key: string, log: seq<Hit>,
                                      next: int)
    requires ValidRate(r) && AllFaithful(r, tat, logs, now)
    requires Admitted(r, log) && log != [] && log[|log| - 1].at <= now && Tat(r, log) == Some(next)
    ensures AllFaithful(r, tat[key := next], logs[key := log], now)
  {
    var tat', logs' := tat[key := next], logs[key := log];
    forall k ensures Faithful(r, tat', logs', now, k) {
      if k != key {
        assert Faithful(r, tat, logs, now, k);
        assert LogOf(logs', k) == LogOf(logs, k);
      }
    }
  }

  function Lookup(tat: Arrivals, key: string): Option<int> {
    if key in tat then Some(tat[key]) else None
  }

  /** The table decides as the log does. */
  lemma {:induction false} SameDecision(r: Rate, tat: Arrivals, logs: Logs, now: int, key: string, n: nat)
    requires ValidRate(r) && Faithful(r, tat, logs, now, key)
    ensures From(Lookup(tat, key), now) == From(Tat(r, LogOf(logs, key)), now)
    ensures Decide(r, Lookup(tat, key), now, n) == Decide(r, Tat(r, LogOf(logs, key)), now, n)
  {
  }

  class Limits {
    const rate: Rate
    var tat: Arrivals
    var calls: nat
    var lastSweep: int
    /** What each key was granted since it was last reset or evicted, and the time of the last call. */
    ghost var logs: Logs
    ghost var clock: int

    ghost predicate Valid()
      reads this
    {
      ValidRate(rate) && |tat| <= MAX_KEYS && AllFaithful(rate, tat, logs, clock)
    }

    constructor (count: int, period: int)
      requires ValidRate(FromCount(count, period))
      ensures Valid() && rate == FromCount(count, period) && logs == map[] && tat == map[]
    {
      rate := FromCount(count, period);
      tat, calls, lastSweep, logs, clock := map[], 0, 0, map[], 0;
    }

    /** Forget the keys that are idle at `now`. */
    method Expire(now: int)
      modifies this`tat, this`lastSweep
      ensures tat == Live(old(tat), now) && lastSweep == now
    {
      lastSweep := now;
      ghost var before := tat;
      var left := tat.Keys;
      while left != {}
        invariant lastSweep == now
        invariant forall k :: k in left ==> k in tat
        invariant tat == map k | k in before && (k in left || before[k] > now) :: before[k]
        decreases left
      {
        var k :| k in left;
        left := left - {k};
        if !(tat[k] > now) {
          tat := tat - {k};
        }
      }
    }

    /** Every so many calls the idle keys are forgotten. */
    method Sweep(now: int)
      modifies this`tat, this`lastSweep, this`calls
      ensures calls == old(calls) + 1
      ensures tat == if calls % 1024 != 0 then old(tat) else Live(old(tat), now)
    {
      calls := calls + 1;
      if calls % SWEEP_EVERY != 0 {
        return;
      }
      Expire(now);
    }

    /** Make room: forget idle keys, and if that is not enough the tenth of the keys closest to idle. */
    method Evict(now: int) returns (ghost gone: set<string>)
      requires |tat| <= MAX_KEYS
      modifies this`tat, this`lastSweep
      ensures |tat| < MAX_KEYS && tat == Without(Live(old(tat), now), gone)
      ensures gone <= Live(old(tat), now).Keys
      ensures forall a, b :: a in gone && b in tat ==> old(tat)[a] <= tat[b]
      ensures gone != {} ==> |old(tat)| == 100_000 && |gone| == 10_000
    {
      ghost var before := tat;
      Expire(now);
      Smaller(before, tat);
      if |tat| < MAX_KEYS {
        assert tat == Without(tat, {});
        return {};
      }
      var ks := SortKeys(tat);
      var n := |ks| / EVICT_FRACTION;
      gone := Elements(ks[..n]);
      FrontIsLeast(tat, ks, n);
      tat := DropFirst(tat, ks, n);
    }

    /** Ask for `n` requests at once.  The decision is the one the log of the key implies: neither
        sweeping idle keys nor evicting other keys changes it. */
    method AllowN(key: string, n: nat, now: int) returns (d: Decision, ghost gone: set<string>)
      requires Valid() && clock <= now
      modifies this
      ensures Valid() && clock == now
      ensures d == Decide(rate, Tat(rate, LogOf(old(logs), key)), now, n)
      ensures logs ==
        if d.allowed then Without(old(logs), gone)[key := LogOf(old(logs), key) + [Hit(now, n)]]
        else Without(old(logs), gone)
      ensures key !in gone && (gone != {} ==> |old(tat)| == MAX_KEYS)
    {
      ghost var t0 := tat;
      DropKeeps(rate, tat, logs, clock, now, {});
      Sweep(now);
      Smaller(t0, tat);
      clock, gone := now, {};
      var cur := Lookup(tat, key);
      assert Faithful(rate, tat, logs, now, key);
      SameDecision(rate, tat, logs, now, key, n);
      if cur.None? && |tat| >= MAX_KEYS {
        gone := MakeRoom(now);
      } else {
        assert Without(logs, {}) == logs;
      }
      assert LogOf(logs, key) == LogOf(old(logs), key);
      d := Decide(rate, cur, now, n);
      if d.allowed {
        Admit(key, n, now, From(cur, now) + n * rate.interval);
      }
    }

    /** Record an admitted request. */
    method Admit(key: string, n: nat, now: int, next: int)
      requires Valid() && clock == now && (key in tat || |tat| < MAX_KEYS)
      requires Decide(rate, Tat(rate, LogOf(logs, key)), now, n).allowed
      requires next == From(Tat(rate, LogOf(logs, key)), now) + n * rate.interval
      modifies this`tat, this`logs
      ensures Valid() && tat == old(tat)[key := next] && logs == old(logs)[key := LogOf(old(logs), key) + [Hit(now, n)]]
    {
      ghost var log := LogOf(logs, key);
      assert Faithful(rate, tat, logs, now, key);
      AdmitOne(rate, log, now, n);
      AdmitKeeps(rate, tat, logs, now, key, log + [Hit(now, n)], next);
      Larger(tat, key, next);
      tat := tat[key := next];
      logs := logs[key := log + [Hit(now, n)]];
    }

    /** Eviction forgets the logs of the evicted keys too. */
    method MakeRoom(now: int) returns (ghost gone: set<string>)
      requires Valid() && clock == now
      modifies this`tat, this`lastSweep, this`logs
      ensures Valid() && |tat| < MAX_KEYS && logs == Without(old(logs), gone)
      ensures gone <= old(tat).Keys && (gone != {} ==> |old(tat)| == MAX_KEYS)
      ensures forall a, b :: a in gone && b in tat ==> old(tat)[a] <= tat[b]
    {
      ghost var t0 := tat;
      gone := Evict(now);
      DropKeeps(rate, t0, logs, now, now, {});
      DropKeeps(rate, Live(t0, now), logs, now, now, gone);
      logs := Without(logs, gone);
    }

    /** Whether a single request would be refused now, and for how long. */
    method Blocked(key: string, now: int) returns (wait: int, blocked: bool)
      requires Valid() && clock <= now
      ensures blocked == !Decide(rate, Tat(rate, LogOf(logs, key)), now, 1).allowed
      ensures blocked ==> wait == Decide(rate, Tat(rate, LogOf(logs, key)), now, 1).retryAfter
    {
      assert Faithful(rate, tat, logs, clock, key);
      if key !in tat {
        return 0, false;
      }
      wait := tat[key] + (rate.interval - rate.period) - now;
      blocked := wait > 0;
    }

    method Reset(key: string)
      requires Valid()
      modifies this`tat, this`logs
      ensures Valid() && logs == Without(old(logs), {key}) && tat == Without(old(tat), {key})
    {
      DropKeeps(rate, tat, logs, clock, clock, {key});
      Smaller(tat, Without(tat, {key}));
      tat := Without(tat, {key});
      logs := Without(logs, {key});
    }

    /** Whatever calls have been made, the grants of a key since it was last reset or evicted keep the
        rate over every interval, swept or not. */
    lemma {:induction false} GrantsKeepRate(key: string, s: int, t: int)
      requires Valid() && s <= t
      ensures Units(LogOf(logs, key), s, t) <= (rate.period + (t - s)) / rate.interval
    {
      assert Faithful(rate, tat, logs, clock, key);
      RateHolds(rate, LogOf(logs, key), s, t);
    }
  }

  /** Forgetting keys does not grow the table. */
  lemma {:induction false} Smaller(before: Arrivals, after: Arrivals)
    requires forall k :: k in after ==> k in before
    ensures |after| <= |before|
  {
    assert before.Keys == after.Keys + (before.Keys - after.Keys);
  }

  lemma {:induction false} Larger(tat: Arrivals, key: string, v: int)
    ensures |tat[key := v]| <= |tat| + 1
    ensures key in tat ==> |tat[key := v]| == |tat|
  {
    assert tat[key := v].Keys == tat.Keys + {key};
  }

  lemma {:induction false} FrontSize(ks: seq<string>, n: nat)
    requires n <= |ks| && Distinct(ks)
    ensures |Elements(ks[..n])| == n
  {
    if n > 0 {
      FrontSize(ks, n - 1);
      FrontStep(ks, n - 1);
      OneMore(Elements(ks[..n - 1]), ks[n - 1]);
    } else {
      assert ks[..n] == [];
    }
  }

  lemma {:induction false} OneMore(s: set<string>, x: string)
    requires x !in s
    ensures |s + {x}| == |s| + 1
  {
  }

  /** In a sorted list the front holds the least arrival times. */
  lemma {:induction false} FrontIsLeast(tat: Arrivals, ks: seq<string>, n: nat)
    requires n <= |ks| && (forall x :: x in ks <==> x in tat) && ByArrival(tat, ks)
    ensures |Elements(ks[..n])| == n && Elements(ks) == tat.Keys && Elements(ks[..n]) <= tat.Keys
    ensures forall a, b :: a in Elements(ks[..n]) && b in tat && b !in Elements(ks[..n]) ==> tat[a] <= tat[b]
  {
    FrontSize(ks, n);
    assert forall x :: x in ks[..n] ==> x in ks;
    forall a, b | a in ks[..n] && b in tat && b !in ks[..n] ensures a in tat && tat[a] <= tat[b] {
      var i :| 0 <= i < n && ks[i] == a;
      assert a in ks && b in ks;
      var j :| 0 <= j < |ks| && ks[j] == b;
      assert n <= j;
    }
  }
}

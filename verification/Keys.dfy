/** Fractional ordering keys: strings over the base-62 digits 0-9, A-Z, a-z, compared byte by
    byte.  A row keeps its place in a list by its key, and `KeyBetween` makes a key for a new
    place.  The empty string stands for an open bound. */
module Keys {

  const BASE := 62

  predicate IsDigit(c: char) {
    '0' <= c <= '9' || 'A' <= c <= 'Z' || 'a' <= c <= 'z'
  }

  /** The value of a digit; a character outside the alphabet counts as zero. */
  function Digit(c: char): nat {
    if '0' <= c <= '9' then c as int - '0' as int
    else if 'A' <= c <= 'Z' then c as int - 'A' as int + 10
    else if 'a' <= c <= 'z' then c as int - 'a' as int + 36
    else 0
  }

  /** The digit of value `d`. */
  function Char(d: nat): (c: char)
    requires d < BASE
    ensures IsDigit(c) && Digit(c) == d
  {
    if d < 10 then ('0' as int + d) as char
    else if d < 36 then ('A' as int + (d - 10)) as char
    else ('a' as int + (d - 36)) as char
  }

  predicate IsKey(s: string) {
    forall i :: 0 <= i < |s| ==> IsDigit(s[i])
  }

  predicate EndsInZero(s: string) {
    |s| > 0 && s[|s| - 1] == '0'
  }

  predicate AllZeros(s: string) {
    forall i :: 0 <= i < |s| ==> s[i] == '0'
  }

  /** Byte order on strings. */
  predicate Less(a: string, b: string) {
    b != [] && (a == [] || a[0] < b[0] || (a[0] == b[0] && Less(a[1..], b[1..])))
  }

  /** `b` is `a` followed by zeros, so that nothing but such strings lies between them. */
  predicate ZeroPadding(a: string, b: string) {
    a <= b && AllZeros(b[|a|..])
  }

  // ---------------------------------------------------------------- the four source functions

  function Head(a: string): char {
    if a == [] then '0' else a[0]
  }

  function Rest(a: string): string {
    if a == [] then [] else a[1..]
  }

  /** Length of the common prefix when `a` is continued with zeros. */
  function Common(a: string, b: string): (n: nat)
    ensures n <= |b|
  {
    if b == [] || Head(a) != b[0] then 0 else 1 + Common(Rest(a), b[1..])
  }

  function Drop(a: string, n: nat): string {
    if n < |a| then a[n..] else []
  }

  function Midpoint(a: string, b: string): string
    decreases |b|, |a|
  {
    var n := Common(a, b);
    if n > 0 then b[..n] + Midpoint(Drop(a, n), b[n..])
    else
      var da := Digit(Head(a));
      var db := if b == [] then BASE else Digit(b[0]);
      if db - da > 1 then [Char((da + db + 1) / 2)]
      else if |b| > 1 then b[..1]
      else [Char(da)] + Midpoint(Rest(a), [])
  }

  function KeyAfter(a: string): string {
    if a == [] then "V"
    else if Digit(a[0]) < BASE - 1 then [Char(Digit(a[0]) + 1)]
    else [a[0]] + KeyAfter(a[1..])
  }

  /** The first character of `b` with a digit above zero decides. */
  function FirstNonzero(b: string): (i: nat)
    ensures i <= |b|
    ensures forall j :: 0 <= j < i ==> Digit(b[j]) == 0
    ensures i < |b| ==> Digit(b[i]) > 0
  {
    if b == [] || Digit(b[0]) > 0 then 0 else 1 + FirstNonzero(b[1..])
  }

  function KeyBefore(b: string): string {
    var i := FirstNonzero(b);
    if i == |b| then Midpoint("", b)
    else if Digit(b[i]) > 1 then b[..i] + [Char(Digit(b[i]) - 1)]
    else b[..i] + "0V"
  }

  function KeyBetween(a: string, b: string): string {
    if b == [] || !Less(a, b) then KeyAfter(a)
    else if a == [] then KeyBefore(b)
    else Midpoint(a, b)
  }

  // ---------------------------------------------------------------- the loops of the source

  method ScanAfter(a: string) returns (r: string)
    ensures r == KeyAfter(a)
  {
    var i := 0;
    while i < |a|
      invariant 0 <= i <= |a|
      invariant KeyAfter(a) == a[..i] + KeyAfter(a[i..])
    {
      var d := Digit(a[i]);
      if d < BASE - 1 {
        return a[..i] + [Char(d + 1)];
      }
      assert a[..i] + [a[i]] == a[..i + 1] && a[i..][1..] == a[i + 1..];
      i := i + 1;
    }
    assert a[..i] == a;
    return a + "V";
  }

  method ScanBefore(b: string) returns (r: string)
    ensures r == KeyBefore(b)
  {
    var i := 0;
    while i < |b|
      invariant 0 <= i <= FirstNonzero(b)
    {
      var d := Digit(b[i]);
      if d > 1 {
        return b[..i] + [Char(d - 1)];
      } else if d == 1 {
        return b[..i] + "0V";
      }
      i := i + 1;
    }
    r := ScanMidpoint("", b);
  }

  /** The key between two others, open where one of them is empty. */
  method PlaceBetween(a: string, b: string) returns (r: string)
    requires IsKey(a) && IsKey(b)
    ensures Less(a, r) && GoodKey(r, if |a| < |b| then |b| else |a|)
    ensures Less(a, b) ==> (Less(r, b) <==> !ZeroPadding(a, b))
    ensures a == "" && b == "" ==> r == "V"
  {
    if b == "" || !Less(a, b) {
      r := ScanAfter(a);
    } else if a == "" {
      r := ScanBefore(b);
    } else {
      r := ScanMidpoint(a, b);
    }
    KeyBetweenPlace(a, b);
  }

  method ScanMidpoint(a: string, b: string) returns (r: string)
    ensures r == Midpoint(a, b)
    decreases |b|, |a|
  {
    if b != [] {
      var n := 0;
      assert b[0..] == b;
      while n < |b|
        invariant 0 <= n <= |b|
        invariant Common(a, b) == n + Common(Drop(a, n), b[n..])
      {
        var ca := if n < |a| then a[n] else '0';
        if ca != b[n] {
          break;
        }
        assert Rest(Drop(a, n)) == Drop(a, n + 1) && b[n..][1..] == b[n + 1..];
        n := n + 1;
      }
      if n > 0 {
        var m := ScanMidpoint(Drop(a, n), b[n..]);
        return b[..n] + m;
      }
    }
    var da, db := Digit(Head(a)), if b == [] then BASE else Digit(b[0]);
    if db - da > 1 {
      return [Char((da + db + 1) / 2)];
    }
    if |b| > 1 {
      return b[..1];
    }
    var m := ScanMidpoint(Rest(a), []);
    return [Char(da)] + m;
  }

  // ---------------------------------------------------------------- order and prefix lemmas

  lemma {:induction false} LessTrans(a: string, b: string, c: string)
    requires Less(a, b) && Less(b, c)
    ensures Less(a, c)
  {
    if a != [] && a[0] == b[0] && b[0] == c[0] {
      LessTrans(a[1..], b[1..], c[1..]);
    }
  }

  lemma {:induction false} LessTotal(a: string, b: string)
    ensures !Less(a, a)
    ensures Less(a, b) || a == b || Less(b, a)
    ensures !(Less(a, b) && Less(b, a))
  {
    if a != [] {
      LessTotal(a[1..], if b == [] then [] else b[1..]);
      assert a == [a[0]] + a[1..];
      if b != [] { assert b == [b[0]] + b[1..]; }
    }
  }

  lemma {:induction false} LessCons(c: char, x: string, y: string)
    ensures Less([c] + x, [c] + y) == Less(x, y)
  {
    assert ([c] + x)[1..] == x && ([c] + y)[1..] == y;
  }

  lemma {:induction false} MidpointShared(a: string, b: string)
    requires Common(a, b) > 0
    ensures Midpoint(a, b) == b[..Common(a, b)] + Midpoint(Drop(a, Common(a, b)), b[Common(a, b)..])
  {
  }

  lemma {:induction false} SharedStep(a: string, b: string, n: nat, m: string)
    requires b != [] && 1 <= n <= |b|
    ensures Drop(Rest(a), n - 1) == Drop(a, n) && b[1..][n - 1..] == b[n..]
    ensures [b[0]] + (b[1..][..n - 1] + m) == b[..n] + m
  {
  }

  lemma {:induction false} OneShared(a: string, b: string)
    requires b != [] && Common(a, b) == 1
    ensures Midpoint(a, b) == [b[0]] + Midpoint(Rest(a), b[1..])
  {
    MidpointShared(a, b);
    assert Drop(a, 1) == Rest(a) && b[..1] == [b[0]];
  }

  lemma {:induction false} MoreShared(a: string, b: string, n: nat)
    requires b != [] && Common(a, b) == n > 1 && Common(Rest(a), b[1..]) == n - 1
    ensures Midpoint(a, b) == [b[0]] + Midpoint(Rest(a), b[1..])
  {
    var m := Midpoint(Drop(a, n), b[n..]);
    MidpointShared(a, b);
    MidpointShared(Rest(a), b[1..]);
    SharedStep(a, b, n, m);
  }

  /** One shared digit can be peeled off both bounds. */
  lemma {:induction false} MidpointPeel(a: string, b: string)
    requires b != [] && Head(a) == b[0]
    ensures Midpoint(a, b) == [b[0]] + Midpoint(Rest(a), b[1..])
  {
    var n := Common(a, b);
    assert n == 1 + Common(Rest(a), b[1..]);
    if n > 1 { MoreShared(a, b, n); } else { OneShared(a, b); }
  }

  /** What every produced key satisfies besides its place. */
  predicate GoodKey(r: string, longest: nat) {
    r != [] && IsKey(r) && !EndsInZero(r) && |r| <= longest + 1
  }

  lemma {:induction false} GoodCons(c: char, r: string, longest: nat)
    requires IsDigit(c) && GoodKey(r, longest)
    ensures GoodKey([c] + r, longest + 1)
  {
  }

  /** With an open upper bound the midpoint lies above `a`. */
  lemma {:induction false} MidpointAbove(a: string)
    requires IsKey(a)
    ensures Less(a, Midpoint(a, [])) && GoodKey(Midpoint(a, []), |a|)
  {
    if Digit(Head(a)) == BASE - 1 {
      MidpointAbove(a[1..]);
      assert a == [a[0]] + a[1..];
      assert Char(Digit(a[0])) == a[0];
      LessCons(a[0], a[1..], Midpoint(a[1..], []));
      GoodCons(a[0], Midpoint(a[1..], []), |a| - 1);
    }
  }

  lemma {:induction false} PaddingPeel(a: string, b: string)
    requires b != [] && Head(a) == b[0]
    ensures ZeroPadding(a, b) == ZeroPadding(Rest(a), b[1..])
  {
    if a != [] {
      assert a == [a[0]] + a[1..] && b == [b[0]] + b[1..];
      if a[1..] <= b[1..] { assert a <= b; }
      assert a <= b ==> b[|a|..] == b[1..][|a| - 1..];
    } else {
      assert b == [b[0]] + b[1..];
      assert b[0..] == b && b[1..][0..] == b[1..];
    }
  }

  /** Less agrees with the peeled strings even where `a` has run out. */
  lemma {:induction false} LessPeel(a: string, b: string)
    requires b != [] && Head(a) == b[0] && Less(a, b)
    ensures !ZeroPadding(a, b) ==> Less(Rest(a), b[1..])
  {
    if a == [] && b[1..] == [] {
      assert b[0..] == b;
    }
  }

  /** The bounds differ in their first digit. */
  lemma {:induction false} MidpointApart(a: string, b: string)
    requires IsKey(a) && IsKey(b) && b != [] && Head(a) < b[0]
    ensures Less(a, Midpoint(a, b)) && Less(Midpoint(a, b), b)
    ensures GoodKey(Midpoint(a, b), if |a| < |b| then |b| else |a|)
  {
    var da, db := Digit(Head(a)), Digit(b[0]);
    assert Common(a, b) == 0 && da < db;
    if db - da == 1 && |b| == 1 {
      var m := Midpoint(Rest(a), []);
      MidpointAbove(Rest(a));
      assert Char(da) == Head(a);
      assert Midpoint(a, b) == [Head(a)] + m;
      GoodCons(Head(a), m, |Rest(a)|);
      assert ([Head(a)] + m)[1..] == m;
    }
  }

  /** A key between the peeled bounds, with the shared digit put back. */
  lemma {:induction false} PeelBack(a: string, b: string, m: string)
    requires b != [] && Head(a) == b[0] && IsDigit(b[0])
    requires Less(Rest(a), m) && Less(m, b[1..]) && GoodKey(m, if |Rest(a)| < |b| - 1 then |b| - 1 else |Rest(a)|)
    ensures Less(a, [b[0]] + m) && Less([b[0]] + m, b)
    ensures GoodKey([b[0]] + m, if |a| < |b| then |b| else |a|)
  {
    assert ([b[0]] + m)[1..] == m;
    GoodCons(b[0], m, if |Rest(a)| < |b| - 1 then |b| - 1 else |Rest(a)|);
  }

  lemma {:induction false} RestIsKey(a: string)
    requires IsKey(a)
    ensures IsKey(Rest(a))
  {
  }

  lemma {:induction false} MidpointBetween(a: string, b: string)
    requires IsKey(a) && IsKey(b) && Less(a, b) && !ZeroPadding(a, b)
    ensures Less(a, Midpoint(a, b)) && Less(Midpoint(a, b), b)
    ensures GoodKey(Midpoint(a, b), if |a| < |b| then |b| else |a|)
    decreases |b|
  {
    if Head(a) == b[0] {
      MidpointPeel(a, b);
      PaddingPeel(a, b);
      LessPeel(a, b);
      RestIsKey(a);
      RestIsKey(b);
      MidpointBetween(Rest(a), b[1..]);
      PeelBack(a, b, Midpoint(Rest(a), b[1..]));
    } else {
      MidpointApart(a, b);
    }
  }

  /** Between `a` and `a` padded with zeros the midpoint overshoots its upper bound. */
  lemma {:induction false} MidpointOvershoots(a: string, b: string)
    requires ZeroPadding(a, b)
    ensures Midpoint(a, b) == b + "V"
    decreases |b|
  {
    if b != [] {
      assert Head(a) == b[0] by { if a == [] { assert b[0..] == b; } }
      MidpointPeel(a, b);
      PaddingPeel(a, b);
      MidpointOvershoots(Rest(a), b[1..]);
      assert b == [b[0]] + b[1..];
    }
  }

  lemma {:induction false} LessExtend(b: string, x: string)
    requires x != []
    ensures Less(b, b + x)
  {
    if b != [] {
      LessExtend(b[1..], x);
      assert (b + x)[1..] == b[1..] + x;
    }
  }

  lemma {:induction false} KeyAfterAbove(a: string)
    requires IsKey(a)
    ensures Less(a, KeyAfter(a)) && GoodKey(KeyAfter(a), |a|)
  {
    if a != [] && Digit(a[0]) == BASE - 1 {
      KeyAfterAbove(a[1..]);
      assert a == [a[0]] + a[1..];
      LessCons(a[0], a[1..], KeyAfter(a[1..]));
      GoodCons(a[0], KeyAfter(a[1..]), |a| - 1);
    }
  }

  lemma {:induction false} LessAt(p: string, x: string, y: string)
    ensures Less(p + x, p + y) == Less(x, y)
  {
    if p == [] {
      assert p + x == x && p + y == y;
    } else {
      LessAt(p[1..], x, y);
      assert (p + x)[1..] == p[1..] + x && (p + y)[1..] == p[1..] + y;
    }
  }

  /** What replaces the first digit above zero and all that follows it. */
  function Lowered(c: char): string {
    if Digit(c) > 1 then [Char(Digit(c) - 1)] else "0V"
  }

  lemma {:induction false} LoweredBelow(rest: string)
    requires rest != [] && IsDigit(rest[0]) && Digit(rest[0]) > 0
    ensures Less(Lowered(rest[0]), rest) && GoodKey(Lowered(rest[0]), 1)
    ensures Digit(rest[0]) > 1 ==> |Lowered(rest[0])| == 1
  {
  }

  lemma {:induction false} KeyBeforeIs(b: string)
    requires FirstNonzero(b) < |b|
    ensures KeyBefore(b) == b[..FirstNonzero(b)] + Lowered(b[FirstNonzero(b)])
  {
  }

  lemma {:induction false} KeyBeforeBelow(b: string)
    requires IsKey(b) && !AllZeros(b)
    ensures Less(KeyBefore(b), b) && GoodKey(KeyBefore(b), |b|)
  {
    var i := FirstNonzero(b);
    assert i < |b|;
    KeyBeforeIs(b);
    LoweredBelow(b[i..]);
    assert b == b[..i] + b[i..];
    LessAt(b[..i], Lowered(b[i]), b[i..]);
    GoodAfter(b[..i], Lowered(b[i]), |b|);
  }

  lemma {:induction false} GoodAfter(p: string, tail: string, longest: nat)
    requires IsKey(p) && GoodKey(tail, 1) && |p| + |tail| <= longest + 1
    ensures GoodKey(p + tail, longest)
  {
    assert (p + tail)[|p + tail| - 1] == tail[|tail| - 1];
  }

  // ---------------------------------------------------------------- main results

  /** For base-62 keys in order, the new key lies strictly between its bounds exactly when the
      upper bound is not the lower one padded with zeros.  Whatever the bounds, the new key is
      above the lower one, is a key, does not end in zero and is at most one digit longer. */
  lemma {:induction false} KeyBetweenPlace(a: string, b: string)
    requires IsKey(a) && IsKey(b)
    ensures Less(a, KeyBetween(a, b))
    ensures GoodKey(KeyBetween(a, b), if |a| < |b| then |b| else |a|)
    ensures Less(a, b) ==> (Less(KeyBetween(a, b), b) <==> !ZeroPadding(a, b))
  {
    if b == [] || !Less(a, b) {
      KeyAfterAbove(a);
    } else if ZeroPadding(a, b) {
      MidpointOvershoots(a, b);
      if a == [] {
        assert b[0..] == b;
        assert FirstNonzero(b) == |b|;
      }
      LessExtend(b, "V");
      LessTotal(b, b + "V");
      LessTrans(a, b, b + "V");
    } else if a == [] {
      assert b[0..] == b;
      KeyBeforeBelow(b);
    } else {
      MidpointBetween(a, b);
    }
  }

  /** The promise the callers rely on: bounds that are keys not ending in zero. */
  lemma {:induction false} KeyBetweenStrict(a: string, b: string)
    requires IsKey(a) && IsKey(b) && !EndsInZero(b) && Less(a, b)
    ensures Less(a, KeyBetween(a, b)) && Less(KeyBetween(a, b), b)
    ensures GoodKey(KeyBetween(a, b), if |a| < |b| then |b| else |a|)
  {
    LessTotal(a, b);
    assert |a| < |b| ==> b[|a|..][|b| - |a| - 1] == b[|b| - 1];
    KeyBetweenPlace(a, b);
  }

  /** An upper bound that only adds zeros to the lower one is missed: nothing lies between "1" and "10". */
  lemma {:induction false} PaddedBoundMissed()
    ensures Less("1", "10") && KeyBetween("1", "10") == "10V" && !Less("10V", "10")
  {
    MidpointOvershoots("1", "10");
    LessExtend("10", "V");
    LessTotal("10", "10V");
  }

  // ---------------------------------------------------------------- every list built by insertion

  /** The key of a neighbour, open at either end. */
  function At(keys: seq<string>, i: int): string {
    if 0 <= i < |keys| then keys[i] else ""
  }

  /** Insert a new row before position `i`. */
  function InsertAt(keys: seq<string>, i: nat): seq<string>
    requires i <= |keys|
  {
    keys[..i] + [KeyBetween(At(keys, i - 1), At(keys, i))] + keys[i..]
  }

  predicate Sorted(keys: seq<string>) {
    forall i, j :: 0 <= i < j < |keys| ==> Less(keys[i], keys[j])
  }

  predicate KeyList(keys: seq<string>) {
    Sorted(keys) && forall i :: 0 <= i < |keys| ==> GoodKey(keys[i], |keys|)
  }

  /** A list after inserting at each place of `places` in turn; a place past the end means the end. */
  function Build(places: seq<nat>): seq<string> {
    if places == [] then []
    else
      var keys := Build(places[..|places| - 1]);
      var p := places[|places| - 1];
      InsertAt(keys, if p <= |keys| then p else |keys|)
  }

  lemma {:induction false} InsertKeepsOrder(keys: seq<string>, i: nat)
    requires KeyList(keys) && i <= |keys|
    ensures KeyList(InsertAt(keys, i))
  {
    var a, b := At(keys, i - 1), At(keys, i);
    var k := KeyBetween(a, b);
    if i < |keys| {
      assert Less(a, b);
      KeyBetweenStrict(a, b);
    } else {
      KeyBetweenPlace(a, b);
    }
    var out := InsertAt(keys, i);
    forall x, y | 0 <= x < y < |out| ensures Less(out[x], out[y]) {
      if y == i {
        assert out[x] == keys[x];
        if x < i - 1 { LessTrans(keys[x], a, k); }
      } else if x == i {
        assert out[y] == keys[y - 1];
        if i < y - 1 { LessTrans(k, b, keys[y - 1]); }
      }
    }
  }

  /** Any run of insertions, at any places, leaves a strictly increasing list of keys that do not
      end in zero, none longer than the number of insertions plus one. */
  lemma {:induction false} BuiltListsAreOrdered(places: seq<nat>)
    ensures |Build(places)| == |places| && KeyList(Build(places))
  {
    if places != [] {
      var n := |places| - 1;
      BuiltListsAreOrdered(places[..n]);
      var keys := Build(places[..n]);
      InsertKeepsOrder(keys, if places[n] <= |keys| then places[n] else |keys|);
    }
  }
}

/** Whole runs of pulls and pushes over an event edited on both sides.  A pull reads the stored sync token,
    fetches what changed since then, applies it under the lock of the binding, and stores the new token
    afterwards, outside the lock.  Any number of pulls may be under way: what one of them applies may be
    old by then, and the token stored last is the one that counts. */
module SyncRuns {
  import opened Common
  import opened SyncPull
  import opened SyncPush
  import opened SyncConflict

  /** A token is the count of remote changes it covers; none at all asks for everything. */
  type Token = nat

  datatype Pull = Begun(token: Token) | Got(token: Token, item: Option<Item>, upTo: Token) | Applied(upTo: Token) | Over

  datatype Run = Run(w: World, token: Token, pulls: seq<Pull>)

  /** A pull ends by storing the new token, by failing, which stores the token it began with, or by being
      lost.  `expired` is the remote side's refusal of an old token, after which everything is fetched. */
  datatype Step =
    | Begin
    | Fetch(i: nat, expired: bool)
    | Land(i: nat, now: int)
    | Save(i: nat)
    | Fail(i: nat)
    | Lose(i: nat)
    | Send(hint: string, env: Env)

  /** Whether a fetch with this token is sent the event. */
  predicate Sent(token: Token, expired: bool, x: Item) {
    token == 0 || expired || token < x.etag
  }

  ghost function Do(r: Run, b: Binding, l: LID, id: string, step: Step): Run {
    match step
    case Begin => r.(pulls := r.pulls + [Begun(r.token)])
    case Fetch(i, expired) =>
      if i < |r.pulls| && r.pulls[i].Begun? && id in r.w.remote then
        var t, x := r.pulls[i].token, r.w.remote[id];
        r.(pulls := r.pulls[i := Got(t, if Sent(t, expired, x) then Some(x) else None, r.w.tag)])
      else r
    case Land(i, now) =>
      if i < |r.pulls| && r.pulls[i].Got? then
        var p := r.pulls[i];
        r.(w := if p.item.Some? then Landed(r.w, b, p.item.value, now) else r.w, pulls := r.pulls[i := Applied(p.upTo)])
      else r
    case Save(i) =>
      if i < |r.pulls| && r.pulls[i].Applied? then r.(token := r.pulls[i].upTo, pulls := r.pulls[i := Over]) else r
    case Fail(i) =>
      if i < |r.pulls| && (r.pulls[i].Begun? || r.pulls[i].Got?)
      then r.(token := r.pulls[i].token, pulls := r.pulls[i := Over])
      else r
    case Lose(i) => if i < |r.pulls| then r.(pulls := r.pulls[i := Over]) else r
    case Send(hint, env) => r.(w := PushItem(r.w, b, l, hint, env))
  }

  ghost function DoAll(r: Run, b: Binding, l: LID, id: string, steps: seq<Step>): Run
    decreases |steps|
  {
    if steps == [] then r else DoAll(Do(r, b, l, id, steps[0]), b, l, id, steps[1..])
  }

  // ---------------------------------------------------------------- what every step keeps

  /** A pull holds the version from before the push, or the current one. */
  ghost predicate Holds(p: Pull, w: World, w0: World, id: string)
    requires id in w0.remote
  {
    p.Got? && p.item.Some? ==> p.item.value == w0.remote[id] || (id in w.remote && p.item.value == w.remote[id])
  }

  ghost predicate Sound(r: Run, w0: World, b: Binding, l: LID, id: string)
    requires Clash(w0, b, l, id)
  {
    Known(r.w, w0, b, l, id) && forall i :: 0 <= i < |r.pulls| ==> Holds(r.pulls[i], r.w, w0, id)
  }

  lemma {:induction false} LandKnown(w: World, w0: World, b: Binding, l: LID, id: string, x: Item, now: int)
    requires Clash(w0, b, l, id) && Known(w, w0, b, l, id)
    requires (x == w0.remote[id] || (id in w.remote && x == w.remote[id]))
    ensures Known(Landed(w, b, x, now), w0, b, l, id)
  {
    if Open(w, w0) {
      LandOpen(w, w0, b, l, id, now);
    } else if RemoteWon(w, w0, b, l, id) {
      LandRemoteWon(w, w0, b, l, id, now);
    } else {
      var stale := LocalWon(w, w0, b, l, id, true);
      if x == w0.remote[id] {
        LandStale(w, w0, b, l, id, stale, now);
      } else {
        LandPushed(w, w0, b, l, id, stale, now);
      }
    }
  }

  lemma {:induction false} SendKnown(w: World, w0: World, b: Binding, l: LID, id: string, hint: string, env: Env)
    requires Clash(w0, b, l, id) && Known(w, w0, b, l, id)
    ensures Known(PushItem(w, b, l, hint, env), w0, b, l, id) && !Open(PushItem(w, b, l, hint, env), w0)
    ensures !Open(w, w0) ==> PushItem(w, b, l, hint, env) == w
  {
    if Open(w, w0) { SendDecides(w, w0, b, l, id, hint, env); }
  }

  lemma {:induction false} DoSound(r: Run, w0: World, b: Binding, l: LID, id: string, step: Step)
    requires Clash(w0, b, l, id) && Sound(r, w0, b, l, id)
    ensures Sound(Do(r, b, l, id, step), w0, b, l, id)
  {
    var r' := Do(r, b, l, id, step);
    match step
    case Land(i, now) =>
      if i < |r.pulls| && r.pulls[i].Got? && r.pulls[i].item.Some? {
        assert Holds(r.pulls[i], r.w, w0, id);
        LandKnown(r.w, w0, b, l, id, r.pulls[i].item.value, now);
      }
      forall j | 0 <= j < |r'.pulls| ensures Holds(r'.pulls[j], r'.w, w0, id) { assert Holds(r.pulls[j], r.w, w0, id); }
    case Send(hint, env) =>
      SendKnown(r.w, w0, b, l, id, hint, env);
      forall j | 0 <= j < |r'.pulls| ensures Holds(r'.pulls[j], r'.w, w0, id) { assert Holds(r.pulls[j], r.w, w0, id); }
    case _ =>
      forall j | 0 <= j < |r'.pulls| ensures Holds(r'.pulls[j], r'.w, w0, id) {
        if j < |r.pulls| { assert Holds(r.pulls[j], r.w, w0, id); }
      }
  }

  lemma {:induction false} DoAllSound(r: Run, w0: World, b: Binding, l: LID, id: string, steps: seq<Step>)
    requires Clash(w0, b, l, id) && Sound(r, w0, b, l, id)
    ensures Sound(DoAll(r, b, l, id, steps), w0, b, l, id)
    decreases |steps|
  {
    if steps != [] {
      DoSound(r, w0, b, l, id, steps[0]);
      DoAllSound(Do(r, b, l, id, steps[0]), w0, b, l, id, steps[1..]);
    }
  }

  // ---------------------------------------------------------------- one more push and one more pull

  /** A pull from begin to landing. */
  ghost function WholePull(r: Run, b: Binding, l: LID, id: string, expired: bool, now: int): Run {
    var n := |r.pulls|;
    Do(Do(Do(r, b, l, id, Begin), b, l, id, Fetch(n, expired)), b, l, id, Land(n, now))
  }

  lemma {:induction false} WholePullIs(r: Run, b: Binding, l: LID, id: string, expired: bool, now: int)
    requires id in r.w.remote
    ensures WholePull(r, b, l, id, expired, now).w ==
      if Sent(r.token, expired, r.w.remote[id]) then Landed(r.w, b, r.w.remote[id], now) else r.w
    ensures WholePull(r, b, l, id, expired, now).token == r.token
    ensures WholePull(r, b, l, id, expired, now).pulls == r.pulls + [Applied(r.w.tag)]
  {
    var n := |r.pulls|;
    var r1 := Do(r, b, l, id, Begin);
    assert r1.pulls[n] == Begun(r.token);
    var r2 := Do(r1, b, l, id, Fetch(n, expired));
    assert r2.pulls[n] ==
      Got(r.token, if Sent(r.token, expired, r.w.remote[id]) then Some(r.w.remote[id]) else None, r.w.tag);
  }

  ghost function Finally(r: Run, b: Binding, l: LID, id: string, hint: string, env: Env, expired: bool, now: int): Run {
    WholePull(Do(r, b, l, id, Send(hint, env)), b, l, id, expired, now)
  }

  /** Nothing waits here, the mapping knows an older version than the remote side has, and the stored token
      covers the newer one: the next pull will not be sent it. */
  ghost predicate Overlooked(r: Run, l: LID, id: string) {
    && l !in r.w.db.outbox && l in r.w.db.mapping && id in r.w.remote
    && r.w.db.mapping[l].etag != r.w.remote[id].etag && r.token != 0 && r.w.remote[id].etag <= r.token
  }

  /** However pulls and pushes interleave, one more push and one more pull settle the conflict, the local
      edit winning exactly when it is strictly later (or the remote event never changed), if and only if
      the pull fetches everything or the pushed version has not been overlooked. */
  lemma {:induction false} EveryOrderConverges(w0: World, token: Token, b: Binding, l: LID, id: string,
                                               steps: seq<Step>,
                                               hint: string, env: Env, expired: bool, now: int)
    requires Clash(w0, b, l, id) && w0.db.mapping[l].etag != 0
    ensures var r := DoAll(Run(w0, token, []), b, l, id, steps);
      Agreed(Finally(r, b, l, id, hint, env, expired, now).w, w0, b, l, id, LocalLater(w0, l, id)) <==>
        expired || !Overlooked(r, l, id)
  {
    var r := DoAll(Run(w0, token, []), b, l, id, steps);
    DoAllSound(Run(w0, token, []), w0, b, l, id, steps);
    FinallyIs(r, w0, b, l, id, hint, env, expired, now);
  }

  lemma {:induction false} FinallyIs(r: Run, w0: World, b: Binding, l: LID, id: string, hint: string, env: Env,
                                     expired: bool, now: int)
    requires Clash(w0, b, l, id) && w0.db.mapping[l].etag != 0 && Known(r.w, w0, b, l, id)
    ensures Agreed(Finally(r, b, l, id, hint, env, expired, now).w, w0, b, l, id, LocalLater(w0, l, id)) <==>
      expired || !Overlooked(r, l, id)
  {
    var r1 := Do(r, b, l, id, Send(hint, env));
    SendKnown(r.w, w0, b, l, id, hint, env);
    WholePullIs(r1, b, l, id, expired, now);
    var f := WholePull(r1, b, l, id, expired, now);
    WonAgrees(f.w, w0, b, l, id);
    if RemoteWon(r1.w, w0, b, l, id) {
      LandRemoteWon(r1.w, w0, b, l, id, now);
      RemoteWonSeen(r1, w0, b, l, id);
      OpenWaits(r, w0, b, l, id);
    } else {
      var stale := LocalWon(r1.w, w0, b, l, id, true);
      LandPushed(r1.w, w0, b, l, id, stale, now);
      OpenWaits(r, w0, b, l, id);
      OverlookedIs(r1, w0, b, l, id, stale);
      if Open(r.w, w0) { SendDecides(r.w, w0, b, l, id, hint, env); NotBoth(r1.w, w0, b, l, id); }
    }
  }

  lemma {:induction false} OpenWaits(r: Run, w0: World, b: Binding, l: LID, id: string)
    requires Clash(w0, b, l, id)
    ensures Open(r.w, w0) ==> !Overlooked(r, l, id)
  {
  }

  lemma {:induction false} RemoteWonSeen(r: Run, w0: World, b: Binding, l: LID, id: string)
    requires Clash(w0, b, l, id) && RemoteWon(r.w, w0, b, l, id)
    ensures !Overlooked(r, l, id)
  {
  }

  lemma {:induction false} NotBoth(w: World, w0: World, b: Binding, l: LID, id: string)
    requires Clash(w0, b, l, id)
    ensures !(LocalWon(w, w0, b, l, id, false) && LocalWon(w, w0, b, l, id, true))
  {
    if LocalWon(w, w0, b, l, id, false) {
      assert w.db.mapping[l].etag == w0.tag + 1;
    }
  }

  /** After the push, the newer version is overlooked exactly when an older one landed and the token covers it. */
  lemma {:induction false} OverlookedIs(r: Run, w0: World, b: Binding, l: LID, id: string, stale: bool)
    requires Clash(w0, b, l, id) && LocalWon(r.w, w0, b, l, id, stale)
    ensures Overlooked(r, l, id) <==> stale && r.token > w0.tag
    ensures r.w.remote[id].etag == w0.tag + 1
    ensures stale ==> r.w.db.mapping[l].etag != r.w.remote[id].etag
  {
  }

  // ---------------------------------------------------------------- pulls one at a time

  ghost predicate AllOver(pulls: seq<Pull>) {
    forall i :: 0 <= i < |pulls| ==> pulls[i].Over?
  }

  /** No pull begins while another is under way; pushes come whenever they like. */
  ghost predicate OneByOne(r: Run, b: Binding, l: LID, id: string, steps: seq<Step>)
    decreases |steps|
  {
    steps == [] || ((steps[0].Begin? ==> AllOver(r.pulls)) && OneByOne(Do(r, b, l, id, steps[0]), b, l, id, steps[1..]))
  }

  /** What the only pull under way may still store or apply; `tag0` is the count of remote changes before
      the push and `x` the version from then. */
  predicate InTurn(p: Pull, token: Token, tag: nat, tag0: nat, x: Item) {
    match p
    case Begun(t) => t == token
    case Got(t, item, upTo) =>
      && t == token && upTo <= tag
      && (tag > tag0 && item == Some(x) ==> t <= tag0 && upTo <= tag0)
      && (tag > tag0 && item == None && t <= tag0 ==> upTo <= tag0)
    case Applied(upTo) => upTo <= tag
    case Over => true
  }

  /** While an older landing has left the newer version behind, no token covers that. */
  predicate Paced(token: Token, pulls: seq<Pull>, stale: bool, tag: nat, tag0: nat, x: Item) {
    && token <= tag && tag0 <= tag
    && (forall i :: 0 <= i < |pulls| - 1 ==> pulls[i].Over?)
    && (pulls != [] ==> InTurn(pulls[|pulls| - 1], token, tag, tag0, x))
    && (stale ==> token <= tag0 && (pulls != [] && pulls[|pulls| - 1].Applied? ==> pulls[|pulls| - 1].upTo <= tag0))
  }

  ghost predicate Orderly(r: Run, w0: World, b: Binding, l: LID, id: string)
    requires Clash(w0, b, l, id)
  {
    Paced(r.token, r.pulls, LocalWon(r.w, w0, b, l, id, true), r.w.tag, w0.tag, w0.remote[id])
  }

  /** Beginning, fetching, storing, failing and losing. */
  lemma {:induction false} PullPaced(r: Run, b: Binding, l: LID, id: string, step: Step, stale: bool, tag0: nat,
                                     x: Item)
    requires Paced(r.token, r.pulls, stale, r.w.tag, tag0, x) && !step.Land? && !step.Send?
    requires id in r.w.remote && x.etag <= tag0 && r.w.tag <= tag0 + 1
    requires r.w.tag == tag0 ==> r.w.remote[id] == x
    requires r.w.tag > tag0 ==> r.w.remote[id].etag == r.w.tag
    requires step.Begin? ==> AllOver(r.pulls)
    ensures var r' := Do(r, b, l, id, step); Paced(r'.token, r'.pulls, stale, r'.w.tag, tag0, x)
  {
  }

  lemma {:induction false} SendOrderly(r: Run, w0: World, b: Binding, l: LID, id: string, hint: string, env: Env)
    requires Clash(w0, b, l, id) && Sound(r, w0, b, l, id) && Orderly(r, w0, b, l, id)
    ensures Orderly(Do(r, b, l, id, Send(hint, env)), w0, b, l, id)
  {
    SendKnown(r.w, w0, b, l, id, hint, env);
    var w := PushItem(r.w, b, l, hint, env);
    if Open(r.w, w0) {
      SendDecides(r.w, w0, b, l, id, hint, env);
      NotBoth(w, w0, b, l, id);
      RemoteOrLocal(w, w0, b, l, id);
    }
  }

  lemma {:induction false} RemoteOrLocal(w: World, w0: World, b: Binding, l: LID, id: string)
    requires Clash(w0, b, l, id)
    ensures Open(w, w0) || RemoteWon(w, w0, b, l, id) ==> w.tag == w0.tag
    ensures LocalWon(w, w0, b, l, id, true) || LocalWon(w, w0, b, l, id, false) ==>
      w.tag == w0.tag + 1 && id in w.remote && w.remote[id].etag == w0.tag + 1
  {
  }

  lemma {:induction false} LandOrderly(r: Run, w0: World, b: Binding, l: LID, id: string, i: nat, now: int)
    requires Clash(w0, b, l, id) && Sound(r, w0, b, l, id) && Orderly(r, w0, b, l, id)
    ensures Orderly(Do(r, b, l, id, Land(i, now)), w0, b, l, id)
  {
    if i < |r.pulls| && r.pulls[i].Got? {
      assert i == |r.pulls| - 1;
      RemoteOrLocal(r.w, w0, b, l, id);
      var p := r.pulls[i];
      if p.item.Some? {
        var w := Landed(r.w, b, p.item.value, now);
        assert Holds(p, r.w, w0, id);
        LandKnown(r.w, w0, b, l, id, p.item.value, now);
        RemoteOrLocal(w, w0, b, l, id);
        if r.w.tag > w0.tag && p.item.value != w0.remote[id] {
          LandPushed(r.w, w0, b, l, id, LocalWon(r.w, w0, b, l, id, true), now);
          NotBoth(w, w0, b, l, id);
        }
      }
    }
  }

  lemma {:induction false} DoOrderly(r: Run, w0: World, b: Binding, l: LID, id: string, step: Step)
    requires Clash(w0, b, l, id) && Sound(r, w0, b, l, id) && Orderly(r, w0, b, l, id)
    requires step.Begin? ==> AllOver(r.pulls)
    ensures Orderly(Do(r, b, l, id, step), w0, b, l, id)
  {
    RemoteOrLocal(r.w, w0, b, l, id);
    match step
    case Land(i, now) => LandOrderly(r, w0, b, l, id, i, now);
    case Send(hint, env) => SendOrderly(r, w0, b, l, id, hint, env);
    case _ => PullPaced(r, b, l, id, step, LocalWon(r.w, w0, b, l, id, true), w0.tag, w0.remote[id]);
  }

  lemma {:induction false} RunOrderly(r: Run, w0: World, b: Binding, l: LID, id: string, steps: seq<Step>)
    requires Clash(w0, b, l, id) && Sound(r, w0, b, l, id) && Orderly(r, w0, b, l, id) && OneByOne(r, b, l, id, steps)
    ensures Sound(DoAll(r, b, l, id, steps), w0, b, l, id) && Orderly(DoAll(r, b, l, id, steps), w0, b, l, id)
    decreases |steps|
  {
    if steps != [] {
      DoSound(r, w0, b, l, id, steps[0]);
      DoOrderly(r, w0, b, l, id, steps[0]);
      RunOrderly(Do(r, b, l, id, steps[0]), w0, b, l, id, steps[1..]);
    }
  }

  /** While pulls of a binding run one after the other, nothing is ever overlooked: whatever the pushes do,
      one more push and one more pull of either kind settle the conflict. */
  lemma {:induction false} OneByOneConverges(w0: World, token: Token, b: Binding, l: LID, id: string, steps: seq<Step>,
                                             hint: string, env: Env, expired: bool, now: int)
    requires Clash(w0, b, l, id) && w0.db.mapping[l].etag != 0 && token <= w0.tag
    requires OneByOne(Run(w0, token, []), b, l, id, steps)
    ensures var r := DoAll(Run(w0, token, []), b, l, id, steps);
      !Overlooked(r, l, id) &&
        Agreed(Finally(r, b, l, id, hint, env, expired, now).w, w0, b, l, id, LocalLater(w0, l, id))
  {
    var r0 := Run(w0, token, []);
    var r := DoAll(r0, b, l, id, steps);
    RemoteOrLocal(w0, w0, b, l, id);
    RunOrderly(r0, w0, b, l, id, steps);
    EveryOrderConverges(w0, token, b, l, id, steps, hint, env, expired, now);
    OpenWaits(r, w0, b, l, id);
    if RemoteWon(r.w, w0, b, l, id) {
      RemoteWonSeen(r, w0, b, l, id);
    } else if !Open(r.w, w0) {
      OverlookedIs(r, w0, b, l, id, LocalWon(r.w, w0, b, l, id, true));
    }
  }

  // ---------------------------------------------------------------- pulls that overlap

  /** No pull under way will bring the newer version or store a token that does not cover it. */
  ghost predicate Quiet(p: Pull, newer: nat) {
    match p
    case Begun(t) => newer <= t
    case Got(t, item, upTo) => newer <= t && item == None && newer <= upTo
    case Applied(upTo) => newer <= upTo
    case Over => true
  }

  ghost predicate AllQuiet(r: Run, id: string) {
    id in r.w.remote && r.w.remote[id].etag <= r.w.tag && 0 < r.w.remote[id].etag
    && forall i :: 0 <= i < |r.pulls| ==> Quiet(r.pulls[i], r.w.remote[id].etag)
  }

  ghost predicate NoneExpires(steps: seq<Step>) {
    forall i :: 0 <= i < |steps| && steps[i].Fetch? ==> !steps[i].expired
  }

  /** Once overlooked, the newer version stays away for good: no push and no pull by token changes either
      side any more. */
  lemma {:induction false} StaysOverlooked(r: Run, b: Binding, l: LID, id: string, steps: seq<Step>)
    requires Overlooked(r, l, id) && AllQuiet(r, id) && NoneExpires(steps)
    ensures Overlooked(DoAll(r, b, l, id, steps), l, id) && DoAll(r, b, l, id, steps).w == r.w
    decreases |steps|
  {
    if steps != [] {
      var r' := Do(r, b, l, id, steps[0]);
      assert r'.w == r.w;
      StaysOverlooked(r', b, l, id, steps[1..]);
    }
  }

  /** The push wins, and then the version from before it lands, whether or not the pushed one landed first. */
  lemma {:induction false} StaleWorld(w0: World, b: Binding, l: LID, id: string, hint: string, env: Env, now: int)
    requires Clash(w0, b, l, id) && LocalLater(w0, l, id)
    ensures var w1 := PushItem(w0, b, l, hint, env);
      && id in w1.remote && w1.remote[id].etag == w0.tag + 1 && w1.tag == w0.tag + 1
      && LocalWon(Landed(w1, b, w0.remote[id], now), w0, b, l, id, true)
      && LocalWon(Landed(Landed(w1, b, w1.remote[id], now), b, w0.remote[id], now), w0, b, l, id, true)
  {
    SendDecides(w0, w0, b, l, id, hint, env);
    var w1 := PushItem(w0, b, l, hint, env);
    LandStale(w1, w0, b, l, id, false, now);
    LandPushed(w1, w0, b, l, id, false, now);
    LandStale(Landed(w1, b, w1.remote[id], now), w0, b, l, id, false, now);
  }

  /** The beaten content is on this side, the winner's on the other, and nothing waits. */
  ghost predicate SidesApart(w: World, w0: World, b: Binding, l: LID, id: string)
    requires Clash(w0, b, l, id)
  {
    && l in w.db.local && id in w.remote && l !in w.db.outbox
    && w.db.local[l] == Taken(w0, b, l, id) && w.remote[id].body == Some(ToRemote(w0.db.local[l]))
  }

  lemma {:induction false} StaleIsApart(w: World, w0: World, b: Binding, l: LID, id: string)
    requires Clash(w0, b, l, id) && LocalWon(w, w0, b, l, id, true)
    ensures SidesApart(w, w0, b, l, id)
  {
  }

  lemma {:induction false} StaleFetchIs(w0: World, token: Token, b: Binding, l: LID, id: string, hint: string, env: Env,
                                        now: int)
    requires id in w0.remote && Sent(token, false, w0.remote[id])
    ensures var r2 := Do(Do(Run(w0, token, []), b, l, id, Begin), b, l, id, Fetch(0, false));
      Do(Do(r2, b, l, id, Send(hint, env)), b, l, id, Land(0, now)).w ==
        Landed(PushItem(w0, b, l, hint, env), b, w0.remote[id], now)
  {
    assert Do(Do(Run(w0, token, []), b, l, id, Begin), b, l, id, Fetch(0, false)) ==
      Run(w0, token, [Got(token, Some(w0.remote[id]), w0.tag)]);
  }

  /** A version fetched before a push and applied after it puts the beaten content back on this side. */
  lemma {:induction false} StaleFetchReturns(w0: World, token: Token, b: Binding, l: LID, id: string, hint: string,
                                             env: Env, now: int)
    requires Clash(w0, b, l, id) && LocalLater(w0, l, id) && token < w0.remote[id].etag
    ensures var r2 := Do(Do(Run(w0, token, []), b, l, id, Begin), b, l, id, Fetch(0, false));
      SidesApart(Do(Do(r2, b, l, id, Send(hint, env)), b, l, id, Land(0, now)).w, w0, b, l, id)
  {
    StaleFetchIs(w0, token, b, l, id, hint, env, now);
    StaleWorld(w0, b, l, id, hint, env, now);
    StaleIsApart(Landed(PushItem(w0, b, l, hint, env), b, w0.remote[id], now), w0, b, l, id);
  }

  /** The run of two overlapping pulls: the first fetches, the push goes out, the second fetches what was
      pushed, then the first lands, and the second stores its token last. */
  ghost function Overtaken(r: Run, b: Binding, l: LID, id: string, hint: string, env: Env, now: int): Run {
    var r2 := Do(Do(r, b, l, id, Begin), b, l, id, Fetch(0, false));
    var r3 := Do(r2, b, l, id, Send(hint, env));
    var r6 := Do(Do(Do(r3, b, l, id, Begin), b, l, id, Fetch(1, false)), b, l, id, Land(1, now));
    Do(Do(Do(r6, b, l, id, Land(0, now)), b, l, id, Save(0)), b, l, id, Save(1))
  }

  /** What that run does to the pulls, whatever the steps do to the world. */
  lemma {:induction false} OvertakenIs(w0: World, token: Token, b: Binding, l: LID, id: string, hint: string, env: Env,
                                       now: int)
    requires id in w0.remote && Sent(token, false, w0.remote[id])
    requires var w1 := PushItem(w0, b, l, hint, env); id in w1.remote && Sent(token, false, w1.remote[id])
    ensures var w1 := PushItem(w0, b, l, hint, env);
      Overtaken(Run(w0, token, []), b, l, id, hint, env, now) ==
      Run(Landed(Landed(w1, b, w1.remote[id], now), b, w0.remote[id], now), w1.tag, [Over, Over])
  {
    var x := w0.remote[id];
    var r2 := Run(w0, token, [Got(token, Some(x), w0.tag)]);
    assert Do(Do(Run(w0, token, []), b, l, id, Begin), b, l, id, Fetch(0, false)) == r2;
    var w1 := PushItem(w0, b, l, hint, env);
    var y := w1.remote[id];
    var r5 := Run(w1, token, [Got(token, Some(x), w0.tag), Got(token, Some(y), w1.tag)]);
    assert Do(Do(r2.(w := w1), b, l, id, Begin), b, l, id, Fetch(1, false)) == r5;
    var w2 := Landed(w1, b, y, now);
    var r6 := Do(r5, b, l, id, Land(1, now));
    assert r6 == Run(w2, token, [Got(token, Some(x), w0.tag), Applied(w1.tag)]);
    var r7 := Do(r6, b, l, id, Land(0, now));
    assert r7 == Run(Landed(w2, b, x, now), token, [Applied(w0.tag), Applied(w1.tag)]);
  }

  /** Then the beaten content is back on this side, the remote side has the winner's, nothing waits, and no
      push or pull by token ever brings them together again. */
  lemma {:induction false} OvertakenStaysApart(w0: World, token: Token, b: Binding, l: LID, id: string, hint: string,
                                               env: Env, now: int, steps: seq<Step>)
    requires Clash(w0, b, l, id) && LocalLater(w0, l, id) && token < w0.remote[id].etag && NoneExpires(steps)
    ensures SidesApart(DoAll(Overtaken(Run(w0, token, []), b, l, id, hint, env, now), b, l, id, steps).w, w0, b, l, id)
  {
    StaleWorld(w0, b, l, id, hint, env, now);
    OvertakenIs(w0, token, b, l, id, hint, env, now);
    var r := Overtaken(Run(w0, token, []), b, l, id, hint, env, now);
    OverlookedIs(r, w0, b, l, id, true);
    StaysOverlooked(r, b, l, id, steps);
    StaleIsApart(r.w, w0, b, l, id);
  }

  // ---------------------------------------------------------------- such conflicts exist

  /** An event edited on both sides, here at the time `at` and remotely at 5, with the first of two remote
      versions known here. */
  function Example(at: int): World {
    World(State(map[0 := Local(Given("u"), None, Body("here", {}), false)], map[0 := at],
                map[0 := Mapping("r", 1)], map[0 := Op.Upsert], 1),
          map[], map["r" := Item("r", "u", "", false, None, Some(Body("there", {})), true, 2, 5)], 2)
  }

  lemma {:induction false} ExampleClashes(at: int)
    ensures Clash(Example(at), Binding(true, false), 0, "r") && (LocalLater(Example(at), 0, "r") <==> at > 5)
    ensures Unseen(Example(at), 1, 0, "r")
    ensures Taken(Example(at), Binding(true, false), 0, "r") != Example(at).db.local[0]
  {
    assert |"r"| == 1 && "r" != "";
    assert Taken(Example(at), Binding(true, false), 0, "r").body.text == "there" && "there"[0] != "here"[0];
  }

  // ---------------------------------------------------------------- pull then push, push then pull

  ghost function PullPush(w: World, token: Token, b: Binding, l: LID, id: string, hint: string, env: Env,
                          now: int): World
  {
    Do(WholePull(Run(w, token, []), b, l, id, false, now), b, l, id, Send(hint, env)).w
  }

  ghost function PushPull(w: World, token: Token, b: Binding, l: LID, id: string, hint: string, env: Env,
                          now: int): World
  {
    WholePull(Do(Run(w, token, []), b, l, id, Send(hint, env)), b, l, id, false, now).w
  }

  /** The stored token covers no remote edit that the mapping does not know. */
  ghost predicate Unseen(w: World, token: Token, l: LID, id: string)
    requires l in w.db.mapping && id in w.remote
  {
    token <= w.tag && (token < w.remote[id].etag || w.db.mapping[l].etag == w.remote[id].etag)
  }

  lemma {:induction false} PullPushEnds(w0: World, token: Token, b: Binding, l: LID, id: string, hint: string, env: Env,
                                        now: int)
    requires Clash(w0, b, l, id) && Unseen(w0, token, l, id)
    ensures Agreed(PullPush(w0, token, b, l, id, hint, env, now), w0, b, l, id, LocalLater(w0, l, id))
  {
    WholePullIs(Run(w0, token, []), b, l, id, false, now);
    LandOpen(w0, w0, b, l, id, now);
    var w1 := WholePull(Run(w0, token, []), b, l, id, false, now).w;
    if LocalLater(w0, l, id) {
      SendDecides(w1, w0, b, l, id, hint, env);
    }
    WonAgrees(PushItem(w1, b, l, hint, env), w0, b, l, id);
  }

  lemma {:induction false} PushPullEnds(w0: World, token: Token, b: Binding, l: LID, id: string, hint: string, env: Env,
                                        now: int)
    requires Clash(w0, b, l, id) && Unseen(w0, token, l, id)
    ensures Agreed(PushPull(w0, token, b, l, id, hint, env, now), w0, b, l, id, PushWins(w0, l, id))
  {
    var r := Do(Run(w0, token, []), b, l, id, Send(hint, env));
    SendDecides(w0, w0, b, l, id, hint, env);
    WholePullIs(r, b, l, id, false, now);
    if PushWins(w0, l, id) {
      LandPushed(r.w, w0, b, l, id, false, now);
      WonAgrees(Landed(r.w, b, r.w.remote[id], now), w0, b, l, id);
    } else {
      LandRemoteWon(r.w, w0, b, l, id, now);
      WonAgrees(r.w, w0, b, l, id);
    }
  }

  /** The two orders agree exactly when the mapping knows an etag, the local edit is the later one, or
      the two edits are the same: without an etag a push goes out unconditionally. */
  lemma {:induction false} ConfluentExactly(w0: World, token: Token, b: Binding, l: LID, id: string, hint: string,
                                            env: Env, now: int)
    requires Clash(w0, b, l, id) && Unseen(w0, token, l, id)
    ensures var p, q := PullPush(w0, token, b, l, id, hint, env, now), PushPull(w0, token, b, l, id, hint, env, now);
      id in p.remote && id in q.remote && l in p.db.local && l in q.db.local
      && ((p.remote[id].body == q.remote[id].body && p.db.local[l] == q.db.local[l]) <==>
          (w0.db.mapping[l].etag != 0 || LocalLater(w0, l, id) || w0.remote[id].body == Some(ToRemote(w0.db.local[l]))))
  {
    PullPushEnds(w0, token, b, l, id, hint, env, now);
    PushPullEnds(w0, token, b, l, id, hint, env, now);
  }
}

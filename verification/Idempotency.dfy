/** Replaying the stored reply when a request repeats an idempotency key.  Requests that share a user
    and a key interleave freely; each store call is one atomic step, and a save or a drop may be lost. */
module Idempotency {
  import opened Common

  const MAX_KEY := 255

  type Bytes = string

  datatype Request = Request(method_: string, path: string, body: Bytes)

  datatype Response = Response(status: nat, kind: string, body: Bytes)

  /** A stored key.  A status of zero stands for a request that has not been answered yet. */
  datatype Record = Record(hash: Bytes, saved: Response)

  const Nothing := Response(0, "", "")

  /** What is hashed: the method, the path and the body, one after the other.  The hash itself is taken
      to tell different inputs apart. */
  function Hash(r: Request): Bytes {
    r.method_ + r.path + r.body
  }

  /** The routes under the middleware: creating something in one of the collections. */
  predicate Wrapped(r: Request) {
    r.method_ == "POST" && r.path in
      {"/api/v1/events", "/api/v1/todos", "/api/v1/calendars",
       "/api/v1/todo-lists", "/api/v1/imports", "/api/v1/shares"}
  }

  /** None of these paths begins another: two of its letters give a path away. */
  lemma {:induction false} PathShows(r: Request)
    requires Wrapped(r)
    ensures |Hash(r)| > 16
    ensures var c, d := Hash(r)[12], Hash(r)[16];
      r.path ==
        if c == 'e' then "/api/v1/events" else if c == 'c' then "/api/v1/calendars"
        else if c == 'i' then "/api/v1/imports"
                else if c == 's' then "/api/v1/shares" else if d == '-' then "/api/v1/todo-lists" else "/api/v1/todos"
  {
    assert |r.path| >= 13 && Hash(r)[12] == r.path[8] && Hash(r)[16] == r.path[12];
  }

  /** Although nothing separates the parts that are hashed, the hash tells such requests apart. */
  lemma {:induction false} HashTellsApart(q: Request, r: Request)
    requires Wrapped(q) && Wrapped(r)
    ensures Hash(q) == Hash(r) <==> q == r
  {
    if Hash(q) == Hash(r) {
      PathShows(q);
      PathShows(r);
      assert q.path == r.path;
      assert q.body == Hash(q)[|q.method_ + q.path|..] && r.body == Hash(r)[|r.method_ + r.path|..];
    }
  }

  predicate Good(r: Response) {
    200 <= r.status <= 299
  }

  // ---------------------------------------------------------------- the store, for one user and key

  function Claim(rec: Option<Record>, hash: Bytes): (Option<Record>, bool) {
    if rec.Some? then (rec, false) else (Some(Record(hash, Nothing)), true)
  }

  function Save(rec: Option<Record>, r: Response): Option<Record> {
    if rec.None? then None else Some(rec.value.(saved := r))
  }

  datatype Answer = NotFound | KeyReused | InFlight | Replay(r: Response)

  /** What a request that did not get the key is told. */
  function Reply(rec: Option<Record>, hash: Bytes): Answer {
    if rec.None? then NotFound
    else if rec.value.hash != hash then KeyReused
    else if rec.value.saved.status == 0 then InFlight
    else Replay(rec.value.saved)
  }

  // ---------------------------------------------------------------- interleavings

  type Id = nat

  datatype Phase = Running | Answered(r: Response) | Reading | Over | Told(a: Answer)

  /** The stored record, where each request is, and what the handler answered to those it ran for. */
  datatype State = State(rec: Option<Record>, phase: map<Id, Phase>, ran: map<Id, Response>)

  datatype Step =
    | DoClaim(i: Id)
    | DoRead(i: Id)
    | DoAnswer(i: Id, r: Response)
    | DoStore(i: Id)
    | DoLose(i: Id)
    | DoCrash(i: Id)

  ghost predicate Enabled(s: State, step: Step) {
    match step
    case DoClaim(i) => i !in s.phase
    case DoRead(i) => i in s.phase && s.phase[i].Reading?
    case DoAnswer(i, _) => i in s.phase && s.phase[i].Running?
    case DoStore(i) => i in s.phase && s.phase[i].Answered?
    case DoLose(i) => i in s.phase && s.phase[i].Answered?
    case DoCrash(i) => i in s.phase && (s.phase[i].Running? || s.phase[i].Reading?)
  }

  /** One step; `reqs` says what each request asks for. */
  ghost function Do(s: State, reqs: Id -> Request, step: Step): State
    requires Enabled(s, step)
  {
    match step
    case DoClaim(i) =>
      var (rec, first) := Claim(s.rec, Hash(reqs(i)));
      s.(rec := rec, phase := s.phase[i := if first then Running else Reading])
    case DoRead(i) => s.(phase := s.phase[i := Told(Reply(s.rec, Hash(reqs(i))))])
    case DoAnswer(i, r) => s.(phase := s.phase[i := Answered(r)], ran := s.ran[i := r])
    case DoStore(i) =>
      s.(rec := if Good(s.phase[i].r) then Save(s.rec, s.phase[i].r) else None, phase := s.phase[i := Over])
    case DoLose(i) => s.(phase := s.phase[i := Over])
    case DoCrash(i) => s.(phase := s.phase[i := Over])
  }

  ghost predicate Holds(s: State, i: Id) {
    i in s.phase && (s.phase[i].Running? || s.phase[i].Answered?)
  }

  ghost predicate Succeeded(s: State, i: Id) {
    i in s.ran && Good(s.ran[i])
  }

  // ---------------------------------------------------------------- what every step keeps

  /** Whoever holds the key alone holds it, under the stored hash, and nothing is saved yet. */
  ghost predicate Owned(s: State, reqs: Id -> Request) {
    && (forall i, j :: Holds(s, i) && Holds(s, j) ==> i == j)
    && (forall i :: Holds(s, i) ==> s.rec.Some? && s.rec.value == Record(Hash(reqs(i)), Nothing))
  }

  /** Once a handler has succeeded the key stays taken, by it or by nobody. */
  ghost predicate OnlyOnce(s: State, reqs: Id -> Request) {
    && (forall i, j :: Succeeded(s, i) && Succeeded(s, j) ==> i == j)
    && (forall i :: Succeeded(s, i) ==>
          s.rec.Some? && s.rec.value.hash == Hash(reqs(i)) && forall j :: Holds(s, j) ==> j == i)
    && (forall i :: i in s.ran ==> i in s.phase && !s.phase[i].Running?)
    && (forall i :: i in s.phase && s.phase[i].Answered? ==> i in s.ran && s.ran[i] == s.phase[i].r)
  }

  /** Whatever is saved or replayed was answered by the handler to a request with the same hash. */
  ghost predicate Genuine(s: State, reqs: Id -> Request, hash: Bytes, r: Response) {
    exists i :: Succeeded(s, i) && s.ran[i] == r && Hash(reqs(i)) == hash
  }

  ghost predicate Traced(s: State, reqs: Id -> Request) {
    && (s.rec.Some? && s.rec.value.saved.status != 0 ==> Genuine(s, reqs, s.rec.value.hash, s.rec.value.saved))
    && (forall i :: i in s.phase && s.phase[i].Told? && s.phase[i].a.Replay? ==>
          Genuine(s, reqs, Hash(reqs(i)), s.phase[i].a.r))
  }

  ghost predicate Inv(s: State, reqs: Id -> Request) {
    Owned(s, reqs) && OnlyOnce(s, reqs) && Traced(s, reqs)
  }

  lemma {:induction false} OwnedKeeps(s: State, reqs: Id -> Request, step: Step)
    requires Inv(s, reqs) && Enabled(s, step)
    ensures Owned(Do(s, reqs, step), reqs)
  {
    var s' := Do(s, reqs, step);
    forall i | Holds(s', i) ensures Holds(s, i) || (step == DoClaim(i) && s.rec.None?) { }
    if step.DoStore? || step.DoLose? || step.DoCrash? {
      forall i | Holds(s', i) ensures !Holds(s, step.i) { }
    }
  }

  lemma {:induction false} OnceKeeps(s: State, reqs: Id -> Request, step: Step)
    requires Inv(s, reqs) && Enabled(s, step)
    ensures OnlyOnce(Do(s, reqs, step), reqs)
  {
    var s' := Do(s, reqs, step);
    if step.DoAnswer? {
      assert Holds(s, step.i) && step.i !in s.ran;
      forall i | i != step.i ensures Succeeded(s', i) <==> Succeeded(s, i) { }
    } else {
      forall i | Succeeded(s', i) ensures Succeeded(s, i) { }
      if step.DoStore? && !Good(s.phase[step.i].r) {
        assert Holds(s, step.i) && !Succeeded(s, step.i);
      }
    }
    forall i, j | Succeeded(s', i) && Holds(s', j) ensures j == i {
      if !Succeeded(s, i) {
        assert step == DoAnswer(i, s'.ran[i]) && Holds(s, i) && Holds(s, j);
      } else {
        assert Holds(s, j) || (step == DoClaim(j) && s.rec.None?);
      }
    }
  }

  lemma {:induction false} GenuineStays(s: State, reqs: Id -> Request, step: Step, hash: Bytes, r: Response)
    requires Inv(s, reqs) && Enabled(s, step) && Genuine(s, reqs, hash, r)
    ensures Genuine(Do(s, reqs, step), reqs, hash, r)
  {
    var i :| Succeeded(s, i) && s.ran[i] == r && Hash(reqs(i)) == hash;
    assert Succeeded(Do(s, reqs, step), i) && Do(s, reqs, step).ran[i] == r;
  }

  lemma {:induction false} TracedKeeps(s: State, reqs: Id -> Request, step: Step)
    requires Inv(s, reqs) && Enabled(s, step)
    ensures Traced(Do(s, reqs, step), reqs)
  {
    var s' := Do(s, reqs, step);
    if s.rec.Some? && s.rec.value.saved.status != 0 {
      GenuineStays(s, reqs, step, s.rec.value.hash, s.rec.value.saved);
    }
    if step.DoStore? && Good(s.phase[step.i].r) {
      assert Holds(s, step.i) && Succeeded(s', step.i) && s'.ran[step.i] == s.phase[step.i].r;
      assert Genuine(s', reqs, s.rec.value.hash, s.phase[step.i].r);
    }
    forall i | i in s'.phase && s'.phase[i].Told? && s'.phase[i].a.Replay?
      ensures Genuine(s', reqs, Hash(reqs(i)), s'.phase[i].a.r)
    {
      if step != DoRead(i) { GenuineStays(s, reqs, step, Hash(reqs(i)), s.phase[i].a.r); }
    }
  }

  ghost predicate IsRun(s: State, reqs: Id -> Request, steps: seq<Step>)
    decreases |steps|
  {
    steps == [] || (Enabled(s, steps[0]) && IsRun(Do(s, reqs, steps[0]), reqs, steps[1..]))
  }

  ghost function After(s: State, reqs: Id -> Request, steps: seq<Step>): State
    requires IsRun(s, reqs, steps)
    decreases |steps|
  {
    if steps == [] then s else After(Do(s, reqs, steps[0]), reqs, steps[1..])
  }

  const Empty := State(None, map[], map[])

  lemma {:induction false} RunKeeps(s: State, reqs: Id -> Request, steps: seq<Step>)
    requires Inv(s, reqs) && IsRun(s, reqs, steps)
    ensures Inv(After(s, reqs, steps), reqs)
    decreases |steps|
  {
    if steps != [] {
      OwnedKeeps(s, reqs, steps[0]);
      OnceKeeps(s, reqs, steps[0]);
      TracedKeeps(s, reqs, steps[0]);
      RunKeeps(Do(s, reqs, steps[0]), reqs, steps[1..]);
    }
  }

  /** However requests with one key interleave, crash or lose their writes: at most one handler run ends
      well; while one runs, it runs alone and the stored hash is of that request and no other; and every
      replay is what that one run answered, to the same request. */
  lemma {:induction false} EveryRunOnce(reqs: Id -> Request, steps: seq<Step>)
    requires IsRun(Empty, reqs, steps) && (forall i :: Wrapped(reqs(i)))
    ensures var s := After(Empty, reqs, steps);
      && (forall i, j :: Succeeded(s, i) && Succeeded(s, j) ==> i == j)
      && (forall i, j :: Holds(s, i) && Holds(s, j) ==> i == j)
      && (forall i, j :: Holds(s, i) ==> s.rec.Some? && (s.rec.value.hash == Hash(reqs(j)) <==> reqs(j) == reqs(i)))
      && (forall i, j :: i in s.phase && s.phase[i].Told? && s.phase[i].a.Replay? && Succeeded(s, j) ==>
            s.phase[i].a.r == s.ran[j] && reqs(i) == reqs(j))
      && (forall i :: i in s.phase && s.phase[i].Told? && s.phase[i].a.Replay? ==> exists j :: Succeeded(s, j))
  {
    RunKeeps(Empty, reqs, steps);
    var s := After(Empty, reqs, steps);
    forall i, j ensures Hash(reqs(i)) == Hash(reqs(j)) <==> reqs(i) == reqs(j) { HashTellsApart(reqs(i), reqs(j)); }
  }

  /** A reply from 200 to 299 is kept under the key, as it is; after any other the key is free again. */
  lemma {:induction false} AnswerStored(s: State, reqs: Id -> Request, i: Id)
    requires Inv(s, reqs) && Enabled(s, DoStore(i))
    ensures var r, s' := s.ran[i], Do(s, reqs, DoStore(i));
      s'.rec == if 200 <= r.status <= 299 then Some(Record(Hash(reqs(i)), r)) else None
  {
    assert Holds(s, i);
  }

  /** While a request runs, the same request again is told so. */
  lemma {:induction false} MeanwhileInFlight(s: State, reqs: Id -> Request, i: Id, j: Id)
    requires Inv(s, reqs) && Holds(s, i) && j !in s.phase && reqs(j) == reqs(i)
    ensures Do(Do(s, reqs, DoClaim(j)), reqs, DoRead(j)).phase[j] == Told(InFlight)
  {
  }

  /** A free key is taken by whoever comes first. */
  lemma {:induction false} FreeKeyRuns(s: State, reqs: Id -> Request, i: Id)
    requires i !in s.phase
    ensures Do(s, reqs, DoClaim(i)).phase[i] == Running <==> s.rec.None?
  {
  }

  /** A request that comes after the reply was saved gets exactly that reply, and one with another
      hash is refused. */
  lemma {:induction false} LaterRequests(s: State, reqs: Id -> Request, i: Id)
    requires Inv(s, reqs) && i !in s.phase && s.rec.Some? && s.rec.value.saved.status != 0
    ensures var s' := Do(Do(s, reqs, DoClaim(i)), reqs, DoRead(i));
      s'.rec == s.rec &&
        s'.phase[i] == Told(if Hash(reqs(i)) == s.rec.value.hash then Replay(s.rec.value.saved) else KeyReused)
  {
  }

  /** A lost save leaves the key taken for good: nobody runs the handler again, and nobody gets the
      reply either. */
  lemma {:induction false} LostSaveBlocks(s: State, reqs: Id -> Request, step: Step)
    requires Inv(s, reqs) && s.rec.Some? && (forall i :: !Holds(s, i)) && Enabled(s, step)
    ensures Do(s, reqs, step).rec == s.rec && forall i :: !Holds(Do(s, reqs, step), i)
  {
    assert !Holds(s, step.i);
    forall i ensures !Holds(Do(s, reqs, step), i) { assert !Holds(s, i); }
  }

  /** A request that differs from the one that holds the key, or was answered well, is refused. */
  lemma {:induction false} DifferentRefused(s: State, reqs: Id -> Request, i: Id, j: Id)
    requires Inv(s, reqs) && (Holds(s, i) || Succeeded(s, i)) && j !in s.phase
    requires Wrapped(reqs(i)) && Wrapped(reqs(j)) && reqs(i) != reqs(j)
    ensures Do(Do(s, reqs, DoClaim(j)), reqs, DoRead(j)).phase[j] == Told(KeyReused)
  {
    HashTellsApart(reqs(i), reqs(j));
  }
}

/** The middleware as one request runs through it, undisturbed. */
module IdempotencyStore {
  import opened Common
  import Spec = Idempotency

  type Key = (nat, string)

  datatype Outcome = Passed | TooLong | Ran | Told(a: Spec.Answer)

  class Store {
    var records: map<Key, Spec.Record>

    constructor ()
      ensures records == map[]
    {
      records := map[];
    }

    function At(k: Key): Option<Spec.Record>
      reads this
    {
      if k in records then Some(records[k]) else None
    }

    method ClaimKey(k: Key, hash: Spec.Bytes) returns (first: bool)
      modifies this
      ensures (At(k), first) == Spec.Claim(old(At(k)), hash)
      ensures records - {k} == old(records) - {k} && (!first ==> records == old(records))
    {
      if k in records {
        return false;
      }
      records := records[k := Spec.Record(hash, Spec.Nothing)];
      return true;
    }

    method SaveKey(k: Key, r: Spec.Response)
      modifies this
      ensures At(k) == Spec.Save(old(At(k)), r)
      ensures records - {k} == old(records) - {k}
    {
      if k in records {
        records := records[k := records[k].(saved := r)];
      }
    }

    method DropKey(k: Key)
      modifies this
      ensures At(k) == None
      ensures records - {k} == old(records) - {k}
    {
      records := records - {k};
    }

    /** Serve a request of `user`, if signed in; `handler` is what the handler would answer.  Only the
        record of this user and key may change. */
    method Serve(user: Option<nat>, key: string, req: Spec.Request, handler: Spec.Response) returns (out: Outcome)
      modifies this
      ensures key == "" || |key| > 255 || user.None? ==>
        records == old(records) && (out.Passed? || (out.TooLong? && key != "" && |key| > 255))
      ensures user.Some? ==> records - {(user.value, key)} == old(records) - {(user.value, key)}
      ensures out.Ran? <==> key != "" && |key| <= 255 && user.Some? && (user.value, key) !in old(records)
      ensures out.Ran? ==>
        At((user.value, key)) == if Spec.Good(handler) then Some(Spec.Record(Spec.Hash(req), handler)) else None
      ensures out.Told? ==>
        records == old(records) && user.Some? && out.a == Spec.Reply(At((user.value, key)), Spec.Hash(req))
    {
      if key == "" {
        return Passed;
      }
      if |key| > Spec.MAX_KEY {
        return TooLong;
      }
      if user.None? {
        return Passed;
      }
      var k, hash := (user.value, key), Spec.Hash(req);
      var first := ClaimKey(k, hash);
      if !first {
        return Told(Spec.Reply(At(k), hash));
      }
      if Spec.Good(handler) {
        SaveKey(k, handler);
      } else {
        DropKey(k);
      }
      return Ran;
    }
  }
}

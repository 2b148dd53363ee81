/** The life of a job: how it gets into the queue, out of it and back, and how often it was tried. */
module JobLife {
  import opened Common
  import opened Jobs

  /** What a job is about does not change. */
  predicate SameJob(a: Row, b: Row) {
    a.kind == b.kind && a.key == b.key && a.priority == b.priority && a.maxAttempts == b.maxAttempts
  }

  /** All rows but `id` are as they were. */
  ghost predicate OnlyRow(rows: Table, out: Table, id: JobId) {
    forall k :: k != id ==> (k in out <==> k in rows) && (k in rows ==> out[k] == rows[k])
  }

  /** Another row with this kind and key is queued. */
  ghost predicate TwinQueued(rows: Table, id: JobId)
    requires id in rows
  {
    exists j :: j in rows && j != id && rows[j].status.Queued? && rows[id].key.Some?
      && rows[j].key == rows[id].key && rows[j].kind == rows[id].kind
  }

  // ---------------------------------------------------------------- single statements

  /** A job enqueued waits, untried, and can be claimed from its time on; a twin of a queued job is not added. */
  lemma {:induction false} EnqueueAdds(rows: Table, id: JobId, kind: string, key: Option<string>, runAt: int,
                                       priority: int, maxAttempts: nat)
    requires id !in rows
    ensures var out := Enqueue(rows, id, kind, key, runAt, priority, maxAttempts);
      if key.Some? && exists j :: j in rows && rows[j].status.Queued? && rows[j].kind == kind && rows[j].key == key
      then out == rows
      else
        && id in out && OnlyRow(rows, out, id) && out[id].status.Queued? && out[id].attempts == 0
        && out[id].kind == kind && out[id].key == key && out[id].runAt == runAt
        && out[id].priority == priority && out[id].maxAttempts == maxAttempts
        && forall t :: Claimable(out, id, {kind}, t) <==> t >= runAt
  {
    var r := Row(kind, key, Queued, 0, runAt, priority, 0, maxAttempts);
    if key.Some? && exists j :: j in rows && rows[j].status.Queued? && rows[j].kind == kind && rows[j].key == key {
      var j :| j in rows && rows[j].status.Queued? && rows[j].kind == kind && rows[j].key == key;
      assert Twins(r, rows[j]);
    }
  }

  /** A job that failed and may be tried again is back in the queue from the given time on, tries and all else as they
      were, unless another job with its key is queued; then the write is refused. */
  lemma {:induction false} FailedIsRetried(rows: Table, id: JobId, runAt: int)
    requires id in rows
    ensures Fail(rows, id, false, runAt).None? <==> TwinQueued(rows, id)
    ensures !TwinQueued(rows, id) ==>
      var out := Fail(rows, id, false, runAt).value;
      && id in out && OnlyRow(rows, out, id) && SameJob(rows[id], out[id]) && out[id].attempts == rows[id].attempts
      && out[id].status.Queued? && out[id].runAt == runAt
      && forall kinds, t :: Claimable(out, id, kinds, t) <==> rows[id].kind in kinds && t >= runAt
  {
    var r := rows[id].(status := Queued, lockedAt := 0, runAt := runAt);
    var others := rows - {id};
    if TwinQueued(rows, id) {
      var j :| j in rows && j != id && rows[j].status.Queued? && rows[id].key.Some?
        && rows[j].key == rows[id].key && rows[j].kind == rows[id].kind;
      assert j in others && Twins(r, others[j]);
      assert QueuedTwin(others, r);
    }
    if QueuedTwin(others, r) {
      var j :| j in others && others[j].status.Queued? && Twins(r, others[j]);
      assert TwinQueued(rows, id);
    }
  }

  /** A job given up stays in the table as failed, and nobody claims it. */
  lemma {:induction false} GivenUp(rows: Table, id: JobId, runAt: int)
    requires id in rows
    ensures Fail(rows, id, true, runAt).Some?
    ensures var out := Fail(rows, id, true, runAt).value;
      && id in out && OnlyRow(rows, out, id) && SameJob(rows[id], out[id]) && out[id].attempts == rows[id].attempts
      && out[id].status.Failed? && forall kinds, t :: !Claimable(out, id, kinds, t)
  {
  }

  /** Claiming takes the job for the worker: it runs, locked from now, with one more try. */
  lemma {:induction false} ClaimTakes(rows: Table, id: JobId, now: int)
    requires id in rows
    ensures var out := Claim(rows, id, now);
      && id in out && OnlyRow(rows, out, id) && SameJob(rows[id], out[id]) && out[id].status.Running?
      && out[id].lockedAt == now && out[id].attempts == rows[id].attempts + 1
  {
  }

  /** Reaping: a stale job goes where a job with its key is queued; the others are back in the queue, claimable at
      once with the tries they had, unless two of them share a key.  Jobs that are not stale stay as they are. */
  lemma {:induction false} ReapRequeues(rows: Table, cutoff: int, now: int, id: JobId)
    requires Unique(rows) && id in rows
    ensures var out := Reap(DropStale(rows, cutoff), cutoff, now);
      && (id in out <==> !(Stale(rows[id], cutoff) && TwinQueued(rows, id)))
      && (!Stale(rows[id], cutoff) ==> out[id] == rows[id])
      && (Stale(rows[id], cutoff) && id in out && !StuckPair(rows, cutoff) ==>
            && out[id].status.Queued? && out[id].runAt == now && out[id].attempts == rows[id].attempts
            && SameJob(rows[id], out[id]) && Claimable(out, id, {rows[id].kind}, now))
  {
    ReapWorks(rows, cutoff, now);
    if TwinQueued(rows, id) {
      var j :| j in rows && j != id && rows[j].status.Queued? && rows[id].key.Some?
        && rows[j].key == rows[id].key && rows[j].kind == rows[id].kind;
      assert Twins(rows[id], rows[j]);
    }
  }

  // ---------------------------------------------------------------- every step

  /** How a row may change in one step. */
  ghost predicate Moves(s: State, step: Step, id: JobId, a: Row, b: Row)
    requires Enabled(s, step)
  {
    && SameJob(a, b) && b.attempts == a.attempts + (if step.DoClaim? && step.id == id then 1 else 0)
    && (a.status.Queued? && b != a ==>
          && step.DoClaim? && step.id == id && a.runAt <= s.now && a.kind in step.kinds
          && b.status.Running? && b.lockedAt == s.now)
    && (a.status.Failed? ==> b == a)
    && (a.status.Running? && b != a ==>
          || (step.DoFail? && s.execs[step.worker].job == id && b.runAt == step.runAt &&
              b.status == if step.final then Failed else Queued)
          || (step.DoReap? && a.lockedAt < step.cutoff && b.status.Queued? && b.runAt == s.now))
  }

  /** In every reachable state a row leaves the queue only by a claim when it is due, a running one gets back into it
      only by its own failed worker or by a reap after its lock ran out, a given-up one never moves, and each claim
      counts one try. */
  lemma {:induction false} EveryStepMoves(s: State, step: Step, id: JobId)
    requires Inv(s) && Enabled(s, step) && id in s.rows && id in Do(s, step).rows
    ensures Moves(s, step, id, s.rows[id], Do(s, step).rows[id])
  {
    match step
    case DoEnqueue(_, _, _, _, _) =>
    case DoFail(w, final, runAt) =>
      if s.execs[w].job == id { assert s.rows[id].status.Running?; }
    case _ =>
  }

  /** A job that fails for good, or runs out of tries, is never claimed again, over any run. */
  lemma {:induction false} FailedStays(s: State, steps: seq<Step>, id: JobId)
    requires Inv(s) && IsRun(s, steps) && id in s.rows && s.rows[id].status.Failed?
    ensures id in After(s, steps).rows && After(s, steps).rows[id] == s.rows[id]
    decreases |steps|
  {
    if steps != [] {
      var s1 := Do(s, steps[0]);
      FailedKept(s, steps[0], id);
      EveryStepMoves(s, steps[0], id);
      StepKeeps(s, steps[0]);
      FailedStays(s1, steps[1..], id);
    }
  }

  lemma {:induction false} FailedKept(s: State, step: Step, id: JobId)
    requires Inv(s) && Enabled(s, step) && id in s.rows && s.rows[id].status.Failed?
    ensures id in Do(s, step).rows
  {
  }

  /** The tries of every row are the times it was claimed. */
  ghost predicate TriesCount(s: State) {
    && (forall id :: id in s.rows ==> s.rows[id].attempts == Claims(s, id))
    && (forall id :: id in s.claims ==> id < s.next)
  }

  lemma {:induction false} StepCounts(s: State, step: Step)
    requires Inv(s) && TriesCount(s) && Enabled(s, step)
    ensures TriesCount(Do(s, step))
  {
    var s' := Do(s, step);
    forall id | id in s'.rows ensures s'.rows[id].attempts == Claims(s', id) {
      if id in s.rows { EveryStepMoves(s, step, id); }
    }
  }

  lemma {:induction false} RunCounts(s: State, steps: seq<Step>)
    requires Inv(s) && TriesCount(s) && IsRun(s, steps)
    ensures TriesCount(After(s, steps))
    decreases |steps|
  {
    if steps != [] {
      StepCounts(s, steps[0]);
      StepKeeps(s, steps[0]);
      RunCounts(Do(s, steps[0]), steps[1..]);
    }
  }

  /** Over every run from the empty table a row's tries count exactly the claims of it. */
  lemma {:induction false} AttemptsAreClaims(now: int, steps: seq<Step>, id: JobId)
    requires IsRun(Empty(now), steps) && id in After(Empty(now), steps).rows
    ensures After(Empty(now), steps).rows[id].attempts == Claims(After(Empty(now), steps), id)
  {
    RunCounts(Empty(now), steps);
  }
}

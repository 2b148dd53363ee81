/** The job table and the workers around it.  Every SQL statement is one atomic step; between steps any
    number of workers, crashes and clocks may intervene.  Times are whole seconds. */
module Jobs {
  import opened Common

  const LOCK_TIMEOUT := 900
  const JOB_TIMEOUT := 600
  const WRITE_TIMEOUT := 5

  /** How far the clocks of the workers and the database, and the time a claim takes to reach its
      worker, may be out. */
  const SLACK := LOCK_TIMEOUT - JOB_TIMEOUT - WRITE_TIMEOUT

  type JobId = nat
  type Worker = nat

  datatype Status = Queued | Running | Failed

  datatype Row = Row(kind: string, key: Option<string>, status: Status, lockedAt: int, runAt: int,
                   priority: int, attempts: nat, maxAttempts: nat)

  type Table = map<JobId, Row>

  // ---------------------------------------------------------------- the statements

  /** Rows the unique index over queued rows sees as equal. */
  predicate Twins(a: Row, b: Row) {
    a.key.Some? && a.key == b.key && a.kind == b.kind
  }

  predicate QueuedTwin(rows: Table, r: Row) {
    exists j :: j in rows && rows[j].status.Queued? && Twins(r, rows[j])
  }

  predicate Unique(rows: Table) {
    forall i, j :: i in rows && j in rows && i != j && rows[i].status.Queued? && rows[j].status.Queued? ==>
      !Twins(rows[i], rows[j])
  }

  function Enqueue(rows: Table, id: JobId, kind: string, key: Option<string>, runAt: int, priority: int,
                   maxAttempts: nat): Table
  {
    var r := Row(kind, key, Queued, 0, runAt, priority, 0, maxAttempts);
    if QueuedTwin(rows, r) then rows else rows[id := r]
  }

  predicate Claimable(rows: Table, id: JobId, kinds: set<string>, now: int) {
    id in rows && rows[id].status.Queued? && rows[id].runAt <= now && rows[id].kind in kinds
  }

  function Claim(rows: Table, id: JobId, now: int): Table
    requires id in rows
  {
    rows[id := rows[id].(status := Running, lockedAt := now, attempts := rows[id].attempts + 1)]
  }

  function Delete(rows: Table, id: JobId): Table {
    rows - {id}
  }

  /** Put a failed job back or give it up; the unique index may refuse the former. */
  function Fail(rows: Table, id: JobId, final: bool, runAt: int): Option<Table> {
    if id !in rows then Some(rows)
    else
      var r := rows[id].(status := if final then Failed else Queued, lockedAt := 0, runAt := runAt);
      if !final && QueuedTwin(rows - {id}, r) then None else Some(rows[id := r])
  }

  predicate Stale(r: Row, cutoff: int) {
    r.status.Running? && r.lockedAt < cutoff
  }

  predicate Droppable(rows: Table, r: Row, cutoff: int) {
    Stale(r, cutoff) && QueuedTwin(rows, r)
  }

  function DropStale(rows: Table, cutoff: int): Table {
    map i | i in rows && !Droppable(rows, rows[i], cutoff) :: rows[i]
  }

  function Requeue(r: Row, cutoff: int, now: int): Row {
    if Stale(r, cutoff) then r.(status := Queued, lockedAt := 0, runAt := now) else r
  }

  function Requeued(rows: Table, cutoff: int, now: int): Table {
    map i | i in rows :: Requeue(rows[i], cutoff, now)
  }

  /** All or nothing: one clash with the unique index refuses the whole statement. */
  function Reap(rows: Table, cutoff: int, now: int): Table {
    var r := Requeued(rows, cutoff, now);
    if Unique(r) then r else rows
  }

  lemma {:induction false} DropStaleKeeps(rows: Table, cutoff: int)
    requires Unique(rows)
    ensures Unique(DropStale(rows, cutoff))
  {
  }

  /** Two dead workers whose jobs share a key. */
  ghost predicate StuckPair(rows: Table, cutoff: int) {
    exists i, j ::
      i in rows && j in rows && i != j && Stale(rows[i], cutoff) && Stale(rows[j], cutoff) && Twins(rows[i], rows[j])
      && !QueuedTwin(rows, rows[i])
  }

  lemma {:induction false} QueuedTwinOf(rows: Table, a: Row, b: Row)
    requires Twins(a, b)
    ensures QueuedTwin(rows, a) <==> QueuedTwin(rows, b)
  {
    forall j | j in rows ensures Twins(a, rows[j]) <==> Twins(b, rows[j]) { }
    if QueuedTwin(rows, a) {
      var j :| j in rows && rows[j].status.Queued? && Twins(a, rows[j]);
      assert Twins(b, rows[j]);
    }
    if QueuedTwin(rows, b) {
      var j :| j in rows && rows[j].status.Queued? && Twins(b, rows[j]);
      assert Twins(a, rows[j]);
    }
  }

  /** Reaping after dropping goes through exactly when no two stale jobs without a queued twin share a
      key; a single such pair holds up every other stale job as well. */
  lemma {:induction false} ReapWorks(rows: Table, cutoff: int, now: int)
    requires Unique(rows)
    ensures Unique(Requeued(DropStale(rows, cutoff), cutoff, now)) <==> !StuckPair(rows, cutoff)
  {
    var left := DropStale(rows, cutoff);
    var after := Requeued(left, cutoff, now);
    if StuckPair(rows, cutoff) {
      var i, j :| i in rows && j in rows && i != j && Stale(rows[i], cutoff) && Stale(rows[j], cutoff) &&
        Twins(rows[i], rows[j])
        && !QueuedTwin(rows, rows[i]);
      QueuedTwinOf(rows, rows[i], rows[j]);
      assert i in left && j in left;
      assert Twins(after[i], after[j]);
    } else {
      forall i, j | i in after && j in after && i != j && after[i].status.Queued? && after[j].status.Queued?
        ensures !Twins(after[i], after[j])
      {
        NoClashAfter(rows, cutoff, i, j);
      }
    }
  }

  lemma {:induction false} QueuedAgainst(rows: Table, cutoff: int, i: JobId, j: JobId)
    requires i in rows && rows[i].status.Queued? && j in rows && Stale(rows[j], cutoff) && j in DropStale(rows, cutoff)
    ensures !Twins(rows[i], rows[j]) && !Twins(rows[j], rows[i])
  {
    assert !QueuedTwin(rows, rows[j]);
  }

  lemma {:induction false} NoClashAfter(rows: Table, cutoff: int, i: JobId, j: JobId)
    requires Unique(rows) && !StuckPair(rows, cutoff)
    requires i in DropStale(rows, cutoff) && j in DropStale(rows, cutoff) && i != j
    requires rows[i].status.Queued? || Stale(rows[i], cutoff)
    requires rows[j].status.Queued? || Stale(rows[j], cutoff)
    ensures !Twins(rows[i], rows[j])
  {
    if rows[i].status.Queued? && !rows[j].status.Queued? {
      QueuedAgainst(rows, cutoff, i, j);
    } else if rows[j].status.Queued? && !rows[i].status.Queued? {
      QueuedAgainst(rows, cutoff, j, i);
    }
  }

  // ---------------------------------------------------------------- workers and steps

  /** A worker holding a job.  After a refused failure write it still has to delete the row; `twin` is
      the queued row that refused it and `seen` how often that one had been claimed by then. */
  datatype Exec = Exec(job: JobId, start: int, refused: bool, twin: JobId, seen: nat)

  datatype State = State(now: int, rows: Table, next: JobId, execs: map<Worker, Exec>, claims: map<JobId, nat>)

  datatype Step =
    | DoEnqueue(kind: string, key: Option<string>, runAt: int, priority: int, maxAttempts: nat)
    | DoClaim(worker: Worker, id: JobId, kinds: set<string>)
    | DoComplete(worker: Worker)
    | DoFail(worker: Worker, final: bool, runAt: int)
    | DoDelete(worker: Worker)
    | DoCrash(worker: Worker)
    | DoDropStale(cutoff: int)
    | DoReap(cutoff: int)
    | DoTick(seconds: nat)

  function Claims(s: State, id: JobId): nat {
    if id in s.claims then s.claims[id] else 0
  }

  /** Every handler stops at its timeout, and writing the outcome takes its own at most. */
  ghost predicate InTime(s: State, now: int) {
    forall w :: w in s.execs ==> now <= s.execs[w].start + JOB_TIMEOUT + WRITE_TIMEOUT
  }

  ghost predicate Enabled(s: State, step: Step) {
    match step
    case DoEnqueue(_, _, _, _, _) => true
    case DoClaim(w, id, kinds) => w !in s.execs && Claimable(s.rows, id, kinds, s.now)
    case DoComplete(w) => w in s.execs && !s.execs[w].refused
    case DoFail(w, _, _) => w in s.execs && !s.execs[w].refused
    case DoDelete(w) => w in s.execs && s.execs[w].refused
    case DoCrash(w) => w in s.execs
    case DoDropStale(cutoff) => cutoff <= s.now - LOCK_TIMEOUT + SLACK
    case DoReap(cutoff) => cutoff <= s.now - LOCK_TIMEOUT + SLACK
    case DoTick(d) => InTime(s, s.now + d)
  }

  ghost function AnyTwin(rows: Table, id: JobId): (j: JobId)
    requires id in rows && QueuedTwin(rows - {id}, rows[id])
    ensures j in rows && j != id && rows[j].status.Queued? && Twins(rows[id], rows[j])
  {
    var j :| j in rows - {id} && (rows - {id})[j].status.Queued? && Twins(rows[id], (rows - {id})[j]);
    j
  }

  lemma {:induction false} RefusedHasTwin(rows: Table, id: JobId, final: bool, runAt: int)
    requires Fail(rows, id, final, runAt).None?
    ensures id in rows && QueuedTwin(rows - {id}, rows[id])
  {
    var r := rows[id].(status := Queued, lockedAt := 0, runAt := runAt);
    var j :| j in rows - {id} && (rows - {id})[j].status.Queued? && Twins(r, (rows - {id})[j]);
    assert Twins(rows[id], (rows - {id})[j]);
  }

  ghost function Do(s: State, step: Step): State
    requires Enabled(s, step)
  {
    match step
    case DoEnqueue(kind, key, runAt, priority, maxAttempts) =>
      s.(rows := Enqueue(s.rows, s.next, kind, key, runAt, priority, maxAttempts), next := s.next + 1)
    case DoClaim(w, id, _) =>
      s.(rows := Claim(s.rows, id, s.now), execs := s.execs[w := Exec(id, s.now, false, 0, 0)],
         claims := s.claims[id := Claims(s, id) + 1])
    case DoComplete(w) => s.(rows := Delete(s.rows, s.execs[w].job), execs := s.execs - {w})
    case DoFail(w, final, runAt) =>
      var id := s.execs[w].job;
      var written := Fail(s.rows, id, final, runAt);
      if written.Some? then s.(rows := written.value, execs := s.execs - {w})
      else
        RefusedHasTwin(s.rows, id, final, runAt);
        var t := AnyTwin(s.rows, id);
        s.(execs := s.execs[w := s.execs[w].(refused := true, twin := t, seen := Claims(s, t))])
    case DoDelete(w) => s.(rows := Delete(s.rows, s.execs[w].job), execs := s.execs - {w})
    case DoCrash(w) => s.(execs := s.execs - {w})
    case DoDropStale(cutoff) => s.(rows := DropStale(s.rows, cutoff))
    case DoReap(cutoff) => s.(rows := Reap(s.rows, cutoff, s.now))
    case DoTick(d) => s.(now := s.now + d)
  }

  // ---------------------------------------------------------------- what every step keeps

  /** What a worker holds is running, locked since it was claimed, and held by nobody else. */
  ghost predicate Held(s: State) {
    && (forall w :: w in s.execs ==>
          s.execs[w].job in s.rows && s.rows[s.execs[w].job].status.Running? &&
          s.rows[s.execs[w].job].lockedAt == s.execs[w].start)
    && (forall v, w :: v in s.execs && w in s.execs && v != w ==> s.execs[v].job != s.execs[w].job)
  }

  ghost predicate Ids(s: State) {
    forall i :: i in s.rows ==> i < s.next
  }

  /** The row that refused a failed job still waits, or a worker has taken it up since. */
  ghost predicate Served(s: State, x: Exec) {
    && x.twin < s.next &&
      (x.twin in s.rows && x.job in s.rows ==> x.twin != x.job && Twins(s.rows[x.job], s.rows[x.twin]))
    && x.seen <= Claims(s, x.twin) &&
      ((x.twin in s.rows && s.rows[x.twin].status.Queued?) || x.seen < Claims(s, x.twin))
  }

  ghost predicate NoneLost(s: State) {
    forall w :: w in s.execs && s.execs[w].refused ==> Served(s, s.execs[w])
  }

  ghost predicate Inv(s: State) {
    Unique(s.rows) && Ids(s) && InTime(s, s.now) && Held(s) && NoneLost(s)
  }

  lemma {:induction false} NotStale(s: State, cutoff: int, w: Worker)
    requires InTime(s, s.now) && Held(s) && w in s.execs && cutoff <= s.now - LOCK_TIMEOUT + SLACK
    ensures !Stale(s.rows[s.execs[w].job], cutoff)
  {
  }

  /** Somewhere a worker still holds a job that is stale by this cutoff. */
  ghost predicate HeldYetStale(s: State, w: Worker, cutoff: int) {
    InTime(s, s.now) && Held(s) && w in s.execs && Stale(s.rows[s.execs[w].job], cutoff)
  }

  /** A lock may be taken for stale exactly from 605 seconds on; against the 900 that are waited, clocks may be out by
      295 seconds and no more. */
  lemma {:induction false} SlackExact(now: int, cutoff: int)
    ensures (exists s: State, w :: s.now == now && HeldYetStale(s, w, cutoff)) <==> cutoff > now - 605
    ensures now - LOCK_TIMEOUT + 295 == now - 605
  {
    if cutoff > now - 605 {
      var row := Row("", None, Running, now - 605, 0, 0, 0, 0);
      var s := State(now, map[0 := row], 1, map[0 := Exec(0, now - 605, false, 0, 0)], map[]);
      assert HeldYetStale(s, 0, cutoff);
    }
  }

  lemma {:induction false} EnqueueKeeps(s: State, step: Step)
    requires Inv(s) && Enabled(s, step) && step.DoEnqueue?
    ensures Inv(Do(s, step))
  {
    var r := Row(step.kind, step.key, Queued, 0, step.runAt, step.priority, 0, step.maxAttempts);
    var s' := Do(s, step);
    forall w | w in s'.execs && s'.execs[w].refused ensures Served(s', s'.execs[w]) {
      assert Served(s, s.execs[w]);
    }
    if !QueuedTwin(s.rows, r) {
      forall i | i in s.rows && s.rows[i].status.Queued? ensures !Twins(s.rows[i], r) && !Twins(r, s.rows[i]) { }
    }
  }

  lemma {:induction false} ClaimKeeps(s: State, step: Step)
    requires Inv(s) && Enabled(s, step) && step.DoClaim?
    ensures Inv(Do(s, step))
  {
    var s' := Do(s, step);
    assert s'.execs[step.worker].start == s.now;
    assert Unique(s'.rows) && Held(s') && InTime(s', s'.now);
    forall w | w in s'.execs && s'.execs[w].refused ensures Served(s', s'.execs[w]) {
      assert w != step.worker && Served(s, s.execs[w]);
      assert Claims(s', s.execs[w].twin) >= Claims(s, s.execs[w].twin);
    }
  }

  /** A row that is not queued goes. */
  lemma {:induction false} ReleaseKeeps(s: State, w: Worker)
    requires Inv(s) && w in s.execs
    ensures Inv(s.(execs := s.execs - {w})) && Inv(s.(rows := Delete(s.rows, s.execs[w].job), execs := s.execs - {w}))
  {
    var s1 := s.(execs := s.execs - {w});
    var s2 := s1.(rows := Delete(s.rows, s.execs[w].job));
    forall v | v in s1.execs && s1.execs[v].refused ensures Served(s1, s1.execs[v]) && Served(s2, s1.execs[v]) {
      assert Served(s, s.execs[v]);
    }
    assert Held(s1) && Held(s2);
  }

  lemma {:induction false} FailKeeps(s: State, step: Step)
    requires Inv(s) && Enabled(s, step) && step.DoFail?
    ensures Inv(Do(s, step))
  {
    var id := s.execs[step.worker].job;
    var written := Fail(s.rows, id, step.final, step.runAt);
    if written.Some? {
      WrittenKeeps(s, step.worker, written.value, step.final, step.runAt);
    } else {
      RefusedHasTwin(s.rows, id, step.final, step.runAt);
      RefusedKeeps(s, step.worker, AnyTwin(s.rows, id));
    }
  }

  lemma {:induction false} WrittenKeeps(s: State, w: Worker, rows: Table, final: bool, runAt: int)
    requires Inv(s) && w in s.execs && Fail(s.rows, s.execs[w].job, final, runAt) == Some(rows)
    ensures Inv(s.(rows := rows, execs := s.execs - {w}))
  {
    var s' := s.(rows := rows, execs := s.execs - {w});
    FailedUnique(s.rows, s.execs[w].job, final, runAt);
    forall v | v in s'.execs && s'.execs[v].refused ensures Served(s', s'.execs[v]) {
      assert Served(s, s.execs[v]);
    }
  }

  lemma {:induction false} RefusedKeeps(s: State, w: Worker, t: JobId)
    requires Inv(s) && w in s.execs && t in s.rows && t != s.execs[w].job && s.rows[t].status.Queued?
    requires Twins(s.rows[s.execs[w].job], s.rows[t])
    ensures Inv(s.(execs := s.execs[w := s.execs[w].(refused := true, twin := t, seen := Claims(s, t))]))
  {
    var s' := s.(execs := s.execs[w := s.execs[w].(refused := true, twin := t, seen := Claims(s, t))]);
    forall v | v in s'.execs && s'.execs[v].refused ensures Served(s', s'.execs[v]) {
      if v != w { assert Served(s, s.execs[v]); }
    }
  }

  lemma {:induction false} FailedUnique(rows: Table, id: JobId, final: bool, runAt: int)
    requires Unique(rows) && id in rows && Fail(rows, id, final, runAt).Some?
    ensures Unique(Fail(rows, id, final, runAt).value)
  {
    var r := rows[id].(status := if final then Failed else Queued, lockedAt := 0, runAt := runAt);
    if !final {
      forall i | i in rows && i != id && rows[i].status.Queued? ensures !Twins(r, rows[i]) && !Twins(rows[i], r) {
        assert i in rows - {id} && (rows - {id})[i] == rows[i];
      }
    }
  }

  lemma {:induction false} DropKeeps(s: State, cutoff: int)
    requires Inv(s) && cutoff <= s.now - LOCK_TIMEOUT + SLACK
    ensures Inv(Do(s, DoDropStale(cutoff)))
  {
    var s' := Do(s, DoDropStale(cutoff));
    DropStaleKeeps(s.rows, cutoff);
    forall w | w in s.execs ensures s.execs[w].job in s'.rows { NotStale(s, cutoff, w); }
    forall w | w in s'.execs && s'.execs[w].refused ensures Served(s', s'.execs[w]) {
      assert Served(s, s.execs[w]);
    }
  }

  lemma {:induction false} ReapKeeps(s: State, cutoff: int)
    requires Inv(s) && cutoff <= s.now - LOCK_TIMEOUT + SLACK
    ensures Inv(Do(s, DoReap(cutoff)))
  {
    var s' := Do(s, DoReap(cutoff));
    forall w | w in s.execs ensures s'.rows[s.execs[w].job] == s.rows[s.execs[w].job] { NotStale(s, cutoff, w); }
    forall w | w in s'.execs && s'.execs[w].refused ensures Served(s', s'.execs[w]) {
      assert Served(s, s.execs[w]);
    }
  }

  lemma {:induction false} StepKeeps(s: State, step: Step)
    requires Inv(s) && Enabled(s, step)
    ensures Inv(Do(s, step))
  {
    match step
    case DoEnqueue(_, _, _, _, _) => EnqueueKeeps(s, step);
    case DoClaim(_, _, _) => ClaimKeeps(s, step);
    case DoComplete(w) => ReleaseKeeps(s, w);
    case DoFail(_, _, _) => FailKeeps(s, step);
    case DoDelete(w) => ReleaseKeeps(s, w);
    case DoCrash(w) => ReleaseKeeps(s, w);
    case DoDropStale(cutoff) => DropKeeps(s, cutoff);
    case DoReap(cutoff) => ReapKeeps(s, cutoff);
    case DoTick(d) =>
      forall w | w in s.execs && s.execs[w].refused ensures Served(Do(s, step), s.execs[w]) {
        assert Served(s, s.execs[w]);
      }
  }

  /** A run: every step is possible where it is taken. */
  ghost predicate IsRun(s: State, steps: seq<Step>)
    decreases |steps|
  {
    steps == [] || (Enabled(s, steps[0]) && IsRun(Do(s, steps[0]), steps[1..]))
  }

  ghost function After(s: State, steps: seq<Step>): State
    requires IsRun(s, steps)
    decreases |steps|
  {
    if steps == [] then s else After(Do(s, steps[0]), steps[1..])
  }

  function Empty(now: int): State {
    State(now, map[], 0, map[], map[])
  }

  lemma {:induction false} RunKeeps(s: State, steps: seq<Step>)
    requires Inv(s) && IsRun(s, steps)
    ensures Inv(After(s, steps))
    decreases |steps|
  {
    if steps != [] {
      StepKeeps(s, steps[0]);
      RunKeeps(Do(s, steps[0]), steps[1..]);
    }
  }

  predicate BothQueued(rows: Table, i: JobId, j: JobId) {
    i in rows && j in rows && i != j && rows[i].status.Queued? && rows[j].status.Queued?
  }

  /** Whatever happens, at most one row per kind and key is queued, and no job is held by two workers. */
  lemma {:induction false} EveryRunSafe(now: int, steps: seq<Step>)
    requires IsRun(Empty(now), steps)
    ensures var s := After(Empty(now), steps);
      && (forall i, j :: BothQueued(s.rows, i, j) && s.rows[i].kind == s.rows[j].kind ==>
            s.rows[i].key.None? || s.rows[i].key != s.rows[j].key)
      && (forall v, w :: v in s.execs && w in s.execs && v != w ==> s.execs[v].job != s.execs[w].job)
  {
    RunKeeps(Empty(now), steps);
    var s := After(Empty(now), steps);
    forall i, j | BothQueued(s.rows, i, j) && s.rows[i].kind == s.rows[j].kind
      ensures s.rows[i].key.None? || s.rows[i].key != s.rows[j].key
    {
      assert !Twins(s.rows[i], s.rows[j]);
    }
  }

  // ---------------------------------------------------------------- what is deleted

  /** Why a row may go. */
  ghost predicate Justified(s: State, step: Step, id: JobId)
    requires Enabled(s, step) && id in s.rows
  {
    match step
    case DoComplete(w) => s.execs[w].job == id
    case DoDropStale(_) => s.rows[id].key.Some? && QueuedTwin(Do(s, step).rows, s.rows[id])
    case DoDelete(w) =>
      s.execs[w].job == id && Served(s, s.execs[w]) &&
        (Claims(s, s.execs[w].twin) == s.execs[w].seen ==> QueuedTwin(s.rows, s.rows[id]))
    case _ => false
  }

  lemma {:induction false} TwinStays(rows: Table, r: Row, cutoff: int)
    requires QueuedTwin(rows, r)
    ensures QueuedTwin(DropStale(rows, cutoff), r)
  {
    var j :| j in rows && rows[j].status.Queued? && Twins(r, rows[j]);
    assert j in DropStale(rows, cutoff) && DropStale(rows, cutoff)[j] == rows[j];
  }

  /** In every reachable state a row is deleted only by the worker that finished it, or for a queued
      twin that still waits, or, after a refused failure write, for a twin that waits or has been taken
      up since. */
  lemma {:induction false} DeletedForAReason(now: int, steps: seq<Step>, step: Step, id: JobId)
    requires IsRun(Empty(now), steps) && Enabled(After(Empty(now), steps), step)
    requires id in After(Empty(now), steps).rows && id !in Do(After(Empty(now), steps), step).rows
    ensures Justified(After(Empty(now), steps), step, id)
  {
    var s := After(Empty(now), steps);
    RunKeeps(Empty(now), steps);
    if step.DoDropStale? {
      TwinStays(s.rows, s.rows[id], step.cutoff);
    }
  }

  // ---------------------------------------------------------------- putting runs together

  lemma {:induction false} RunConcat(s: State, a: seq<Step>, b: seq<Step>)
    requires IsRun(s, a) && IsRun(After(s, a), b)
    ensures IsRun(s, a + b) && After(s, a + b) == After(After(s, a), b)
    decreases |a|
  {
    if a == [] {
      assert a + b == b;
    } else {
      assert (a + b)[0] == a[0] && (a + b)[1..] == a[1..] + b;
      RunConcat(Do(s, a[0]), a[1..], b);
    }
  }

  lemma {:induction false} OneStep(s: State, p: Step)
    requires Enabled(s, p)
    ensures IsRun(s, [p]) && After(s, [p]) == Do(s, p)
  {
    assert [p][1..] == [];
    assert IsRun(Do(s, p), []) && After(Do(s, p), []) == Do(s, p);
  }

  lemma {:induction false} ThreeSteps(s: State, p: Step, q: Step, r: Step)
    requires Enabled(s, p) && Enabled(Do(s, p), q) && Enabled(Do(Do(s, p), q), r)
    ensures IsRun(s, [p, q, r]) && After(s, [p, q, r]) == Do(Do(Do(s, p), q), r)
  {
    OneStep(s, p);
    OneStep(Do(s, p), q);
    OneStep(Do(Do(s, p), q), r);
    RunConcat(s, [p], [q]);
    RunConcat(s, [p] + [q], [r]);
    assert [p] + [q] + [r] == [p, q, r];
  }

  // ---------------------------------------------------------------- jobs with one key, both stopped

  /** Two running jobs with one key that no worker holds any more, and no third one but given-up ones. */
  ghost predicate LostPair(s: State, i: JobId, j: JobId) {
    && i != j && i in s.rows && j in s.rows && s.rows[i].status.Running? && s.rows[j].status.Running? &&
      Twins(s.rows[i], s.rows[j])
    && (forall w :: w in s.execs ==> s.execs[w].job != i && s.execs[w].job != j)
    && (forall k :: k in s.rows && k != i && k != j && !s.rows[k].status.Failed? ==> !Twins(s.rows[i], s.rows[k]))
  }

  predicate Enqueues(step: Step, r: Row) {
    step.DoEnqueue? && step.kind == r.kind && step.key == r.key
  }

  /** What can move one of two such jobs: another job with their key, or a reap for which only one of them
      is stale. */
  predicate Frees(step: Step, a: Row, b: Row) {
    Enqueues(step, a) || (step.DoReap? && (Stale(a, step.cutoff) <==> !Stale(b, step.cutoff)))
  }

  lemma {:induction false} NoTwinQueued(s: State, i: JobId, j: JobId)
    requires LostPair(s, i, j)
    ensures !QueuedTwin(s.rows, s.rows[i]) && !QueuedTwin(s.rows, s.rows[j])
  {
    forall k | k in s.rows && s.rows[k].status.Queued?
      ensures !Twins(s.rows[i], s.rows[k]) && !Twins(s.rows[j], s.rows[k])
    {
    }
  }

  lemma {:induction false} ReapRefused(s: State, i: JobId, j: JobId, cutoff: int, now: int)
    requires LostPair(s, i, j) && Stale(s.rows[i], cutoff) && Stale(s.rows[j], cutoff)
    ensures Reap(s.rows, cutoff, now) == s.rows
  {
    var r := Requeued(s.rows, cutoff, now);
    assert r[i].status.Queued? && r[j].status.Queued? && Twins(r[i], r[j]);
  }

  lemma {:induction false} LostPairStep(s: State, i: JobId, j: JobId, step: Step)
    requires Inv(s) && LostPair(s, i, j) && Enabled(s, step) && !Frees(step, s.rows[i], s.rows[j])
    ensures var s' := Do(s, step); LostPair(s', i, j) && s'.rows[i] == s.rows[i] && s'.rows[j] == s.rows[j]
  {
    match step
    case DoDropStale(_) => NoTwinQueued(s, i, j);
    case DoReap(cutoff) =>
      if Stale(s.rows[i], cutoff) { ReapRefused(s, i, j, cutoff, s.now); } else { ReapPasses(s, i, j, cutoff); }
    case DoFail(w, final, runAt) => FailElsewhere(s, i, j, w, final, runAt);
    case _ =>
  }

  lemma {:induction false} ReapPasses(s: State, i: JobId, j: JobId, cutoff: int)
    requires LostPair(s, i, j) && Enabled(s, DoReap(cutoff)) && !Stale(s.rows[i], cutoff) && !Stale(s.rows[j], cutoff)
    ensures var s' := Do(s, DoReap(cutoff)); LostPair(s', i, j) && s'.rows[i] == s.rows[i] && s'.rows[j] == s.rows[j]
  {
    forall k | k in s.rows && k != i && k != j && !s.rows[k].status.Failed?
      ensures !Twins(s.rows[i], Requeue(s.rows[k], cutoff, s.now))
    {
      assert !Twins(s.rows[i], s.rows[k]);
    }
  }

  lemma {:induction false} FailElsewhere(s: State, i: JobId, j: JobId, w: Worker, final: bool, runAt: int)
    requires Held(s) && LostPair(s, i, j) && Enabled(s, DoFail(w, final, runAt))
    ensures var s' := Do(s, DoFail(w, final, runAt));
      LostPair(s', i, j) && s'.rows[i] == s.rows[i] && s'.rows[j] == s.rows[j]
  {
    assert s.execs[w].job != i && s.execs[w].job != j;
  }

  ghost predicate NoneFrees(steps: seq<Step>, a: Row, b: Row) {
    forall k :: 0 <= k < |steps| ==> !Frees(steps[k], a, b)
  }

  /** As long as no job with their key is enqueued, and no reap finds only one of them stale, such a pair
      stays as it is whatever else happens: the unique index refuses every reap that finds both. */
  lemma {:induction false} LostPairStays(s: State, i: JobId, j: JobId, steps: seq<Step>)
    requires Inv(s) && LostPair(s, i, j) && IsRun(s, steps) && NoneFrees(steps, s.rows[i], s.rows[j])
    ensures var s' := After(s, steps);
      Inv(s') && LostPair(s', i, j) && s'.rows[i] == s.rows[i] && s'.rows[j] == s.rows[j]
    decreases |steps|
  {
    if steps != [] {
      assert !Frees(steps[0], s.rows[i], s.rows[j]);
      LostPairStep(s, i, j, steps[0]);
      StepKeeps(s, steps[0]);
      LostPairStays(Do(s, steps[0]), i, j, steps[1..]);
    }
  }

  /** After any such run and one more job, dropping stale jobs removes both if that job has their key, and
      neither if it has not. */
  lemma {:induction false} LostPairFreed(s: State, i: JobId, j: JobId, steps: seq<Step>, add: Step, cutoff: int)
    requires Inv(s) && LostPair(s, i, j) && IsRun(s, steps) && NoneFrees(steps, s.rows[i], s.rows[j]) && add.DoEnqueue?
    requires Stale(s.rows[i], cutoff) && Stale(s.rows[j], cutoff)
    ensures var rows := DropStale(Do(After(s, steps), add).rows, cutoff);
      (i in rows <==> !Enqueues(add, s.rows[i])) && (j in rows <==> !Enqueues(add, s.rows[i]))
  {
    LostPairStays(s, i, j, steps);
    var s1 := After(s, steps);
    NoTwinQueued(s1, i, j);
    var s2 := Do(s1, add);
    if Enqueues(add, s.rows[i]) {
      var r := Row(add.kind, add.key, Queued, 0, add.runAt, add.priority, 0, add.maxAttempts);
      assert !QueuedTwin(s1.rows, r) by { QueuedTwinOf(s1.rows, s1.rows[i], r); }
      assert s2.rows[s1.next] == r && Twins(s2.rows[i], r) && Twins(s2.rows[j], r);
    } else {
      LostPairStep(s1, i, j, add);
      NoTwinQueued(s2, i, j);
    }
  }

  // ---------------------------------------------------------------- two runs from the empty table

  function Job(status: Status, lockedAt: int, attempts: nat): Row {
    Row("pull", Some("b"), status, lockedAt, 0, 0, attempts, 10)
  }

  const Add := DoEnqueue("pull", Some("b"), 0, 0, 10)

  /** One worker runs a job while its twin waits. */
  function TwinWaits(): State {
    State(0, map[0 := Job(Running, 0, 1), 1 := Job(Queued, 0, 0)], 2, map[0 := Exec(0, 0, false, 0, 0)], map[0 := 1])
  }

  lemma {:induction false} OneQueued()
    ensures Do(Empty(0), Add) == State(0, map[0 := Job(Queued, 0, 0)], 1, map[], map[])
  {
    assert !QueuedTwin(Empty(0).rows, Job(Queued, 0, 0));
  }

  lemma {:induction false} OneRunning(s: State)
    requires s == State(0, map[0 := Job(Running, 0, 1)], 1, map[0 := Exec(0, 0, false, 0, 0)], map[0 := 1])
    ensures Do(s, Add) == TwinWaits()
  {
    assert !QueuedTwin(s.rows, Job(Queued, 0, 0));
  }

  lemma {:induction false} TwinWaitsReached() returns (steps: seq<Step>)
    ensures IsRun(Empty(0), steps) && After(Empty(0), steps) == TwinWaits()
  {
    var claim := DoClaim(0, 0, {"pull"});
    steps := [Add, claim, Add];
    OneQueued();
    var s1 := Do(Empty(0), Add);
    var s2 := Do(s1, claim);
    assert s2 == State(0, map[0 := Job(Running, 0, 1)], 1, map[0 := Exec(0, 0, false, 0, 0)], map[0 := 1]);
    OneRunning(s2);
    ThreeSteps(Empty(0), Add, claim, Add);
  }

  lemma {:induction false} FailRefused()
    ensures var s' := Do(TwinWaits(), DoFail(0, false, 5));
      s'.now == 0 && s'.rows == TwinWaits().rows && s'.execs.Keys == {0} && s'.execs[0].refused && s'.execs[0].job == 0
  {
    var s := TwinWaits();
    assert (s.rows - {0})[1] == Job(Queued, 0, 0);
    assert Fail(s.rows, 0, false, 5).None?;
  }

  /** A refused failure write and the deletion after it are two statements: when the twin is claimed in
      between, the unsuccessful row goes while no twin is queued. */
  lemma {:induction false} TwinTakenBetween() returns (steps: seq<Step>)
    ensures IsRun(Empty(0), steps) && IsRun(Empty(0), steps + [DoDelete(0)])
    ensures var s, s' := After(Empty(0), steps), After(Empty(0), steps + [DoDelete(0)]);
      0 in s.rows && s.rows[0] == Job(Running, 0, 1) && 0 !in s'.rows && !QueuedTwin(s'.rows, s.rows[0])
  {
    var start := TwinWaitsReached();
    var fail, claim := DoFail(0, false, 5), DoClaim(1, 1, {"pull"});
    FailRefused();
    var s1 := Do(TwinWaits(), fail);
    var s2 := Do(s1, claim);
    OneStep(TwinWaits(), fail);
    OneStep(s1, claim);
    OneStep(s2, DoDelete(0));
    RunConcat(Empty(0), start, [fail]);
    RunConcat(Empty(0), start + [fail], [claim]);
    steps := start + [fail] + [claim];
    RunConcat(Empty(0), steps, [DoDelete(0)]);
    assert s2.rows == map[0 := Job(Running, 0, 1), 1 := Job(Running, 0, 1)];
    assert Do(s2, DoDelete(0)).rows == map[1 := Job(Running, 0, 1)];
  }

  /** The twin is claimed as well, and both workers crash: the jobs are stuck together. */
  function Crashed(): State {
    State(0, map[0 := Job(Running, 0, 1), 1 := Job(Running, 0, 1)], 2, map[], map[0 := 1, 1 := 1])
  }

  lemma {:induction false} CrashedReached() returns (steps: seq<Step>)
    ensures IsRun(Empty(0), steps) && After(Empty(0), steps) == Crashed() && Inv(Crashed()) && LostPair(Crashed(), 0, 1)
  {
    var start := TwinWaitsReached();
    var claim := DoClaim(1, 1, {"pull"});
    var s1 := Do(TwinWaits(), claim);
    assert s1.rows == Crashed().rows && s1.claims == Crashed().claims && s1.execs.Keys == {0, 1};
    assert Do(Do(s1, DoCrash(0)), DoCrash(1)).execs == map[];
    ThreeSteps(TwinWaits(), claim, DoCrash(0), DoCrash(1));
    RunConcat(Empty(0), start, [claim, DoCrash(0), DoCrash(1)]);
    steps := start + [claim, DoCrash(0), DoCrash(1)];
    RunKeeps(Empty(0), steps);
  }

  /** From the empty table to two stuck jobs that no reap moves, however long it goes on. */
  lemma {:induction false} CrashedPairStays(more: seq<Step>) returns (steps: seq<Step>)
    requires IsRun(Crashed(), more) && NoneFrees(more, Job(Running, 0, 1), Job(Running, 0, 1))
    ensures IsRun(Empty(0), steps + more)
    ensures var s := After(Empty(0), steps + more);
      0 in s.rows && 1 in s.rows && s.rows[0] == s.rows[1] == Job(Running, 0, 1)
  {
    steps := CrashedReached();
    RunConcat(Empty(0), steps, more);
    LostPairStays(Crashed(), 0, 1, more);
  }
}

/** The job table as the workers use it, one statement after the other. */
module JobStore {
  import opened Common
  import opened Jobs
  import opened JobLife
  import Spec = Jobs

  datatype Outcome = Success | Trouble(permanent: bool)

  class Queue {
    var rows: Table
    var next: JobId

    ghost predicate Valid() reads this {
      Spec.Unique(rows) && forall i :: i in rows ==> i < next
    }

    constructor ()
      ensures Valid() && rows == map[]
    {
      rows, next := map[], 0;
    }

    method Enqueue(kind: string, key: Option<string>, runAt: int, priority: int, maxAttempts: nat)
      requires Valid()
      modifies this
      ensures Valid() && next == old(next) + 1
      ensures rows == Spec.Enqueue(old(rows), old(next), kind, key, runAt, priority, maxAttempts)
    {
      var r := Row(kind, key, Queued, 0, runAt, priority, 0, maxAttempts);
      var id := next;
      next := next + 1;
      if QueuedTwin(rows, r) {
        return;
      }
      assert forall i :: i in rows && rows[i].status.Queued? ==> !Twins(r, rows[i]) && !Twins(rows[i], r);
      rows := rows[id := r];
    }

    /** Take the most urgent job that is due, the one due longest among equals. */
    method Claim(kinds: set<string>, now: int) returns (r: Option<JobId>)
      requires Valid()
      modifies this`rows
      ensures Valid()
      ensures r.None? ==> rows == old(rows) && forall j :: !Claimable(old(rows), j, kinds, now)
      ensures r.Some? ==> Claimable(old(rows), r.value, kinds, now) && rows == Spec.Claim(old(rows), r.value, now)
      ensures r.Some? ==> forall j :: Claimable(old(rows), j, kinds, now) ==>
        old(rows)[j].priority < old(rows)[r.value].priority ||
        (old(rows)[j].priority == old(rows)[r.value].priority && old(rows)[r.value].runAt <= old(rows)[j].runAt)
    {
      r := None;
      for id := 0 to next
        invariant r.None? ==> forall j :: 0 <= j < id ==> !Claimable(rows, j, kinds, now)
        invariant r.Some? ==> Claimable(rows, r.value, kinds, now)
        invariant r.Some? ==> forall j :: 0 <= j < id && Claimable(rows, j, kinds, now) ==>
          rows[j].priority < rows[r.value].priority ||
          (rows[j].priority == rows[r.value].priority && rows[r.value].runAt <= rows[j].runAt)
      {
        if Claimable(rows, id, kinds, now) {
          if r.None? || rows[id].priority > rows[r.value].priority ||
             (rows[id].priority == rows[r.value].priority && rows[id].runAt < rows[r.value].runAt) {
            r := Some(id);
          }
        }
      }
      if r.Some? {
        rows := rows[r.value := rows[r.value].(status := Running, lockedAt := now,
                                     attempts := rows[r.value].attempts + 1)];
      }
    }

    /** Record how a job ended: gone on success, given up for good after its last try, otherwise back in
        the queue, or gone as well when the queue already has its twin. */
    method Finish(id: JobId, attempts: nat, maxAttempts: nat, outcome: Outcome, runAt: int)
      requires Valid()
      modifies this`rows
      ensures Valid()
      ensures outcome.Success? ==> rows == Spec.Delete(old(rows), id)
      ensures outcome == Trouble(false) && attempts < maxAttempts && id in old(rows) && !TwinQueued(old(rows), id) ==>
        && id in rows && rows[id].status.Queued? && rows[id].runAt == runAt && SameJob(old(rows)[id], rows[id])
        && OnlyRow(old(rows), rows, id)
      ensures outcome.Trouble? && id in old(rows) && (attempts >= maxAttempts || outcome.permanent) ==>
        id in rows && rows[id].status.Failed? && SameJob(old(rows)[id], rows[id]) && OnlyRow(old(rows), rows, id)
      ensures outcome.Trouble? ==>
        var written := Spec.Fail(old(rows), id, attempts >= maxAttempts || outcome.permanent, runAt);
        rows == if written.Some? then written.value else Spec.Delete(old(rows), id)
    {
      if outcome.Success? {
        rows := rows - {id};
        return;
      }
      var final := attempts >= maxAttempts || outcome.permanent;
      var written := Spec.Fail(rows, id, final, runAt);
      if id in rows {
        FailedIsRetried(rows, id, runAt);
        GivenUp(rows, id, runAt);
      }
      if written.Some? {
        if id in rows { FailedUnique(rows, id, final, runAt); }
        rows := written.value;
      } else {
        rows := rows - {id};
      }
    }

    /** Drop stale jobs that have a queued twin, then put the other stale jobs back. */
    method Reap(now: int)
      requires Valid()
      modifies this`rows
      ensures Valid()
      ensures var left := DropStale(old(rows), now - LOCK_TIMEOUT); rows == Spec.Reap(left, now - LOCK_TIMEOUT, now)
      ensures !StuckPair(old(rows), now - LOCK_TIMEOUT) ==>
        forall i :: i in rows ==> !Stale(rows[i], now - LOCK_TIMEOUT)
    {
      var cutoff := now - LOCK_TIMEOUT;
      ReapWorks(rows, cutoff, now);
      DropStaleKeeps(rows, cutoff);
      rows := DropStale(rows, cutoff);
      var requeued := Requeued(rows, cutoff, now);
      if Spec.Unique(requeued) {
        rows := requeued;
      }
    }
  }
}

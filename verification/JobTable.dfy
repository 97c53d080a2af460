/**
 The `jobs` table and the SQL statements that change it (internal/model/job_repo.go).

 A statement is a function on the table; `JobRepository` is the object whose methods issue those statements
 one at a time, each of them atomically, over a connection that may fail before or after the commit.
 Instants and durations are integers in nanoseconds.
 */
module JobTable {
  import opened Basics

  type JobId = nat
  type UserId = nat
  type WorkerId = nat

  const SECOND: int := 1_000_000_000

  /** The column bound of the CHECK constraint `valid_retry`, also the sweep's `maxRetry`. */
  const MAX_RETRY: nat := 5
  const MAX_FRAMES: nat := 1800

  datatype Status = Pending | Processing | Completed | Failed | Cancelled {
    predicate Terminal() {
      Completed? || Failed? || Cancelled?
    }

    predicate Active() {
      Pending? || Processing?
    }
  }

  datatype Row = Row(
    user: UserId,
    status: Status,
    frameCount: int,
    processedFrames: int,
    videoUrl: Option<string>,
    metrics: Option<string>,
    retryCount: nat,
    workerId: Option<WorkerId>,
    leaseExpiry: Option<int>,
    cancelRequested: bool,
    errorMessage: Option<string>,
    createdAt: int,
    version: nat)

  type Table = map<JobId, Row>

  /** How a call to the database ends: answered, or failed before or after the statement committed. */
  datatype Fault = Answered | LostBefore | LostAfter

  datatype Reply<+T> = Ok(value: T) | DbError | OptimisticLock | JobNotFound

  /** One SQL statement that writes the table. */
  datatype Statement =
    | Insert(id: JobId, user: UserId, frames: int)
    | Claim(id: JobId, worker: WorkerId, lease: int)
    | Extend(id: JobId, worker: WorkerId, lease: int)
    | Complete(id: JobId, worker: WorkerId, url: string, metrics: Option<string>)
    | Fail(id: JobId, worker: WorkerId, message: string)
    | Cancel(id: JobId, worker: WorkerId)
    | Recover(maxRetry: nat)
    | Delete(id: JobId, user: UserId)
    | Progress(id: JobId, processed: int, total: int)

  /** Postgres receives the lease as a whole number of seconds; the fraction is cut off. */
  function WholeSeconds(duration: int): int
    requires 0 <= duration
  {
    duration / SECOND * SECOND
  }

  /** The row an insert creates: pending, unowned, version 0. */
  function NewRow(user: UserId, frames: int, now: int): Row {
    Row(user, Pending, frames, 0, None, None, 0, None, None, false, None, now, 0)
  }

  /** WHERE worker_id = w AND status = 'PROCESSING'; a NULL worker_id matches nobody. */
  predicate OwnedBy(row: Row, worker: WorkerId) {
    row.status == Processing && row.workerId == Some(worker)
  }

  /** WHERE status = 'PROCESSING' AND lease_expiry < NOW() AND retry_count < maxRetry. */
  predicate Stalled(row: Row, now: int, maxRetry: nat) {
    row.status == Processing && row.leaseExpiry.Some? && row.leaseExpiry.value < now && row.retryCount < maxRetry
  }

  /** The rows a statement's WHERE clause selects. */
  predicate Selects(t: Table, st: Statement, now: int, id: JobId) {
    id in t &&
    match st
    case Insert(_, _, _) => false
    case Claim(i, _, _) => i == id && t[id].status == Pending
    case Extend(i, w, _) => i == id && OwnedBy(t[id], w)
    case Complete(i, w, _, _) => i == id && OwnedBy(t[id], w)
    case Fail(i, w, _) => i == id && OwnedBy(t[id], w)
    case Cancel(i, w) => i == id && OwnedBy(t[id], w)
    case Recover(m) => Stalled(t[id], now, m)
    case Delete(i, u) => i == id && t[id].user == u
    case Progress(i, _, _) => i == id
  }

  /** The SET clause applied to one selected row. */
  function Updated(row: Row, st: Statement, now: int): Row {
    match st
    case Insert(_, _, _) => row
    case Delete(_, _) => row
    case Claim(_, w, lease) =>
      row.(status := Processing, workerId := Some(w), version := row.version + 1,
           leaseExpiry := Some(now + WholeSeconds(Max(lease, 0))))
    case Extend(_, _, lease) =>
      row.(leaseExpiry := Some(now + WholeSeconds(Max(lease, 0))))
    case Complete(_, _, url, m) =>
      row.(status := Completed, videoUrl := Some(url), version := row.version + 1,
           metrics := if m.Some? then m else row.metrics)
    case Fail(_, _, message) =>
      row.(status := Failed, errorMessage := Some(message), retryCount := row.retryCount + 1,
           version := row.version + 1)
    case Cancel(_, _) =>
      row.(status := Cancelled, version := row.version + 1)
    case Recover(_) =>
      row.(status := Pending, workerId := None, leaseExpiry := None, version := row.version + 1)
    case Progress(_, processed, total) =>
      row.(processedFrames := processed, frameCount := total)
  }

  /** The CHECK constraints `valid_frame_count` and `valid_retry`. */
  predicate Legal(row: Row) {
    0 < row.frameCount <= MAX_FRAMES && row.retryCount <= MAX_RETRY
  }

  /** The primary key and the CHECK constraints let the statement through. */
  predicate Accepted(t: Table, st: Statement, now: int) {
    match st
    case Insert(id, user, frames) => id !in t && Legal(NewRow(user, frames, now))
    case Fail(id, _, _) => Selects(t, st, now, id) ==> Legal(Updated(t[id], st, now))
    case Progress(id, _, _) => Selects(t, st, now, id) ==> Legal(Updated(t[id], st, now))
    case _ => true
  }

  /** The table after one statement. A statement that violates a constraint changes nothing. */
  function Execute(t: Table, st: Statement, now: int): Table {
    if !Accepted(t, st, now) then t
    else if st.Insert? then t[st.id := NewRow(st.user, st.frames, now)]
    else if st.Recover? then map id | id in t :: if Selects(t, st, now, id) then Updated(t[id], st, now) else t[id]
    else if !Selects(t, st, now, st.id) then t
    else if st.Delete? then t - {st.id}
    else t[st.id := Updated(t[st.id], st, now)]
  }

  /** The table after an accepted update, row by row. */
  lemma ExecutedRow(t: Table, st: Statement, now: int, id: JobId)
    requires Accepted(t, st, now) && !st.Insert? && !st.Delete?
    ensures Execute(t, st, now).Keys == t.Keys
    ensures id in t ==> Execute(t, st, now)[id] == if Selects(t, st, now, id) then Updated(t[id], st, now) else t[id]
  {
  }

  /** Updating the selected rows, in any order, is executing the statement. */
  lemma RowByRow(before: Table, after: Table, st: Statement, now: int)
    requires Accepted(before, st, now) && !st.Insert? && !st.Delete? && after.Keys == before.Keys
    requires forall id :: id in after ==>
               after[id] == if Selects(before, st, now, id) then Updated(before[id], st, now) else before[id]
    ensures after == Execute(before, st, now)
  {
    forall id | id in before
      ensures after[id] == Execute(before, st, now)[id]
    {
      ExecutedRow(before, st, now, id);
    }
  }

  function StalledIds(t: Table, now: int, maxRetry: nat): set<JobId> {
    set id | id in t && Stalled(t[id], now, maxRetry)
  }

  /** SELECT id ... WHERE status = 'PENDING' AND retry_count < maxRetry. */
  function PendingIds(t: Table, maxRetry: nat): set<JobId> {
    set id | id in t && t[id].status == Pending && t[id].retryCount < maxRetry
  }

  function ActiveIds(t: Table, user: UserId): set<JobId> {
    set id | id in t && t[id].user == user && t[id].status.Active()
  }

  /** What `VerifyOwnership` answers on a table; `clock` is the worker's own clock, not the database's. */
  predicate Owns(t: Table, id: JobId, worker: WorkerId, clock: int) {
    && id in t
    && OwnedBy(t[id], worker)
    && (t[id].leaseExpiry.Some? ==> clock <= t[id].leaseExpiry.value)
  }

  class JobRepository {
    var rows: Table

    constructor ()
      ensures rows == map[]
    {
      rows := map[];
    }

    /** Issues one statement. `affected` counts the rows its WHERE clause selected. */
    method Exec(st: Statement, now: int, fault: Fault) returns (r: Reply<nat>)
      modifies this
      ensures rows == if fault == LostBefore then old(rows) else Execute(old(rows), st, now)
      ensures r.Ok? <==> fault == Answered && Accepted(old(rows), st, now)
      ensures r.Ok? ==>
                r.value == (if st.Insert? then 1 else |set id | id in old(rows) && Selects(old(rows), st, now, id)|)
      ensures !r.Ok? ==> r == DbError
    {
      if fault == LostBefore {
        return DbError;
      }
      var accepted := Accepted(rows, st, now);
      var selected := set id | id in rows && Selects(rows, st, now, id);
      if accepted {
        if st.Insert? {
          rows := rows[st.id := NewRow(st.user, st.frames, now)];
        } else if st.Delete? {
          rows := rows - selected;
        } else {
          UpdateSelected(selected, st, now);
          RowByRow(old(rows), rows, st, now);
        }
      }
      if accepted && fault == Answered {
        r := Ok(if st.Insert? then 1 else |selected|);
      } else {
        r := DbError;
      }
    }

    /** Applies the SET clause to the selected rows, one by one. */
    method UpdateSelected(selected: set<JobId>, st: Statement, now: int)
      requires selected <= rows.Keys
      modifies this
      ensures rows.Keys == old(rows).Keys
      ensures forall id :: id in rows ==>
                rows[id] == if id in selected then Updated(old(rows)[id], st, now) else old(rows)[id]
    {
      var todo := selected;
      while todo != {}
        invariant todo <= selected && rows.Keys == old(rows).Keys
        invariant forall id :: id in rows ==>
                    rows[id] == if id in selected - todo then Updated(old(rows)[id], st, now) else old(rows)[id]
        decreases |todo|
      {
        var id :| id in todo;
        rows := rows[id := Updated(rows[id], st, now)];
        todo := todo - {id};
      }
    }

    method CreateJob(id: JobId, user: UserId, frames: int, now: int, fault: Fault) returns (r: Reply<()>)
      modifies this
      ensures rows == if fault == LostBefore then old(rows) else Execute(old(rows), Insert(id, user, frames), now)
      ensures rows == if fault != LostBefore && id !in old(rows) && 0 < frames <= 1800
                      then old(rows)[id := Row(user, Pending, frames, 0, None, None, 0, None, None, false, None,
                                               now, 0)]
                      else old(rows)
      ensures r == if fault == Answered && id !in old(rows) && 0 < frames <= MAX_FRAMES then Ok(()) else DbError
    {
      var n := Exec(Insert(id, user, frames), now, fault);
      r := if n.Ok? then Ok(()) else DbError;
    }

    /** Counts row by row. */
    method GetActiveJobCountByUser(user: UserId, answered: bool) returns (r: Reply<nat>)
      ensures r == if answered then Ok(|ActiveIds(rows, user)|) else DbError
      ensures r.Ok? ==>
                r.value == |set id | id in rows && rows[id].user == user && rows[id].status in {Pending, Processing}|
    {
      if !answered {
        return DbError;
      }
      var todo, n := rows.Keys, 0;
      while todo != {}
        invariant todo <= rows.Keys
        invariant n == |set id | id in rows && id !in todo && rows[id].user == user && rows[id].status.Active()|
        decreases |todo|
      {
        var id :| id in todo;
        ghost var before := set i | i in rows && i !in todo && rows[i].user == user && rows[i].status.Active();
        todo := todo - {id};
        ghost var after := set i | i in rows && i !in todo && rows[i].user == user && rows[i].status.Active();
        if rows[id].user == user && (rows[id].status == Pending || rows[id].status == Processing) {
          n := n + 1;
          assert after == before + {id};
        } else {
          assert after == before;
        }
      }
      ghost var all := set id | id in rows && id !in todo && rows[id].user == user && rows[id].status.Active();
      assert ActiveIds(rows, user) == all;
      assert all == set id | id in rows && rows[id].user == user && rows[id].status in {Pending, Processing};
      return Ok(n);
    }

    /** True exactly when this call moved the row from PENDING to PROCESSING. */
    method ClaimJobCAS(id: JobId, worker: WorkerId, lease: int, now: int, fault: Fault) returns (r: Reply<bool>)
      modifies this
      ensures rows == if fault == LostBefore then old(rows) else Execute(old(rows), Claim(id, worker, lease), now)
      ensures lease >= 0 ==>
                rows == if fault != LostBefore && id in old(rows) && old(rows)[id].status == Pending
                        then old(rows)[id := old(rows)[id].(status := Processing, workerId := Some(worker),
                                                            leaseExpiry := Some(now + lease - lease % 1_000_000_000),
                                                            version := old(rows)[id].version + 1)]
                        else old(rows)
      ensures r == if fault == Answered then Ok(id in old(rows) && old(rows)[id].status == Pending) else DbError
    {
      ghost var before := rows;
      var n := Exec(Claim(id, worker, lease), now, fault);
      r := if n.Ok? then Ok(n.value == 1) else DbError;
      SelectedCount(before, Claim(id, worker, lease), now);
    }

    method VerifyOwnership(id: JobId, worker: WorkerId, clock: int, answered: bool) returns (r: Reply<bool>)
      ensures r == if answered then Ok(Owns(rows, id, worker, clock)) else DbError
      ensures r == Ok(true) <==>
              && answered && id in rows
              && rows[id].status == Processing && rows[id].workerId == Some(worker)
              && (rows[id].leaseExpiry.Some? ==> clock <= rows[id].leaseExpiry.value)
      ensures r.Ok? <==> answered
    {
      if !answered {
        return DbError;
      }
      if id !in rows || rows[id].status != Processing {
        return Ok(false);
      }
      var row := rows[id];
      if row.workerId != Some(worker) {
        return Ok(false);
      }
      if row.leaseExpiry.Some? && clock > row.leaseExpiry.value {
        return Ok(false);
      }
      return Ok(true);
    }

    method ExtendLease(id: JobId, worker: WorkerId, lease: int, now: int, fault: Fault) returns (r: Reply<()>)
      modifies this
      ensures rows == if fault == LostBefore then old(rows) else Execute(old(rows), Extend(id, worker, lease), now)
      ensures var owned := && id in old(rows)
                           && old(rows)[id].status == Processing && old(rows)[id].workerId == Some(worker);
              && (lease >= 0 ==>
                  rows == if fault != LostBefore && owned
                          then old(rows)[id := old(rows)[id].(leaseExpiry :=
                                                                Some(now + lease - lease % 1_000_000_000))]
                          else old(rows))
              && r == if fault != Answered then DbError else if owned then Ok(()) else OptimisticLock
    {
      ghost var before := rows;
      var n := Exec(Extend(id, worker, lease), now, fault);
      r := if !n.Ok? then DbError else if n.value == 0 then OptimisticLock else Ok(());
      SelectedCount(before, Extend(id, worker, lease), now);
    }

    method MarkCompleted(id: JobId, worker: WorkerId, url: string, metrics: string, now: int, fault: Fault)
        returns (r: Reply<()>)
      modifies this
      ensures var stored := if metrics == "" then None else Some(metrics);
              rows == if fault == LostBefore then old(rows)
                      else Execute(old(rows), Complete(id, worker, url, stored), now)
      ensures var owned := && id in old(rows)
                           && old(rows)[id].status == Processing && old(rows)[id].workerId == Some(worker);
              && rows == (if fault != LostBefore && owned
                          then old(rows)[id := old(rows)[id].(status := Completed, videoUrl := Some(url),
                                                              version := old(rows)[id].version + 1,
                                                              metrics := if metrics != "" then Some(metrics)
                                                                         else old(rows)[id].metrics)]
                          else old(rows))
              && r == if fault != Answered then DbError else if owned then Ok(()) else OptimisticLock
    {
      ghost var before := rows;
      var st := Complete(id, worker, url, if |metrics| > 0 then Some(metrics) else None);
      var n := Exec(st, now, fault);
      r := if !n.Ok? then DbError else if n.value == 0 then OptimisticLock else Ok(());
      SelectedCount(before, st, now);
    }

    /** No row and no answer are errors alike. */
    method IsCancelRequested(id: JobId, answered: bool) returns (r: Reply<bool>)
      ensures r == if answered && id in rows then Ok(rows[id].cancelRequested) else DbError
    {
      if !answered || id !in rows {
        return DbError;
      }
      return Ok(rows[id].cancelRequested);
    }

    method MarkFailed(id: JobId, worker: WorkerId, message: string, now: int, fault: Fault) returns (r: Reply<()>)
      modifies this
      ensures rows == if fault == LostBefore then old(rows) else Execute(old(rows), Fail(id, worker, message), now)
      ensures var owned := && id in old(rows)
                           && old(rows)[id].status == Processing && old(rows)[id].workerId == Some(worker);
              var legal := owned ==> 0 < old(rows)[id].frameCount <= 1800 && old(rows)[id].retryCount < 5;
              && rows == (if fault != LostBefore && owned && legal
                          then old(rows)[id := old(rows)[id].(status := Failed, errorMessage := Some(message),
                                                              retryCount := old(rows)[id].retryCount + 1,
                                                              version := old(rows)[id].version + 1)]
                          else old(rows))
              && r == if fault == Answered && legal then Ok(()) else DbError
    {
      var n := Exec(Fail(id, worker, message), now, fault);
      r := if n.Ok? then Ok(()) else DbError;
    }

    method MarkCancelled(id: JobId, worker: WorkerId, now: int, fault: Fault) returns (r: Reply<()>)
      modifies this
      ensures rows == if fault == LostBefore then old(rows) else Execute(old(rows), Cancel(id, worker), now)
      ensures rows == if fault != LostBefore && id in old(rows) &&
                         old(rows)[id].status == Processing && old(rows)[id].workerId == Some(worker)
                      then old(rows)[id := old(rows)[id].(status := Cancelled, version := old(rows)[id].version + 1)]
                      else old(rows)
      ensures r == if fault == Answered then Ok(()) else DbError
    {
      var n := Exec(Cancel(id, worker), now, fault);
      r := if n.Ok? then Ok(()) else DbError;
    }

    /** Moves every stalled row back to PENDING and returns the ids it moved, in no particular order. */
    method RecoverStalledJobs(maxRetry: nat, now: int, fault: Fault) returns (r: Reply<seq<JobId>>)
      modifies this
      ensures rows == if fault == LostBefore then old(rows) else Execute(old(rows), Recover(maxRetry), now)
      ensures rows.Keys == old(rows).Keys
      ensures forall id :: id in rows ==>
                var row := old(rows)[id];
                var stalled := && row.status == Processing && row.leaseExpiry.Some? && row.leaseExpiry.value < now
                               && row.retryCount < maxRetry;
                && rows[id] == (if fault != LostBefore && stalled
                                then row.(status := Pending, workerId := None, leaseExpiry := None,
                                          version := row.version + 1)
                                else row)
                && (r.Ok? ==> (id in r.value <==> stalled))
      ensures r.Ok? ==> forall i, j :: 0 <= i < j < |r.value| ==> r.value[i] != r.value[j]
      ensures r.Ok? ==> forall i :: 0 <= i < |r.value| ==> r.value[i] in rows
      ensures r.Ok? <==> fault == Answered
      ensures r.Ok? ==> Enumerates(r.value, StalledIds(old(rows), now, maxRetry))
      ensures !r.Ok? ==> r == DbError
    {
      var todo := StalledIds(rows, now, maxRetry);
      ghost var all := todo;
      var n := Exec(Recover(maxRetry), now, fault);
      if !n.Ok? {
        return DbError;
      }
      var ids: seq<JobId> := [];
      while todo != {}
        invariant todo <= all
        invariant Enumerates(ids, all - todo)
        decreases |todo|
      {
        var id :| id in todo;
        todo, ids := todo - {id}, ids + [id];
      }
      assert all - todo == all;
      assert forall i :: 0 <= i < |ids| ==> ids[i] in all;
      return Ok(ids);
    }

    /** Every PENDING row still inside the retry budget, oldest first. */
    method GetPendingJobs(maxRetry: nat, answered: bool) returns (r: Reply<seq<JobId>>)
      ensures r.Ok? <==> answered
      ensures r.Ok? ==> Enumerates(r.value, PendingIds(rows, maxRetry))
      ensures r.Ok? ==> forall i :: 0 <= i < |r.value| ==> r.value[i] in rows
      ensures r.Ok? ==> forall id :: id in rows ==>
                (id in r.value <==> rows[id].status == Pending && rows[id].retryCount < maxRetry)
      ensures r.Ok? ==> forall i, j :: 0 <= i < j < |r.value| ==> r.value[i] != r.value[j]
      ensures r.Ok? ==>
                forall i, j :: 0 <= i < j < |r.value| ==> rows[r.value[i]].createdAt <= rows[r.value[j]].createdAt
    {
      if !answered {
        return DbError;
      }
      var all := PendingIds(rows, maxRetry);
      var todo := all;
      var ids: seq<JobId> := [];
      while todo != {}
        invariant todo <= all
        invariant Enumerates(ids, all - todo)
        invariant forall i :: 0 <= i < |ids| ==> ids[i] in rows
        invariant forall i, j :: 0 <= i < j < |ids| ==> rows[ids[i]].createdAt <= rows[ids[j]].createdAt
        invariant forall i, x :: 0 <= i < |ids| && x in todo ==> rows[ids[i]].createdAt <= rows[x].createdAt
        decreases |todo|
      {
        var id := Oldest(todo);
        todo, ids := todo - {id}, ids + [id];
      }
      assert all - todo == all;
      return Ok(ids);
    }

    method Oldest(ids: set<JobId>) returns (oldest: JobId)
      requires ids != {} && ids <= rows.Keys
      ensures oldest in ids
      ensures forall id :: id in ids ==> rows[oldest].createdAt <= rows[id].createdAt
    {
      oldest :| oldest in ids;
      var rest := ids - {oldest};
      while rest != {}
        invariant rest <= ids && oldest in ids
        invariant forall id :: id in ids - rest ==> rows[oldest].createdAt <= rows[id].createdAt
        decreases |rest|
      {
        var id :| id in rest;
        if rows[id].createdAt < rows[oldest].createdAt {
          oldest := id;
        }
        rest := rest - {id};
      }
    }

    method DeleteJob(id: JobId, user: UserId, now: int, fault: Fault) returns (r: Reply<()>)
      modifies this
      ensures rows == if fault == LostBefore then old(rows) else Execute(old(rows), Delete(id, user), now)
      ensures rows == if fault != LostBefore && id in old(rows) && old(rows)[id].user == user
                      then old(rows) - {id} else old(rows)
      ensures r == (if fault != Answered then DbError
                    else if id in old(rows) && old(rows)[id].user == user then Ok(()) else JobNotFound)
    {
      ghost var before := rows;
      var n := Exec(Delete(id, user), now, fault);
      r := if !n.Ok? then DbError else if n.value == 0 then JobNotFound else Ok(());
      SelectedCount(before, Delete(id, user), now);
    }

    method UpdateProgress(id: JobId, processed: int, total: int, now: int, fault: Fault) returns (r: Reply<()>)
      modifies this
      ensures rows == if fault == LostBefore then old(rows) else Execute(old(rows), Progress(id, processed, total), now)
      ensures var legal := id in old(rows) ==> 0 < total <= 1800 && old(rows)[id].retryCount <= 5;
              && rows == (if fault != LostBefore && id in old(rows) && legal
                          then old(rows)[id := old(rows)[id].(processedFrames := processed, frameCount := total)]
                          else old(rows))
              && r == if fault == Answered && legal then Ok(()) else DbError
    {
      var n := Exec(Progress(id, processed, total), now, fault);
      r := if n.Ok? then Ok(()) else DbError;
    }
  }

  /** A statement that names its job selects one row or none. */
  lemma SelectedCount(t: Table, st: Statement, now: int)
    requires !st.Recover?
    ensures |set id | id in t && Selects(t, st, now, id)| == if Selects(t, st, now, st.id) then 1 else 0
  {
    var selected := set id | id in t && Selects(t, st, now, id);
    assert selected == if Selects(t, st, now, st.id) then {st.id} else {};
  }
}

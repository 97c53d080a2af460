/**
 What every sequence of SQL statements keeps, whoever issues them and in whatever order.

 A `Tally` is a history kept beside the table by an observer that only sees the status of each row before and
 after a statement. The laws relate the columns the statements maintain (version, retry_count, worker_id) to
 that history.
 */
module Ledger {
  import opened Basics
  import opened JobTable

  /** Edges of the status graph a job has taken since it was inserted. */
  datatype Tally = Tally(claims: nat, recoveries: nat, finishes: nat)

  /** The table, with the history of every job ever inserted, deleted ones included. */
  datatype Journal = Journal(rows: Table, history: map<JobId, Tally>)

  const EMPTY := Journal(map[], map[])

  function Edge(seen: Tally, before: Status, after: Status): Tally {
    if before.Pending? && after.Processing? then seen.(claims := seen.claims + 1)
    else if before.Processing? && after.Pending? then seen.(recoveries := seen.recoveries + 1)
    else if !before.Terminal() && after.Terminal() then seen.(finishes := seen.finishes + 1)
    else seen
  }

  /** The history of every known job, moved along the edge its row just took. */
  function Observe(history: map<JobId, Tally>, before: Table, after: Table): map<JobId, Tally> {
    map id | id in history ::
      if id in history && id in before && id in after then Edge(history[id], before[id].status, after[id].status)
      else history[id]
  }

  /** A new job enters the history with its row. */
  function Enroll(history: map<JobId, Tally>, st: Statement, after: Table): map<JobId, Tally> {
    if st.Insert? && st.id in after && st.id !in history then history[st.id := Tally(0, 0, 0)] else history
  }

  function Record(j: Journal, st: Statement, now: int): Journal {
    var rows := Execute(j.rows, st, now);
    Journal(rows, Enroll(Observe(j.history, j.rows, rows), st, rows))
  }

  /** Ids are random UUIDs: an insert never reuses one, not even that of a deleted job. */
  predicate Fresh(j: Journal, st: Statement) {
    st.Insert? ==> st.id !in j.history
  }

  /** A statement and the database's NOW() when it ran. Nothing is assumed about the clock. */
  datatype Entry = Entry(st: Statement, now: int)

  predicate Admissible(j: Journal, log: seq<Entry>)
    decreases |log|
  {
    log == [] || (Fresh(j, log[0].st) && Admissible(Record(j, log[0].st, log[0].now), log[1..]))
  }

  function Replay(j: Journal, log: seq<Entry>): Journal
    decreases |log|
  {
    if log == [] then j else Replay(Record(j, log[0].st, log[0].now), log[1..])
  }

  // ---------------------------------------------------------------- accounting

  function Weight(status: Status): nat {
    if status.Pending? then 0 else if status.Processing? then 1 else 2
  }

  ghost predicate RowBalanced(row: Row, seen: Tally) {
    && row.version == 2 * seen.recoveries + Weight(row.status)
    && seen.claims == seen.recoveries + (if row.status.Pending? then 0 else 1)
    && seen.finishes == (if row.status.Terminal() then 1 else 0)
    && (row.workerId.None? <==> row.status.Pending?)
    && (row.leaseExpiry.None? <==> row.status.Pending?)
    && row.retryCount == (if row.status.Failed? then 1 else 0)
    && !row.cancelRequested
    && Legal(row)
  }

  ghost predicate Balanced(j: Journal) {
    && (forall id :: id in j.rows ==> id in j.history)
    && (forall id :: id in j.rows ==> RowBalanced(j.rows[id], j.history[id]))
    && (forall id :: id in j.history ==> j.history[id].finishes <= 1)
  }

  /** One statement on one selected row keeps that row's books. */
  lemma UpdateBalanced(row: Row, seen: Tally, st: Statement, now: int, t: Table, id: JobId)
    requires RowBalanced(row, seen) && id in t && t[id] == row
    requires Selects(t, st, now, id) && Accepted(t, st, now) && !st.Delete?
    ensures RowBalanced(Updated(row, st, now), Edge(seen, row.status, Updated(row, st, now).status))
  {
  }

  lemma RecordBalanced(j: Journal, st: Statement, now: int)
    requires Balanced(j) && Fresh(j, st)
    ensures Balanced(Record(j, st, now))
  {
    var j' := Record(j, st, now);
    forall id | id in j'.rows
      ensures id in j'.history && RowBalanced(j'.rows[id], j'.history[id])
    {
      if id in j.rows {
        if Accepted(j.rows, st, now) && Selects(j.rows, st, now, id) {
          UpdateBalanced(j.rows[id], j.history[id], st, now, j.rows, id);
        }
      } else {
        assert st.Insert? && st.id == id;
      }
    }
    forall id | id in j'.history
      ensures j'.history[id].finishes <= 1
    {
      if id in j.rows && id in j'.rows {
        assert RowBalanced(j'.rows[id], j'.history[id]);
      }
    }
  }

  /**
   In every table reachable by any sequence of statements: the version counts the status changes, every claim but
   the current one was undone by a recovery, a job finishes at most once, the owner and the lease are NULL exactly
   while the job is pending, and retry_count is 1 on a failed job and 0 on every other.
   */
  lemma {:induction false} AccountsBalance(j: Journal, log: seq<Entry>)
    requires Balanced(j) && Admissible(j, log)
    ensures Balanced(Replay(j, log))
    decreases |log|
  {
    if log != [] {
      RecordBalanced(j, log[0].st, log[0].now);
      AccountsBalance(Record(j, log[0].st, log[0].now), log[1..]);
    }
  }

  /**
   The retry budget never binds: no sweep skips a job because of it and no failure is refused because of it.
   */
  lemma BudgetNeverBinds(j: Journal, id: JobId, worker: WorkerId, message: string, now: int)
    requires Balanced(j) && id in j.rows
    ensures id in PendingIds(j.rows, MAX_RETRY) <==> j.rows[id].status == Pending
    ensures id in StalledIds(j.rows, now, MAX_RETRY) <==>
            j.rows[id].status == Processing && j.rows[id].leaseExpiry.value < now
    ensures Accepted(j.rows, Fail(id, worker, message), now)
  {
    assert RowBalanced(j.rows[id], j.history[id]);
  }

  // ---------------------------------------------------------------- finished and deleted jobs

  /** `b` differs from `a` at most in the two frame counters. */
  predicate SameButFrames(a: Row, b: Row) {
    b == a.(processedFrames := b.processedFrames, frameCount := b.frameCount)
  }

  predicate ReportsOn(log: seq<Entry>, id: JobId) {
    exists k :: 0 <= k < |log| && log[k].st.Progress? && log[k].st.id == id
  }

  /**
   Once COMPLETED, FAILED or CANCELLED, a row only ever changes by being deleted or by a late progress report,
   which can move nothing but its frame counters.
   */
  lemma {:induction false} FinishedIsFinal(j: Journal, log: seq<Entry>, id: JobId)
    requires Admissible(j, log) && id in j.history && id in j.rows && j.rows[id].status.Terminal()
    ensures var end := Replay(j, log).rows;
            id in end ==> SameButFrames(j.rows[id], end[id]) && (!ReportsOn(log, id) ==> end[id] == j.rows[id])
    decreases |log|
  {
    if log != [] {
      var j', rest := Record(j, log[0].st, log[0].now), log[1..];
      FinishedStep(j, log[0].st, log[0].now, id);
      if id in j'.rows {
        FinishedIsFinal(j', rest, id);
        if !ReportsOn(log, id) {
          ReportsOnTail(log, id);
        }
      } else {
        DeletedIsGone(j', rest, id);
      }
    }
  }

  lemma FinishedStep(j: Journal, st: Statement, now: int, id: JobId)
    requires Fresh(j, st) && id in j.history && id in j.rows && j.rows[id].status.Terminal()
    ensures var j' := Record(j, st, now);
            && id in j'.history
            && (id in j'.rows ==>
                && SameButFrames(j.rows[id], j'.rows[id])
                && (!(st.Progress? && st.id == id) ==> j'.rows[id] == j.rows[id]))
  {
  }

  lemma ReportsOnTail(log: seq<Entry>, id: JobId)
    requires log != [] && !ReportsOn(log, id)
    ensures !ReportsOn(log[1..], id) && !(log[0].st.Progress? && log[0].st.id == id)
  {
    forall k | 0 <= k < |log[1..]|
      ensures !(log[1..][k].st.Progress? && log[1..][k].st.id == id)
    {
      assert log[1..][k] == log[k + 1];
    }
  }

  /** A job that was deleted never comes back. */
  lemma {:induction false} DeletedIsGone(j: Journal, log: seq<Entry>, id: JobId)
    requires Admissible(j, log) && id in j.history && id !in j.rows
    ensures id !in Replay(j, log).rows
    decreases |log|
  {
    if log != [] {
      DeletedIsGone(Record(j, log[0].st, log[0].now), log[1..], id);
    }
  }

  /** The frame counters of a finished row do move: progress reports carry no guard at all. */
  lemma LateReportMovesCounters(t: Table, id: JobId, processed: int, total: int, now: int)
    requires id in t && Legal(t[id])
    ensures Execute(t, Progress(id, processed, total), now) ==
            if 0 < total <= MAX_FRAMES then t[id := t[id].(processedFrames := processed, frameCount := total)] else t
  {
  }

  /** Without a cancel statement no row is ever CANCELLED, because no statement sets cancel_requested. */
  lemma {:induction false} NeverCancelled(j: Journal, log: seq<Entry>)
    requires Admissible(j, log)
    requires forall k :: 0 <= k < |log| ==> !log[k].st.Cancel?
    requires forall id :: id in j.rows ==> j.rows[id].status != Cancelled
    ensures forall id :: id in Replay(j, log).rows ==> Replay(j, log).rows[id].status != Cancelled
    decreases |log|
  {
    if log != [] {
      assert !log[0].st.Cancel?;
      NeverCancelled(Record(j, log[0].st, log[0].now), log[1..]);
    }
  }
}

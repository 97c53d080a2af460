/**
 Who has a job's id. Every id lies in at most one place at a time: in one slot of the queue, with one worker that has
 not yet claimed it, with one handler, or with the sweeper. So no worker ever finds its job claimed by another one.
 */
module Custody {
  import opened Basics
  import opened JobTable
  import opened Ledger
  import opened Protocol
  import Fencing

  ghost predicate InWorker(s: State, id: JobId) {
    exists w :: w in s.workers && s.workers[w] == Holding(id)
  }

  ghost predicate InHandler(s: State, id: JobId) {
    exists h :: h in s.handlers && s.handlers[h] == Inserted(id)
  }

  /** The id is queued, or held by a worker, a handler or the sweeper. */
  ghost predicate Covered(s: State, id: JobId) {
    || id in s.queue
    || InWorker(s, id)
    || InHandler(s, id)
    || (s.sweeper.Publishing? && id in s.sweeper.ids)
  }

  datatype Place = Queued(i: nat) | ByWorker(w: WorkerId) | ByHandler(h: HandlerId) | BySweeper(i: nat)

  predicate Holds(s: State, p: Place, id: JobId) {
    match p
    case Queued(i) => i < |s.queue| && s.queue[i] == id
    case ByWorker(w) => w in s.workers && s.workers[w] == Holding(id)
    case ByHandler(h) => h in s.handlers && s.handlers[h] == Inserted(id)
    case BySweeper(i) => s.sweeper.Publishing? && i < |s.sweeper.ids| && s.sweeper.ids[i] == id
  }

  lemma CoveredIsHeld(s: State, id: JobId) returns (p: Place)
    requires Covered(s, id)
    ensures Holds(s, p, id)
  {
    if i :| 0 <= i < |s.queue| && s.queue[i] == id {
      p := Queued(i);
    } else if w :| w in s.workers && s.workers[w] == Holding(id) {
      p := ByWorker(w);
    } else if h :| h in s.handlers && s.handlers[h] == Inserted(id) {
      p := ByHandler(h);
    } else {
      var i :| 0 <= i < |s.sweeper.ids| && s.sweeper.ids[i] == id;
      p := BySweeper(i);
    }
  }

  lemma HeldIsCovered(s: State, p: Place, id: JobId)
    requires Holds(s, p, id)
    ensures Covered(s, id)
  {
  }

  /** Every id anywhere in the process was inserted at some time. */
  ghost predicate Known(s: State) {
    && Balanced(s.db)
    && s.config.capacity > 0
    && (forall id :: Covered(s, id) ==> id in s.db.history)
  }

  /** No id lies in two places. */
  ghost predicate Sole(s: State) {
    forall p, q, id :: Holds(s, p, id) && Holds(s, q, id) ==> p == q
  }

  /** A held id is that of a pending job, or of a deleted one. */
  ghost predicate HeldIsPending(s: State) {
    forall id :: Covered(s, id) && id in s.db.rows ==> s.db.rows[id].status == Pending
  }

  predicate Starting(s: State) {
    s.sweeper.Booting? || s.sweeper.Fetching?
  }

  /** Nothing goes on in the process yet. */
  ghost predicate Blank(s: State) {
    s.queue == [] && !s.closing && s.handlers == map[] && forall w :: w in s.workers ==> s.workers[w].Idle?
  }

  ghost predicate Ordered(s: State) {
    Known(s) && Sole(s) && HeldIsPending(s) && (Starting(s) ==> Blank(s))
  }

  // ---------------------------------------------------------------- the table

  /** A row becomes pending only by its insert or by a sweep that finds it stalled. */
  lemma RowBecomesPending(t: Table, st: Statement, now: int, id: JobId)
    requires id in Execute(t, st, now) && Execute(t, st, now)[id].status == Pending
    requires !(id in t && t[id].status == Pending)
    ensures (st.Insert? && st.id == id) || (st.Recover? && id in StalledIds(t, now, st.maxRetry))
  {
  }

  /** A row stops being pending only by a claim or a deletion. */
  lemma RowStopsPending(t: Table, st: Statement, now: int, id: JobId)
    requires id in t && t[id].status == Pending
    requires !(id in Execute(t, st, now) && Execute(t, st, now)[id].status == Pending)
    ensures (st.Claim? || st.Delete?) && st.id == id
  {
  }

  lemma BecomesPending(s: State, step: Step, id: JobId)
    requires Enabled(s, step) && IsPending(Apply(s, step), id) && !IsPending(s, id)
    ensures FaultOf(step) != LostBefore
    ensures (step.Create? && id == step.id) || (step.Sweep? && id in step.found)
  {
    assert Effect(s, step).Some?;
    RowBecomesPending(s.db.rows, Effect(s, step).value, s.now, id);
  }

  lemma StopsPending(s: State, step: Step, id: JobId)
    requires Enabled(s, step) && IsPending(s, id) && !IsPending(Apply(s, step), id)
    ensures (step.TryClaim? && s.workers[step.w].id == id) || (step.Remove? && step.id == id)
  {
    assert Effect(s, step).Some?;
    RowStopsPending(s.db.rows, Effect(s, step).value, s.now, id);
  }

  // ---------------------------------------------------------------- how ids move

  /** Where the id at place `p` after a step lay before it. */
  function Origin(s: State, step: Step, p: Place): Place {
    match step
    case Submit(h) => if p == Queued(|s.queue|) then ByHandler(h) else p
    case Receive(w) => if p == ByWorker(w) then Queued(0) else if p.Queued? then Queued(p.i + 1) else p
    case Discard(_) => if p.Queued? then Queued(p.i + 1) else p
    case Publish =>
      if p == Queued(|s.queue|) then BySweeper(0) else if p.BySweeper? then BySweeper(p.i + 1) else p
    case _ => p
  }

  /** The step puts an id there that nobody held before. */
  predicate Brings(step: Step, p: Place) {
    || (step.Create? && p == ByHandler(step.h))
    || ((step.Sweep? || step.Fetch?) && p.BySweeper?)
  }

  lemma QueueOrigin(s: State, step: Step, i: nat, id: JobId)
    requires Enabled(s, step) && Holds(Control(s, step), Queued(i), id)
    ensures Holds(s, Origin(s, step, Queued(i)), id)
  {
    if !step.Submit? && !step.Receive? && !step.Discard? && !step.Publish? && !step.Restart? {
      QueueFrame(s, step);
    }
  }

  lemma WorkerOrigin(s: State, step: Step, w: WorkerId, id: JobId)
    requires Enabled(s, step) && Holds(Control(s, step), ByWorker(w), id)
    ensures Holds(s, Origin(s, step, ByWorker(w)), id)
  {
    if !step.Restart? {
      OnlyMoverMoves(s, step);
    }
  }

  lemma HandlerOrigin(s: State, step: Step, h: HandlerId, id: JobId)
    requires Enabled(s, step) && Holds(Control(s, step), ByHandler(h), id) && !Brings(step, ByHandler(h))
    ensures Holds(s, Origin(s, step, ByHandler(h)), id)
  {
    if !step.Count? && !step.Create? && !step.Submit? && !step.Restart? {
      HandlersFrame(s, step);
    }
  }

  lemma SweeperOrigin(s: State, step: Step, i: nat, id: JobId)
    requires Enabled(s, step) && Holds(Control(s, step), BySweeper(i), id) && !Brings(step, BySweeper(i))
    ensures Holds(s, Origin(s, step, BySweeper(i)), id)
  {
    if !step.Sweep? && !step.Fetch? && !step.Publish? && !step.Restart? {
      SweeperFrame(s, step);
    }
  }

  /** Every id somebody holds after a step was held before it, unless the step brings it. */
  lemma HeldBefore(s: State, step: Step, p: Place, id: JobId)
    requires Enabled(s, step) && Holds(Apply(s, step), p, id) && !Brings(step, p)
    ensures Holds(s, Origin(s, step, p), id)
  {
    ControlIsOutsideTheTable(s, step);
    match p
    case Queued(i) => QueueOrigin(s, step, i, id);
    case ByWorker(w) => WorkerOrigin(s, step, w, id);
    case ByHandler(h) => HandlerOrigin(s, step, h, id);
    case BySweeper(i) => SweeperOrigin(s, step, i, id);
  }

  /** No id is copied. */
  lemma OriginsDiffer(s: State, step: Step, p: Place, q: Place, id: JobId)
    requires Enabled(s, step) && Holds(Apply(s, step), p, id) && Holds(Apply(s, step), q, id)
    requires Origin(s, step, p) == Origin(s, step, q)
    ensures p == q
  {
    if step.Submit? {
      assert !Holds(Apply(s, step), ByHandler(step.h), id);
    }
  }

  /** Where the new ids come from, and why nobody held them. */
  lemma NewlyHeld(s: State, step: Step, p: Place, id: JobId)
    requires Enabled(s, step) && Holds(Apply(s, step), p, id) && Brings(step, p)
    ensures step.Create? ==> step.fault == Answered && id == step.id && id !in s.db.history
    ensures step.Sweep? ==> step.fault == Answered && s.sweeper.Dormant? && step.found[p.i] == id && id in step.found
    ensures step.Fetch? ==> step.answered && step.found[p.i] == id && id in step.found
  {
    ControlIsOutsideTheTable(s, step);
  }

  lemma NewWasFree(s: State, step: Step, p: Place, id: JobId)
    requires Ordered(s) && Enabled(s, step) && Holds(Apply(s, step), p, id) && Brings(step, p)
    ensures !Covered(s, id)
  {
    NewlyHeld(s, step, p, id);
    if step.Sweep? {
      assert id in StalledIds(s.db.rows, s.now, MAX_RETRY);
    }
  }

  lemma BroughtOnce(s: State, step: Step, p: Place, q: Place, id: JobId)
    requires Enabled(s, step) && Brings(step, p) && Brings(step, q)
    requires Holds(Apply(s, step), p, id) && Holds(Apply(s, step), q, id)
    ensures p == q
  {
    NewlyHeld(s, step, p, id);
    NewlyHeld(s, step, q, id);
  }

  lemma SoleKept(s: State, step: Step)
    requires Ordered(s) && Enabled(s, step)
    ensures Sole(Apply(s, step))
  {
    var s' := Apply(s, step);
    forall p, q, id | Holds(s', p, id) && Holds(s', q, id)
      ensures p == q
    {
      if Brings(step, p) && Brings(step, q) {
        BroughtOnce(s, step, p, q, id);
      } else if !Brings(step, p) && !Brings(step, q) {
        HeldBefore(s, step, p, id);
        HeldBefore(s, step, q, id);
        OriginsDiffer(s, step, p, q, id);
      } else {
        var brought, kept := if Brings(step, p) then p else q, if Brings(step, p) then q else p;
        NewWasFree(s, step, brought, id);
        HeldBefore(s, step, kept, id);
        HeldIsCovered(s, Origin(s, step, kept), id);
      }
    }
  }

  /** Where a newly covered id comes from. */
  lemma NewlyCovered(s: State, step: Step, id: JobId)
    requires Enabled(s, step) && Covered(Apply(s, step), id) && !Covered(s, id)
    ensures || (step.Create? && step.fault == Answered && id == step.id)
            || (step.Sweep? && step.fault == Answered && s.sweeper.Dormant? && id in step.found)
            || (step.Fetch? && step.answered && id in step.found)
  {
    var p := CoveredIsHeld(Apply(s, step), id);
    if Brings(step, p) {
      NewlyHeld(s, step, p, id);
    } else {
      HeldBefore(s, step, p, id);
      HeldIsCovered(s, Origin(s, step, p), id);
    }
  }

  lemma NewIsPending(s: State, step: Step, id: JobId)
    requires Known(s) && Enabled(s, step)
    requires || (step.Create? && step.fault == Answered && id == step.id)
             || (step.Sweep? && step.fault == Answered && id in step.found)
             || (step.Fetch? && id in step.found)
    ensures IsPending(Apply(s, step), id) && id in Apply(s, step).db.history
  {
    if step.Create? {
      assert id !in s.db.rows;
    } else if step.Sweep? {
      assert id in StalledIds(s.db.rows, s.now, MAX_RETRY);
    } else {
      assert id in PendingIds(s.db.rows, MAX_RETRY);
    }
  }

  lemma KnownKept(s: State, step: Step)
    requires Known(s) && Enabled(s, step)
    ensures Known(Apply(s, step))
  {
    var s' := Apply(s, step);
    Fencing.StepKeepsBalance(s, step);
    ConfigIsFixed(s, step);
    forall id | Covered(s', id)
      ensures id in s'.db.history
    {
      if Covered(s, id) {
        HistoryGrows(s, step, id);
      } else {
        NewlyCovered(s, step, id);
        NewIsPending(s, step, id);
      }
    }
  }

  /** The worker that tries to claim lets go of the id, and nobody else has it. */
  lemma ClaimedIsReleased(s: State, w: WorkerId, fault: Fault)
    requires Sole(s) && Enabled(s, TryClaim(w, fault))
    ensures !Covered(Apply(s, TryClaim(w, fault)), s.workers[w].id)
  {
    var step, id := TryClaim(w, fault), s.workers[w].id;
    assert Holds(s, ByWorker(w), id);
    if Covered(Apply(s, step), id) {
      var p := CoveredIsHeld(Apply(s, step), id);
      HeldBefore(s, step, p, id);
      assert p == ByWorker(w);
      ControlIsOutsideTheTable(s, step);
    }
  }

  lemma NoRevival(s: State, step: Step, id: JobId)
    requires Enabled(s, step) && id in s.db.history && id !in s.db.rows
    ensures id !in Apply(s, step).db.rows
  {
    StepIsRecorded(s, step);
  }

  lemma HeldStaysPending(s: State, step: Step)
    requires Ordered(s) && Enabled(s, step)
    ensures HeldIsPending(Apply(s, step))
  {
    var s' := Apply(s, step);
    forall id | Covered(s', id) && id in s'.db.rows
      ensures s'.db.rows[id].status == Pending
    {
      if !Covered(s, id) {
        NewlyCovered(s, step, id);
        NewIsPending(s, step, id);
      } else if id !in s.db.rows {
        NoRevival(s, step, id);
      } else if !IsPending(s', id) {
        StopsPending(s, step, id);
        if step.TryClaim? {
          ClaimedIsReleased(s, step.w, step.fault);
        } else {
          RemovedIsGone(s, step, id);
        }
      }
    }
  }

  lemma RemovedIsGone(s: State, step: Step, id: JobId)
    requires Enabled(s, step) && step.Remove? && id in Apply(s, step).db.rows
    ensures id in s.db.rows && Apply(s, step).db.rows[id] == s.db.rows[id]
  {
  }

  lemma BlankKept(s: State, step: Step)
    requires Enabled(s, step) && (Starting(s) ==> Blank(s)) && Starting(Apply(s, step))
    ensures Blank(Apply(s, step))
  {
    ControlIsOutsideTheTable(s, step);
    if !step.Restart? {
      if Starting(s) {
        OnlyMoverMoves(s, step);
      } else {
        StillOpen(s, step);
      }
    }
  }

  /** A process that serves goes on serving until it is started again. */
  lemma StillOpen(s: State, step: Step)
    requires Enabled(s, step) && !Starting(s) && !step.Restart?
    ensures !Starting(Control(s, step))
  {
    if !step.Sweep? && !step.Fetch? && !step.Publish? {
      SweeperFrame(s, step);
    }
  }

  lemma OrderKept(s: State, step: Step)
    requires Ordered(s) && Enabled(s, step)
    ensures Ordered(Apply(s, step))
  {
    KnownKept(s, step);
    SoleKept(s, step);
    HeldStaysPending(s, step);
    if Starting(Apply(s, step)) {
      BlankKept(s, step);
    }
  }

  lemma {:induction false} RunKeepsOrder(s: State, steps: seq<Step>)
    requires Ordered(s) && Run(s, steps)
    ensures Ordered(End(s, steps))
    decreases |steps|
  {
    if steps != [] {
      OrderKept(s, steps[0]);
      RunKeepsOrder(Apply(s, steps[0]), steps[1..]);
    }
  }

  /**
   In every reachable state each id lies in at most one place, and a job whose id somebody holds is pending or deleted:
   with the in-memory queue there are no duplicates, and no claim is ever lost to another worker.
   */
  lemma EveryIdInOnePlace(s: State, steps: seq<Step>)
    requires Initial(s) && Run(s, steps)
    ensures Ordered(End(s, steps))
    ensures forall w :: w in End(s, steps).workers && End(s, steps).workers[w].Holding? ==>
              var id := End(s, steps).workers[w].id;
              id in End(s, steps).db.rows ==> End(s, steps).db.rows[id].status == Pending
  {
    RunKeepsOrder(s, steps);
    var e := End(s, steps);
    forall w | w in e.workers && e.workers[w].Holding?
      ensures e.workers[w].id in e.db.rows ==> e.db.rows[e.workers[w].id].status == Pending
    {
      assert Holds(e, ByWorker(w), e.workers[w].id);
      HeldIsCovered(e, ByWorker(w), e.workers[w].id);
    }
  }
}

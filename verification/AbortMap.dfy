/**
 The map from job id to cancel function that `AbortJob` consults (`jobCancels` in internal/worker/pipeline.go), along
 the runs of the whole system. Every call of `processJob` stores its own cancel function first and deletes the entry
 last, whoever's entry it then is. A worker makes one call at a time, so its name stands for its call.
 */
module AbortMap {
  import opened Basics
  import opened JobTable
  import opened Ledger
  import opened Protocol
  import opened Custody
  import Fencing

  type Entries = map<JobId, WorkerId>

  predicate Busy(p: Phase) {
    p.Holding? || p.Claimed()
  }

  /** Worker `w` is inside `processJob` for `id`. */
  predicate On(s: State, w: WorkerId, id: JobId) {
    w in s.workers && Busy(s.workers[w]) && s.workers[w].id == id
  }

  /** The step returns from a call of `processJob`. */
  predicate EndsCall(s: State, step: Step)
    requires Enabled(s, step)
  {
    && Mover(step).Some?
    && var w := Mover(step).value;
       w in s.workers && Busy(s.workers[w]) && w in Control(s, step).workers && !Busy(Control(s, step).workers[w])
  }

  function Entered(c: Entries, s: State, step: Step): Entries
    requires Enabled(s, step)
  {
    if step.Receive? then c[s.queue[0] := step.w]
    else if step.Restart? then map[]
    else if EndsCall(s, step) then c - {s.workers[Mover(step).value].id}
    else c
  }

  ghost function EntriesAfter(c: Entries, s: State, steps: seq<Step>): Entries
    requires Run(s, steps)
    decreases |steps|
  {
    if steps == [] then c else EntriesAfter(Entered(c, s, steps[0]), Apply(s, steps[0]), steps[1..])
  }

  /** `AbortJob(id)` cancels the call of `w`, and no other. */
  predicate Reaches(c: Entries, id: JobId, w: WorkerId) {
    id in c && c[id] == w
  }

  // ---------------------------------------------------------------- the entry is the last start

  /** A call on `id` starts or ends. */
  predicate Touches(s: State, step: Step, id: JobId)
    requires Enabled(s, step)
  {
    || step.Restart?
    || (step.Receive? && s.queue[0] == id)
    || (EndsCall(s, step) && s.workers[Mover(step).value].id == id)
  }

  ghost predicate Calm(s: State, steps: seq<Step>, id: JobId)
    requires Run(s, steps)
    decreases |steps|
  {
    steps == [] || (!Touches(s, steps[0], id) && Calm(Apply(s, steps[0]), steps[1..], id))
  }

  /** At some point of the run `w` starts a call on `id`, and after it no call on `id` starts or ends. */
  ghost predicate StartsLast(s: State, steps: seq<Step>, id: JobId, w: WorkerId)
    requires Run(s, steps)
    decreases |steps|
  {
    steps != [] &&
    var s', rest := Apply(s, steps[0]), steps[1..];
    (steps[0] == Receive(w) && s.queue[0] == id && Calm(s', rest, id)) || StartsLast(s', rest, id, w)
  }

  lemma {:induction false} EntryIsLastTouch(c: Entries, s: State, steps: seq<Step>, id: JobId, w: WorkerId)
    requires Run(s, steps)
    ensures Reaches(EntriesAfter(c, s, steps), id, w) <==>
            StartsLast(s, steps, id, w) || (Reaches(c, id, w) && Calm(s, steps, id))
    decreases |steps|
  {
    if steps != [] {
      EntryIsLastTouch(Entered(c, s, steps[0]), Apply(s, steps[0]), steps[1..], id, w);
    }
  }

  /**
   In every run of the system an abort reaches the call of a worker if and only if that call has started and since then
   no call on the same job has started or ended.
   */
  lemma AbortReachesExactlyTheLast(s: State, steps: seq<Step>, id: JobId, w: WorkerId)
    requires Initial(s) && Run(s, steps)
    ensures Reaches(EntriesAfter(map[], s, steps), id, w) <==> StartsLast(s, steps, id, w)
  {
    EntryIsLastTouch(map[], s, steps, id, w);
  }

  // ---------------------------------------------------------------- entries belong to running calls

  ghost predicate EntriesRun(c: Entries, s: State) {
    forall id :: id in c ==> On(s, c[id], id)
  }

  /** A worker stays on its job until its call ends. */
  lemma StaysOn(s: State, step: Step, w: WorkerId, id: JobId)
    requires Enabled(s, step) && !step.Restart? && On(s, w, id)
    ensures !step.Receive? || step.w != w
    ensures !(EndsCall(s, step) && Mover(step) == Some(w)) ==> On(Control(s, step), w, id)
  {
    OnlyMoverMoves(s, step);
    if Mover(step) == Some(w) && w in Control(s, step).workers && Busy(Control(s, step).workers[w]) {
      IdCarried(s, step, w);
    }
  }

  lemma IdCarried(s: State, step: Step, w: WorkerId)
    requires Enabled(s, step) && Mover(step) == Some(w) && w in s.workers && Busy(s.workers[w])
    requires w in Control(s, step).workers && Busy(Control(s, step).workers[w])
    ensures Control(s, step).workers[w].id == s.workers[w].id
  {
  }

  lemma EntriesRunKept(c: Entries, s: State, step: Step)
    requires EntriesRun(c, s) && Enabled(s, step)
    ensures EntriesRun(Entered(c, s, step), Apply(s, step))
  {
    var c', s' := Entered(c, s, step), Apply(s, step);
    ControlIsOutsideTheTable(s, step);
    forall id | id in c'
      ensures On(s', c'[id], id)
    {
      if !step.Restart? && !(step.Receive? && s.queue[0] == id) {
        StaysOn(s, step, c[id], id);
      }
    }
  }

  /** In every reachable state the entry of a job is that of a call that is running on that very job. */
  lemma {:induction false} EntriesKeepRunning(c: Entries, s: State, steps: seq<Step>)
    requires EntriesRun(c, s) && Run(s, steps)
    ensures EntriesRun(EntriesAfter(c, s, steps), End(s, steps))
    decreases |steps|
  {
    if steps != [] {
      EntriesRunKept(c, s, steps[0]);
      EntriesKeepRunning(Entered(c, s, steps[0]), Apply(s, steps[0]), steps[1..]);
    }
  }

  // ---------------------------------------------------------------- when the map is exact

  predicate ClaimedOn(s: State, w: WorkerId, id: JobId) {
    On(s, w, id) && s.workers[w].Claimed()
  }

  /** A worker still works on a job that the table says it does not own. */
  ghost predicate Displaced(s: State, id: JobId) {
    exists w :: ClaimedOn(s, w, id) && id in s.db.rows && !OwnedBy(s.db.rows[id], w)
  }

  ghost predicate NeverDisplaced(s: State, steps: seq<Step>, id: JobId)
    requires Run(s, steps)
    decreases |steps|
  {
    !Displaced(s, id) && (steps == [] || NeverDisplaced(Apply(s, steps[0]), steps[1..], id))
  }

  ghost predicate OneCall(s: State, id: JobId) {
    forall v, w :: On(s, v, id) && On(s, w, id) ==> v == w
  }

  /** What a worker has claimed nobody else has in hand. */
  ghost predicate ClaimedIsFree(s: State, id: JobId) {
    forall w :: ClaimedOn(s, w, id) ==> !Covered(s, id)
  }

  ghost predicate Exact(c: Entries, s: State, id: JobId) {
    forall w :: On(s, w, id) <==> Reaches(c, id, w)
  }

  /** At every moment of the run the map says exactly which call on the job is running. */
  ghost predicate ExactThroughout(c: Entries, s: State, steps: seq<Step>, id: JobId)
    requires Run(s, steps)
    decreases |steps|
  {
    && Exact(c, s, id)
    && (steps == [] || ExactThroughout(Entered(c, s, steps[0]), Apply(s, steps[0]), steps[1..], id))
  }

  /** At every moment of the run at most one call on the job is running. */
  ghost predicate OneCallThroughout(s: State, steps: seq<Step>, id: JobId)
    requires Run(s, steps)
    decreases |steps|
  {
    OneCall(s, id) && (steps == [] || OneCallThroughout(Apply(s, steps[0]), steps[1..], id))
  }

  lemma OnBefore(s: State, step: Step, w: WorkerId, id: JobId)
    requires Enabled(s, step) && On(Control(s, step), w, id)
    ensures On(s, w, id) || (step == Receive(w) && s.queue[0] == id)
  {
    if !step.Restart? {
      OnlyMoverMoves(s, step);
    }
  }

  lemma ClaimedBefore(s: State, step: Step, w: WorkerId, id: JobId)
    requires Enabled(s, step) && ClaimedOn(Control(s, step), w, id)
    ensures ClaimedOn(s, w, id) || (step.TryClaim? && step.w == w && step.fault == Answered && IsPending(s, id))
  {
    if !(step.TryClaim? && step.w == w) {
      Fencing.TokenCarried(s, step, w);
    }
  }

  lemma ClaimKeepsRow(s: State, w: WorkerId, fault: Fault, id: JobId)
    requires Enabled(s, TryClaim(w, fault)) && id in s.db.rows
    ensures id in Apply(s, TryClaim(w, fault)).db.rows
  {
  }

  lemma FreeKept(s: State, step: Step, id: JobId)
    requires Ordered(s) && ClaimedIsFree(s, id) && Enabled(s, step) && !Displaced(Apply(s, step), id)
    ensures ClaimedIsFree(Apply(s, step), id)
  {
    var s' := Apply(s, step);
    OrderKept(s, step);
    ControlIsOutsideTheTable(s, step);
    forall w | ClaimedOn(s', w, id)
      ensures !Covered(s', id)
    {
      if id !in s'.db.rows && Covered(s', id) {
        ClaimedBefore(s, step, w, id);
        if ClaimedOn(s, w, id) {
          NewlyCovered(s, step, id);
          NewIsPending(s, step, id);
        } else {
          ClaimKeepsRow(s, step.w, step.fault, id);
        }
      }
    }
  }

  /** On a job that is queued nobody works. */
  lemma QueuedHasNoCall(s: State, i: nat, id: JobId)
    requires Ordered(s) && ClaimedIsFree(s, id) && Holds(s, Queued(i), id)
    ensures forall w :: !On(s, w, id)
  {
    forall w ensures !On(s, w, id) {
      HeldIsCovered(s, Queued(i), id);
      assert Holds(s, ByWorker(w), id) ==> ByWorker(w) == Queued(i);
      assert On(s, w, id) ==> Holds(s, ByWorker(w), id) || ClaimedOn(s, w, id);
    }
  }

  lemma OneCallKept(s: State, step: Step, id: JobId)
    requires Ordered(s) && ClaimedIsFree(s, id) && OneCall(s, id) && Enabled(s, step)
    ensures OneCall(Apply(s, step), id)
  {
    var s' := Apply(s, step);
    ControlIsOutsideTheTable(s, step);
    forall v, w | On(s', v, id) && On(s', w, id)
      ensures v == w
    {
      OnBefore(s, step, v, id);
      OnBefore(s, step, w, id);
      if step.Receive? && s.queue[0] == id {
        QueuedHasNoCall(s, 0, id);
      }
    }
  }

  lemma ExactKept(c: Entries, s: State, step: Step, id: JobId)
    requires EntriesRun(c, s) && Exact(c, s, id) && OneCall(s, id) && Enabled(s, step) && OneCall(Apply(s, step), id)
    ensures Exact(Entered(c, s, step), Apply(s, step), id)
  {
    var c', s' := Entered(c, s, step), Apply(s, step);
    EntriesRunKept(c, s, step);
    ControlIsOutsideTheTable(s, step);
    forall w | On(s', w, id)
      ensures Reaches(c', id, w)
    {
      OnBefore(s, step, w, id);
      if step.Receive? && s.queue[0] == id {
        assert On(s', step.w, id);
      } else if EndsCall(s, step) {
        assert On(s, Mover(step).value, s.workers[Mover(step).value].id);
      }
    }
  }

  lemma {:induction false} ExactRun(c: Entries, s: State, steps: seq<Step>, id: JobId)
    requires EntriesRun(c, s) && (OneCall(s, id) ==> Exact(c, s, id)) && Run(s, steps)
    ensures ExactThroughout(c, s, steps, id) <==> OneCallThroughout(s, steps, id)
    decreases |steps|
  {
    assert Exact(c, s, id) ==> OneCall(s, id);
    if steps != [] && OneCall(s, id) {
      var c', s' := Entered(c, s, steps[0]), Apply(s, steps[0]);
      EntriesRunKept(c, s, steps[0]);
      if OneCall(s', id) {
        ExactKept(c, s, steps[0], id);
      }
      ExactRun(c', s', steps[1..], id);
    }
  }

  /**
   The map says at every moment of a run exactly which call on a job is running, so that no abort is missed, if and only
   if at every moment of the run at most one call on the job is running.
   */
  lemma ExactWhileOneCall(s: State, steps: seq<Step>, id: JobId)
    requires Initial(s) && Run(s, steps)
    ensures ExactThroughout(map[], s, steps, id) <==> OneCallThroughout(s, steps, id)
  {
    ExactRun(map[], s, steps, id);
  }

  lemma {:induction false} OneCallRun(s: State, steps: seq<Step>, id: JobId)
    requires Ordered(s) && OneCall(s, id) && ClaimedIsFree(s, id) && Run(s, steps) && NeverDisplaced(s, steps, id)
    ensures OneCallThroughout(s, steps, id)
    decreases |steps|
  {
    if steps != [] {
      var s' := Apply(s, steps[0]);
      assert !Displaced(s', id);
      OrderKept(s, steps[0]);
      FreeKept(s, steps[0], id);
      OneCallKept(s, steps[0], id);
      OneCallRun(s', steps[1..], id);
    }
  }

  /** What the table must show for that: it suffices that no worker works on the job after losing it. */
  lemma ExactUntilDisplaced(s: State, steps: seq<Step>, id: JobId)
    requires Initial(s) && Run(s, steps) && NeverDisplaced(s, steps, id)
    ensures OneCallThroughout(s, steps, id) && ExactThroughout(map[], s, steps, id)
  {
    OneCallRun(s, steps, id);
    ExactWhileOneCall(s, steps, id);
  }

  // ---------------------------------------------------------------- the owner that is missed

  predicate Owner(s: State, w: WorkerId, id: JobId) {
    ClaimedOn(s, w, id) && id in s.db.rows && OwnedBy(s.db.rows[id], w)
  }

  /** A call on `id` ends, of a worker that does not own the job. */
  predicate StrangerReturns(s: State, step: Step, id: JobId)
    requires Enabled(s, step)
  {
    && EndsCall(s, step)
    && s.workers[Mover(step).value].id == id && !Owner(s, Mover(step).value, id)
  }

  /** Since the last call of `w` on `id` began, some other worker that does not own the job has returned from it. */
  ghost predicate StrangerReturned(was: bool, s: State, steps: seq<Step>, id: JobId, w: WorkerId)
    requires Run(s, steps)
    decreases |steps|
  {
    if steps == [] then was
    else StrangerReturned(Returned(was, s, steps[0], id, w), Apply(s, steps[0]), steps[1..], id, w)
  }

  predicate Returned(was: bool, s: State, step: Step, id: JobId, w: WorkerId)
    requires Enabled(s, step)
  {
    if step == Receive(w) && s.queue[0] == id then false
    else was || (StrangerReturns(s, step, id) && Mover(step) != Some(w))
  }

  /** `w` holds the id before its claim, or has claimed the job and owns it. */
  predicate InCharge(s: State, w: WorkerId, id: JobId) {
    Holds(s, ByWorker(w), id) || Owner(s, w, id)
  }

  lemma OwnerBefore(s: State, step: Step, w: WorkerId, id: JobId)
    requires Enabled(s, step) && Owner(Apply(s, step), w, id)
    ensures InCharge(s, w, id)
  {
    ControlIsOutsideTheTable(s, step);
    if step.TryClaim? && step.w == w {
      assert On(s, w, id);
    } else {
      Fencing.TokenCarried(s, step, w);
      Fencing.OwnedBefore(s, step, w, id);
    }
  }

  lemma InChargeBefore(s: State, step: Step, w: WorkerId, id: JobId)
    requires Enabled(s, step) && InCharge(Apply(s, step), w, id) && !(step == Receive(w) && s.queue[0] == id)
    ensures InCharge(s, w, id)
  {
    if Owner(Apply(s, step), w, id) {
      OwnerBefore(s, step, w, id);
    } else {
      HeldBefore(s, step, ByWorker(w), id);
    }
  }

  /** Beside the worker in charge the id is in nobody's hands, and no other worker on the job owns it. */
  lemma OnlyOneInCharge(s: State, w: WorkerId, id: JobId)
    requires Ordered(s) && InCharge(s, w, id)
    ensures s.queue == [] || s.queue[0] != id
    ensures forall v :: On(s, v, id) && v != w ==> !Owner(s, v, id)
  {
    var first := Queued(0);
    if Holds(s, ByWorker(w), id) {
      assert Holds(s, first, id) ==> first == ByWorker(w);
      HeldIsCovered(s, ByWorker(w), id);
    } else {
      assert !Covered(s, id);
    }
  }

  lemma InChargeIsOn(s: State, w: WorkerId, id: JobId)
    requires InCharge(s, w, id)
    ensures On(s, w, id)
  {
  }

  /** The entry of `id` goes when a call on `id` ends. */
  lemma EntryAfter(c: Entries, s: State, step: Step, id: JobId, w: WorkerId)
    requires Enabled(s, step) && !step.Restart? && !(step.Receive? && s.queue[0] == id)
    ensures Reaches(Entered(c, s, step), id, w) <==>
            Reaches(c, id, w) && !(EndsCall(s, step) && s.workers[Mover(step).value].id == id)
  {
  }

  lemma MissedKept(c: Entries, was: bool, s: State, step: Step, id: JobId, w: WorkerId)
    requires Ordered(s) && EntriesRun(c, s) && Enabled(s, step)
    requires InCharge(s, w, id) ==> (!Reaches(c, id, w) <==> was)
    requires InCharge(Apply(s, step), w, id)
    ensures !Reaches(Entered(c, s, step), id, w) <==> Returned(was, s, step, id, w)
  {
    if step != Receive(w) || s.queue[0] != id {
      InChargeBefore(s, step, w, id);
      OnlyOneInCharge(s, w, id);
      ControlIsOutsideTheTable(s, step);
      InChargeIsOn(Apply(s, step), w, id);
      NotAtRestart(s, step, w, id);
      EntryAfter(c, s, step, id, w);
      EndingIsStrange(s, step, id, w);
    }
  }

  lemma NotAtRestart(s: State, step: Step, w: WorkerId, id: JobId)
    requires Enabled(s, step) && On(Control(s, step), w, id)
    ensures !step.Restart?
  {
  }

  lemma EndingIsStrange(s: State, step: Step, id: JobId, w: WorkerId)
    requires Enabled(s, step) && On(Control(s, step), w, id)
    requires forall v :: On(s, v, id) && v != w ==> !Owner(s, v, id)
    ensures EndsCall(s, step) && s.workers[Mover(step).value].id == id <==>
            StrangerReturns(s, step, id) && Mover(step) != Some(w)
  {
    if EndsCall(s, step) && s.workers[Mover(step).value].id == id {
      assert On(s, Mover(step).value, id);
    }
  }

  lemma {:induction false} MissedRun(c: Entries, was: bool, s: State, steps: seq<Step>, id: JobId, w: WorkerId)
    requires Ordered(s) && EntriesRun(c, s) && Run(s, steps)
    requires InCharge(s, w, id) ==> (!Reaches(c, id, w) <==> was)
    requires InCharge(End(s, steps), w, id)
    ensures !Reaches(EntriesAfter(c, s, steps), id, w) <==> StrangerReturned(was, s, steps, id, w)
    decreases |steps|
  {
    if steps != [] {
      var s' := Apply(s, steps[0]);
      if InCharge(s', w, id) {
        MissedKept(c, was, s, steps[0], id, w);
      }
      OrderKept(s, steps[0]);
      EntriesRunKept(c, s, steps[0]);
      MissedRun(Entered(c, s, steps[0]), Returned(was, s, steps[0], id, w), s', steps[1..], id, w);
    }
  }

  /**
   In every reachable state an abort misses the worker that owns the job if and only if, since that worker's call began,
   another worker has returned from a call on the job which it did not own.
   */
  lemma OwnerIsMissedExactly(s: State, steps: seq<Step>, id: JobId, w: WorkerId)
    requires Initial(s) && Run(s, steps) && Owner(End(s, steps), w, id)
    ensures !Reaches(EntriesAfter(map[], s, steps), id, w) <==> StrangerReturned(false, s, steps, id, w)
  {
    MissedRun(map[], false, s, steps, id, w);
  }
}

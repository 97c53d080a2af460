/**
 Fencing. No statement tests the `version` column, yet finishing a job by `worker_id` is as strict as finishing it
 by an explicit compare-and-swap on the version the worker's own claim wrote.
 */
module Fencing {
  import opened Basics
  import opened JobTable
  import opened Ledger
  import opened Protocol

  /** In table `t`, worker `w` owns `id` exactly while the row still carries version `token`. */
  ghost predicate Fenced(t: Table, w: WorkerId, id: JobId, token: nat) {
    id in t ==> token <= t[id].version && (t[id].version == token <==> OwnedBy(t[id], w))
  }

  ghost predicate TokensFence(s: State) {
    forall w :: w in s.workers && s.workers[w].Claimed() ==>
      s.workers[w].id in s.db.history && Fenced(s.db.rows, w, s.workers[w].id, s.workers[w].token)
  }

  /** A statement keeps a fence, unless it is a claim of that very job by that very worker. */
  lemma StatementKeepsFence(t: Table, st: Statement, now: int, w: WorkerId, id: JobId, token: nat)
    requires Fenced(t, w, id, token)
    requires !(st.Claim? && st.id == id && st.worker == w)
    requires st.Insert? ==> st.id != id
    ensures Fenced(Execute(t, st, now), w, id, token)
  {
  }

  /** The claim that succeeds sets up the fence of its own token. */
  lemma ClaimRaisesFence(t: Table, w: WorkerId, id: JobId, lease: int, now: int)
    requires id in t && t[id].status == Pending
    ensures Fenced(Execute(t, Statement.Claim(id, w, lease), now), w, id, t[id].version + 1)
  {
  }

  /** A worker past its claim carries id and token unchanged, whatever step is taken. */
  lemma TokenCarried(s: State, step: Step, w: WorkerId)
    requires Enabled(s, step) && w in Control(s, step).workers && Control(s, step).workers[w].Claimed()
    requires !(step.TryClaim? && step.w == w)
    ensures w in s.workers && s.workers[w].Claimed()
    ensures Control(s, step).workers[w].id == s.workers[w].id && Control(s, step).workers[w].token == s.workers[w].token
  {
    if !step.Restart? {
      OnlyMoverMoves(s, step);
    }
  }

  /** No other step claims for this worker, and none inserts a row under a known id. */
  lemma NoClaimSent(s: State, step: Step, w: WorkerId)
    requires Enabled(s, step) && Effect(s, step).Some? && !(step.TryClaim? && step.w == w)
    ensures var st := Effect(s, step).value;
            !(st.Claim? && st.worker == w) && (st.Insert? ==> st.id !in s.db.history)
  {
  }

  lemma ClaimedNow(s: State, step: Step)
    requires step.TryClaim? && Balanced(s.db) && Enabled(s, step) && Apply(s, step).workers[step.w].Claimed()
    ensures var p := Apply(s, step).workers[step.w];
            p.id in Apply(s, step).db.history && Fenced(Apply(s, step).db.rows, step.w, p.id, p.token)
  {
    ClaimRaisesFence(s.db.rows, step.w, s.workers[step.w].id, s.config.lease, s.now);
  }

  lemma RowOwnedBefore(t: Table, st: Statement, now: int, w: WorkerId, id: JobId)
    requires id in Execute(t, st, now) && OwnedBy(Execute(t, st, now)[id], w)
    requires !(st.Claim? && st.worker == w)
    ensures id in t && OwnedBy(t[id], w)
  {
  }

  /** A worker comes to own a job by its own claim only. */
  lemma OwnedBefore(s: State, step: Step, w: WorkerId, id: JobId)
    requires Enabled(s, step) && !(step.TryClaim? && step.w == w)
    requires id in Apply(s, step).db.rows && OwnedBy(Apply(s, step).db.rows[id], w)
    ensures id in s.db.rows && OwnedBy(s.db.rows[id], w)
  {
    StepIsRecorded(s, step);
    if Effect(s, step).Some? {
      NoClaimSent(s, step, w);
      RowOwnedBefore(s.db.rows, Effect(s, step).value, s.now, w, id);
    }
  }

  lemma StepKeepsFences(s: State, step: Step)
    requires TokensFence(s) && Balanced(s.db) && Enabled(s, step)
    ensures TokensFence(Apply(s, step))
  {
    var s' := Apply(s, step);
    forall w | w in s'.workers && s'.workers[w].Claimed()
      ensures s'.workers[w].id in s'.db.history && Fenced(s'.db.rows, w, s'.workers[w].id, s'.workers[w].token)
    {
      if step.TryClaim? && step.w == w {
        ClaimedNow(s, step);
      } else {
        ControlIsOutsideTheTable(s, step);
        TokenCarried(s, step, w);
        FenceCarried(s, step, w);
      }
    }
  }

  lemma FenceCarried(s: State, step: Step, w: WorkerId)
    requires TokensFence(s) && Enabled(s, step) && w in s.workers && s.workers[w].Claimed()
    requires !(step.TryClaim? && step.w == w)
    ensures s.workers[w].id in Apply(s, step).db.history
    ensures Fenced(Apply(s, step).db.rows, w, s.workers[w].id, s.workers[w].token)
  {
    HistoryGrows(s, step, s.workers[w].id);
    var e := Effect(s, step);
    if e.Some? {
      NoClaimSent(s, step, w);
      StatementKeepsFence(s.db.rows, e.value, s.now, w, s.workers[w].id, s.workers[w].token);
    }
  }

  lemma StepKeepsBalance(s: State, step: Step)
    requires Balanced(s.db) && Enabled(s, step)
    ensures Balanced(Apply(s, step).db)
  {
    StepIsRecorded(s, step);
    if Effect(s, step).Some? {
      RecordBalanced(s.db, Effect(s, step).value, s.now);
    }
  }

  lemma {:induction false} RunKeepsFences(s: State, steps: seq<Step>)
    requires TokensFence(s) && Balanced(s.db) && Run(s, steps)
    ensures TokensFence(End(s, steps)) && Balanced(End(s, steps).db)
    decreases |steps|
  {
    if steps != [] {
      StepKeepsFences(s, steps[0]);
      StepKeepsBalance(s, steps[0]);
      RunKeepsFences(Apply(s, steps[0]), steps[1..]);
    }
  }

  // ---------------------------------------------------------------- the version-checked protocol

  /** UPDATE ... WHERE id = $1 AND version = $2: no test of worker_id, none of status. */
  function ExecuteAtVersion(t: Table, st: Statement, token: nat, now: int): Table
    requires st.Complete? || st.Fail?
  {
    if st.id in t && t[st.id].version == token then t[st.id := Updated(t[st.id], st, now)] else t
  }

  /** What that variant tests and what it writes. */
  lemma VersionGuardOnly(t: Table, st: Statement, token: nat, now: int)
    requires st.Complete? || st.Fail?
    ensures var t' := ExecuteAtVersion(t, st, token, now);
            if st.id !in t || t[st.id].version != token then t' == t
            else && t'.Keys == t.Keys && (forall id :: id in t && id != st.id ==> t'[id] == t[id])
                 && t'[st.id].version == token + 1
                 && t'[st.id].status == (if st.Complete? then Completed else Failed)
                 && (st.Complete? ==> t'[st.id].videoUrl == Some(st.url))
                 && (st.Fail? ==> t'[st.id].errorMessage == Some(st.message))
  {
  }

  /** The same protocol, with the two finishing statements guarded by the version alone. */
  ghost function ApplyByVersion(s: State, step: Step): State
    requires Enabled(s, step)
  {
    if (step.Finish? || step.GiveUp?) && step.fault != LostBefore then
      var rows := ExecuteAtVersion(s.db.rows, Sent(s, step).value, s.workers[step.w].token, s.now);
      Control(s, step).(db := Journal(rows, Observe(s.db.history, s.db.rows, rows)))
    else
      Apply(s, step)
  }

  ghost predicate RunByVersion(s: State, steps: seq<Step>)
    decreases |steps|
  {
    steps == [] || (Enabled(s, steps[0]) && RunByVersion(ApplyByVersion(s, steps[0]), steps[1..]))
  }

  ghost function EndByVersion(s: State, steps: seq<Step>): State
    requires RunByVersion(s, steps)
    decreases |steps|
  {
    if steps == [] then s else EndByVersion(ApplyByVersion(s, steps[0]), steps[1..])
  }

  lemma GuardsAgree(s: State, step: Step)
    requires TokensFence(s) && Balanced(s.db) && Enabled(s, step)
    ensures ApplyByVersion(s, step) == Apply(s, step)
  {
    if (step.Finish? || step.GiveUp?) && step.fault != LostBefore {
      var w := step.w;
      var id, token := s.workers[w].id, s.workers[w].token;
      var st := Sent(s, step).value;
      assert Fenced(s.db.rows, w, id, token);
      if id in s.db.rows {
        assert RowBalanced(s.db.rows[id], s.db.history[id]);
      }
      assert ExecuteAtVersion(s.db.rows, st, token, s.now) == Execute(s.db.rows, st, s.now);
    }
  }

  lemma {:induction false} RunsAgree(s: State, steps: seq<Step>)
    requires TokensFence(s) && Balanced(s.db)
    ensures RunByVersion(s, steps) <==> Run(s, steps)
    ensures Run(s, steps) ==> EndByVersion(s, steps) == End(s, steps)
    decreases |steps|
  {
    if steps != [] && Enabled(s, steps[0]) {
      GuardsAgree(s, steps[0]);
      StepKeepsFences(s, steps[0]);
      StepKeepsBalance(s, steps[0]);
      RunsAgree(Apply(s, steps[0]), steps[1..]);
    }
  }

  /**
   From the start, the protocol as written and the protocol whose MarkCompleted and MarkFailed test nothing but
   the version of the worker's own claim have the same runs and reach the same states, whatever the clocks show,
   however long a lease has been expired, and whatever fails.
   */
  lemma WorkerGuardIsVersionGuard(s: State, steps: seq<Step>)
    requires Initial(s)
    ensures RunByVersion(s, steps) <==> Run(s, steps)
    ensures Run(s, steps) ==> EndByVersion(s, steps) == End(s, steps)
  {
    RunsAgree(s, steps);
  }

  /**
   In every reachable state, of all workers past their claim of one job at most one can still change the row, and
   it is the one whose claim wrote the row's version.
   */
  lemma OneWriter(s: State, steps: seq<Step>, v: WorkerId, w: WorkerId, id: JobId)
    requires Initial(s) && Run(s, steps) && id in End(s, steps).db.rows
    requires var e := End(s, steps);
             && At(e, v, (p: Phase) => p.Claimed() && p.id == id) && OwnedBy(e.db.rows[id], v)
             && At(e, w, (p: Phase) => p.Claimed() && p.id == id) && e.db.rows[id].version == e.workers[w].token
    ensures v == w
  {
    RunKeepsFences(s, steps);
    var e := End(s, steps);
    assert Fenced(e.db.rows, w, id, e.workers[w].token);
  }

  /** What the verification before the upload lets through. */
  lemma VerifyMoves(s: State, w: WorkerId, clock: int, answered: bool)
    requires Enabled(s, Verify(w, clock, answered))
    ensures var p, q := s.workers[w], Apply(s, Verify(w, clock, answered)).workers[w];
            var mine := && p.id in s.db.rows
                        && s.db.rows[p.id].status == Processing && s.db.rows[p.id].workerId == Some(w)
                        && (s.db.rows[p.id].leaseExpiry.Some? ==> clock <= s.db.rows[p.id].leaseExpiry.value);
            q == if answered && mine then Uploading(p.id, p.token, p.metrics) else Idle
  {
  }

  /**
   In every reachable state a worker passes the verification before its upload only with the version its own claim
   wrote still in the row: one whose job was recovered, claimed by another, finished or deleted goes idle instead.
   */
  lemma OvertakenNeverUploads(s: State, steps: seq<Step>, w: WorkerId, clock: int, answered: bool)
    requires Initial(s) && Run(s, steps) && Enabled(End(s, steps), Verify(w, clock, answered))
    ensures var e := End(s, steps);
            var p, q := e.workers[w], Apply(e, Verify(w, clock, answered)).workers[w];
            && (q.Uploading? ==>
                && answered && p.id in e.db.rows
                && e.db.rows[p.id].version == p.token && e.db.rows[p.id].workerId == Some(w))
            && (p.id !in e.db.rows || e.db.rows[p.id].version != p.token ==> q == Idle)
  {
    RunKeepsFences(s, steps);
    var e := End(s, steps);
    VerifyMoves(e, w, clock, answered);
    assert Fenced(e.db.rows, w, e.workers[w].id, e.workers[w].token);
  }
}

/**
 Leases: what a sweep takes is decided by the last renewal alone, and how many heartbeats may be missed.
 */
module Leases {
  import opened Basics
  import opened JobTable
  import opened Ledger
  import opened Protocol

  // ---------------------------------------------------------------- the lease over a run

  /** The step claims `id` or renews its lease, and the statement selects the row. */
  ghost predicate Renews(s: State, step: Step, id: JobId)
    requires Enabled(s, step)
  {
    && Effect(s, step).Some?
    && (Effect(s, step).value.Claim? || Effect(s, step).value.Extend?)
    && Selects(s.db.rows, Effect(s, step).value, s.now, id)
  }

  /** The database time of the last claim or renewal of `id` in a run, `prior` if the run has none. */
  ghost function LastRenewal(s: State, steps: seq<Step>, id: JobId, prior: Option<int>): Option<int>
    requires Run(s, steps)
    decreases |steps|
  {
    if steps == [] then prior
    else LastRenewal(Apply(s, steps[0]), steps[1..], id, if Renews(s, steps[0], id) then Some(s.now) else prior)
  }

  /** The lease column of a job in processing says exactly when it was last renewed. */
  ghost predicate LeaseShows(s: State, id: JobId, renewal: Option<int>) {
    s.config.lease >= 0 &&
    (id in s.db.rows && s.db.rows[id].status == Processing ==>
      renewal.Some? && s.db.rows[id].leaseExpiry == Some(renewal.value + WholeSeconds(s.config.lease)))
  }

  lemma StatementShowsLease(t: Table, st: Statement, now: int, id: JobId)
    requires id in Execute(t, st, now) && Execute(t, st, now)[id].status == Processing
    ensures if Selects(t, st, now, id) && (st.Claim? || st.Extend?)
            then st.lease >= 0 ==> Execute(t, st, now)[id].leaseExpiry == Some(now + WholeSeconds(st.lease))
            else id in t && t[id].status == Processing && Execute(t, st, now)[id].leaseExpiry == t[id].leaseExpiry
  {
  }

  lemma StepShowsLease(s: State, step: Step, id: JobId, renewal: Option<int>)
    requires LeaseShows(s, id, renewal) && Enabled(s, step)
    ensures LeaseShows(Apply(s, step), id, if Renews(s, step, id) then Some(s.now) else renewal)
  {
    ConfigIsFixed(s, step);
    var s' := Apply(s, step);
    if Effect(s, step).Some? {
      var st := Effect(s, step).value;
      assert st.Claim? || st.Extend? ==> st.lease == s.config.lease;
      assert s'.db.rows == Execute(s.db.rows, st, s.now);
      if id in s'.db.rows && s'.db.rows[id].status == Processing {
        StatementShowsLease(s.db.rows, st, s.now, id);
      }
    } else {
      assert s'.db == s.db;
    }
  }

  lemma {:induction false} RunShowsLease(s: State, steps: seq<Step>, id: JobId, prior: Option<int>)
    requires LeaseShows(s, id, prior) && Run(s, steps)
    ensures LeaseShows(End(s, steps), id, LastRenewal(s, steps, id, prior))
    decreases |steps|
  {
    if steps != [] {
      StepShowsLease(s, steps[0], id, prior);
      RunShowsLease(Apply(s, steps[0]), steps[1..], id, if Renews(s, steps[0], id) then Some(s.now) else prior);
    }
  }

  /**
   In every reachable state a sweep takes a job exactly when it is in processing and more than one lease has passed
   on the database's clock since its last claim or renewal.
   */
  lemma SweepTakesExactlyTheLapsed(s: State, steps: seq<Step>, id: JobId)
    requires Initial(s) && Run(s, steps)
    ensures var e, renewal := End(s, steps), LastRenewal(s, steps, id, None);
            id in StalledIds(e.db.rows, e.now, MAX_RETRY) <==>
              && id in e.db.rows && e.db.rows[id].status == Processing
              && renewal.Some? && renewal.value + WholeSeconds(s.config.lease) < e.now
  {
    RunShowsLease(s, steps, id, None);
    RunKeepsConfig(s, steps);
    ReachableIsBalanced(s, steps);
    var e := End(s, steps);
    if id in e.db.rows {
      BudgetNeverBinds(e.db, id, 0, "", e.now);
      assert RowBalanced(e.db.rows[id], e.db.history[id]);
    }
  }

  lemma {:induction false} RunKeepsConfig(s: State, steps: seq<Step>)
    requires Run(s, steps)
    ensures End(s, steps).config == s.config
    decreases |steps|
  {
    if steps != [] {
      ConfigIsFixed(s, steps[0]);
      RunKeepsConfig(Apply(s, steps[0]), steps[1..]);
    }
  }

  predicate InProcessing(s: State, id: JobId) {
    id in s.db.rows && s.db.rows[id].status == Processing
  }

  /** Every sweep that finds `id` in processing comes at most one lease after its last renewal. */
  ghost predicate Punctual(s: State, steps: seq<Step>, id: JobId, prior: Option<int>)
    requires Run(s, steps) && s.config.lease >= 0
    decreases |steps|
  {
    steps == [] ||
    (ConfigIsFixed(s, steps[0]);
     && (steps[0].Sweep? && InProcessing(s, id) ==>
          prior.Some? && s.now <= prior.value + WholeSeconds(s.config.lease))
     && Punctual(Apply(s, steps[0]), steps[1..], id, if Renews(s, steps[0], id) then Some(s.now) else prior))
  }

  lemma NoSweepNoRecovery(s: State, step: Step, id: JobId, prior: Option<int>)
    requires Enabled(s, step) && LeaseShows(s, id, prior) && id in s.db.history
    requires step.Sweep? && InProcessing(s, id) ==> prior.Some? && s.now <= prior.value + WholeSeconds(s.config.lease)
    ensures id in Apply(s, step).db.history
    ensures Apply(s, step).db.history[id].recoveries == s.db.history[id].recoveries
  {
    StepIsRecorded(s, step);
    if Effect(s, step).Some? {
      if Effect(s, step).value.Recover? {
        RecoverSent(s, step);
      }
      NoRecoveryRecorded(s.db, Effect(s, step).value, s.now, id);
    }
  }

  lemma RecoverSent(s: State, step: Step)
    requires Enabled(s, step) && Effect(s, step).Some? && Effect(s, step).value.Recover?
    ensures step.Sweep?
  {
  }

  lemma NoRecoveryRecorded(j: Journal, st: Statement, now: int, id: JobId)
    requires id in j.history
    requires st.Recover? && id in j.rows ==> !Stalled(j.rows[id], now, st.maxRetry)
    ensures id in Record(j, st, now).history
    ensures Record(j, st, now).history[id].recoveries == j.history[id].recoveries
  {
  }

  /** A worker that renews in time never has its job taken away. */
  lemma {:induction false} PunctualIsSafe(s: State, steps: seq<Step>, id: JobId, prior: Option<int>)
    requires Run(s, steps) && LeaseShows(s, id, prior) && id in s.db.history && Punctual(s, steps, id, prior)
    ensures id in End(s, steps).db.history
    ensures End(s, steps).db.history[id].recoveries == s.db.history[id].recoveries
    decreases |steps|
  {
    if steps != [] {
      NoSweepNoRecovery(s, steps[0], id, prior);
      StepShowsLease(s, steps[0], id, prior);
      PunctualIsSafe(Apply(s, steps[0]), steps[1..], id, if Renews(s, steps[0], id) then Some(s.now) else prior);
    }
  }

  // ---------------------------------------------------------------- how late a heartbeat may be

  /** One tick of the heartbeat: how long after it was due the statement ran, and whether it renewed the lease. */
  datatype Tick = Tick(delay: nat, ok: bool)

  /** time.NewTicker(leaseDuration / 3) */
  function Period(lease: nat): nat {
    lease / 3
  }

  /** When tick `k` runs, with the claim at 0 and the ticker started at `start`; tick 0 is the claim itself. */
  function FireTime(start: nat, lease: nat, ticks: seq<Tick>, k: nat): nat
    requires k <= |ticks|
  {
    if k == 0 then 0 else start + k * Period(lease) + ticks[k - 1].delay
  }

  function LastSuccess(ticks: seq<Tick>, k: nat): (m: nat)
    requires k <= |ticks|
    ensures m <= k
    ensures m > 0 ==> ticks[m - 1].ok
    ensures forall i :: m <= i < k ==> !ticks[i].ok
  {
    if k == 0 || ticks[k - 1].ok then k else LastSuccess(ticks, k - 1)
  }

  /** The lease expiry in the row once ticks 1..k have run. */
  function Expiry(start: nat, lease: nat, ticks: seq<Tick>, k: nat): int
    requires k <= |ticks|
  {
    FireTime(start, lease, ticks, LastSuccess(ticks, k)) + WholeSeconds(lease)
  }

  /** No tick runs after the lease it should renew has expired, so no sweep before it finds the job stalled. */
  ghost predicate NeverLapses(start: nat, lease: nat, ticks: seq<Tick>) {
    forall k :: 0 <= k < |ticks| ==> FireTime(start, lease, ticks, k + 1) <= Expiry(start, lease, ticks, k)
  }

  ghost predicate NoTwoMisses(ticks: seq<Tick>) {
    forall k :: 0 <= k < |ticks| - 1 ==> ticks[k].ok || ticks[k + 1].ok
  }

  /** Start-up and delivery together never take longer than `slack`. */
  ghost predicate WithinSlack(start: nat, ticks: seq<Tick>, slack: nat) {
    start <= slack && forall k :: 0 <= k < |ticks| ==> start + ticks[k].delay <= slack
  }

  /** A tick at most two periods after the renewal before it comes in time. */
  lemma TwoPeriods(start: nat, delay: nat, earlier: nat, p: nat, k: nat, m: nat, slack: nat, whole: int)
    requires m <= k + 1 <= m + 2
    requires start + delay <= slack && slack + 2 * p <= whole
    ensures start + (k + 1) * p + delay <= start + m * p + earlier + whole
    ensures m == 0 ==> start + (k + 1) * p + delay <= whole
  {
    var gap := k + 1 - m;
    assert (k + 1) * p == m * p + gap * p;
    if gap == 0 {
    } else if gap == 1 {
    } else {
      assert gap * p == 2 * p;
    }
  }

  lemma LastSuccessIsRecent(ticks: seq<Tick>, k: nat)
    requires NoTwoMisses(ticks) && k <= |ticks|
    ensures k <= LastSuccess(ticks, k) + 1
  {
    if k >= 2 {
      assert ticks[k - 2].ok || ticks[(k - 2) + 1].ok;
    }
  }

  lemma SingleMissesTolerated(start: nat, lease: nat, ticks: seq<Tick>, slack: nat)
    requires NoTwoMisses(ticks) && WithinSlack(start, ticks, slack)
    requires slack + 2 * Period(lease) <= WholeSeconds(lease)
    ensures NeverLapses(start, lease, ticks)
  {
    forall k | 0 <= k < |ticks|
      ensures FireTime(start, lease, ticks, k + 1) <= Expiry(start, lease, ticks, k)
    {
      var m := LastSuccess(ticks, k);
      LastSuccessIsRecent(ticks, k);
      var earlier := if m == 0 then 0 else ticks[m - 1].delay;
      TwoPeriods(start, ticks[k].delay, earlier, Period(lease), k, m, slack, WholeSeconds(lease));
    }
  }

  /**
   Exactly how much slack the heartbeat has: isolated misses are always survived if and only if start-up plus
   delivery delay is at most what the stored lease, in whole seconds, leaves over two ticks.
   */
  lemma SlackIsExact(lease: nat, slack: nat)
    ensures (forall start: nat, ticks: seq<Tick> {:trigger NeverLapses(start, lease, ticks)} ::
              NoTwoMisses(ticks) && WithinSlack(start, ticks, slack) ==> NeverLapses(start, lease, ticks))
            <==> slack + 2 * Period(lease) <= WholeSeconds(lease)
  {
    if slack + 2 * Period(lease) <= WholeSeconds(lease) {
      forall start: nat, ticks: seq<Tick> | NoTwoMisses(ticks) && WithinSlack(start, ticks, slack)
        ensures NeverLapses(start, lease, ticks)
      {
        SingleMissesTolerated(start, lease, ticks, slack);
      }
    } else {
      var ticks := [Tick(0, false), Tick(0, true)];
      assert NoTwoMisses(ticks) && WithinSlack(slack, ticks, slack);
      assert LastSuccess(ticks, 1) == 0;
      assert FireTime(slack, lease, ticks, 1 + 1) > Expiry(slack, lease, ticks, 1);
      assert !NeverLapses(slack, lease, ticks);
    }
  }

  /** A lease of whole seconds leaves a third of itself as slack. */
  lemma WholeSecondLeaseHasAThird(lease: nat, slack: nat)
    requires lease % SECOND == 0 && 3 * slack <= lease
    ensures slack + 2 * Period(lease) <= WholeSeconds(lease)
  {
  }

  /** A single missed tick, although nothing is ever late. */
  const ONE_MISS := [Tick(0, false), Tick(0, true)]

  /**
   A lease with a fraction of a second can leave no slack at all, because the heartbeat counts the fraction and the
   stored lease does not. It does so exactly below one second and in the upper half of the second second.
   */
  lemma FractionalLeaseLapses(lease: nat)
    ensures NeverLapses(0, lease, ONE_MISS) <==> lease < 3 || SECOND <= lease < 1_500_000_003 || 2 * SECOND <= lease
  {
    assert LastSuccess(ONE_MISS, 1) == 0;
    assert FireTime(0, lease, ONE_MISS, 2) == 2 * Period(lease);
    if NeverLapses(0, lease, ONE_MISS) {
      assert FireTime(0, lease, ONE_MISS, 1 + 1) <= Expiry(0, lease, ONE_MISS, 1);
    } else {
      var k :| 0 <= k < |ONE_MISS| && FireTime(0, lease, ONE_MISS, k + 1) > Expiry(0, lease, ONE_MISS, k);
      assert k == 0 || k == 1;
    }
  }

  /** Two misses in a row are survived only inside the rounding of the period, at most two nanoseconds. */
  lemma TwoMissesLapse(start: nat, lease: nat, delay: nat)
    requires lease % SECOND == 0
    ensures NeverLapses(start, lease, [Tick(0, false), Tick(0, false), Tick(delay, true)]) <==>
            start + delay <= lease % 3
  {
    var ticks := [Tick(0, false), Tick(0, false), Tick(delay, true)];
    assert LastSuccess(ticks, 1) == 0;
    assert LastSuccess(ticks, 2) == 0;
    if NeverLapses(start, lease, ticks) {
      assert FireTime(start, lease, ticks, 2 + 1) <= Expiry(start, lease, ticks, 2);
    }
  }

  // ---------------------------------------------------------------- heartbeats in a run

  predicate HeldBy(s: State, id: JobId, w: WorkerId) {
    id in s.db.rows && OwnedBy(s.db.rows[id], w)
  }

  /** The heartbeat of `w` on `id` ticks. */
  predicate Ticks(step: Step, id: JobId, w: WorkerId) {
    step.Beat? && step.beat == Heartbeat(w, id)
  }

  /**
   The heartbeat of `w` on `id`, claimed at `t0`, follows the timetable `ticks` for as long as `w` owns the job: its
   next tick, number k + 1, is not overdue, runs when the timetable says, and commits if the timetable says so.
   */
  ghost predicate InTime(s: State, steps: seq<Step>, id: JobId, w: WorkerId, t0: int, start: nat, lease: nat,
                         ticks: seq<Tick>, k: nat)
    requires Run(s, steps)
    decreases |steps|
  {
    steps == [] ||
    (var due := HeldBy(s, id, w) && Ticks(steps[0], id, w);
     && (HeldBy(s, id, w) ==> k < |ticks| && s.now <= t0 + FireTime(start, lease, ticks, k + 1))
     && (due ==> s.now == t0 + FireTime(start, lease, ticks, k + 1) && (ticks[k].ok <==> steps[0].fault != LostBefore))
     && InTime(Apply(s, steps[0]), steps[1..], id, w, t0, start, lease, ticks, if due then k + 1 else k))
  }

  /** The job is finished or gone. */
  predicate Settled(s: State, id: JobId) {
    id in s.db.rows ==> s.db.rows[id].status.Terminal()
  }

  /** While the owner's lease has not expired, only its renewal moves the lease, and only an end the ownership. */
  lemma OwnedRow(t: Table, st: Statement, now: int, id: JobId, w: WorkerId)
    requires id in t && OwnedBy(t[id], w) && t[id].leaseExpiry.Some?
    requires st.Recover? ==> now <= t[id].leaseExpiry.value
    requires st.Extend? ==> st.lease >= 0
    ensures var t' := Execute(t, st, now);
            if id in t' && OwnedBy(t'[id], w)
            then t'[id].leaseExpiry == (if st.Extend? && st.id == id && st.worker == w
                                        then Some(now + WholeSeconds(st.lease)) else t[id].leaseExpiry)
            else id in t' ==> t'[id].status.Terminal()
  {
  }

  lemma SettledRow(t: Table, st: Statement, now: int, id: JobId)
    requires id in t ==> t[id].status.Terminal()
    requires st.Insert? ==> st.id != id
    ensures id in Execute(t, st, now) ==> Execute(t, st, now)[id].status.Terminal()
  {
  }

  lemma ExtendSent(s: State, step: Step, id: JobId, w: WorkerId)
    requires Enabled(s, step) && Effect(s, step).Some?
    ensures var st := Effect(s, step).value;
            && (st.Extend? ==> st.lease == s.config.lease)
            && ((st.Extend? && st.id == id && st.worker == w) <==> (Ticks(step, id, w) && step.fault != LostBefore))
  {
  }

  lemma LostBeat(s: State, step: Step)
    requires Enabled(s, step) && Effect(s, step).None? && step.Beat?
    ensures step.fault == LostBefore
  {
  }

  /** One step while the owner's lease stands at `expiry`. */
  lemma OwnedStep(s: State, step: Step, id: JobId, w: WorkerId)
    requires Enabled(s, step) && s.config.lease >= 0 && id in s.db.history && HeldBy(s, id, w)
    requires s.db.rows[id].leaseExpiry.Some? && s.now <= s.db.rows[id].leaseExpiry.value
    ensures var s' := Apply(s, step);
            && s'.config == s.config && id in s'.db.history
            && s'.db.history[id].recoveries == s.db.history[id].recoveries
            && (if HeldBy(s', id, w)
                then s'.db.rows[id].leaseExpiry == (if Ticks(step, id, w) && step.fault != LostBefore
                                                    then Some(s.now + WholeSeconds(s.config.lease))
                                                    else s.db.rows[id].leaseExpiry)
                else Settled(s', id))
  {
    ConfigIsFixed(s, step);
    StepIsRecorded(s, step);
    if Effect(s, step).Some? {
      var st := Effect(s, step).value;
      ExtendSent(s, step, id, w);
      OwnedRow(s.db.rows, st, s.now, id, w);
      NoRecoveryRecorded(s.db, st, s.now, id);
    } else if step.Beat? {
      LostBeat(s, step);
    }
  }

  lemma SettledStep(s: State, step: Step, id: JobId)
    requires Enabled(s, step) && id in s.db.history && Settled(s, id)
    ensures var s' := Apply(s, step);
            id in s'.db.history && Settled(s', id) && s'.db.history[id].recoveries == s.db.history[id].recoveries
  {
    StepIsRecorded(s, step);
    if Effect(s, step).Some? {
      SettledRow(s.db.rows, Effect(s, step).value, s.now, id);
      NoRecoveryRecorded(s.db, Effect(s, step).value, s.now, id);
    }
  }

  lemma {:induction false} SettledRun(s: State, steps: seq<Step>, id: JobId)
    requires Run(s, steps) && id in s.db.history && Settled(s, id)
    ensures id in End(s, steps).db.history
    ensures End(s, steps).db.history[id].recoveries == s.db.history[id].recoveries
    decreases |steps|
  {
    if steps != [] {
      SettledStep(s, steps[0], id);
      SettledRun(Apply(s, steps[0]), steps[1..], id);
    }
  }

  /** The next tick renews from its own time on, or leaves the last success where it was. */
  lemma NextSuccess(start: nat, lease: nat, ticks: seq<Tick>, k: nat)
    requires k < |ticks|
    ensures Expiry(start, lease, ticks, k + 1) ==
            if ticks[k].ok then FireTime(start, lease, ticks, k + 1) + WholeSeconds(lease)
            else Expiry(start, lease, ticks, k)
  {
  }

  lemma {:induction false} InTimeIsSafe(s: State, steps: seq<Step>, id: JobId, w: WorkerId, t0: int, start: nat,
                                        lease: nat, ticks: seq<Tick>, k: nat)
    requires Run(s, steps) && s.config.lease == lease && id in s.db.history && k <= |ticks|
    requires HeldBy(s, id, w) && s.db.rows[id].leaseExpiry == Some(t0 + Expiry(start, lease, ticks, k))
    requires InTime(s, steps, id, w, t0, start, lease, ticks, k) && NeverLapses(start, lease, ticks)
    ensures id in End(s, steps).db.history
    ensures End(s, steps).db.history[id].recoveries == s.db.history[id].recoveries
    decreases |steps|
  {
    if steps != [] {
      var s', rest := Apply(s, steps[0]), steps[1..];
      assert FireTime(start, lease, ticks, k + 1) <= Expiry(start, lease, ticks, k);
      OwnedStep(s, steps[0], id, w);
      if HeldBy(s', id, w) {
        NextSuccess(start, lease, ticks, k);
        InTimeIsSafe(s', rest, id, w, t0, start, lease, ticks, if Ticks(steps[0], id, w) then k + 1 else k);
      } else {
        SettledRun(s', rest, id);
      }
    }
  }

  /**
   From any claim that commits in any reachable state: a heartbeat that never misses twice in a row, and whose start-up
   and delivery delays stay within a third of a lease of whole seconds, protects the job through the rest of the run. No
   sweep recovers it, whatever else happens.
   */
  lemma HeartbeatProtects(s: State, before: seq<Step>, w: WorkerId, fault: Fault, after: seq<Step>, start: nat,
                          ticks: seq<Tick>, slack: nat)
    requires Initial(s) && Run(s, before) && Enabled(End(s, before), TryClaim(w, fault)) && fault != LostBefore
    requires var c := End(s, before);
             var s', id := Apply(c, TryClaim(w, fault)), c.workers[w].id;
             && IsPending(c, id) && Run(s', after)
             && InTime(s', after, id, w, c.now, start, s.config.lease, ticks, 0)
    requires s.config.lease % SECOND == 0 && 3 * slack <= s.config.lease
    requires NoTwoMisses(ticks) && WithinSlack(start, ticks, slack)
    ensures var c := End(s, before);
            var e, id := End(Apply(c, TryClaim(w, fault)), after), c.workers[w].id;
            id in c.db.history && id in e.db.history && e.db.history[id].recoveries == c.db.history[id].recoveries
  {
    RunKeepsConfig(s, before);
    ReachableIsBalanced(s, before);
    ClaimIsProtected(End(s, before), w, fault, after, start, s.config.lease, ticks, slack);
  }

  lemma ClaimIsProtected(c: State, w: WorkerId, fault: Fault, after: seq<Step>, start: nat, lease: nat,
                         ticks: seq<Tick>, slack: nat)
    requires Balanced(c.db) && Enabled(c, TryClaim(w, fault)) && fault != LostBefore && c.config.lease == lease
    requires IsPending(c, c.workers[w].id) && Run(Apply(c, TryClaim(w, fault)), after)
    requires InTime(Apply(c, TryClaim(w, fault)), after, c.workers[w].id, w, c.now, start, lease, ticks, 0)
    requires lease % SECOND == 0 && 3 * slack <= lease
    requires NoTwoMisses(ticks) && WithinSlack(start, ticks, slack)
    ensures var e, id := End(Apply(c, TryClaim(w, fault)), after), c.workers[w].id;
            id in c.db.history && id in e.db.history && e.db.history[id].recoveries == c.db.history[id].recoveries
  {
    ConfigIsFixed(c, TryClaim(w, fault));
    ClaimSetsLease(c, w, fault);
    WholeSecondLeaseHasAThird(lease, slack);
    SingleMissesTolerated(start, lease, ticks, slack);
    InTimeIsSafe(Apply(c, TryClaim(w, fault)), after, c.workers[w].id, w, c.now, start, lease, ticks, 0);
  }

  lemma ClaimedRow(t: Table, id: JobId, w: WorkerId, lease: int, now: int)
    requires id in t && t[id].status == Pending && lease >= 0
    ensures var t' := Execute(t, Statement.Claim(id, w, lease), now);
            id in t' && OwnedBy(t'[id], w) && t'[id].leaseExpiry == Some(now + WholeSeconds(lease))
  {
  }

  lemma ClaimSetsLease(s: State, w: WorkerId, fault: Fault)
    requires Enabled(s, TryClaim(w, fault)) && fault != LostBefore && s.config.lease >= 0 && Balanced(s.db)
    requires IsPending(s, s.workers[w].id)
    ensures var s', id := Apply(s, TryClaim(w, fault)), s.workers[w].id;
            && HeldBy(s', id, w) && s'.db.rows[id].leaseExpiry == Some(s.now + WholeSeconds(s.config.lease))
            && id in s.db.history && id in s'.db.history
            && s'.db.history[id].recoveries == s.db.history[id].recoveries
  {
    var step, id := TryClaim(w, fault), s.workers[w].id;
    StepIsRecorded(s, step);
    assert Effect(s, step) == Some(Statement.Claim(id, w, s.config.lease));
    ClaimedRow(s.db.rows, id, w, s.config.lease, s.now);
    NoRecoveryRecorded(s.db, Statement.Claim(id, w, s.config.lease), s.now, id);
  }
}

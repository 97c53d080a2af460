/**
 A run of two workers in which the first loses its job to the second and does not notice. It shows that an abort can
 miss a running job, and that the counters of a finished job can still move.
 */
module Overtaken {
  import opened Basics
  import opened JobTable
  import opened Ledger
  import opened Protocol
  import opened AbortMap
  import CrashLoop
  import Delivery

  /** The steps lead from `s` to `t`, and the entries from `c` to `d`. */
  ghost predicate Leads(c: Entries, s: State, steps: seq<Step>, d: Entries, t: State) {
    Run(s, steps) && End(s, steps) == t && EntriesAfter(c, s, steps) == d
  }

  lemma LeadsOne(c: Entries, s: State, step: Step, d: Entries, t: State)
    requires Enabled(s, step) && Apply(s, step) == t && Entered(c, s, step) == d
    ensures Leads(c, s, [step], d, t)
  {
    assert [step][1..] == [];
  }

  lemma {:induction false} LeadsAppend(c: Entries, s: State, x: seq<Step>, d: Entries, t: State, y: seq<Step>,
                                       e: Entries, u: State)
    requires Leads(c, s, x, d, t) && Leads(d, t, y, e, u)
    ensures Leads(c, s, x + y, e, u)
    decreases |x|
  {
    if x == [] {
      assert x + y == y;
    } else {
      assert (x + y)[0] == x[0] && (x + y)[1..] == x[1..] + y;
      LeadsAppend(Entered(c, s, x[0]), Apply(s, x[0]), x[1..], d, t, y, e, u);
    }
  }

  /** One step more. */
  lemma LeadsThen(c: Entries, s: State, x: seq<Step>, d: Entries, t: State, step: Step, e: Entries, u: State)
    requires Leads(c, s, x, d, t) && Enabled(t, step) && Apply(t, step) == u && Entered(d, t, step) == e
    ensures Leads(c, s, x + [step], e, u)
  {
    LeadsOne(d, t, step, e, u);
    LeadsAppend(c, s, x, d, t, [step], e, u);
  }

  function Booted(lease: nat): State {
    State(Config(1, lease), EMPTY, 0, [], false, map[0 := Idle, 1 := Idle], {0, 1}, map[], Dormant, multiset{})
  }

  const BEAT_0 := Heartbeat(0, 0)
  const BEAT_1 := Heartbeat(1, 0)

  /** Job 0 waits in the queue, recovered `n` times; worker 0 stands at `p`. */
  function Waiting(n: nat, user: UserId, now: int, lease: nat, p: Phase, beats: multiset<Heartbeat>): State {
    Booted(lease).(db := CrashLoop.Waiting(n, user), now := now, queue := [0],
                   workers := map[0 := p, 1 := Idle], beats := beats)
  }

  /** Worker `n` owns the job and renders it; workers 0 and 1 stand at `p` and `q`. */
  function Working(n: nat, user: UserId, claimed: int, now: int, lease: nat, p: Phase, q: Phase,
                   beats: multiset<Heartbeat>): State {
    Booted(lease).(db := CrashLoop.Owned(n, user, claimed, lease), now := now,
                   workers := map[0 := p, 1 := q], beats := beats)
  }

  lemma FirstJob(user: UserId, lease: nat) returns (steps: seq<Step>)
    ensures Leads(map[], Booted(lease), steps, map[], Waiting(0, user, 0, lease, Idle, multiset{}))
  {
    var b := Booted(lease);
    steps := Delivery.FirstJobIsQueued(b, user);
    assert forall k :: 0 <= k < |steps| ==> steps[k].Count? || steps[k].Create? || steps[k].Submit?;
    NoEntries(b, steps);
  }

  lemma {:induction false} NoEntries(s: State, steps: seq<Step>)
    requires Run(s, steps) && forall k :: 0 <= k < |steps| ==> steps[k].Count? || steps[k].Create? || steps[k].Submit?
    ensures EntriesAfter(map[], s, steps) == map[]
    decreases |steps|
  {
    if steps != [] {
      assert steps[0].Count? || steps[0].Create? || steps[0].Submit?;
      NoEntries(Apply(s, steps[0]), steps[1..]);
    }
  }

  /** Worker 0 receives, claims, loads and renders. */
  lemma FirstWorker(user: UserId, lease: nat) returns (steps: seq<Step>)
    ensures Leads(map[], Waiting(0, user, 0, lease, Idle, multiset{}), steps,
                  map[0 := 0], Working(0, user, 0, 0, lease, Rendering(0, 1), Idle, multiset{BEAT_0}))
  {
    var s := Waiting(0, user, 0, lease, Idle, multiset{});
    var s1 := s.(queue := [], workers := map[0 := Holding(0), 1 := Idle]);
    LeadsOne(map[], s, Receive(0), map[0 := 0], s1);
    var s2 := s1.(db := CrashLoop.Owned(0, user, 0, lease), workers := map[0 := Loading(0, 1), 1 := Idle]);
    CrashLoop.ClaimRecorded(0, user, 0, lease);
    LeadsThen(map[], s, [Receive(0)], map[0 := 0], s1, TryClaim(0, Answered), map[0 := 0], s2);
    var s3 := Working(0, user, 0, 0, lease, Rendering(0, 1), Idle, multiset{BEAT_0});
    LeadsThen(map[], s, [Receive(0)] + [TryClaim(0, Answered)], map[0 := 0], s2, Load(0, true), map[0 := 0], s3);
    steps := [Receive(0)] + [TryClaim(0, Answered)] + [Load(0, true)];
  }

  /** The lease runs out; a sweep recovers the job and publishes it again. */
  lemma Recovered(user: UserId, lease: nat) returns (steps: seq<Step>)
    ensures Leads(map[0 := 0], Working(0, user, 0, 0, lease, Rendering(0, 1), Idle, multiset{BEAT_0}), steps,
                  map[0 := 0], Waiting(1, user, lease + 1, lease, Rendering(0, 1), multiset{BEAT_0}))
  {
    var s := Working(0, user, 0, 0, lease, Rendering(0, 1), Idle, multiset{BEAT_0});
    var s1 := s.(now := lease + 1);
    LeadsOne(map[0 := 0], s, Clock(lease + 1), map[0 := 0], s1);
    var s2 := s1.(db := CrashLoop.Waiting(1, user), sweeper := Publishing([0], false));
    SweepFinds(user, lease, s1, s2);
    LeadsThen(map[0 := 0], s, [Clock(lease + 1)], map[0 := 0], s1, Sweep([0], Answered), map[0 := 0], s2);
    var s3 := Waiting(1, user, lease + 1, lease, Rendering(0, 1), multiset{BEAT_0});
    LeadsThen(map[0 := 0], s, [Clock(lease + 1)] + [Sweep([0], Answered)], map[0 := 0], s2, Publish, map[0 := 0], s3);
    steps := [Clock(lease + 1)] + [Sweep([0], Answered)] + [Publish];
  }

  lemma SweepFinds(user: UserId, lease: nat, s: State, t: State)
    requires s == Working(0, user, 0, lease + 1, lease, Rendering(0, 1), Idle, multiset{BEAT_0})
    requires t == s.(db := CrashLoop.Waiting(1, user), sweeper := Publishing([0], false))
    ensures Enabled(s, Sweep([0], Answered)) && Apply(s, Sweep([0], Answered)) == t
  {
    CrashLoop.RecoveryRecorded(0, user, 0, lease + 1, lease);
    assert Sent(s, Sweep([0], Answered)) == Some(Recover(MAX_RETRY));
  }

  /** Both workers render; the second one owns the job. */
  function Both(user: UserId, lease: nat): State {
    Working(1, user, lease + 1, lease + 1, lease, Rendering(0, 1), Rendering(0, 3), multiset{BEAT_0, BEAT_1})
  }

  lemma SecondClaims(user: UserId, lease: nat, s: State, t: State)
    requires s == Waiting(1, user, lease + 1, lease, Rendering(0, 1), multiset{BEAT_0})
                  .(queue := [], workers := map[0 := Rendering(0, 1), 1 := Holding(0)])
    requires t == s.(db := CrashLoop.Owned(1, user, lease + 1, lease),
                     workers := map[0 := Rendering(0, 1), 1 := Loading(0, 3)])
    ensures Enabled(s, TryClaim(1, Answered)) && Apply(s, TryClaim(1, Answered)) == t
  {
    CrashLoop.ClaimRecorded(1, user, lease + 1, lease);
    assert Effect(s, TryClaim(1, Answered)) == Some(Statement.Claim(0, 1, lease));
  }

  lemma SecondWorker(user: UserId, lease: nat) returns (steps: seq<Step>)
    ensures Leads(map[0 := 0], Waiting(1, user, lease + 1, lease, Rendering(0, 1), multiset{BEAT_0}), steps,
                  map[0 := 1], Both(user, lease))
  {
    var s := Waiting(1, user, lease + 1, lease, Rendering(0, 1), multiset{BEAT_0});
    var s1 := s.(queue := [], workers := map[0 := Rendering(0, 1), 1 := Holding(0)]);
    assert map[0 := 0][0 := 1] == map[0 := 1];
    LeadsOne(map[0 := 0], s, Receive(1), map[0 := 1], s1);
    var s2 := s1.(db := CrashLoop.Owned(1, user, lease + 1, lease),
                  workers := map[0 := Rendering(0, 1), 1 := Loading(0, 3)]);
    SecondClaims(user, lease, s1, s2);
    LeadsThen(map[0 := 0], s, [Receive(1)], map[0 := 1], s1, TryClaim(1, Answered), map[0 := 1], s2);
    SecondLoads(user, lease, s2);
    LeadsThen(map[0 := 0], s, [Receive(1)] + [TryClaim(1, Answered)], map[0 := 1], s2, Load(1, true), map[0 := 1],
              Both(user, lease));
    steps := [Receive(1)] + [TryClaim(1, Answered)] + [Load(1, true)];
  }

  lemma SecondLoads(user: UserId, lease: nat, s: State)
    requires s == Working(1, user, lease + 1, lease + 1, lease, Rendering(0, 1), Loading(0, 3), multiset{BEAT_0})
    ensures Enabled(s, Load(1, true)) && Apply(s, Load(1, true)) == Both(user, lease)
  {
  }

  lemma BothRender(user: UserId, lease: nat) returns (steps: seq<Step>)
    ensures Leads(map[], Booted(lease), steps, map[0 := 1], Both(user, lease))
  {
    var first := FirstJob(user, lease);
    var work := FirstWorker(user, lease);
    var w := Waiting(0, user, 0, lease, Idle, multiset{});
    var r := Working(0, user, 0, 0, lease, Rendering(0, 1), Idle, multiset{BEAT_0});
    LeadsAppend(map[], Booted(lease), first, map[], w, work, map[0 := 0], r);
    var recover := Recovered(user, lease);
    var q := Waiting(1, user, lease + 1, lease, Rendering(0, 1), multiset{BEAT_0});
    LeadsAppend(map[], Booted(lease), first + work, map[0 := 0], r, recover, map[0 := 0], q);
    var second := SecondWorker(user, lease);
    LeadsAppend(map[], Booted(lease), first + work + recover, map[0 := 0], q, second, map[0 := 1], Both(user, lease));
    steps := first + work + recover + second;
  }

  // ---------------------------------------------------------------- the abort that misses

  /** Worker 0 has found out that it lost the job. */
  function Overtook(user: UserId, lease: nat): State {
    Both(user, lease).(workers := map[0 := Idle, 1 := Rendering(0, 3)])
  }

  lemma LoserReturns(user: UserId, lease: nat) returns (steps: seq<Step>)
    ensures Leads(map[0 := 1], Both(user, lease), steps, map[], Overtook(user, lease))
  {
    var s, video, verify := Both(user, lease), RenderOk(0, None), Verify(0, lease + 1, true);
    var s1 := s.(workers := map[0 := Verifying(0, 1, None), 1 := Rendering(0, 3)]);
    LeadsOne(map[0 := 1], s, video, map[0 := 1], s1);
    assert map[0 := 1] - {0} == map[];
    LeadsThen(map[0 := 1], s, [video], map[0 := 1], s1, verify, map[], Overtook(user, lease));
    steps := [video] + [verify];
  }

  /**
   The worker that lost its lease returns and deletes the entry of the worker that owns the job now. The owner renders
   on, and no abort reaches it.
   */
  lemma OwnerIsHidden(user: UserId, lease: nat) returns (steps: seq<Step>, e: State)
    ensures Run(Booted(lease), steps) && e == End(Booted(lease), steps)
    ensures On(e, 1, 0) && e.workers[1].Rendering? && 0 in e.db.rows && OwnedBy(e.db.rows[0], 1)
    ensures 0 !in EntriesAfter(map[], Booted(lease), steps)
  {
    var both := BothRender(user, lease);
    var back := LoserReturns(user, lease);
    LeadsAppend(map[], Booted(lease), both, map[0 := 1], Both(user, lease), back, map[], Overtook(user, lease));
    steps, e := both + back, Overtook(user, lease);
  }

  lemma BootedIsReachable(lease: nat) returns (s: State, boot: seq<Step>)
    ensures Initial(s) && Run(s, boot) && End(s, boot) == Booted(lease)
  {
    s, boot := Delivery.BootedIsReachable(Booted(lease));
  }

  // ---------------------------------------------------------------- the report that comes late

  /** Worker 1 at `p`, worker 0 still rendering. */
  function Second(user: UserId, lease: nat, p: Phase): State {
    Both(user, lease).(workers := map[0 := Rendering(0, 1), 1 := p])
  }

  lemma OwnerVerifies(user: UserId, lease: nat)
    ensures var s, verify := Second(user, lease, Verifying(0, 3, None)), Verify(1, lease + 1, true);
            Enabled(s, verify) && Apply(s, verify) == Second(user, lease, Uploading(0, 3, None))
  {
  }

  lemma OwnerUploads(user: UserId, lease: nat, url: string) returns (steps: seq<Step>)
    ensures Run(Both(user, lease), steps)
    ensures End(Both(user, lease), steps) == Second(user, lease, Finishing(0, 3, None, url))
  {
    var s, video, verify, upload := Both(user, lease), RenderOk(1, None), Verify(1, lease + 1, true), Upload(1, url);
    var s1, s2 := Second(user, lease, Verifying(0, 3, None)), Second(user, lease, Uploading(0, 3, None));
    assert Apply(s, video) == s1;
    OwnerVerifies(user, lease);
    assert Apply(s2, upload) == Second(user, lease, Finishing(0, 3, None, url));
    RunOne(s2, upload);
    RunCons(s1, verify, [upload]);
    RunCons(s, video, [verify] + [upload]);
    steps := [video] + ([verify] + [upload]);
  }

  lemma OwnerFinishes(user: UserId, lease: nat, url: string) returns (steps: seq<Step>, e: State)
    ensures Run(Both(user, lease), steps) && e == End(Both(user, lease), steps)
    ensures 0 in e.db.rows && e.db.rows[0].status == Completed && At(e, 0, (p: Phase) => p == Rendering(0, 1))
    ensures e.db.rows[0].frameCount == 1 && e.db.rows[0].processedFrames == 0 && e.db.rows[0].retryCount == 0
  {
    var before := OwnerUploads(user, lease, url);
    var s := Second(user, lease, Finishing(0, 3, None, url));
    e := FinishCounts(s);
    RunOne(s, Finish(1, Answered));
    RunAppend(Both(user, lease), before, [Finish(1, Answered)]);
    steps := before + [Finish(1, Answered)];
  }

  lemma FinishCounts(s: State) returns (e: State)
    requires At(s, 1, (p: Phase) => p.Finishing? && p.id == 0) && At(s, 0, (p: Phase) => p == Rendering(0, 1))
    requires 0 in s.db.rows && OwnedBy(s.db.rows[0], 1)
    ensures e == Apply(s, Finish(1, Answered))
    ensures 0 in e.db.rows && e.db.rows[0].status == Completed && At(e, 0, (p: Phase) => p == Rendering(0, 1))
    ensures e.db.rows[0].frameCount == s.db.rows[0].frameCount && e.db.rows[0].retryCount == s.db.rows[0].retryCount
    ensures e.db.rows[0].processedFrames == s.db.rows[0].processedFrames
  {
    e := Apply(s, Finish(1, Answered));
  }

  /** The overtaken worker's progress report moves the counters of the job its successor has completed. */
  lemma LateReportOccurs(user: UserId, lease: nat) returns (steps: seq<Step>, report: Step)
    ensures Run(Booted(lease), steps) && Enabled(End(Booted(lease), steps), report)
    ensures var m, e := End(Booted(lease), steps).db.rows, Apply(End(Booted(lease), steps), report).db.rows;
            && 0 in m && m[0].status == Completed
            && 0 in e && e[0].status == Completed && e[0].processedFrames != m[0].processedFrames
  {
    var both := BothRender(user, lease);
    var finish, e := OwnerFinishes(user, lease, "");
    RunAppend(Booted(lease), both, finish);
    steps, report := both + finish, Report(0, 1, 1, Answered);
    LateReport(e);
  }

  /** The report on the only frame of the job. */
  lemma LateReport(s: State)
    requires At(s, 0, (p: Phase) => p == Rendering(0, 1)) && 0 in s.db.rows && Legal(s.db.rows[0])
    ensures Enabled(s, Report(0, 1, 1, Answered))
    ensures Apply(s, Report(0, 1, 1, Answered)).db.rows ==
            s.db.rows[0 := s.db.rows[0].(processedFrames := 1, frameCount := 1)]
  {
    var report := Report(0, 1, 1, Answered);
    StepIsRecorded(s, report);
    assert Effect(s, report) == Some(Progress(0, 1, 1));
    LateReportMovesCounters(s.db.rows, 0, 1, 1, s.now);
  }
}

/**
 A run of one worker whose heartbeat misses its first tick and catches the second: what `Leases.HeartbeatProtects` asks
 of a run is met by steps of the system.
 */
module HeartbeatRun {
  import opened Basics
  import opened JobTable
  import opened Ledger
  import opened Protocol
  import opened Leases
  import CrashLoop
  import Delivery

  /** Three seconds, so a tick is due every second. */
  const LEASE: nat := 3 * SECOND

  const MISSED_ONCE := [Tick(0, false), Tick(0, true)]

  const BEAT := Heartbeat(0, 0)

  /** Worker 0 is about to claim the only job. */
  function Before(user: UserId): State {
    Delivery.Booted(1, LEASE).(db := CrashLoop.Waiting(0, user), workers := map[0 := Holding(0)])
  }

  /** It has claimed the job at time 0 and stands at `p`. */
  function Owning(user: UserId, p: Phase, beats: multiset<Heartbeat>, now: int): State {
    Delivery.Booted(1, LEASE).(db := CrashLoop.Owned(0, user, 0, LEASE), workers := map[0 := p], beats := beats,
                               now := now)
  }

  lemma ClaimsAtZero(user: UserId)
    ensures Enabled(Before(user), TryClaim(0, Answered))
    ensures Apply(Before(user), TryClaim(0, Answered)) == Owning(user, Loading(0, 1), multiset{}, 0)
  {
    CrashLoop.ClaimRecorded(0, user, 0, LEASE);
    assert Effect(Before(user), TryClaim(0, Answered)) == Some(Statement.Claim(0, 0, LEASE));
  }

  lemma BeforeIsReached(user: UserId) returns (s: State, steps: seq<Step>)
    ensures Initial(s) && Run(s, steps) && End(s, steps) == Before(user) && s.config.lease == LEASE
  {
    var b := Delivery.Booted(1, LEASE);
    var boot, first;
    s, boot := Delivery.BootedIsReachable(b);
    first := Delivery.FirstJobIsQueued(b, user);
    RunAppend(s, boot, first);
    var queued := Delivery.FirstQueued(b, user);
    assert Apply(queued, Receive(0)) == Before(user);
    RunOne(queued, Receive(0));
    RunAppend(s, boot + first, [Receive(0)]);
    steps := boot + first + [Receive(0)];
  }

  /** The state renders at time `now`, its lease renewed at 0. */
  function Rendered(user: UserId, now: int): State {
    Owning(user, Rendering(0, 1), multiset{BEAT}, now)
  }

  lemma InTimeCons(s: State, step: Step, rest: seq<Step>, k: nat)
    requires Enabled(s, step) && Run(Apply(s, step), rest)
    requires HeldBy(s, 0, 0) && k < |MISSED_ONCE| && s.now <= FireTime(0, LEASE, MISSED_ONCE, k + 1)
    requires var due := Ticks(step, 0, 0);
             && (due ==> s.now == FireTime(0, LEASE, MISSED_ONCE, k + 1) &&
                         (MISSED_ONCE[k].ok <==> step.fault != LostBefore))
             && InTime(Apply(s, step), rest, 0, 0, 0, 0, LEASE, MISSED_ONCE, if due then k + 1 else k)
    ensures Run(s, [step] + rest) && InTime(s, [step] + rest, 0, 0, 0, 0, LEASE, MISSED_ONCE, k)
  {
    assert ([step] + rest)[1..] == rest;
  }

  /** The second tick renews. */
  lemma SecondTick(user: UserId) returns (steps: seq<Step>)
    ensures Run(Rendered(user, 1 * SECOND), steps)
    ensures InTime(Rendered(user, 1 * SECOND), steps, 0, 0, 0, 0, LEASE, MISSED_ONCE, 1)
    ensures steps == [Clock(2 * SECOND)] + [Beat(BEAT, Answered)]
  {
    var s, late := Rendered(user, 1 * SECOND), Rendered(user, 2 * SECOND);
    assert Apply(s, Clock(2 * SECOND)) == late;
    InTimeCons(late, Beat(BEAT, Answered), [], 1);
    InTimeCons(s, Clock(2 * SECOND), [Beat(BEAT, Answered)] + [], 1);
    steps := [Clock(2 * SECOND)] + [Beat(BEAT, Answered)];
    assert [Beat(BEAT, Answered)] + [] == [Beat(BEAT, Answered)];
  }

  /** The first one is lost. */
  lemma LostBeatChangesNothing(user: UserId, now: int)
    ensures Enabled(Rendered(user, now), Beat(BEAT, LostBefore)) && HeldBy(Rendered(user, now), 0, 0)
    ensures Apply(Rendered(user, now), Beat(BEAT, LostBefore)) == Rendered(user, now)
  {
  }

  lemma FirstTick(user: UserId) returns (steps: seq<Step>)
    ensures var due := Rendered(user, 1 * SECOND);
            Run(due, steps) && InTime(due, steps, 0, 0, 0, 0, LEASE, MISSED_ONCE, 0)
    ensures |steps| == 3 && steps[0] == Beat(BEAT, LostBefore) && steps[2] == Beat(BEAT, Answered)
  {
    var due := Rendered(user, 1 * SECOND);
    var second := SecondTick(user);
    var beat := Beat(BEAT, LostBefore);
    LostBeatChangesNothing(user, 1 * SECOND);
    assert due.now == FireTime(0, LEASE, MISSED_ONCE, 1) && !MISSED_ONCE[0].ok;
    InTimeCons(due, beat, second, 0);
    steps := [beat] + second;
  }

  lemma BothTicks(user: UserId) returns (steps: seq<Step>)
    ensures Run(Rendered(user, 0), steps) && InTime(Rendered(user, 0), steps, 0, 0, 0, 0, LEASE, MISSED_ONCE, 0)
    ensures |steps| == 4 && steps[1] == Beat(BEAT, LostBefore) && steps[3] == Beat(BEAT, Answered)
  {
    var first := FirstTick(user);
    assert Apply(Rendered(user, 0), Clock(1 * SECOND)) == Rendered(user, 1 * SECOND);
    InTimeCons(Rendered(user, 0), Clock(1 * SECOND), first, 0);
    steps := [Clock(1 * SECOND)] + first;
  }

  /** The rest of the run, from the claim on. */
  lemma AfterClaim(user: UserId, s: State) returns (after: seq<Step>)
    requires s == Owning(user, Loading(0, 1), multiset{}, 0)
    ensures Run(s, after) && InTime(s, after, 0, 0, 0, 0, LEASE, MISSED_ONCE, 0)
    ensures |after| == 5 && after[2] == Beat(BEAT, LostBefore) && after[4] == Beat(BEAT, Answered)
  {
    var ticks := BothTicks(user);
    assert Apply(s, Load(0, true)) == Rendered(user, 0);
    InTimeCons(s, Load(0, true), ticks, 0);
    after := [Load(0, true)] + ticks;
  }

  lemma TimetableFits()
    ensures NoTwoMisses(MISSED_ONCE) && WithinSlack(0, MISSED_ONCE, 0) && LEASE % SECOND == 0
  {
  }

  /** From the start to the claim. */
  lemma ClaimIsReached(user: UserId) returns (s: State, before: seq<Step>)
    ensures Initial(s) && s.config.lease == LEASE && Run(s, before) && End(s, before) == Before(user)
    ensures At(Before(user), 0, (p: Phase) => p == Holding(0)) && IsPending(Before(user), 0) && Before(user).now == 0
    ensures Enabled(Before(user), TryClaim(0, Answered))
    ensures Apply(Before(user), TryClaim(0, Answered)) == Owning(user, Loading(0, 1), multiset{}, 0)
  {
    s, before := BeforeIsReached(user);
    ClaimsAtZero(user);
  }

  /**
   From the start, through a claim, to a renewal after a missed tick: all that `HeartbeatProtects` requires, with no
   delays.
   */
  lemma MissedTickIsInTime(user: UserId) returns (s: State, before: seq<Step>, c: State, s': State, after: seq<Step>)
    ensures Initial(s) && s.config.lease == LEASE && Run(s, before) && c == End(s, before) && c.now == 0
    ensures At(c, 0, (p: Phase) => p == Holding(0)) && IsPending(c, 0)
    ensures Enabled(c, TryClaim(0, Answered)) && s' == Apply(c, TryClaim(0, Answered))
    ensures Run(s', after) && InTime(s', after, 0, 0, 0, 0, LEASE, MISSED_ONCE, 0)
    ensures |after| == 5 && after[2] == Beat(BEAT, LostBefore) && after[4] == Beat(BEAT, Answered)
  {
    s, before := ClaimIsReached(user);
    c, s' := Before(user), Owning(user, Loading(0, 1), multiset{}, 0);
    after := AfterClaim(user, s');
  }
}

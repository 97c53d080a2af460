/**
 A job that crashes the process every time it is picked up is recovered for ever: recoveries never touch
 retry_count, so the limit of five retries does not bound them.
 */
module CrashLoop {
  import opened Basics
  import opened JobTable
  import opened Ledger
  import opened Protocol
  import ActiveJobs
  import Delivery

  function Waiting(n: nat, user: UserId): Journal {
    Journal(map[0 := NewRow(user, 1, 0).(version := 2 * n)], map[0 := Tally(n, n, 0)])
  }

  function Owned(n: nat, user: UserId, now: int, lease: nat): Journal {
    Journal(map[0 := NewRow(user, 1, 0).(version := 2 * n + 1, status := Processing, workerId := Some(n),
                                         leaseExpiry := Some(now + WholeSeconds(lease)))],
            map[0 := Tally(n + 1, n, 0)])
  }

  lemma ClaimRecorded(n: nat, user: UserId, now: int, lease: nat)
    ensures Record(Waiting(n, user), Statement.Claim(0, n, lease), now) == Owned(n, user, now, lease)
  {
  }

  lemma RecoveryRecorded(n: nat, user: UserId, now: int, later: int, lease: nat)
    requires now + lease < later
    ensures StalledIds(Owned(n, user, now, lease).rows, later, MAX_RETRY) == {0}
    ensures Record(Owned(n, user, now, lease), Recover(MAX_RETRY), later) == Waiting(n + 1, user)
  {
    var j, st := Owned(n, user, now, lease), Recover(MAX_RETRY);
    assert Selects(j.rows, st, later, 0);
    assert Execute(j.rows, st, later) == Waiting(n + 1, user).rows;
  }

  /** Job 0 is queued for the `n`-th time, and worker `n`, started by the last restart, is waiting. */
  function Looping(n: nat, user: UserId, now: int, lease: nat): State {
    State(Config(1, lease), Waiting(n, user), now, [0], false, map[n := Idle], ActiveJobs.Range(0, n + 1), map[],
          Dormant, multiset{})
  }

  /** Worker `n` has claimed the job, and the process has died and started again. */
  function Crashed(n: nat, user: UserId, now: int, lease: nat): State {
    State(Config(1, lease), Owned(n, user, now, lease), now, [], false, map[n + 1 := Idle], ActiveJobs.Range(0, n + 2),
          map[], Booting, multiset{})
  }

  lemma ClaimAndCrash(n: nat, user: UserId, now: int, lease: nat) returns (steps: seq<Step>)
    ensures Run(Looping(n, user, now, lease), steps)
    ensures End(Looping(n, user, now, lease), steps) == Crashed(n, user, now, lease)
  {
    var s := Looping(n, user, now, lease);
    var held := s.(queue := [], workers := map[n := Holding(0)]);
    assert Apply(s, Receive(n)) == held;
    var owned := held.(db := Owned(n, user, now, lease), workers := map[n := Loading(0, 2 * n + 1)]);
    ClaimRecorded(n, user, now, lease);
    assert Sent(held, TryClaim(n, Answered)) == Some(Statement.Claim(0, n, lease));
    assert Apply(held, TryClaim(n, Answered)) == owned;
    CrashOwned(n, user, now, lease, owned);
    var crash := Restart(map[n + 1 := Idle]);
    RunOne(owned, crash);
    RunCons(held, TryClaim(n, Answered), [crash]);
    RunCons(s, Receive(n), [TryClaim(n, Answered)] + [crash]);
    steps := [Receive(n)] + ([TryClaim(n, Answered)] + [crash]);
  }

  lemma CrashOwned(n: nat, user: UserId, now: int, lease: nat, owned: State)
    requires owned.config == Config(1, lease) && owned.db == Owned(n, user, now, lease) && owned.now == now
    requires owned.named == ActiveJobs.Range(0, n + 1)
    ensures Enabled(owned, Restart(map[n + 1 := Idle]))
    ensures Apply(owned, Restart(map[n + 1 := Idle])) == Crashed(n, user, now, lease)
  {
    assert map[n + 1 := Idle].Keys == {n + 1};
    assert ActiveJobs.Range(0, n + 2) == ActiveJobs.Range(0, n + 1) + {n + 1};
  }

  /** The restarted process, past the first half of its recovery. */
  function Swept(n: nat, user: UserId, now: int, lease: nat): State {
    State(Config(1, lease), Waiting(n, user), now, [], false, map[n := Idle], ActiveJobs.Range(0, n + 1), map[],
          Fetching, multiset{})
  }

  lemma RecoverAfterCrash(n: nat, user: UserId, now: int, lease: nat) returns (steps: seq<Step>)
    ensures Run(Crashed(n, user, now, lease), steps)
    ensures End(Crashed(n, user, now, lease), steps) == Swept(n + 1, user, now + lease + 1, lease)
  {
    var s, clock, sweep := Crashed(n, user, now, lease), Clock(now + lease + 1), Sweep([0], Answered);
    var late := s.(now := now + lease + 1);
    assert Apply(s, clock) == late;
    LateSweep(n, user, now, lease, late);
    RunOne(late, sweep);
    RunCons(s, clock, [sweep]);
    steps := [clock] + [sweep];
  }

  lemma LateSweep(n: nat, user: UserId, now: int, lease: nat, late: State)
    requires late == Crashed(n, user, now, lease).(now := now + lease + 1)
    ensures Enabled(late, Sweep([0], Answered))
    ensures Apply(late, Sweep([0], Answered)) == Swept(n + 1, user, now + lease + 1, lease)
  {
    RecoveryRecorded(n, user, now, now + lease + 1, lease);
    assert Sent(late, Sweep([0], Answered)) == Some(Recover(MAX_RETRY));
  }

  lemma RequeueSwept(n: nat, user: UserId, now: int, lease: nat) returns (steps: seq<Step>)
    ensures Run(Swept(n, user, now, lease), steps)
    ensures End(Swept(n, user, now, lease), steps) == Looping(n, user, now, lease)
  {
    var s, fetch := Swept(n, user, now, lease), Fetch([0], true);
    assert PendingIds(s.db.rows, MAX_RETRY) == {0};
    var fetched := s.(sweeper := Publishing([0], true));
    assert Apply(s, fetch) == fetched;
    assert Apply(fetched, Publish) == Looping(n, user, now, lease);
    RunOne(fetched, Publish);
    RunCons(s, fetch, [Publish]);
    steps := [fetch] + [Publish];
  }

  lemma Chain(s: State, a: seq<Step>, t: State, b: seq<Step>, u: State)
    requires Run(s, a) && End(s, a) == t && Run(t, b) && End(t, b) == u
    ensures Run(s, a + b) && End(s, a + b) == u
  {
    RunAppend(s, a, b);
  }

  /** One crash: claimed, dead, recovered, queued again. */
  lemma OneCrash(n: nat, user: UserId, now: int, lease: nat) returns (steps: seq<Step>)
    ensures Run(Looping(n, user, now, lease), steps)
    ensures End(Looping(n, user, now, lease), steps) == Looping(n + 1, user, now + lease + 1, lease)
  {
    var later := now + lease + 1;
    var crash := ClaimAndCrash(n, user, now, lease);
    var recover := RecoverAfterCrash(n, user, now, lease);
    var requeue := RequeueSwept(n + 1, user, later, lease);
    Chain(Looping(n, user, now, lease), crash, Crashed(n, user, now, lease), recover, Swept(n + 1, user, later, lease));
    Chain(Looping(n, user, now, lease), crash + recover, Swept(n + 1, user, later, lease),
          requeue, Looping(n + 1, user, later, lease));
    steps := crash + recover + requeue;
  }

  lemma FirstLoop(user: UserId, lease: nat) returns (steps: seq<Step>)
    ensures Run(Delivery.Booted(1, lease), steps)
    ensures End(Delivery.Booted(1, lease), steps) == Looping(0, user, 0, lease)
  {
    steps := Delivery.FirstJobIsQueued(Delivery.Booted(1, lease), user);
    assert ActiveJobs.Range(0, 1) == {0};
  }

  lemma {:induction false} LoopReached(n: nat, user: UserId, lease: nat) returns (steps: seq<Step>, now: int)
    ensures Run(Delivery.Booted(1, lease), steps)
    ensures End(Delivery.Booted(1, lease), steps) == Looping(n, user, now, lease)
  {
    if n == 0 {
      steps := FirstLoop(user, lease);
      now := 0;
    } else {
      var before, t := LoopReached(n - 1, user, lease);
      var crash := OneCrash(n - 1, user, t, lease);
      now := t + lease + 1;
      Chain(Delivery.Booted(1, lease), before, Looping(n - 1, user, t, lease), crash, Looping(n, user, now, lease));
      steps := before + crash;
    }
  }

  /** For every number there is a run that recovers one job that often, at a retry count of 0 throughout. */
  lemma RecoveredAnyNumberOfTimes(n: nat, user: UserId, lease: nat) returns (steps: seq<Step>, end: State)
    ensures Run(Delivery.Booted(1, lease), steps) && end == End(Delivery.Booted(1, lease), steps)
    ensures 0 in end.db.history && end.db.history[0].recoveries == n
    ensures 0 in end.db.rows && end.db.rows[0].retryCount == 0
  {
    var t;
    steps, t := LoopReached(n, user, lease);
    end := Looping(n, user, t, lease);
  }
}

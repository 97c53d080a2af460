/**
 The circuit breaker as it really locks: `Allow` reads the state under the read lock, lets go of it, and writes
 HALF_OPEN under the write lock later. Other goroutines act in between.
 */
module BreakerInterleaving {
  import opened Basics
  import opened CircuitBreaker

  type ThreadId = nat

  /** Between calls; between the two locks of `Allow`; admitted and talking to the renderer. */
  datatype Thread = Out | Upgrading | InFlight

  datatype System = System(breaker: Breaker, threads: map<ThreadId, Thread>, clock: int)

  datatype Action =
    | Enter(t: ThreadId, now: int)
    | Upgrade(t: ThreadId, now: int)
    | Succeed(t: ThreadId, now: int)
    | Fail(t: ThreadId, now: int)
    | Abandon(t: ThreadId, now: int)

  /** Time never runs backwards, and only an admitted call reports an outcome. */
  predicate Possible(s: System, a: Action) {
    a.now >= s.clock && a.t in s.threads &&
    match a
    case Enter(t, _) => s.threads[t].Out?
    case Upgrade(t, _) => s.threads[t].Upgrading?
    case Succeed(t, _) => s.threads[t].InFlight?
    case Fail(t, _) => s.threads[t].InFlight?
    case Abandon(t, _) => s.threads[t].InFlight?
  }

  function Act(s: System, a: Action): System
    requires Possible(s, a)
  {
    var b := s.breaker;
    match a
    case Enter(t, now) =>
      var next := if b.state.Open? then (if Cooled(b, now) then Upgrading else Out) else InFlight;
      System(b, s.threads[t := next], now)
    case Upgrade(t, now) => System(b.(state := HalfOpen), s.threads[t := InFlight], now)
    case Succeed(t, now) => System(Succeeded(b), s.threads[t := Out], now)
    case Fail(t, now) => System(Failed(b, now), s.threads[t := Out], now)
    case Abandon(t, now) => System(b, s.threads[t := Out], now)
  }

  ghost predicate Run(s: System, actions: seq<Action>)
    decreases |actions|
  {
    actions == [] || (Possible(s, actions[0]) && Run(Act(s, actions[0]), actions[1..]))
  }

  ghost function End(s: System, actions: seq<Action>): System
    requires Run(s, actions)
    decreases |actions|
  {
    if actions == [] then s else End(Act(s, actions[0]), actions[1..])
  }

  ghost predicate Initial(s: System) {
    && s.breaker == New(s.breaker.threshold, s.breaker.cooldown)
    && forall t :: t in s.threads ==> s.threads[t].Out?
  }

  // ---------------------------------------------------------------- the edges

  /** An edge of the documented machine, taken for the documented reason. */
  predicate Documented(b: Breaker, a: Action, b': Breaker) {
    match (b.state, b'.state)
    case (Closed, Open) => a.Fail? && b'.failures == Limit(b)
    case (Open, HalfOpen) => Cooled(b, a.now)
    case (HalfOpen, Closed) => a.Succeed?
    case (HalfOpen, Open) => a.Fail?
    case _ => false
  }

  /** A success reported by a call that was still running when the circuit opened. */
  predicate LateSuccess(b: Breaker, a: Action, b': Breaker) {
    b.state.Open? && b'.state.Closed? && a.Succeed?
  }

  /** A delayed write of `Allow` after somebody else already closed the circuit. */
  predicate StaleUpgradeOfClosed(b: Breaker, a: Action, b': Breaker) {
    b.state.Closed? && b'.state.HalfOpen? && a.Upgrade?
  }

  /** A delayed write of `Allow` after a newer failure opened the circuit again. */
  predicate EarlyUpgrade(b: Breaker, a: Action, b': Breaker) {
    b.state.Open? && b'.state.HalfOpen? && a.Upgrade? && !Cooled(b, a.now)
  }

  /** The circuit is closed only while fewer failures than the limit are counted. */
  predicate ClosedBelowLimit(s: System) {
    s.breaker.state.Closed? ==> s.breaker.failures < Limit(s.breaker)
  }

  lemma {:induction false} RunStaysBelowLimit(s: System, actions: seq<Action>)
    requires ClosedBelowLimit(s) && Run(s, actions)
    ensures ClosedBelowLimit(End(s, actions))
    decreases |actions|
  {
    if actions != [] {
      RunStaysBelowLimit(Act(s, actions[0]), actions[1..]);
    }
  }

  /** In every run, with any number of threads, every change of state is a documented edge or one of these three. */
  lemma EveryEdge(s: System, actions: seq<Action>, a: Action)
    requires Initial(s) && Run(s, actions) && Possible(End(s, actions), a)
    ensures var b, b' := End(s, actions).breaker, Act(End(s, actions), a).breaker;
            b.state == b'.state || Documented(b, a, b') || LateSuccess(b, a, b') || StaleUpgradeOfClosed(b, a, b')
            || EarlyUpgrade(b, a, b')
  {
    RunStaysBelowLimit(s, actions);
  }

  // ---------------------------------------------------------------- one call at a time

  predicate Busy(s: System, t: ThreadId) {
    t in s.threads && !s.threads[t].Out?
  }

  ghost predicate OneAtATime(s: System) {
    forall t, u :: Busy(s, t) && Busy(s, u) ==> t == u
  }

  ghost predicate Serial(s: System, actions: seq<Action>)
    requires Run(s, actions)
    decreases |actions|
  {
    OneAtATime(s) && (actions == [] || Serial(Act(s, actions[0]), actions[1..]))
  }

  /** While calls do not overlap, a call in flight finds the circuit not open, a waiting write finds it open. */
  ghost predicate Undisturbed(s: System) {
    forall t :: t in s.threads ==>
      && (s.threads[t].InFlight? ==> !s.breaker.state.Open?)
      && (s.threads[t].Upgrading? ==> s.breaker.state.Open? && Cooled(s.breaker, s.clock))
  }

  lemma ActStaysUndisturbed(s: System, a: Action)
    requires OneAtATime(s) && Undisturbed(s) && Possible(s, a)
    ensures Undisturbed(Act(s, a))
  {
    if !a.Enter? {
      assert Busy(s, a.t);
      forall u | u in s.threads && u != a.t
        ensures s.threads[u].Out?
      {
        assert !Busy(s, u);
      }
    }
  }

  lemma {:induction false} SerialRunUndisturbed(s: System, actions: seq<Action>)
    requires Run(s, actions) && Serial(s, actions) && Undisturbed(s)
    ensures Undisturbed(End(s, actions)) && OneAtATime(End(s, actions))
    decreases |actions|
  {
    if actions != [] {
      assert Serial(Act(s, actions[0]), actions[1..]);
      ActStaysUndisturbed(s, actions[0]);
      SerialRunUndisturbed(Act(s, actions[0]), actions[1..]);
    }
  }

  /** With calls one at a time even the split `Allow` takes documented edges only. */
  lemma SerialEdgesDocumented(s: System, actions: seq<Action>, a: Action)
    requires Initial(s) && Run(s, actions) && Serial(s, actions) && Possible(End(s, actions), a)
    ensures var b, b' := End(s, actions).breaker, Act(End(s, actions), a).breaker;
            b.state == b'.state || Documented(b, a, b')
  {
    RunStaysBelowLimit(s, actions);
    SerialRunUndisturbed(s, actions);
  }

  /** Nothing in between, the two halves of `Allow` are the atomic one: same state, same answer. */
  lemma UndisturbedAllowIsAtomic(s: System, t: ThreadId, now: int)
    requires Possible(s, Enter(t, now))
    ensures var s1 := Act(s, Enter(t, now));
            if s1.threads[t].Upgrading?
            then && Possible(s1, Upgrade(t, now)) && Act(s1, Upgrade(t, now)).breaker == Asked(s.breaker, now)
                 && Act(s1, Upgrade(t, now)).threads[t].InFlight? && Admits(s.breaker, now)
            else && s1.breaker == s.breaker == Asked(s.breaker, now)
                 && (s1.threads[t].InFlight? <==> Admits(s.breaker, now))
  {
  }

  // ---------------------------------------------------------------- the three undocumented edges occur

  lemma RunOne(s: System, a: Action)
    requires Possible(s, a)
    ensures Run(s, [a]) && End(s, [a]) == Act(s, a)
  {
    assert [a][1..] == [];
  }

  lemma {:induction false} RunAppend(s: System, x: seq<Action>, y: seq<Action>)
    requires Run(s, x) && Run(End(s, x), y)
    ensures Run(s, x + y) && End(s, x + y) == End(End(s, x), y)
    decreases |x|
  {
    if x == [] {
      assert x + y == y;
    } else {
      assert (x + y)[1..] == x[1..] + y;
      RunAppend(Act(s, x[0]), x[1..], y);
    }
  }

  function Start(threshold: int, cooldown: int): System {
    System(New(threshold, cooldown), map[0 := Out, 1 := Out], 0)
  }

  /** Two threads; thread 0 stands at `first`, and `k` failures are counted at time 0. */
  function Failing(threshold: int, cooldown: int, first: Thread, k: nat): System {
    System(Breaker(if k < Max(threshold, 1) then Closed else Open, k, threshold, cooldown, 0),
           map[0 := first, 1 := Out], 0)
  }

  /** Thread 1 fails until the circuit opens, whatever thread 0 is doing. */
  lemma {:induction false} FailUntilOpen(threshold: int, cooldown: int, first: Thread, k: nat)
      returns (actions: seq<Action>)
    requires k <= Max(threshold, 1)
    ensures Run(Failing(threshold, cooldown, first, k), actions)
    ensures End(Failing(threshold, cooldown, first, k), actions) ==
            Failing(threshold, cooldown, first, Max(threshold, 1))
    decreases Max(threshold, 1) - k
  {
    if k == Max(threshold, 1) {
      actions := [];
    } else {
      var s := Failing(threshold, cooldown, first, k);
      var s1 := Act(s, Enter(1, 0));
      var s2 := Act(s1, Fail(1, 0));
      assert s2.threads == map[0 := first, 1 := Out];
      assert s2 == Failing(threshold, cooldown, first, k + 1);
      RunOne(s, Enter(1, 0));
      RunOne(s1, Fail(1, 0));
      RunAppend(s, [Enter(1, 0)], [Fail(1, 0)]);
      var rest := FailUntilOpen(threshold, cooldown, first, k + 1);
      RunAppend(s, [Enter(1, 0)] + [Fail(1, 0)], rest);
      actions := [Enter(1, 0)] + [Fail(1, 0)] + rest;
    }
  }

  /** A call admitted before the circuit opened reports success, and closes it at once. */
  lemma LateSuccessOccurs(threshold: int, cooldown: int) returns (actions: seq<Action>, a: Action)
    ensures var s := Start(threshold, cooldown);
            Initial(s) && Run(s, actions) && Possible(End(s, actions), a) &&
            LateSuccess(End(s, actions).breaker, a, Act(End(s, actions), a).breaker)
  {
    var s := Start(threshold, cooldown);
    var s1 := Act(s, Enter(0, 0));
    assert s1 == Failing(threshold, cooldown, InFlight, 0);
    RunOne(s, Enter(0, 0));
    var fail := FailUntilOpen(threshold, cooldown, InFlight, 0);
    RunAppend(s, [Enter(0, 0)], fail);
    actions, a := [Enter(0, 0)] + fail, Succeed(0, 0);
  }

  /** Both threads find the cooldown over; thread 1 writes HALF_OPEN, thread 0 is still between the locks. */
  function BothRetry(threshold: int, cooldown: nat): System {
    System(Breaker(HalfOpen, Max(threshold, 1), threshold, cooldown, 0),
           map[0 := Upgrading, 1 := InFlight], cooldown + 1)
  }

  lemma ReachBothRetry(threshold: int, cooldown: nat) returns (actions: seq<Action>)
    ensures Run(Start(threshold, cooldown), actions)
    ensures End(Start(threshold, cooldown), actions) == BothRetry(threshold, cooldown)
  {
    var s := Start(threshold, cooldown);
    assert s == Failing(threshold, cooldown, Out, 0);
    var fail := FailUntilOpen(threshold, cooldown, Out, 0);
    var s1 := Failing(threshold, cooldown, Out, Max(threshold, 1));
    var ask0, ask1, write := Enter(0, cooldown + 1), Enter(1, cooldown + 1), Upgrade(1, cooldown + 1);
    var s2 := Act(s1, ask0);
    var s3 := Act(s2, ask1);
    assert s3.threads == map[0 := Upgrading, 1 := Upgrading];
    assert Act(s3, write) == BothRetry(threshold, cooldown);
    RunOne(s1, ask0);
    RunOne(s2, ask1);
    RunOne(s3, write);
    RunAppend(s, fail, [ask0]);
    RunAppend(s, fail + [ask0], [ask1]);
    RunAppend(s, fail + [ask0] + [ask1], [write]);
    actions := fail + [ask0] + [ask1] + [write];
  }

  /** Thread 1 succeeds and closes the circuit; then thread 0 writes HALF_OPEN over it. */
  lemma StaleUpgradeOccurs(threshold: int, cooldown: nat) returns (actions: seq<Action>, a: Action)
    ensures var s := Start(threshold, cooldown);
            Initial(s) && Run(s, actions) && Possible(End(s, actions), a) &&
            StaleUpgradeOfClosed(End(s, actions).breaker, a, Act(End(s, actions), a).breaker)
  {
    var s, both, report := Start(threshold, cooldown), BothRetry(threshold, cooldown), Succeed(1, cooldown + 1);
    var before := ReachBothRetry(threshold, cooldown);
    RunOne(both, report);
    RunAppend(s, before, [report]);
    actions, a := before + [report], Upgrade(0, cooldown + 1);
  }

  /** Thread 1 fails and opens the circuit anew; then thread 0 writes HALF_OPEN although the cooldown has just begun. */
  lemma EarlyUpgradeOccurs(threshold: int, cooldown: nat) returns (actions: seq<Action>, a: Action)
    ensures var s := Start(threshold, cooldown);
            Initial(s) && Run(s, actions) && Possible(End(s, actions), a) &&
            EarlyUpgrade(End(s, actions).breaker, a, Act(End(s, actions), a).breaker)
  {
    var s, both, report := Start(threshold, cooldown), BothRetry(threshold, cooldown), Fail(1, cooldown + 1);
    var before := ReachBothRetry(threshold, cooldown);
    RunOne(both, report);
    RunAppend(s, before, [report]);
    actions, a := before + [report], Upgrade(0, cooldown + 1);
  }
}

/**
 How many calls the breaker lets through to a renderer that always fails, with `Allow` atomic and each worker making
 one call at a time.
 */
module BreakerAdmission {
  import opened Basics
  import opened CircuitBreaker
  import JobTable

  /**
   Workers are 0..workers-1. `tripped` and `reopened` observe the first trip and the later OPEN -> HALF_OPEN edges.
   */
  datatype Load = Load(
    breaker: Breaker,
    workers: nat,
    inFlight: set<JobTable.WorkerId>,
    admitted: nat,
    clock: int,
    tripped: Option<int>,
    reopened: nat)

  datatype Action = Dial(w: JobTable.WorkerId, now: int) | Fail(w: JobTable.WorkerId, now: int)

  predicate Possible(l: Load, a: Action) {
    && a.now >= l.clock
    && a.w < l.workers
    && (a.Dial? <==> a.w !in l.inFlight)
  }

  function Act(l: Load, a: Action): Load
    requires Possible(l, a)
  {
    match a
    case Dial(w, now) =>
      if Admits(l.breaker, now)
      then l.(breaker := Asked(l.breaker, now), inFlight := l.inFlight + {w}, admitted := l.admitted + 1, clock := now,
              reopened := l.reopened + if l.breaker.state.Open? then 1 else 0)
      else l.(clock := now)
    case Fail(w, now) =>
      var b := Failed(l.breaker, now);
      l.(breaker := b, inFlight := l.inFlight - {w}, clock := now,
         tripped := if l.tripped.None? && b.state.Open? then Some(now) else l.tripped)
  }

  ghost predicate Run(l: Load, actions: seq<Action>)
    decreases |actions|
  {
    actions == [] || (Possible(l, actions[0]) && Run(Act(l, actions[0]), actions[1..]))
  }

  ghost function End(l: Load, actions: seq<Action>): Load
    requires Run(l, actions)
    decreases |actions|
  {
    if actions == [] then l else End(Act(l, actions[0]), actions[1..])
  }

  function Fresh(threshold: int, cooldown: nat, workers: nat, now: int): Load {
    Load(New(threshold, cooldown), workers, {}, 0, now, None, 0)
  }

  /** Admissions before the first trip, plus one per worker and period, as far as the breaker has come. */
  ghost predicate WithinBudget(l: Load) {
    var n, k, w := Limit(l.breaker) - 1, l.reopened, l.workers;
    && l.breaker.cooldown >= 0
    && (forall x :: x in l.inFlight ==> x < w)
    && |l.inFlight| <= w
    && match l.breaker.state
       case Closed =>
         && l.tripped.None? && k == 0
         && l.breaker.failures <= n && l.admitted == l.breaker.failures + |l.inFlight|
       case Open =>
         && l.admitted <= n + w * (1 + k)
         && l.tripped.Some?
         && l.tripped.value + k * l.breaker.cooldown + (if k > 0 then 1 else 0) <= l.breaker.lastFailure <= l.clock
       case HalfOpen =>
         && k > 0
         && l.admitted <= n + w * k + |l.inFlight|
         && l.tripped.Some?
         && l.tripped.value + k * l.breaker.cooldown < l.clock
  }

  lemma {:induction false} InFlightSize(s: set<JobTable.WorkerId>, w: nat)
    requires forall x :: x in s ==> x < w
    ensures |s| <= w
    decreases w
  {
    if w == 0 {
      assert s == {};
    } else {
      InFlightSize(s - {w - 1}, w - 1);
    }
  }

  lemma DialKeepsBudget(l: Load, w: JobTable.WorkerId, now: int)
    requires WithinBudget(l) && Possible(l, Dial(w, now))
    ensures WithinBudget(Act(l, Dial(w, now)))
  {
    var l' := Act(l, Dial(w, now));
    InFlightSize(l'.inFlight, l.workers);
    if l.breaker.state.Open? && Admits(l.breaker, now) {
      assert l.workers * l'.reopened == l.workers * (1 + l.reopened);
      assert (l.reopened + 1) * l.breaker.cooldown == l.reopened * l.breaker.cooldown + l.breaker.cooldown;
    }
  }

  lemma FailKeepsBudget(l: Load, w: JobTable.WorkerId, now: int)
    requires WithinBudget(l) && Possible(l, Fail(w, now))
    ensures WithinBudget(Act(l, Fail(w, now)))
  {
    var l' := Act(l, Fail(w, now));
    InFlightSize(l'.inFlight, l.workers);
    assert |l'.inFlight| == |l.inFlight| - 1;
    assert l.workers * (1 + l.reopened) == l.workers * l.reopened + l.workers;
  }

  lemma {:induction false} RunKeepsBudget(l: Load, actions: seq<Action>)
    requires WithinBudget(l) && Run(l, actions)
    ensures WithinBudget(End(l, actions))
    decreases |actions|
  {
    if actions != [] {
      match actions[0] {
        case Dial(w, now) => DialKeepsBudget(l, w, now);
        case Fail(w, now) => FailKeepsBudget(l, w, now);
      }
      RunKeepsBudget(Act(l, actions[0]), actions[1..]);
    }
  }

  /**
   Against a renderer that always fails, at most (limit - 1) + workers * (1 + k) calls are admitted, where k is the
   number of times the circuit was tried again, and k cooldowns have passed since it first tripped.
   */
  lemma AdmissionBound(threshold: int, cooldown: nat, workers: nat, start: int, actions: seq<Action>)
    requires Run(Fresh(threshold, cooldown, workers, start), actions)
    ensures var e := End(Fresh(threshold, cooldown, workers, start), actions);
            && e.admitted <= Max(threshold, 1) - 1 + workers * (1 + e.reopened)
            && (e.reopened == 0 || (e.tripped.Some? && e.reopened * cooldown < e.clock - e.tripped.value))
  {
    var l := Fresh(threshold, cooldown, workers, start);
    RunKeepsBudget(l, actions);
    RunKeepsSetup(l, actions);
    var e := End(l, actions);
    assert workers * (1 + e.reopened) == workers + workers * e.reopened;
    assert workers * e.reopened >= 0;
  }

  lemma {:induction false} RunKeepsSetup(l: Load, actions: seq<Action>)
    requires Run(l, actions)
    ensures End(l, actions).workers == l.workers
    ensures End(l, actions).breaker.threshold == l.breaker.threshold
    ensures End(l, actions).breaker.cooldown == l.breaker.cooldown
    decreases |actions|
  {
    if actions != [] {
      RunKeepsSetup(Act(l, actions[0]), actions[1..]);
    }
  }

  // ---------------------------------------------------------------- the bound is reached

  function Upto(n: nat): (s: set<JobTable.WorkerId>)
    ensures forall x: nat :: x in s <==> x < n
  {
    if n == 0 then {} else Upto(n - 1) + {n - 1}
  }

  lemma {:induction false} RunAppend(l: Load, x: seq<Action>, y: seq<Action>)
    requires Run(l, x) && Run(End(l, x), y)
    ensures Run(l, x + y) && End(l, x + y) == End(End(l, x), y)
    decreases |x|
  {
    if x == [] {
      assert x + y == y;
    } else {
      assert (x + y)[1..] == x[1..] + y;
      RunAppend(Act(l, x[0]), x[1..], y);
    }
  }

  lemma RunCons(l: Load, a: Action, rest: seq<Action>)
    requires Possible(l, a) && Run(Act(l, a), rest)
    ensures Run(l, [a] + rest) && End(l, [a] + rest) == End(Act(l, a), rest)
  {
    assert ([a] + rest)[1..] == rest;
  }

  /** All workers from the `n`-th on dial, and are admitted. */
  lemma {:induction false} AllDial(l: Load, n: nat) returns (actions: seq<Action>)
    requires n <= l.workers && l.inFlight == Upto(n) && !l.breaker.state.Open?
    ensures Run(l, actions)
    ensures End(l, actions) == l.(inFlight := Upto(l.workers), admitted := l.admitted + l.workers - n)
    decreases l.workers - n
  {
    if n == l.workers {
      actions := [];
    } else {
      var a := Dial(n, l.clock);
      assert l.inFlight + {n} == Upto(n + 1);
      var rest := AllDial(Act(l, a), n + 1);
      RunCons(l, a, rest);
      actions := [a] + rest;
    }
  }

  /** With the circuit open, the calls still in flight fail one by one. */
  lemma {:induction false} AllFail(l: Load, n: nat) returns (actions: seq<Action>)
    requires n <= l.workers && l.inFlight == Upto(n) && l.breaker.state.Open? && l.tripped.Some?
    requires l.breaker.failures >= l.breaker.threshold && l.breaker.lastFailure == l.clock
    ensures Run(l, actions)
    ensures End(l, actions) == l.(inFlight := {}, breaker := l.breaker.(failures := l.breaker.failures + n))
    decreases n
  {
    if n == 0 {
      actions := [];
    } else {
      var a := Fail(n - 1, l.clock);
      assert l.inFlight - {n - 1} == Upto(n - 1);
      var rest := AllFail(Act(l, a), n - 1);
      RunCons(l, a, rest);
      actions := [a] + rest;
    }
  }

  /** Worker 0 fails alone until the next failure would trip the circuit. */
  lemma {:induction false} FailAlone(l: Load) returns (actions: seq<Action>)
    requires l.workers > 0 && l.inFlight == {} && l.breaker.state.Closed? && l.breaker.failures < Limit(l.breaker)
    requires l.breaker.lastFailure == l.clock && l.tripped.None?
    ensures Run(l, actions)
    ensures var n := Limit(l.breaker) - 1;
            End(l, actions) == l.(breaker := l.breaker.(failures := n), admitted := l.admitted + n - l.breaker.failures)
    decreases Limit(l.breaker) - l.breaker.failures
  {
    if l.breaker.failures == Limit(l.breaker) - 1 {
      actions := [];
    } else {
      var ask, fail := Dial(0, l.clock), Fail(0, l.clock);
      var l1 := Act(l, ask);
      var l2 := Act(l1, fail);
      assert l2.inFlight == {};
      var rest := FailAlone(l2);
      RunCons(l1, fail, rest);
      RunCons(l, ask, [fail] + rest);
      actions := [ask] + ([fail] + rest);
    }
  }

  /** All workers in flight: the first failure opens the circuit, the others follow. */
  lemma FailTogether(l: Load) returns (actions: seq<Action>)
    requires l.workers > 0 && l.inFlight == Upto(l.workers) && !l.breaker.state.Open?
    requires l.breaker.failures + 1 >= l.breaker.threshold
    ensures Run(l, actions)
    ensures var f := l.breaker.failures + l.workers;
            End(l, actions) == l.(inFlight := {}, tripped := if l.tripped.None? then Some(l.clock) else l.tripped,
                                  breaker := l.breaker.(state := Open, failures := f, lastFailure := l.clock))
  {
    var a := Fail(l.workers - 1, l.clock);
    assert l.inFlight - {l.workers - 1} == Upto(l.workers - 1);
    var rest := AllFail(Act(l, a), l.workers - 1);
    RunCons(l, a, rest);
    actions := [a] + rest;
  }

  /** At rest with the circuit open after `k` retries, every bound used up. */
  ghost predicate Exhausted(l: Load, k: nat) {
    && l.inFlight == {} && l.breaker.state.Open? && l.tripped.Some? && l.reopened == k
    && l.breaker.failures >= l.breaker.threshold && l.breaker.lastFailure == l.clock
    && l.admitted == Limit(l.breaker) - 1 + l.workers * (1 + k)
  }

  lemma FirstTrip(threshold: int, cooldown: nat, workers: nat) returns (actions: seq<Action>)
    requires workers > 0
    ensures Run(Fresh(threshold, cooldown, workers, 0), actions)
    ensures Exhausted(End(Fresh(threshold, cooldown, workers, 0), actions), 0)
  {
    var l := Fresh(threshold, cooldown, workers, 0);
    var alone := FailAlone(l);
    var l1 := End(l, alone);
    var dial := AllDial(l1, 0);
    RunAppend(l, alone, dial);
    var l2 := End(l1, dial);
    var fail := FailTogether(l2);
    RunAppend(l, alone + dial, fail);
    actions := alone + dial + fail;
    assert workers * (1 + 0) == workers;
  }

  /** After the cooldown every worker is admitted once more before the first failure arrives. */
  lemma OneMoreRound(l: Load, k: nat) returns (actions: seq<Action>)
    requires Exhausted(l, k) && l.workers > 0 && l.breaker.cooldown >= 0
    ensures Run(l, actions) && Exhausted(End(l, actions), k + 1)
    ensures End(l, actions).workers == l.workers && End(l, actions).breaker.cooldown == l.breaker.cooldown
  {
    var first := Dial(0, l.clock + l.breaker.cooldown + 1);
    var l1 := Act(l, first);
    assert l1.inFlight == Upto(1) by { assert Upto(1) == Upto(0) + {0}; }
    var dial := AllDial(l1, 1);
    var l2 := End(l1, dial);
    var fail := FailTogether(l2);
    RunAppend(l1, dial, fail);
    RunCons(l, first, dial + fail);
    actions := [first] + (dial + fail);
    assert l.workers * (1 + (k + 1)) == l.workers * (1 + k) + l.workers;
  }

  /** For every number of workers and retries some run is admitted exactly as often as the bound allows. */
  lemma {:induction false} BoundIsReached(threshold: int, cooldown: nat, workers: nat, k: nat)
      returns (actions: seq<Action>)
    requires workers > 0
    ensures Run(Fresh(threshold, cooldown, workers, 0), actions)
    ensures var e := End(Fresh(threshold, cooldown, workers, 0), actions);
            e.reopened == k && e.admitted == Max(threshold, 1) - 1 + workers * (1 + k) && Exhausted(e, k)
  {
    var l := Fresh(threshold, cooldown, workers, 0);
    if k == 0 {
      actions := FirstTrip(threshold, cooldown, workers);
    } else {
      actions := BoundIsReached(threshold, cooldown, workers, k - 1);
      RunKeepsSetup(l, actions);
      var more := OneMoreRound(End(l, actions), k - 1);
      RunAppend(l, actions, more);
      actions := actions + more;
    }
    RunKeepsSetup(l, actions);
  }
}

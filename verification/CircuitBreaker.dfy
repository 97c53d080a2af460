/**
 The circuit breaker (internal/worker/circuit_breaker.go) with each method atomic: what its state says about the
 history of calls, and that serialised calls refine the machine its documentation draws.
 */
module CircuitBreaker {
  import opened Basics

  datatype CircuitState = Closed | Open | HalfOpen

  datatype Breaker = Breaker(state: CircuitState, failures: nat, threshold: int, cooldown: int, lastFailure: int)

  function New(threshold: int, cooldown: int): Breaker {
    Breaker(Closed, 0, threshold, cooldown, 0)
  }

  predicate Cooled(b: Breaker, now: int) {
    now - b.lastFailure > b.cooldown
  }

  predicate Admits(b: Breaker, now: int) {
    b.state.Open? ==> Cooled(b, now)
  }

  function Asked(b: Breaker, now: int): Breaker {
    if b.state.Open? && Cooled(b, now) then b.(state := HalfOpen) else b
  }

  function Succeeded(b: Breaker): Breaker {
    b.(state := Closed, failures := 0)
  }

  function Failed(b: Breaker, now: int): Breaker {
    var f := b.(failures := b.failures + 1, lastFailure := now);
    if b.state.HalfOpen? || f.failures >= b.threshold then f.(state := Open) else f
  }

  /** Failures it takes to trip: a threshold below one acts like one. */
  function Limit(b: Breaker): nat {
    Max(b.threshold, 1)
  }

  /** The mutable object; the three fields that never change are constants. */
  class Circuit {
    var state: CircuitState
    var failureCount: nat
    const failureThreshold: int
    const cooldownPeriod: int
    var lastFailureTime: int

    function View(): Breaker
      reads this
    {
      Breaker(state, failureCount, failureThreshold, cooldownPeriod, lastFailureTime)
    }

    constructor (threshold: int, cooldown: int)
      ensures View() == New(threshold, cooldown)
      ensures state == Closed && failureCount == 0 && failureThreshold == threshold && cooldownPeriod == cooldown
    {
      state, failureCount, failureThreshold, cooldownPeriod, lastFailureTime := Closed, 0, threshold, cooldown, 0;
    }

    method Allow(now: int) returns (ok: bool)
      modifies this
      ensures ok == Admits(old(View()), now)
      ensures View() == Asked(old(View()), now)
      ensures ok <==> (old(state) == Open ==> now - old(lastFailureTime) > cooldownPeriod)
      ensures state == if ok && old(state) == Open then HalfOpen else old(state)
      ensures failureCount == old(failureCount) && lastFailureTime == old(lastFailureTime)
    {
      match state
      case Closed => return true;
      case Open =>
        if now - lastFailureTime > cooldownPeriod {
          state := HalfOpen;
          return true;
        }
        return false;
      case HalfOpen => return true;
    }

    method RecordSuccess()
      modifies this
      ensures View() == Succeeded(old(View()))
      ensures state == Closed && failureCount == 0 && lastFailureTime == old(lastFailureTime)
    {
      failureCount := 0;
      state := Closed;
    }

    method RecordFailure(now: int)
      modifies this
      ensures View() == Failed(old(View()), now)
      ensures failureCount == old(failureCount) + 1 && lastFailureTime == now
      ensures state == if old(state) == HalfOpen || failureCount >= failureThreshold then Open else old(state)
    {
      failureCount := failureCount + 1;
      lastFailureTime := now;
      if state == HalfOpen || failureCount >= failureThreshold {
        state := Open;
      }
    }
  }

  // ---------------------------------------------------------------- the state is a function of history

  datatype Event = Ask(now: int) | Success | Failure(now: int)

  function Step(b: Breaker, e: Event): Breaker {
    match e
    case Ask(now) => Asked(b, now)
    case Success => Succeeded(b)
    case Failure(now) => Failed(b, now)
  }

  function After(b: Breaker, trace: seq<Event>): Breaker {
    if trace == [] then b else Step(After(b, trace[..|trace| - 1]), trace[|trace| - 1])
  }

  /** Failures recorded since the last success. */
  function FailuresSince(trace: seq<Event>): nat {
    if trace == [] || trace[|trace| - 1].Success? then 0
    else FailuresSince(trace[..|trace| - 1]) + if trace[|trace| - 1].Failure? then 1 else 0
  }

  function LastFailure(trace: seq<Event>): int {
    if trace == [] then 0
    else if trace[|trace| - 1].Failure? then trace[|trace| - 1].now
    else LastFailure(trace[..|trace| - 1])
  }

  /** Somebody has asked, since the last failure, after the cooldown. */
  predicate Retried(trace: seq<Event>, cooldown: int) {
    if trace == [] || !trace[|trace| - 1].Ask? then false
    else
      var before := trace[..|trace| - 1];
      trace[|trace| - 1].now - LastFailure(before) > cooldown || Retried(before, cooldown)
  }

  function StateOf(trace: seq<Event>, limit: nat, cooldown: int): CircuitState {
    if FailuresSince(trace) < limit then Closed
    else if Retried(trace, cooldown) then HalfOpen
    else Open
  }

  /**
   For every sequence of calls, every threshold and every clock: CLOSED exactly while fewer failures than the limit
   followed the last success, otherwise HALF_OPEN exactly if somebody asked after the cooldown of the last failure.
   */
  lemma {:induction false} StateIsHistory(threshold: int, cooldown: int, trace: seq<Event>)
    ensures var b := After(New(threshold, cooldown), trace);
            && b.threshold == threshold && b.cooldown == cooldown
            && b.failures == FailuresSince(trace)
            && b.lastFailure == LastFailure(trace)
            && b.state == StateOf(trace, Max(threshold, 1), cooldown)
  {
    if trace != [] {
      StateIsHistory(threshold, cooldown, trace[..|trace| - 1]);
    }
  }

  /** A call is refused exactly while the circuit has tripped, nobody has retried, and the cooldown is not over. */
  lemma RefusedExactly(threshold: int, cooldown: int, trace: seq<Event>, now: int)
    ensures !Admits(After(New(threshold, cooldown), trace), now) <==>
            && FailuresSince(trace) >= Max(threshold, 1)
            && !Retried(trace, cooldown)
            && now <= LastFailure(trace) + cooldown
  {
    StateIsHistory(threshold, cooldown, trace);
  }

  // ---------------------------------------------------------------- serialised calls

  datatype Outcome = NoRecord | Worked | Broke(at: int)

  /** One call: the question, and if it is admitted its recorded outcome, before the next call asks. */
  datatype Call = Call(askedAt: int, outcome: Outcome)

  function Recorded(b: Breaker, outcome: Outcome): Breaker {
    match outcome
    case NoRecord => b
    case Worked => Succeeded(b)
    case Broke(at) => Failed(b, at)
  }

  function Called(b: Breaker, c: Call): Breaker {
    if Admits(b, c.askedAt) then Recorded(Asked(b, c.askedAt), c.outcome) else b
  }

  function AfterCalls(b: Breaker, calls: seq<Call>): Breaker {
    if calls == [] then b else Called(AfterCalls(b, calls[..|calls| - 1]), calls[|calls| - 1])
  }

  /** The machine of the documentation: its four edges, and nothing else moves it. */
  datatype Machine = MClosed(consecutive: nat) | MOpen(since: int) | MHalfOpen

  predicate MachineAdmits(m: Machine, cooldown: int, now: int) {
    m.MOpen? ==> now > m.since + cooldown
  }

  function MachineCalled(m: Machine, limit: nat, cooldown: int, c: Call): Machine {
    if !MachineAdmits(m, cooldown, c.askedAt) then m
    else
      var asked := if m.MOpen? then MHalfOpen else m;
      match (asked, c.outcome)
      case (MClosed(_), Worked) => MClosed(0)
      case (MClosed(n), Broke(at)) => if n + 1 == limit then MOpen(at) else MClosed(n + 1)
      case (MHalfOpen, Worked) => MClosed(0)
      case (MHalfOpen, Broke(at)) => MOpen(at)
      case _ => asked
  }

  function MachineAfter(limit: nat, cooldown: int, calls: seq<Call>): Machine {
    if calls == [] then MClosed(0)
    else MachineCalled(MachineAfter(limit, cooldown, calls[..|calls| - 1]), limit, cooldown, calls[|calls| - 1])
  }

  function Abstract(b: Breaker): Machine {
    match b.state
    case Closed => MClosed(b.failures)
    case Open => MOpen(b.lastFailure)
    case HalfOpen => MHalfOpen
  }

  /** One call at a time, the code is the documented machine: same states, and the same answer to every call. */
  lemma {:induction false} SerialRefinesMachine(threshold: int, cooldown: int, calls: seq<Call>, now: int)
    ensures var b, m := AfterCalls(New(threshold, cooldown), calls), MachineAfter(Max(threshold, 1), cooldown, calls);
            && b.threshold == threshold && b.cooldown == cooldown
            && (b.state.Closed? ==> b.failures < Limit(b))
            && Abstract(b) == m
            && (Admits(b, now) <==> MachineAdmits(m, cooldown, now))
  {
    if calls != [] {
      var before, c := calls[..|calls| - 1], calls[|calls| - 1];
      SerialRefinesMachine(threshold, cooldown, before, c.askedAt);
    }
  }

  /** HALF_OPEN does not mean a single trial: it admits any number of calls until one of them reports back. */
  lemma {:induction false} HalfOpenAdmitsAll(b: Breaker, asks: seq<Event>)
    requires b.state.HalfOpen? && forall k :: 0 <= k < |asks| ==> asks[k].Ask?
    ensures After(b, asks) == b && forall k :: 0 <= k < |asks| ==> Admits(After(b, asks[..k]), asks[k].now)
    decreases |asks|
  {
    if asks != [] {
      var before := asks[..|asks| - 1];
      HalfOpenAdmitsAll(b, before);
      forall k | 0 <= k < |asks|
        ensures Admits(After(b, asks[..k]), asks[k].now)
      {
        if k < |before| {
          assert asks[..k] == before[..k];
          assert before[k] == asks[k];
        } else {
          assert asks[..k] == before;
        }
      }
    }
  }
}

/**
 The two queues: a bounded Go channel (internal/queue/channel.go) and RabbitMQ with a local buffer
 (internal/queue/rabbitmq.go).
 */
module Queues {
  import opened Basics
  import opened JobTable

  datatype PublishResult = Enqueued | QueueFull | Panicked

  class ChannelQueue {
    const capacity: nat
    var buffer: seq<JobId>
    var closed: bool

    ghost predicate Valid()
      reads this
    {
      |buffer| <= capacity
    }

    constructor (queueSize: nat)
      ensures Valid() && capacity == queueSize && buffer == [] && !closed
    {
      capacity, buffer, closed := queueSize, [], false;
    }

    /** Never blocks: a full channel refuses the id and stays as it is. Sending on a closed channel panics. */
    method Publish(id: JobId) returns (r: PublishResult)
      requires Valid()
      modifies this
      ensures Valid() && closed == old(closed)
      ensures r == if closed then Panicked else if |old(buffer)| < capacity then Enqueued else QueueFull
      ensures buffer == if r == Enqueued then old(buffer) + [id] else old(buffer)
    {
      if closed {
        return Panicked;
      }
      if |buffer| == capacity {
        return QueueFull;
      }
      buffer := buffer + [id];
      return Enqueued;
    }

    /** A worker's receive; None once the channel is closed and drained. */
    method Receive() returns (r: Option<JobId>)
      requires Valid() && (buffer != [] || closed)
      modifies this
      ensures Valid() && closed == old(closed)
      ensures old(buffer) != [] ==> r == Some(old(buffer)[0]) && buffer == old(buffer)[1..]
      ensures old(buffer) == [] ==> r == None && buffer == []
    {
      if buffer == [] {
        return None;
      }
      r, buffer := Some(buffer[0]), buffer[1..];
    }

    method Depth() returns (n: nat)
      ensures n == |buffer|
    {
      n := |buffer|;
    }

    /** Ids still buffered stay receivable. Closing twice panics. */
    method Close() returns (panicked: bool)
      requires Valid()
      modifies this
      ensures Valid() && closed && buffer == old(buffer)
      ensures panicked <==> old(closed)
    {
      panicked := closed;
      closed := true;
    }
  }

  // ---------------------------------------------------------------- RabbitMQ

  /** A message the broker has accepted, and the job id its body parses to, if it parses at all. */
  datatype Message = Message(mid: nat, job: Option<JobId>)

  /** The one message the broker has handed to the bridge and not yet seen acknowledged or rejected. */
  datatype Delivery = NoDelivery | Delivered(message: Message, forwarded: bool)

  /**
   What became of the messages, by number: all there ever were, those acknowledged, dropped by the broker, rejected, and
   worked on. The two counts and the backlog `carried` are those of the process that runs now.
   */
  datatype Log = Log(
    all: set<nat>,
    acked: set<nat>,
    dropped: set<nat>,
    rejected: set<nat>,
    done: multiset<nat>,
    droppedCount: nat,
    rejectedCount: nat,
    carried: nat)

  /**
   The broker's queue, of which at most `limit` messages wait; the bridge's local buffer and its depth counter; and the
   messages in the hands of workers. The program keeps of a buffered message only its job id.
   */
  datatype Rabbit = Rabbit(
    limit: nat,
    ready: seq<Message>,
    delivery: Delivery,
    jobChan: seq<Message>,
    closed: bool,
    hands: set<Message>,
    depth: int,
    log: Log)

  function Mids(messages: seq<Message>): set<nat> {
    set i | 0 <= i < |messages| :: messages[i].mid
  }

  function InHand(r: Rabbit): set<nat> {
    set m | m in r.hands :: m.mid
  }

  function InDelivery(r: Rabbit): set<nat> {
    if r.delivery.Delivered? then {r.delivery.message.mid} else {}
  }

  predicate Distinct(messages: seq<Message>) {
    forall i, j :: 0 <= i < j < |messages| ==> messages[i].mid != messages[j].mid
  }

  /** A process starting on a broker that already holds `backlog`. */
  function Started(limit: nat, backlog: seq<Message>): Rabbit {
    Rabbit(limit, backlog, NoDelivery, [], false, {}, 0, Log(Mids(backlog), {}, {}, {}, multiset{}, 0, 0, |backlog|))
  }

  /**
   Publish: always accepted. The declaration sets x-max-length and no overflow policy, so past the limit the oldest
   waiting messages are dropped.
   */
  function Published(r: Rabbit, m: Message): Rabbit {
    var all := r.ready + [m];
    var over := Max(0, |all| - r.limit);
    r.(ready := all[over..], depth := r.depth + 1,
       log := r.log.(all := r.log.all + {m.mid}, dropped := r.log.dropped + Mids(all[..over]),
                     droppedCount := r.log.droppedCount + over))
  }

  function Delivering(r: Rabbit): Rabbit
    requires r.ready != []
  {
    r.(ready := r.ready[1..], delivery := Delivered(r.ready[0], false))
  }

  /** Nack without requeueing: the message is gone, and the counter does not learn of it. */
  function Rejected(r: Rabbit): Rabbit
    requires r.delivery.Delivered?
  {
    r.(delivery := NoDelivery,
       log := r.log.(rejected := r.log.rejected + InDelivery(r), rejectedCount := r.log.rejectedCount + 1))
  }

  function Forwarded(r: Rabbit): Rabbit
    requires r.delivery.Delivered?
  {
    r.(delivery := r.delivery.(forwarded := true), jobChan := r.jobChan + [r.delivery.message])
  }

  function Acked(r: Rabbit): Rabbit
    requires r.delivery.Delivered?
  {
    r.(delivery := NoDelivery, depth := r.depth - 1, log := r.log.(acked := r.log.acked + InDelivery(r)))
  }

  function Taken(r: Rabbit): Rabbit
    requires r.jobChan != []
  {
    r.(jobChan := r.jobChan[1..], hands := r.hands + {r.jobChan[0]})
  }

  function Finished(r: Rabbit, m: Message): Rabbit {
    r.(hands := r.hands - {m}, log := r.log.(done := r.log.done + multiset{m.mid}))
  }

  /**
   The process dies and starts again. The broker takes an unacknowledged message back to where it was; the buffer and
   whatever the workers were doing is gone; the counter starts at zero.
   */
  function Restarted(r: Rabbit): Rabbit {
    var ready := if r.delivery.Delivered? then [r.delivery.message] + r.ready else r.ready;
    r.(ready := ready, delivery := NoDelivery, jobChan := [], closed := false, hands := {}, depth := 0,
       log := r.log.(droppedCount := 0, rejectedCount := 0, carried := |ready|))
  }

  datatype Action =
    | Publish(m: Message)
    | Deliver
    | Reject
    | Forward
    | Ack
    | Stop
    | Take
    | Finish(m: Message)
    | Crash

  predicate CanForward(r: Rabbit) {
    r.delivery.Delivered? && r.delivery.message.job.Some? && !r.delivery.forwarded && |r.jobChan| < r.limit
  }

  predicate Possible(r: Rabbit, a: Action) {
    match a
    case Publish(m) => m.mid !in r.log.all && m.job.Some?
    case Deliver => r.delivery.NoDelivery? && r.ready != [] && !r.closed
    case Reject => r.delivery.Delivered? && r.delivery.message.job.None?
    case Forward => CanForward(r)
    case Ack => r.delivery.Delivered? && r.delivery.forwarded
    case Stop => r.delivery.NoDelivery?
    case Take => r.jobChan != []
    case Finish(m) => m in r.hands
    case Crash => true
  }

  function Act(r: Rabbit, a: Action): Rabbit
    requires Possible(r, a)
  {
    match a
    case Publish(m) => Published(r, m)
    case Deliver => Delivering(r)
    case Reject => Rejected(r)
    case Forward => Forwarded(r)
    case Ack => Acked(r)
    case Stop => r.(closed := true)
    case Take => Taken(r)
    case Finish(m) => Finished(r, m)
    case Crash => Restarted(r)
  }

  ghost predicate Run(r: Rabbit, actions: seq<Action>)
    decreases |actions|
  {
    actions == [] || (Possible(r, actions[0]) && Run(Act(r, actions[0]), actions[1..]))
  }

  ghost function End(r: Rabbit, actions: seq<Action>): Rabbit
    requires Run(r, actions)
    decreases |actions|
  {
    if actions == [] then r else End(Act(r, actions[0]), actions[1..])
  }

  // ---------------------------------------------------------------- what becomes of a message

  /** The counter, exactly: the backlog, plus every message it never counted down, minus those it never counted up. */
  predicate DepthLaw(r: Rabbit) {
    r.depth == |r.ready| + |InDelivery(r)| + r.log.droppedCount + r.log.rejectedCount - r.log.carried
  }

  predicate Parts(all: set<nat>, open: set<nat>, acked: set<nat>, dropped: set<nat>, rejected: set<nat>) {
    && all == open + acked + dropped + rejected
    && open !! acked && open !! dropped && open !! rejected
    && acked !! dropped && acked !! rejected && dropped !! rejected
  }

  /** Waiting, or delivered. */
  function Open(r: Rabbit): set<nat> {
    Mids(r.ready) + InDelivery(r)
  }

  /** Every message is in exactly one state at the broker: waiting, delivered, acknowledged, dropped or rejected. */
  ghost predicate OneState(r: Rabbit) {
    && Distinct(r.ready) && Mids(r.ready) !! InDelivery(r)
    && Parts(r.log.all, Open(r), r.log.acked, r.log.dropped, r.log.rejected)
  }

  function Done(r: Rabbit): set<nat> {
    set n | n in r.log.done
  }

  /** In the buffer or in a worker's hands. */
  function Inside(r: Rabbit): set<nat> {
    Mids(r.jobChan) + InHand(r)
  }

  /** What the process has inside comes from forwarded deliveries; and what is forwarded is inside, or done. */
  ghost predicate Traced(r: Rabbit) {
    && (forall n :: n in Inside(r) ==>
          n in r.log.acked || (r.delivery.Delivered? && r.delivery.forwarded && n == r.delivery.message.mid))
    && (r.delivery.Delivered? && r.delivery.forwarded ==>
          r.delivery.message.job.Some? && r.delivery.message.mid in Inside(r) + Done(r))
  }

  ghost predicate Accounted(r: Rabbit) {
    DepthLaw(r) && OneState(r) && Traced(r)
  }

  lemma MidsAppend(a: seq<Message>, b: seq<Message>)
    ensures Mids(a + b) == Mids(a) + Mids(b)
  {
    forall n | n in Mids(a) + Mids(b)
      ensures n in Mids(a + b)
    {
      if n in Mids(a) {
        var i :| 0 <= i < |a| && a[i].mid == n;
        assert (a + b)[i].mid == n;
      } else {
        var i :| 0 <= i < |b| && b[i].mid == n;
        assert (a + b)[|a| + i].mid == n;
      }
    }
  }

  lemma MidsSplit(messages: seq<Message>, k: nat)
    requires k <= |messages|
    ensures Mids(messages) == Mids(messages[..k]) + Mids(messages[k..])
    ensures Distinct(messages) ==> Mids(messages[..k]) !! Mids(messages[k..])
  {
    assert messages == messages[..k] + messages[k..];
    MidsAppend(messages[..k], messages[k..]);
  }

  lemma MidsOne(m: Message)
    ensures Mids([m]) == {m.mid}
  {
    assert [m][0] == m;
  }

  lemma HeadSplit(messages: seq<Message>)
    requires messages != []
    ensures Mids(messages) == {messages[0].mid} + Mids(messages[1..])
    ensures Distinct(messages) ==> messages[0].mid !in Mids(messages[1..]) && Distinct(messages[1..])
  {
    MidsSplit(messages, 1);
    assert messages[..1] == [messages[0]];
    MidsOne(messages[0]);
  }

  lemma DistinctSnoc(messages: seq<Message>, m: Message)
    requires Distinct(messages) && m.mid !in Mids(messages)
    ensures Distinct(messages + [m])
  {
    forall i | 0 <= i < |messages|
      ensures messages[i].mid != m.mid
    {
      assert messages[i].mid in Mids(messages);
    }
  }

  lemma DistinctCons(m: Message, messages: seq<Message>)
    requires Distinct(messages) && m.mid !in Mids(messages)
    ensures Distinct([m] + messages)
  {
    forall i | 0 <= i < |messages|
      ensures messages[i].mid != m.mid
    {
      assert messages[i].mid in Mids(messages);
    }
  }

  lemma Arrives(all: set<nat>, open: set<nat>, acked: set<nat>, dropped: set<nat>, rejected: set<nat>,
                added: set<nat>, kept: set<nat>, over: set<nat>)
    requires Parts(all, open, acked, dropped, rejected) && added !! all
    requires kept + over == open + added && kept !! over
    ensures Parts(all + added, kept, acked, dropped + over, rejected)
  {
  }

  lemma PublishKeepsState(r: Rabbit, m: Message)
    requires OneState(r) && Possible(r, Publish(m))
    ensures OneState(Published(r, m))
  {
    var all := r.ready + [m];
    var over := Max(0, |all| - r.limit);
    MidsAppend(r.ready, [m]);
    MidsOne(m);
    DistinctSnoc(r.ready, m);
    MidsSplit(all, over);
    if over == |all| {
      assert Mids(all[over..]) == {};
      assert m.mid !in InDelivery(r);
      assert all == r.ready + [m] && over == |r.ready| + 1;
    }
    var d := InDelivery(r);
    assert Mids(all) == Mids(r.ready) + {m.mid} && m.mid !in d;
    assert Mids(all[over..]) + d + Mids(all[..over]) == Open(r) + {m.mid};
    Arrives(r.log.all, Open(r), r.log.acked, r.log.dropped, r.log.rejected, {m.mid}, Mids(all[over..]) + d,
            Mids(all[..over]));
  }

  lemma CrashKeepsState(r: Rabbit)
    requires OneState(r)
    ensures OneState(Restarted(r)) && Open(Restarted(r)) == Open(r)
  {
    if r.delivery.Delivered? {
      MidsAppend([r.delivery.message], r.ready);
      MidsOne(r.delivery.message);
      DistinctCons(r.delivery.message, r.ready);
    }
  }

  lemma StateKept(r: Rabbit, a: Action)
    requires OneState(r) && Possible(r, a)
    ensures OneState(Act(r, a))
  {
    match a
    case Publish(m) => PublishKeepsState(r, m);
    case Deliver =>
      HeadSplit(r.ready);
      assert Open(Delivering(r)) == Open(r);
    case Reject => assert Open(Rejected(r)) == Open(r) - InDelivery(r);
    case Ack => assert Open(Acked(r)) == Open(r) - InDelivery(r);
    case Crash => CrashKeepsState(r);
    case _ => assert Open(Act(r, a)) == Open(r);
  }

  lemma DepthKept(r: Rabbit, a: Action)
    requires DepthLaw(r) && Possible(r, a)
    ensures DepthLaw(Act(r, a))
  {
  }

  lemma TakeKeeps(r: Rabbit)
    requires r.jobChan != []
    ensures Inside(Taken(r)) == Inside(r)
  {
    HeadSplit(r.jobChan);
    forall n | n in InHand(r) + {r.jobChan[0].mid}
      ensures n in InHand(Taken(r))
    {
      if n in InHand(r) {
        var m :| m in r.hands && m.mid == n;
        assert m in Taken(r).hands;
      } else {
        assert r.jobChan[0] in Taken(r).hands;
      }
    }
  }

  lemma FinishKeeps(r: Rabbit, m: Message)
    requires m in r.hands
    ensures Inside(Finished(r, m)) <= Inside(r) <= Inside(Finished(r, m)) + {m.mid}
    ensures Done(Finished(r, m)) == Done(r) + {m.mid}
  {
    forall n | n in InHand(r) && n != m.mid
      ensures n in InHand(Finished(r, m))
    {
      var x :| x in r.hands && x.mid == n;
      assert x in Finished(r, m).hands;
    }
  }

  lemma ForwardKeeps(r: Rabbit)
    requires r.delivery.Delivered?
    ensures Inside(Forwarded(r)) == Inside(r) + {r.delivery.message.mid}
  {
    MidsAppend(r.jobChan, [r.delivery.message]);
    MidsOne(r.delivery.message);
    assert Mids(Forwarded(r).jobChan) == Mids(r.jobChan) + {r.delivery.message.mid};
  }

  /** How a step changes what is inside and what is done. */
  lemma InsideAfter(r: Rabbit, a: Action)
    requires Possible(r, a)
    ensures Done(Act(r, a)) == if a.Finish? then Done(r) + {a.m.mid} else Done(r)
    ensures a.Forward? ==> Inside(Act(r, a)) == Inside(r) + {r.delivery.message.mid}
    ensures a.Finish? ==> Inside(Act(r, a)) <= Inside(r) <= Inside(Act(r, a)) + {a.m.mid}
    ensures a.Crash? ==> Inside(Act(r, a)) == {} && !Act(r, a).closed && Act(r, a).delivery.NoDelivery?
    ensures !a.Forward? && !a.Finish? && !a.Crash? ==> Inside(Act(r, a)) == Inside(r)
  {
    match a
    case Forward => ForwardKeeps(r);
    case Take => TakeKeeps(r);
    case Finish(m) => FinishKeeps(r, m);
    case _ =>
  }

  lemma TracedKept(r: Rabbit, a: Action)
    requires Traced(r) && Possible(r, a)
    ensures Traced(Act(r, a))
  {
    InsideAfter(r, a);
  }

  lemma ActAccounted(r: Rabbit, a: Action)
    requires Accounted(r) && Possible(r, a)
    ensures Accounted(Act(r, a))
  {
    DepthKept(r, a);
    StateKept(r, a);
    TracedKept(r, a);
  }

  lemma {:induction false} RunAccounted(r: Rabbit, actions: seq<Action>)
    requires Accounted(r) && Run(r, actions)
    ensures Accounted(End(r, actions))
    decreases |actions|
  {
    if actions != [] {
      ActAccounted(r, actions[0]);
      RunAccounted(Act(r, actions[0]), actions[1..]);
    }
  }

  /**
   In every run, through any number of crashes, every message is in exactly one state at the broker; and the depth
   counter tells the broker's backlog exactly if what it missed since the last start makes up for what it found then.
   */
  lemma RabbitAccounts(limit: nat, backlog: seq<Message>, actions: seq<Action>)
    requires Distinct(backlog) && Run(Started(limit, backlog), actions)
    ensures var e := End(Started(limit, backlog), actions);
            && OneState(e)
            && (e.depth == |e.ready| + |InDelivery(e)| <==>
                e.log.droppedCount + e.log.rejectedCount == e.log.carried)
  {
    RunAccounted(Started(limit, backlog), actions);
  }

  // ---------------------------------------------------------------- at least once

  /** Every message is still on its way, or was worked on, or never reached the program. */
  ghost predicate NothingLost(r: Rabbit) {
    forall n :: n in r.log.all ==> Found(r, n)
  }

  ghost predicate Found(r: Rabbit, n: nat) {
    n in Open(r) || n in Inside(r) || n in Done(r) || n in r.log.dropped || n in r.log.rejected
  }

  /** Acknowledged, and neither worked on nor anywhere in the process. */
  ghost predicate Lost(r: Rabbit, n: nat) {
    n in r.log.acked && n !in Inside(r) && n !in Done(r)
  }

  ghost predicate NoneLost(r: Rabbit) {
    forall n :: !Lost(r, n)
  }

  lemma LossIsLost(r: Rabbit)
    requires OneState(r)
    ensures NothingLost(r) <==> NoneLost(r)
  {
    forall n
      ensures Lost(r, n) <==> !(n in r.log.all ==> Found(r, n))
    {
    }
  }

  /** The process has nothing in the buffer or in a worker's hands that is acknowledged and not yet worked on. */
  ghost predicate Unburdened(r: Rabbit) {
    forall n :: n in r.log.acked && n in Inside(r) ==> n in Done(r)
  }

  lemma ActLoses(r: Rabbit, a: Action, n: nat)
    requires Accounted(r) && Possible(r, a)
    ensures Lost(Act(r, a), n) <==>
            Lost(r, n) || (a.Crash? && n in r.log.acked && n in Inside(r) && n !in Done(r))
  {
    InsideAfter(r, a);
    if a.Finish? {
      assert a.m.mid in InHand(r);
    }
  }

  ghost predicate CleanCrashes(r: Rabbit, actions: seq<Action>)
    requires Run(r, actions)
    decreases |actions|
  {
    actions == [] ||
    ((actions[0].Crash? ==> Unburdened(r)) && CleanCrashes(Act(r, actions[0]), actions[1..]))
  }

  lemma ActKeepsLoss(r: Rabbit, a: Action)
    requires Accounted(r) && Possible(r, a)
    ensures NoneLost(Act(r, a)) <==> NoneLost(r) && (a.Crash? ==> Unburdened(r))
  {
    forall n
      ensures Lost(Act(r, a), n) <==>
              Lost(r, n) || (a.Crash? && n in r.log.acked && n in Inside(r) && n !in Done(r))
    {
      ActLoses(r, a, n);
    }
  }

  lemma {:induction false} RunLoses(r: Rabbit, actions: seq<Action>)
    requires Accounted(r) && Run(r, actions)
    ensures NoneLost(End(r, actions)) <==> NoneLost(r) && CleanCrashes(r, actions)
    decreases |actions|
  {
    if actions != [] {
      ActKeepsLoss(r, actions[0]);
      ActAccounted(r, actions[0]);
      RunLoses(Act(r, actions[0]), actions[1..]);
    }
  }

  /**
   Acknowledging on arrival gives up at-least-once delivery: after a run every message that the broker did not drop and
   the bridge did not reject is still on its way or has been worked on, if and only if no crash found an acknowledged
   and unfinished one in the buffer or in a worker's hands.
   */
  lemma AtLeastOnceExactly(limit: nat, backlog: seq<Message>, actions: seq<Action>)
    requires Distinct(backlog) && Run(Started(limit, backlog), actions)
    ensures NothingLost(End(Started(limit, backlog), actions)) <==> CleanCrashes(Started(limit, backlog), actions)
  {
    RunAccounted(Started(limit, backlog), actions);
    LossIsLost(End(Started(limit, backlog), actions));
    RunLoses(Started(limit, backlog), actions);
  }

  /** A worker has received the job and the process dies before the claim: no message will bring the job back. */
  lemma WorkerTakesItAlong(limit: nat, m: Message)
    requires limit > 0 && m.job.Some?
    ensures var r, actions := Started(limit, [m]), [Deliver, Forward, Ack, Take, Crash];
            && Run(r, actions) && !NothingLost(End(r, actions))
            && End(r, actions).ready == [] && End(r, actions).jobChan == [] && End(r, actions).log.done == multiset{}
  {
    var r := Started(limit, [m]);
    MidsOne(m);
    var r1 := Act(r, Deliver);
    var r2 := Act(r1, Forward);
    var r3 := Act(r2, Ack);
    var r4 := Act(r3, Take);
    var r5 := Act(r4, Crash);
    assert m.mid in r5.log.all && !NothingLost(r5);
    Unroll5(r, Deliver, Forward, Ack, Take, Crash);
  }

  lemma Unroll5(r: Rabbit, a: Action, b: Action, c: Action, d: Action, e: Action)
    requires Possible(r, a) && Possible(Act(r, a), b) && Possible(Act(Act(r, a), b), c)
    requires Possible(Act(Act(Act(r, a), b), c), d) && Possible(Act(Act(Act(Act(r, a), b), c), d), e)
    ensures Run(r, [a, b, c, d, e]) && End(r, [a, b, c, d, e]) == Act(Act(Act(Act(Act(r, a), b), c), d), e)
  {
    var r1 := Act(r, a);
    var r2 := Act(r1, b);
    var r3 := Act(r2, c);
    RunOne(Act(r3, d), e);
    Step(r3, d, [e]);
    Step(r2, c, [d] + [e]);
    Step(r1, b, [c] + ([d] + [e]));
    Step(r, a, [b] + ([c] + ([d] + [e])));
    assert [a, b, c, d, e] == [a] + ([b] + ([c] + ([d] + [e])));
  }

  lemma RunOne(r: Rabbit, a: Action)
    requires Possible(r, a)
    ensures Run(r, [a]) && End(r, [a]) == Act(r, a)
  {
    assert [a][1..] == [];
  }

  /** The worker has even finished, but the acknowledgement is still missing: the message is delivered once more. */
  lemma DeliveredAgain(limit: nat, m: Message)
    requires limit > 0 && m.job.Some?
    ensures var r, actions := Started(limit, [m]), [Deliver, Forward, Take, Finish(m), Crash];
            && Run(r, actions) && End(r, actions).ready == [m] && m.mid in End(r, actions).log.done
  {
    var r := Started(limit, [m]);
    var r1 := Act(r, Deliver);
    var r2 := Act(r1, Forward);
    assert r2.jobChan == [m];
    var r3 := Act(r2, Take);
    assert m in r3.hands;
    var r4 := Act(r3, Finish(m));
    Unroll5(r, Deliver, Forward, Take, Finish(m), Crash);
  }

  /**
   Publishing on a full queue reports success and silently drops the oldest waiting message: backpressure never reaches
   the caller.
   */
  lemma FullBrokerDropsOldest(r: Rabbit, m: Message)
    requires |r.ready| == r.limit && r.limit > 0
    ensures var r' := Published(r, m);
            && r'.ready == r.ready[1..] + [m]
            && r'.log.dropped == r.log.dropped + {r.ready[0].mid}
            && r'.depth == r.depth + 1
  {
    var all := r.ready + [m];
    assert all[..1] == [r.ready[0]];
    MidsOne(r.ready[0]);
  }

  // ---------------------------------------------------------------- the queue object

  /** Between two selects the bridge has no delivery, or one it is about to forward. */
  predicate Pumping(r: Rabbit) {
    r.delivery.Delivered? ==> !r.delivery.forwarded
  }

  /**
   The bridge goroutine, until there is nothing to deliver or the local buffer is full. If it is to stop after `stop`
   further deliveries it then closes the buffer, unless it is stuck sending to it.
   */
  function Pumped(r: Rabbit, stop: Option<nat>): Rabbit
    requires Pumping(r)
    decreases |r.ready|, r.delivery.Delivered?
  {
    if r.delivery.Delivered? then
      if r.delivery.message.job.None? then Pumped(Rejected(r), stop)
      else if CanForward(r) then Pumped(Acked(Forwarded(r)), stop)
      else r
    else if r.closed then r
    else if stop.Some? && (stop.value == 0 || r.ready == []) then r.(closed := true)
    else if r.ready == [] then r
    else Pumped(Delivering(r), if stop.Some? then Some(stop.value - 1) else None)
  }

  lemma Step(r: Rabbit, a: Action, rest: seq<Action>)
    requires Possible(r, a) && Run(Act(r, a), rest)
    ensures Run(r, [a] + rest) && End(r, [a] + rest) == End(Act(r, a), rest)
  {
    assert ([a] + rest)[1..] == rest;
  }

  /** What the bridge does is a run of its own steps. */
  lemma {:induction false} PumpedIsARun(r: Rabbit, stop: Option<nat>) returns (actions: seq<Action>)
    requires Pumping(r)
    ensures Run(r, actions) && End(r, actions) == Pumped(r, stop)
    decreases |r.ready|, r.delivery.Delivered?
  {
    actions := [];
    if r.delivery.Delivered? {
      if r.delivery.message.job.None? {
        actions := PumpedIsARun(Rejected(r), stop);
        Step(r, Reject, actions);
        actions := [Reject] + actions;
      } else if CanForward(r) {
        actions := PumpedIsARun(Acked(Forwarded(r)), stop);
        Step(Forwarded(r), Ack, actions);
        Step(r, Forward, [Ack] + actions);
        actions := [Forward] + ([Ack] + actions);
      }
    } else if !r.closed && stop.Some? && (stop.value == 0 || r.ready == []) {
      actions := [Stop];
      RunOne(r, Stop);
    } else if !r.closed && r.ready != [] {
      actions := PumpedIsARun(Delivering(r), if stop.Some? then Some(stop.value - 1) else None);
      Step(r, Deliver, actions);
      actions := [Deliver] + actions;
    }
  }

  // ---------------------------------------------------------------- the order of messages

  /** The messages that will parse, in order. */
  function Parsable(messages: seq<Message>): seq<Message> {
    if messages == [] then []
    else (if messages[0].job.Some? then [messages[0]] else []) + Parsable(messages[1..])
  }

  /** The messages workers will receive, in the order they will: the buffer, the delivery, the broker's queue. */
  function Line(r: Rabbit): seq<Message> {
    var next := if r.delivery.Delivered? && !r.delivery.forwarded then Parsable([r.delivery.message]) else [];
    r.jobChan + (next + Parsable(r.ready))
  }

  lemma {:induction false} ParsableSnoc(messages: seq<Message>, m: Message)
    ensures Parsable(messages + [m]) == Parsable(messages) + Parsable([m])
    decreases |messages|
  {
    if messages == [] {
      assert messages + [m] == [m];
    } else {
      assert (messages + [m])[1..] == messages[1..] + [m];
      ParsableSnoc(messages[1..], m);
    }
  }

  lemma ParsableOne(m: Message)
    ensures Parsable([m]) == if m.job.Some? then [m] else []
  {
    assert [m][1..] == [];
  }

  /**
   First in, first out, from the broker to the worker: the bridge changes nothing about the line, a worker takes its
   head, and a publish that drops nothing joins its end.
   */
  lemma LineKept(r: Rabbit, a: Action)
    requires Possible(r, a) && !a.Crash?
    ensures a.Take? ==> Line(r) == [r.jobChan[0]] + Line(Act(r, a))
    ensures a.Publish? && |r.ready| < r.limit ==> Line(Act(r, a)) == Line(r) + [a.m]
    ensures !a.Take? && !a.Publish? ==> Line(Act(r, a)) == Line(r)
  {
    match a
    case Publish(m) =>
      ParsableSnoc(r.ready, m);
      ParsableOne(m);
    case Deliver => ParsableOne(r.ready[0]);
    case Reject => ParsableOne(r.delivery.message);
    case Forward => ParsableOne(r.delivery.message);
    case Take => assert r.jobChan == [r.jobChan[0]] + r.jobChan[1..];
    case _ =>
  }

  /**
   How far the bridge gets: it keeps the line, lets the buffer grow at its end and the counter fall with it, and leaves
   off only where it is stuck at a full buffer, closed on request, or has nothing left.
   */
  lemma {:induction false} PumpedGoesOn(r: Rabbit, stop: Option<nat>)
    requires Pumping(r)
    ensures var e := Pumped(r, stop);
            && Line(e) == Line(r) && r.jobChan <= e.jobChan && e.depth == r.depth - (|e.jobChan| - |r.jobChan|)
            && (e.delivery.Delivered? ==> |e.jobChan| >= r.limit && e.delivery.message.job.Some?)
            && (e.delivery.NoDelivery? && !e.closed ==> e.ready == [] && stop.None?)
            && (e.closed ==> r.closed || stop.Some?)
            && (r.closed ==> e.closed)
    decreases |r.ready|, r.delivery.Delivered?
  {
    if r.delivery.Delivered? {
      if r.delivery.message.job.None? {
        LineKept(r, Reject);
        PumpedGoesOn(Rejected(r), stop);
      } else if CanForward(r) {
        LineKept(r, Forward);
        LineKept(Forwarded(r), Ack);
        PumpedGoesOn(Acked(Forwarded(r)), stop);
      }
    } else if !r.closed && r.ready != [] && !(stop.Some? && stop.value == 0) {
      LineKept(r, Deliver);
      PumpedGoesOn(Delivering(r), if stop.Some? then Some(stop.value - 1) else None);
    }
  }

  class RabbitMQQueue {
    const limit: nat
    var ready: seq<Message>
    var delivery: Delivery
    var jobChan: seq<Message>
    var closed: bool
    var depth: int
    ghost var hands: set<Message>
    ghost var log: Log

    ghost function View(): Rabbit
      reads this
    {
      Rabbit(limit, ready, delivery, jobChan, closed, hands, depth, log)
    }

    constructor (bufferSize: nat, backlog: seq<Message>)
      ensures View() == Started(bufferSize, backlog)
      ensures limit == bufferSize && ready == backlog && delivery == NoDelivery
      ensures jobChan == [] && !closed && depth == 0
    {
      limit, ready, delivery, jobChan, closed, depth := bufferSize, backlog, NoDelivery, [], false, 0;
      hands, log := {}, Started(bufferSize, backlog).log;
    }

    /** Without a connection error; an error leaves everything as it was. */
    method Publish(m: Message, connected: bool) returns (ok: bool)
      modifies this
      ensures ok == connected
      ensures View() == if connected then Published(old(View()), m) else old(View())
      ensures connected && |old(ready)| < limit ==> ready == old(ready) + [m]
      ensures connected && |old(ready)| == limit > 0 ==> ready == old(ready)[1..] + [m]
      ensures depth == old(depth) + (if connected then 1 else 0)
      ensures jobChan == old(jobChan) && delivery == old(delivery) && closed == old(closed)
    {
      if !connected {
        return false;
      }
      ghost var after := Published(View(), m);
      ready := ready + [m];
      if |ready| > limit {
        ready := ready[|ready| - limit..];
      }
      depth := depth + 1;
      log := after.log;
      return true;
    }

    /** The bridge goroutine, from one select to the next, or resumed where it was stuck. */
    method Bridge(stop: Option<nat>)
      requires Pumping(View())
      modifies this
      ensures View() == Pumped(old(View()), stop)
      ensures old(jobChan) <= jobChan && depth == old(depth) - (|jobChan| - |old(jobChan)|)
      ensures delivery.Delivered? ==> |jobChan| >= limit && delivery.message.job.Some?
      ensures delivery.NoDelivery? && !closed ==> ready == [] && stop.None?
      ensures closed ==> old(closed) || stop.Some?
    {
      PumpedGoesOn(View(), stop);
      Pump(stop);
    }

    method Pump(stop: Option<nat>)
      requires Pumping(View())
      modifies this
      ensures View() == Pumped(old(View()), stop)
    {
      var left := stop;
      var stuck := false;
      while !stuck && (delivery.Delivered? || (!closed && ready != [] && (left.None? || left.value > 0)))
        invariant Pumping(View())
        invariant Pumped(View(), left) == Pumped(old(View()), stop)
        invariant stuck ==> delivery.Delivered? && delivery.message.job.Some? && !CanForward(View())
        decreases |ready|, delivery.Delivered?, !stuck
      {
        if delivery.NoDelivery? {
          delivery := Delivered(ready[0], false);
          ready := ready[1..];
          left := if left.Some? then Some(left.value - 1) else None;
        } else if delivery.message.job.None? {
          log := Rejected(View()).log;
          delivery := NoDelivery;
        } else if |jobChan| < limit {
          jobChan := jobChan + [delivery.message];
          log := Acked(View()).log;
          delivery, depth := NoDelivery, depth - 1;
        } else {
          stuck := true;
        }
      }
      if !stuck && left.Some? {
        closed := true;
      }
    }

    /** Negative counts read as zero. */
    method Depth() returns (n: nat)
      ensures n == Max(depth, 0)
    {
      n := if depth < 0 then 0 else depth;
    }
  }
}

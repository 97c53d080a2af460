/**
 The leased job protocol of one server process, as a transition system: HTTP handlers, workers with their
 heartbeats, the recovery sweeper, the bounded in-memory queue and the database take atomic steps in any order.

 Sources: internal/worker/pipeline.go, internal/handler/job_handler.go, internal/queue/channel.go and
 cmd/server/main.go. A step carries everything the program does not decide itself: which call comes next, how the
 database connection behaves, what the renderer returns, what the clocks show.
 */
module Protocol {
  import opened Basics
  import opened JobTable
  import opened Ledger

  type HandlerId = nat

  /**
   Where a worker stands inside `processJob`. From the claim on it remembers `token`, the version its own claim
   wrote; the program keeps no such value, so `token` is history that no step reads.
   */
  datatype Phase =
    | Idle
    | Holding(id: JobId)
    | Loading(id: JobId, token: nat)
    | Rendering(id: JobId, token: nat)
    | Failing(id: JobId, token: nat, message: string)
    | Verifying(id: JobId, token: nat, metrics: Option<string>)
    | Uploading(id: JobId, token: nat, metrics: Option<string>)
    | Finishing(id: JobId, token: nat, metrics: Option<string>, url: string)
    | Stopped
  {
    /** The worker has claimed a job and has not yet let go of it. */
    predicate Claimed() {
      !Idle? && !Holding? && !Stopped?
    }
  }

  /** A `CreateJob` request past its count check, or past its insert. */
  datatype Request = Admitted(user: UserId) | Inserted(id: JobId)

  /** `Booting` and `Fetching` are the two halves of `StartupRecovery`; the server listens only after it. */
  datatype Sweeper = Booting | Fetching | Publishing(ids: seq<JobId>, boot: bool) | Dormant

  /** A running heartbeat goroutine. It may outlive the call that started it. */
  datatype Heartbeat = Heartbeat(worker: WorkerId, id: JobId)

  datatype Config = Config(capacity: nat, lease: int)

  datatype State = State(
    config: Config,
    db: Journal,
    now: int,
    queue: seq<JobId>,
    closing: bool,
    workers: map<WorkerId, Phase>,
    named: set<WorkerId>,
    handlers: map<HandlerId, Request>,
    sweeper: Sweeper,
    beats: multiset<Heartbeat>)

  datatype Step =
    // CreateJob: count, insert, publish
    | Count(h: HandlerId, user: UserId)
    | Create(h: HandlerId, id: JobId, frames: int, fault: Fault)
    | Submit(h: HandlerId)
    // worker loop and processJob
    | Receive(w: WorkerId)
    | Discard(w: WorkerId)
    | Exit(w: WorkerId)
    | TryClaim(w: WorkerId, fault: Fault)
    | Load(w: WorkerId, loaded: bool)
    | Report(w: WorkerId, processed: int, total: int, fault: Fault)
    | RenderOk(w: WorkerId, metrics: Option<string>)
    | RenderError(w: WorkerId, message: string)
    | GiveUp(w: WorkerId, fault: Fault)
    | Verify(w: WorkerId, clock: int, answered: bool)
    | Upload(w: WorkerId, url: string)
    | Finish(w: WorkerId, fault: Fault)
    // heartbeat
    | Beat(beat: Heartbeat, fault: Fault)
    | BeatStop(beat: Heartbeat)
    // recovery
    | Sweep(found: seq<JobId>, fault: Fault)
    | Fetch(found: seq<JobId>, answered: bool)
    | Publish
    // DeleteJobHandler, the clock, the process
    | Remove(id: JobId, user: UserId, fault: Fault)
    | Clock(time: int)
    | Shutdown
    | Restart(pool: map<WorkerId, Phase>)

  predicate IsPending(s: State, id: JobId) {
    id in s.db.rows && s.db.rows[id].status == Pending
  }

  predicate Serving(s: State) {
    s.sweeper.Dormant? || (s.sweeper.Publishing? && !s.sweeper.boot)
  }

  predicate At(s: State, w: WorkerId, phase: Phase -> bool) {
    w in s.workers && phase(s.workers[w])
  }

  /** Which steps the program can take from a state. */
  ghost predicate Enabled(s: State, step: Step) {
    match step
    case Count(h, user) =>
      Serving(s) && h !in s.handlers && |ActiveIds(s.db.rows, user)| < 5
    case Create(h, id, frames, fault) =>
      h in s.handlers && s.handlers[h].Admitted? && id !in s.db.history && 0 < frames <= MAX_FRAMES
    case Submit(h) =>
      h in s.handlers && s.handlers[h].Inserted?
    case Receive(w) => At(s, w, (p: Phase) => p.Idle?) && s.queue != [] && !s.closing
    case Discard(w) => At(s, w, (p: Phase) => p.Idle?) && s.queue != [] && s.closing
    case Exit(w) => At(s, w, (p: Phase) => p.Idle?) && s.closing
    case TryClaim(w, _) => At(s, w, (p: Phase) => p.Holding?)
    case Load(w, loaded) => At(s, w, (p: Phase) => p.Loading?) && (loaded ==> s.workers[w].id in s.db.rows)
    case Report(w, _, total, _) => At(s, w, (p: Phase) => p.Rendering?) && total > 0
    case RenderOk(w, _) => At(s, w, (p: Phase) => p.Rendering?)
    case RenderError(w, _) => At(s, w, (p: Phase) => p.Rendering?)
    case GiveUp(w, _) => At(s, w, (p: Phase) => p.Failing?)
    case Verify(w, _, _) => At(s, w, (p: Phase) => p.Verifying?)
    case Upload(w, _) => At(s, w, (p: Phase) => p.Uploading?)
    case Finish(w, _) => At(s, w, (p: Phase) => p.Finishing?)
    case Beat(beat, _) => beat in s.beats
    case BeatStop(beat) => beat in s.beats
    case Sweep(found, _) =>
      (s.sweeper.Booting? || s.sweeper.Dormant?) && Enumerates(found, StalledIds(s.db.rows, s.now, MAX_RETRY))
    case Fetch(found, _) => s.sweeper.Fetching? && Enumerates(found, PendingIds(s.db.rows, MAX_RETRY))
    case Publish => s.sweeper.Publishing? && s.sweeper.ids != [] && !s.closing
    case Remove(_, _, _) => Serving(s)
    case Clock(_) => true
    case Shutdown => Serving(s)
    case Restart(pool) => pool.Keys !! s.named && forall w :: w in pool ==> pool[w].Idle?
  }

  /** The statement a step sends to the database. */
  function Sent(s: State, step: Step): Option<Statement>
    requires Enabled(s, step)
  {
    match step
    case Create(h, id, frames, _) => Some(Insert(id, s.handlers[h].user, frames))
    case TryClaim(w, _) => Some(Statement.Claim(s.workers[w].id, w, s.config.lease))
    case Report(w, processed, total, _) => Some(Progress(s.workers[w].id, processed, total))
    case GiveUp(w, _) => Some(Statement.Fail(s.workers[w].id, w, s.workers[w].message))
    case Finish(w, _) => Some(Complete(s.workers[w].id, w, s.workers[w].url, s.workers[w].metrics))
    case Beat(beat, _) => Some(Statement.Extend(beat.id, beat.worker, s.config.lease))
    case Sweep(_, _) => Some(Recover(MAX_RETRY))
    case Remove(id, user, _) => Some(Delete(id, user))
    case _ => None
  }

  function FaultOf(step: Step): Fault {
    match step
    case Create(_, _, _, fault) => fault
    case TryClaim(_, fault) => fault
    case Report(_, _, _, fault) => fault
    case GiveUp(_, fault) => fault
    case Finish(_, fault) => fault
    case Beat(_, fault) => fault
    case Sweep(_, fault) => fault
    case Remove(_, _, fault) => fault
    case _ => Answered
  }

  /** The statement that takes effect: a connection lost before the commit means none. */
  function Effect(s: State, step: Step): Option<Statement>
    requires Enabled(s, step)
  {
    if FaultOf(step) == LostBefore then None else Sent(s, step)
  }

  /**
   A publish. A full queue refuses the id; a closed one panics, which in a handler ends only that request. (In the
   sweeper it ends the process, which is `Restart`.)
   */
  function Offer(s: State, id: JobId): seq<JobId> {
    if |s.queue| < s.config.capacity && !s.closing then s.queue + [id] else s.queue
  }

  function Move(s: State, w: WorkerId, phase: Phase): State {
    s.(workers := s.workers[w := phase])
  }

  /** The sweeper with these ids still to publish. */
  function ToPublish(ids: seq<JobId>, boot: bool): Sweeper {
    if ids == [] then Dormant else Publishing(ids, boot)
  }

  /** Everything a step does outside the table. */
  function Control(s: State, step: Step): State
    requires Enabled(s, step)
  {
    match step
    case Count(h, user) => s.(handlers := s.handlers[h := Admitted(user)])
    case Create(h, id, _, fault) =>
      if fault == Answered then s.(handlers := s.handlers[h := Inserted(id)])
      else s.(handlers := s.handlers - {h})
    case Submit(h) => s.(queue := Offer(s, s.handlers[h].id), handlers := s.handlers - {h})
    case Receive(w) => Move(s, w, Holding(s.queue[0])).(queue := s.queue[1..])
    case Discard(w) => Move(s, w, Stopped).(queue := s.queue[1..])
    case Exit(w) => Move(s, w, Stopped)
    case TryClaim(w, fault) =>
      var id := s.workers[w].id;
      if fault == Answered && id in s.db.rows && s.db.rows[id].status == Pending
      then Move(s, w, Loading(id, s.db.rows[id].version + 1))
      else Move(s, w, Idle)
    case Load(w, loaded) =>
      var p := s.workers[w];
      if loaded then Move(s, w, Rendering(p.id, p.token)).(beats := s.beats + multiset{Heartbeat(w, p.id)})
      else Move(s, w, Failing(p.id, p.token, "failed to load job details"))
    case Report(_, _, _, _) => s
    case RenderOk(w, metrics) => Move(s, w, Verifying(s.workers[w].id, s.workers[w].token, metrics))
    case RenderError(w, message) => Move(s, w, Failing(s.workers[w].id, s.workers[w].token, message))
    case GiveUp(w, _) => Move(s, w, Idle)
    case Verify(w, clock, answered) =>
      var p := s.workers[w];
      if answered && Owns(s.db.rows, p.id, w, clock) then Move(s, w, Uploading(p.id, p.token, p.metrics))
      else Move(s, w, Idle)
    case Upload(w, url) => Move(s, w, Finishing(s.workers[w].id, s.workers[w].token, s.workers[w].metrics, url))
    case Finish(w, _) => Move(s, w, Idle)
    case Beat(beat, fault) =>
      if fault == Answered && !(beat.id in s.db.rows && OwnedBy(s.db.rows[beat.id], beat.worker))
      then s.(beats := s.beats - multiset{beat})
      else s
    case BeatStop(beat) => s.(beats := s.beats - multiset{beat})
    case Sweep(found, fault) =>
      if s.sweeper.Booting? then s.(sweeper := Fetching)
      else s.(sweeper := ToPublish(if fault == Answered then found else [], false))
    case Fetch(found, answered) => s.(sweeper := ToPublish(if answered then found else [], true))
    case Publish => s.(queue := Offer(s, s.sweeper.ids[0]), sweeper := ToPublish(s.sweeper.ids[1..], s.sweeper.boot))
    case Remove(_, _, _) => s
    case Clock(time) => s.(now := time)
    case Shutdown => s.(closing := true)
    case Restart(pool) =>
      s.(queue := [], closing := false, workers := pool, named := s.named + pool.Keys,
         handlers := map[], sweeper := Booting, beats := multiset{})
  }

  function Apply(s: State, step: Step): State
    requires Enabled(s, step)
  {
    var c := Control(s, step);
    match Effect(s, step)
    case None => c
    case Some(st) => c.(db := Record(s.db, st, s.now))
  }

  /** A step that is not a restart moves at most the worker it names. */
  function Mover(step: Step): Option<WorkerId> {
    match step
    case Receive(w) => Some(w)
    case Discard(w) => Some(w)
    case Exit(w) => Some(w)
    case TryClaim(w, _) => Some(w)
    case Load(w, _) => Some(w)
    case RenderOk(w, _) => Some(w)
    case RenderError(w, _) => Some(w)
    case GiveUp(w, _) => Some(w)
    case Verify(w, _, _) => Some(w)
    case Upload(w, _) => Some(w)
    case Finish(w, _) => Some(w)
    case _ => None
  }

  lemma OnlyMoverMoves(s: State, step: Step)
    requires Enabled(s, step) && !step.Restart?
    ensures Mover(step).Some? ==> Mover(step).value in s.workers && Mover(step).value in Control(s, step).workers
    ensures forall v :: v in Control(s, step).workers && Some(v) != Mover(step) ==>
              v in s.workers && Control(s, step).workers[v] == s.workers[v]
    ensures forall v :: v in s.workers && Some(v) != Mover(step) ==> v in Control(s, step).workers
  {
  }

  lemma ControlIsOutsideTheTable(s: State, step: Step)
    requires Enabled(s, step)
    ensures Apply(s, step) == Control(s, step).(db := Apply(s, step).db)
  {
  }

  lemma WorkersLeaveHandlers(s: State, step: Step)
    requires Enabled(s, step) && Mover(step).Some?
    ensures Control(s, step).handlers == s.handlers
  {
  }

  /** Only four steps change the handlers. */
  lemma HandlersFrame(s: State, step: Step)
    requires Enabled(s, step) && !step.Count? && !step.Create? && !step.Submit? && !step.Restart?
    ensures Control(s, step).handlers == s.handlers
  {
    if Mover(step).Some? {
      WorkersLeaveHandlers(s, step);
    }
  }

  lemma WorkersLeaveSweeper(s: State, step: Step)
    requires Enabled(s, step) && Mover(step).Some?
    ensures Control(s, step).sweeper == s.sweeper
  {
  }

  /** Only recovery moves the sweeper. */
  lemma SweeperFrame(s: State, step: Step)
    requires Enabled(s, step) && !step.Sweep? && !step.Fetch? && !step.Publish? && !step.Restart?
    ensures Control(s, step).sweeper == s.sweeper
  {
    if Mover(step).Some? {
      WorkersLeaveSweeper(s, step);
    }
  }

  lemma WorkersLeaveQueue(s: State, step: Step)
    requires Enabled(s, step) && Mover(step).Some? && !step.Receive? && !step.Discard?
    ensures Control(s, step).queue == s.queue
  {
  }

  lemma QueueFrame(s: State, step: Step)
    requires Enabled(s, step)
    requires !step.Submit? && !step.Receive? && !step.Discard? && !step.Publish? && !step.Restart?
    ensures Control(s, step).queue == s.queue
  {
    if Mover(step).Some? {
      WorkersLeaveQueue(s, step);
    }
  }

  lemma WorkersLeaveConfig(s: State, step: Step)
    requires Enabled(s, step) && Mover(step).Some?
    ensures Control(s, step).config == s.config
  {
  }

  lemma ConfigIsFixed(s: State, step: Step)
    requires Enabled(s, step)
    ensures Apply(s, step).config == s.config
  {
    ControlIsOutsideTheTable(s, step);
    if Mover(step).Some? {
      WorkersLeaveConfig(s, step);
    }
  }

  lemma RecordGrows(j: Journal, st: Statement, now: int, id: JobId)
    requires id in j.history
    ensures id in Record(j, st, now).history
  {
  }

  /** No id is ever forgotten. */
  lemma HistoryGrows(s: State, step: Step, id: JobId)
    requires Enabled(s, step) && id in s.db.history
    ensures id in Apply(s, step).db.history
  {
    StepIsRecorded(s, step);
    if Effect(s, step).Some? {
      RecordGrows(s.db, Effect(s, step).value, s.now, id);
    }
  }

  /** A restart keeps the table and the clock, and nothing else. */
  lemma RestartKeepsTheTable(s: State, pool: map<WorkerId, Phase>)
    requires Enabled(s, Restart(pool))
    ensures var s' := Apply(s, Restart(pool));
            && s'.db == s.db && s'.now == s.now && s'.config == s.config
            && s'.queue == [] && !s'.closing && s'.handlers == map[] && s'.beats == multiset{} && s'.sweeper == Booting
            && s'.workers == pool && forall w :: w in s'.workers ==> s'.workers[w] == Idle && w !in s.named
  {
  }

  // ---------------------------------------------------------------- runs

  ghost predicate Initial(s: State) {
    && s.config.capacity > 0
    && s.config.lease >= 0
    && s.db == EMPTY
    && s.queue == [] && !s.closing
    && (forall w :: w in s.workers ==> s.workers[w] == Idle)
    && s.named == s.workers.Keys
    && s.handlers == map[]
    && s.sweeper == Booting
    && s.beats == multiset{}
  }

  ghost predicate Run(s: State, steps: seq<Step>)
    decreases |steps|
  {
    steps == [] || (Enabled(s, steps[0]) && Run(Apply(s, steps[0]), steps[1..]))
  }

  ghost function End(s: State, steps: seq<Step>): State
    requires Run(s, steps)
    decreases |steps|
  {
    if steps == [] then s else End(Apply(s, steps[0]), steps[1..])
  }

  lemma {:induction false} RunAppend(s: State, a: seq<Step>, b: seq<Step>)
    requires Run(s, a)
    ensures Run(s, a + b) <==> Run(End(s, a), b)
    ensures Run(s, a + b) ==> End(s, a + b) == End(End(s, a), b)
    decreases |a|
  {
    if a == [] {
      assert a + b == b;
    } else {
      assert (a + b)[1..] == a[1..] + b && (a + b)[0] == a[0];
      RunAppend(Apply(s, a[0]), a[1..], b);
    }
  }

  lemma RunCons(s: State, step: Step, rest: seq<Step>)
    requires Enabled(s, step) && Run(Apply(s, step), rest)
    ensures Run(s, [step] + rest) && End(s, [step] + rest) == End(Apply(s, step), rest)
  {
    assert ([step] + rest)[1..] == rest;
  }

  lemma RunOne(s: State, step: Step)
    requires Enabled(s, step)
    ensures Run(s, [step]) && End(s, [step]) == Apply(s, step)
  {
    assert [step][1..] == [];
  }

  /** A step sends at most one statement, and never a cancellation or an insert under a used id. */
  lemma StepIsRecorded(s: State, step: Step)
    requires Enabled(s, step)
    ensures Effect(s, step).None? ==> Apply(s, step).db == s.db
    ensures Effect(s, step).Some? ==>
            var st := Effect(s, step).value;
            Fresh(s.db, st) && !st.Cancel? && Apply(s, step).db == Record(s.db, st, s.now)
  {
  }

  /** The statements of a run, in order. */
  ghost function LogOf(s: State, steps: seq<Step>): seq<Entry>
    requires Run(s, steps)
    decreases |steps|
  {
    if steps == [] then []
    else
      var rest := LogOf(Apply(s, steps[0]), steps[1..]);
      match Effect(s, steps[0])
      case None => rest
      case Some(st) => [Entry(st, s.now)] + rest
  }

  /** The table of a run is the table its statements build: every law of the ledger holds of every run. */
  lemma {:induction false} RunIsReplayed(s: State, steps: seq<Step>)
    requires Run(s, steps)
    ensures Admissible(s.db, LogOf(s, steps)) && End(s, steps).db == Replay(s.db, LogOf(s, steps))
    ensures forall k :: 0 <= k < |LogOf(s, steps)| ==> !LogOf(s, steps)[k].st.Cancel?
    decreases |steps|
  {
    if steps != [] {
      var s', rest := Apply(s, steps[0]), steps[1..];
      StepIsRecorded(s, steps[0]);
      RunIsReplayed(s', rest);
      if Effect(s, steps[0]).Some? {
        var entry := Entry(Effect(s, steps[0]).value, s.now);
        assert LogOf(s, steps) == [entry] + LogOf(s', rest);
        assert LogOf(s, steps)[1..] == LogOf(s', rest);
      }
    }
  }

  /** Exact accounting, and no CANCELLED job, in every reachable state. */
  lemma ReachableIsBalanced(s: State, steps: seq<Step>)
    requires Initial(s) && Run(s, steps)
    ensures Balanced(End(s, steps).db)
    ensures forall id :: id in End(s, steps).db.rows ==> End(s, steps).db.rows[id].status != Cancelled
  {
    RunIsReplayed(s, steps);
    AccountsBalance(s.db, LogOf(s, steps));
    NeverCancelled(s.db, LogOf(s, steps));
  }

  /** Finished and deleted jobs, over the rest of any run. */
  lemma FinishedJobsStay(s: State, before: seq<Step>, after: seq<Step>, id: JobId)
    requires Initial(s) && Run(s, before) && Run(End(s, before), after)
    ensures var m, e := End(s, before).db, End(End(s, before), after).db;
            && (id in m.rows && m.rows[id].status.Terminal() && id in e.rows ==> SameButFrames(m.rows[id], e.rows[id]))
            && (id in m.history && id !in m.rows ==> id !in e.rows)
  {
    ReachableIsBalanced(s, before);
    var m := End(s, before);
    RunIsReplayed(m, after);
    if id in m.db.rows && m.db.rows[id].status.Terminal() {
      FinishedIsFinal(m.db, LogOf(m, after), id);
    } else if id in m.db.history && id !in m.db.rows {
      DeletedIsGone(m.db, LogOf(m, after), id);
    }
  }

  lemma RemovedNow(s: State, id: JobId, user: UserId, fault: Fault)
    requires Enabled(s, Remove(id, user, fault))
    ensures Apply(s, Remove(id, user, fault)).db.rows ==
            if fault != LostBefore && id in s.db.rows && s.db.rows[id].user == user then s.db.rows - {id} else s.db.rows
    ensures id in s.db.history ==> id in Apply(s, Remove(id, user, fault)).db.history
  {
    var step := Remove(id, user, fault);
    StepIsRecorded(s, step);
    if id in s.db.history {
      HistoryGrows(s, step, id);
    }
  }

  lemma {:induction false} GoneForGood(s: State, steps: seq<Step>, id: JobId)
    requires Run(s, steps) && id in s.db.history && id !in s.db.rows
    ensures id !in End(s, steps).db.rows
    decreases |steps|
  {
    RunIsReplayed(s, steps);
    DeletedIsGone(s.db, LogOf(s, steps), id);
  }

  /**
   A deletion by the job's user that commits takes the job out of the table for good, and one by anybody else does
   nothing.
   */
  lemma RemovedForGood(s: State, before: seq<Step>, id: JobId, user: UserId, fault: Fault, after: seq<Step>)
    requires Initial(s) && Run(s, before) && Enabled(End(s, before), Remove(id, user, fault)) && fault != LostBefore
    requires Run(Apply(End(s, before), Remove(id, user, fault)), after)
    ensures var m := End(s, before);
            var m' := Apply(m, Remove(id, user, fault));
            if id in m.db.rows && m.db.rows[id].user == user
            then m'.db.rows == m.db.rows - {id} && id !in End(m', after).db.rows
            else m'.db.rows == m.db.rows
  {
    var m := End(s, before);
    ReachableIsBalanced(s, before);
    RemovedNow(m, id, user, fault);
    if id in m.db.rows && m.db.rows[id].user == user {
      GoneForGood(Apply(m, Remove(id, user, fault)), after, id);
    }
  }
}

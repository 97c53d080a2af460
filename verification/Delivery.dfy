/**
 Where jobs get lost. A PENDING row is worked on only if its id is in the queue or in somebody's hands; the scheduled
 sweep republishes nothing but what it has itself just recovered.
 */
module Delivery {
  import opened Basics
  import opened JobTable
  import opened Ledger
  import opened Protocol
  import opened Custody

  ghost predicate AllCovered(s: State) {
    forall id :: IsPending(s, id) ==> Covered(s, id)
  }

  ghost predicate Orphan(s: State, id: JobId) {
    IsPending(s, id) && !Covered(s, id)
  }

  /** The queue takes no further id. */
  predicate Refuses(s: State) {
    |s.queue| >= s.config.capacity || s.closing
  }

  /**
   The steps that lose a job: a publish of a pending job on a full or closed queue, its claim when the statement never
   reached the database, its receipt during a shutdown, an insert or a sweep that committed unseen, the first half of a
   restart, and the restart itself.
   */
  ghost predicate Leaks(s: State, step: Step)
    requires Enabled(s, step)
  {
    match step
    case Submit(h) => Refuses(s) && IsPending(s, s.handlers[h].id)
    case Publish => Refuses(s) && IsPending(s, s.sweeper.ids[0])
    case TryClaim(w, fault) => fault == LostBefore && IsPending(s, s.workers[w].id)
    case Discard(_) => IsPending(s, s.queue[0])
    case Create(_, _, _, fault) => fault == LostAfter
    case Sweep(found, fault) => found != [] && (fault == LostAfter || (fault == Answered && s.sweeper.Booting?))
    case Restart(_) => exists id :: IsPending(s, id)
    case _ => false
  }

  // ---------------------------------------------------------------- one step

  /** The place a step lets go of. */
  function Dropped(s: State, step: Step): Option<Place> {
    match step
    case Submit(h) => if Refuses(s) then Some(ByHandler(h)) else None
    case Publish => if Refuses(s) then Some(BySweeper(0)) else None
    case TryClaim(w, _) => Some(ByWorker(w))
    case Discard(_) => Some(Queued(0))
    case _ => None
  }

  lemma DroppedIsGone(s: State, step: Step, p: Place, id: JobId)
    requires Enabled(s, step) && Dropped(s, step).Some? && Holds(Apply(s, step), p, id)
    ensures Origin(s, step, p) != Dropped(s, step).value
  {
    ControlIsOutsideTheTable(s, step);
  }

  lemma QueueKept(s: State, step: Step, i: nat, id: JobId)
    requires Enabled(s, step) && !step.Restart? && Holds(s, Queued(i), id) && Dropped(s, step) != Some(Queued(i))
    ensures Covered(Control(s, step), id)
  {
    if step.Submit? || step.Publish? {
      assert Control(s, step).queue[i] == id;
    } else if step.Receive? {
      if i == 0 {
        assert Control(s, step).workers[step.w] == Holding(id);
      } else {
        assert Control(s, step).queue[i - 1] == id;
      }
    } else if step.Discard? {
      assert Control(s, step).queue[i - 1] == id;
    } else {
      QueueFrame(s, step);
    }
  }

  lemma WorkerKept(s: State, step: Step, w: WorkerId, id: JobId)
    requires Enabled(s, step) && !step.Restart? && Holds(s, ByWorker(w), id) && Dropped(s, step) != Some(ByWorker(w))
    ensures Covered(Control(s, step), id)
  {
    OnlyMoverMoves(s, step);
    assert Control(s, step).workers[w] == Holding(id);
  }

  lemma HandlerKept(s: State, step: Step, h: HandlerId, id: JobId)
    requires Enabled(s, step) && !step.Restart? && Holds(s, ByHandler(h), id) && Dropped(s, step) != Some(ByHandler(h))
    ensures Covered(Control(s, step), id)
  {
    if step.Submit? && step.h == h {
      assert Control(s, step).queue[|s.queue|] == id;
    } else {
      if !step.Count? && !step.Create? && !step.Submit? {
        HandlersFrame(s, step);
      }
      assert Control(s, step).handlers[h] == Inserted(id);
    }
  }

  lemma SweeperKept(s: State, step: Step, i: nat, id: JobId)
    requires Enabled(s, step) && !step.Restart? && Holds(s, BySweeper(i), id) && Dropped(s, step) != Some(BySweeper(i))
    ensures Covered(Control(s, step), id)
  {
    if step.Publish? {
      if i == 0 {
        assert Control(s, step).queue[|s.queue|] == id;
      } else {
        assert Control(s, step).sweeper.ids[i - 1] == id;
      }
    } else {
      SweeperFrame(s, step);
    }
  }

  /** What a step does not let go of stays covered. */
  lemma CoveredAfter(s: State, step: Step, p: Place, id: JobId)
    requires Enabled(s, step) && !step.Restart? && Holds(s, p, id) && Dropped(s, step) != Some(p)
    ensures Covered(Apply(s, step), id)
  {
    match p {
      case Queued(i) => QueueKept(s, step, i, id);
      case ByWorker(w) => WorkerKept(s, step, w, id);
      case ByHandler(h) => HandlerKept(s, step, h, id);
      case BySweeper(i) => SweeperKept(s, step, i, id);
    }
    ControlIsOutsideTheTable(s, step);
    CoveredByControl(Control(s, step), Apply(s, step), id);
  }

  lemma CoveredByControl(c: State, s: State, id: JobId)
    requires s.queue == c.queue && s.workers == c.workers && s.handlers == c.handlers && s.sweeper == c.sweeper
    ensures Covered(s, id) <==> Covered(c, id)
  {
  }

  /** An id let go of is in nobody's hands, because it lay in one place only. */
  lemma LetGo(s: State, step: Step, id: JobId)
    requires Sole(s) && Enabled(s, step) && Dropped(s, step).Some? && Holds(s, Dropped(s, step).value, id)
    ensures !Covered(Apply(s, step), id)
  {
    if Covered(Apply(s, step), id) {
      var p := CoveredIsHeld(Apply(s, step), id);
      HeldBefore(s, step, p, id);
      DroppedIsGone(s, step, p, id);
    }
  }

  lemma CommittedClaim(s: State, w: WorkerId, fault: Fault)
    requires Enabled(s, TryClaim(w, fault)) && fault != LostBefore
    ensures !IsPending(Apply(s, TryClaim(w, fault)), s.workers[w].id)
  {
  }

  /** A step that is not a leak keeps a pending job covered. */
  lemma PendingStaysCovered(s: State, step: Step, id: JobId)
    requires Ordered(s) && AllCovered(s) && Enabled(s, step) && !Leaks(s, step) && IsPending(Apply(s, step), id)
    ensures Covered(Apply(s, step), id)
  {
    if !IsPending(s, id) {
      BecomesPending(s, step, id);
      NewIsHeld(s, step, id);
    } else if step.Restart? {
      assert false;
    } else {
      var p := CoveredIsHeld(s, id);
      if Dropped(s, step) == Some(p) {
        assert step.TryClaim?;
        CommittedClaim(s, step.w, step.fault);
      } else {
        CoveredAfter(s, step, p, id);
      }
    }
  }

  lemma NewIsHeld(s: State, step: Step, id: JobId)
    requires Enabled(s, step) && !Leaks(s, step) && FaultOf(step) != LostBefore
    requires (step.Create? && id == step.id) || (step.Sweep? && id in step.found)
    ensures Covered(Apply(s, step), id)
  {
    if step.Create? {
      assert Apply(s, step).handlers[step.h] == Inserted(id);
    }
  }

  lemma SweptAway(s: State, found: seq<JobId>, fault: Fault)
    requires Ordered(s) && Enabled(s, Sweep(found, fault)) && Leaks(s, Sweep(found, fault))
    ensures Orphan(Apply(s, Sweep(found, fault)), found[0])
  {
    var step, id := Sweep(found, fault), found[0];
    assert id in StalledIds(s.db.rows, s.now, MAX_RETRY);
    assert !Covered(s, id);
    if Covered(Apply(s, step), id) {
      NewlyCovered(s, step, id);
    }
  }

  lemma UnseenInsert(s: State, step: Step)
    requires Ordered(s) && Enabled(s, step) && step.Create? && step.fault == LostAfter
    ensures Orphan(Apply(s, step), step.id)
  {
    assert step.id !in s.db.rows && !Covered(s, step.id);
    if Covered(Apply(s, step), step.id) {
      NewlyCovered(s, step, step.id);
    }
  }

  lemma RestartForgets(s: State, pool: map<WorkerId, Phase>, id: JobId)
    requires Enabled(s, Restart(pool)) && IsPending(s, id)
    ensures Orphan(Apply(s, Restart(pool)), id)
  {
  }

  /** A leak leaves an orphan. */
  lemma LeakOrphans(s: State, step: Step) returns (id: JobId)
    requires Ordered(s) && Enabled(s, step) && Leaks(s, step)
    ensures Orphan(Apply(s, step), id)
  {
    if Dropped(s, step).Some? {
      id := LostId(s, step);
    } else if step.Sweep? {
      id := step.found[0];
      SweptAway(s, step.found, step.fault);
    } else if step.Create? {
      id := step.id;
      UnseenInsert(s, step);
    } else {
      id :| IsPending(s, id);
      RestartForgets(s, step.pool, id);
    }
  }

  lemma LostId(s: State, step: Step) returns (id: JobId)
    requires Ordered(s) && Enabled(s, step) && Leaks(s, step) && Dropped(s, step).Some?
    ensures Orphan(Apply(s, step), id)
  {
    id := match step
          case Submit(h) => s.handlers[h].id
          case Publish => s.sweeper.ids[0]
          case TryClaim(w, _) => s.workers[w].id
          case Discard(_) => s.queue[0];
    LetGo(s, step, id);
    if !IsPending(Apply(s, step), id) {
      StopsPending(s, step, id);
    }
  }

  /** While every pending job is covered, the next step keeps it so exactly if it is not one of the leaks. */
  lemma StepKeepsCoverage(s: State, step: Step)
    requires Ordered(s) && AllCovered(s) && Enabled(s, step)
    ensures AllCovered(Apply(s, step)) <==> !Leaks(s, step)
  {
    if Leaks(s, step) {
      var id := LeakOrphans(s, step);
    } else {
      forall id | IsPending(Apply(s, step), id)
        ensures Covered(Apply(s, step), id)
      {
        PendingStaysCovered(s, step, id);
      }
    }
  }

  /** A fetch covers every pending row, whatever was covered before. */
  lemma FetchCovers(s: State, found: seq<JobId>)
    requires Known(s) && Enabled(s, Fetch(found, true))
    ensures AllCovered(Apply(s, Fetch(found, true)))
  {
    var s' := Apply(s, Fetch(found, true));
    forall id | IsPending(s', id)
      ensures Covered(s', id)
    {
      BudgetNeverBinds(s.db, id, 0, "", 0);
      assert id in found;
    }
  }

  // ---------------------------------------------------------------- whole runs

  /** In every reachable state that still covers its pending jobs, the leaks are exactly the steps that lose one. */
  lemma CoverageKept(s: State, steps: seq<Step>, step: Step)
    requires Initial(s) && Run(s, steps) && AllCovered(End(s, steps)) && Enabled(End(s, steps), step)
    ensures AllCovered(Apply(End(s, steps), step)) <==> !Leaks(End(s, steps), step)
  {
    RunKeepsOrder(s, steps);
    StepKeepsCoverage(End(s, steps), step);
  }

  ghost predicate LeakFree(s: State, steps: seq<Step>)
    requires Run(s, steps)
    decreases |steps|
  {
    steps == [] || (!Leaks(s, steps[0]) && LeakFree(Apply(s, steps[0]), steps[1..]))
  }

  lemma {:induction false} LeakFreeRun(s: State, steps: seq<Step>)
    requires Ordered(s) && AllCovered(s) && Run(s, steps) && LeakFree(s, steps)
    ensures AllCovered(End(s, steps))
    decreases |steps|
  {
    if steps != [] {
      StepKeepsCoverage(s, steps[0]);
      OrderKept(s, steps[0]);
      LeakFreeRun(Apply(s, steps[0]), steps[1..]);
    }
  }

  /** A run without a leak loses no job. */
  lemma NoLostJob(s: State, steps: seq<Step>)
    requires Initial(s) && Run(s, steps) && LeakFree(s, steps)
    ensures AllCovered(End(s, steps))
  {
    LeakFreeRun(s, steps);
  }

  /**
   Whatever was lost before, once a restarted process has read its pending jobs every one of them is covered, and
   stays covered for as long as no publish is refused and nothing else leaks.
   */
  lemma StartupRestores(s: State, before: seq<Step>, found: seq<JobId>, after: seq<Step>)
    requires Initial(s) && Run(s, before) && Run(End(s, before), [Fetch(found, true)] + after)
    requires var boot := [Fetch(found, true)] + after;
             LeakFree(Apply(End(s, before), boot[0]), boot[1..])
    ensures AllCovered(End(End(s, before), [Fetch(found, true)] + after))
  {
    var b := End(s, before);
    var boot := [Fetch(found, true)] + after;
    RunKeepsOrder(s, before);
    FetchCovers(b, found);
    OrderKept(b, boot[0]);
    LeakFreeRun(Apply(b, boot[0]), boot[1..]);
  }

  /** Outside a restart no step takes hold of an orphan. */
  lemma OrphanStaysUncovered(s: State, step: Step, id: JobId)
    requires Known(s) && Enabled(s, step) && Orphan(s, id)
    requires !Starting(s) && !step.Restart?
    ensures !Covered(Apply(s, step), id)
  {
    if Covered(Apply(s, step), id) {
      NewlyCovered(s, step, id);
    }
  }

  /** Nor does its row leave PENDING, unless it is deleted. */
  lemma OrphanStaysPending(s: State, step: Step, id: JobId)
    requires Enabled(s, step) && Orphan(s, id)
    ensures IsPending(Apply(s, step), id) || id !in Apply(s, step).db.rows
  {
    var s' := Apply(s, step);
    if !IsPending(s', id) {
      StopsPending(s, step, id);
      if step.Remove? && id in s'.db.rows {
        RemovedIsGone(s, step, id);
      }
    }
  }

  lemma {:induction false} OrphanRun(s: State, steps: seq<Step>, id: JobId)
    requires Known(s) && Run(s, steps) && id in s.db.history
    requires id !in s.db.rows || Orphan(s, id)
    requires !Starting(s)
    requires forall k :: 0 <= k < |steps| ==> !steps[k].Restart?
    ensures id !in End(s, steps).db.rows || Orphan(End(s, steps), id)
    decreases |steps|
  {
    if steps != [] {
      var s' := Apply(s, steps[0]);
      KnownKept(s, steps[0]);
      HistoryGrows(s, steps[0], id);
      assert !steps[0].Restart?;
      if id in s.db.rows {
        OrphanStaysPending(s, steps[0], id);
        OrphanStaysUncovered(s, steps[0], id);
      } else {
        NoRevival(s, steps[0], id);
      }
      ControlIsOutsideTheTable(s, steps[0]);
      StillOpen(s, steps[0]);
      OrphanRun(s', steps[1..], id);
    }
  }

  /**
   A pending job that nobody holds is never worked on again by this process, however long it runs and however often
   it sweeps: in every later state it is still such a job, or it has been deleted.
   */
  lemma OrphanForever(s: State, before: seq<Step>, after: seq<Step>, id: JobId)
    requires Initial(s) && Run(s, before) && Orphan(End(s, before), id) && !Starting(End(s, before))
    requires Run(End(s, before), after) && forall k :: 0 <= k < |after| ==> !after[k].Restart?
    ensures var e := End(End(s, before), after);
            id !in e.db.rows || Orphan(e, id)
  {
    RunKeepsOrder(s, before);
    OrphanRun(End(s, before), after, id);
  }

  /** The state after the first boot of a process that found nothing to recover. */
  function Booted(capacity: nat, lease: int): State {
    State(Config(capacity, lease), EMPTY, 0, [], false, map[0 := Idle], {0}, map[], Dormant, multiset{})
  }

  /** An empty server with idle workers, past its start-up. */
  ghost predicate JustBooted(b: State) {
    && b.config.capacity > 0 && b.config.lease >= 0
    && b.db == EMPTY && b.queue == [] && !b.closing && b.handlers == map[]
    && b.sweeper.Dormant? && b.beats == multiset{}
    && b.named == b.workers.Keys && forall w :: w in b.workers ==> b.workers[w] == Idle
  }

  lemma BootedIsReachable(b: State) returns (s: State, boot: seq<Step>)
    requires JustBooted(b)
    ensures Initial(s) && Run(s, boot) && End(s, boot) == b
    ensures boot == [Sweep([], Answered), Fetch([], true)] && s == b.(sweeper := Booting)
  {
    s := b.(sweeper := Booting);
    boot := [Sweep([], Answered), Fetch([], true)];
    var s1 := Apply(s, boot[0]);
    assert s1.db.rows == map[] && s1.db.history == map[];
    assert boot[1..] == [Fetch([], true)] && boot[1..][1..] == [];
    assert Run(s1, boot[1..]);
  }

  function Creation(h: HandlerId, user: UserId, id: JobId): seq<Step> {
    [Count(h, user), Create(h, id, 1, Answered)]
  }

  /** An accepted request, up to and including its insert. */
  lemma CreateOne(s: State, h: HandlerId, user: UserId, id: JobId) returns (s': State)
    requires Serving(s) && h !in s.handlers && |ActiveIds(s.db.rows, user)| < 5
    requires id !in s.db.history && id !in s.db.rows
    ensures s' == s.(handlers := s.handlers[h := Inserted(id)], db := Record(s.db, Insert(id, user, 1), s.now))
    ensures Run(s, Creation(h, user, id)) && End(s, Creation(h, user, id)) == s'
    ensures s'.db.rows == s.db.rows[id := NewRow(user, 1, s.now)]
  {
    var s1 := Apply(s, Count(h, user));
    s' := Apply(s1, Create(h, id, 1, Answered));
    assert s'.handlers == s.handlers[h := Inserted(id)];
    RunOne(s1, Create(h, id, 1, Answered));
    RunCons(s, Count(h, user), [Create(h, id, 1, Answered)]);
    assert Creation(h, user, id) == [Count(h, user)] + [Create(h, id, 1, Answered)];
  }

  /** The booted server with its first job stored and queued. */
  function FirstQueued(b: State, user: UserId): State {
    b.(db := Journal(map[0 := NewRow(user, 1, b.now)], map[0 := Tally(0, 0, 0)]), queue := [0])
  }

  lemma FirstJobIsQueued(b: State, user: UserId) returns (steps: seq<Step>)
    requires JustBooted(b)
    ensures steps == Creation(0, user, 0) + [Submit(0)]
    ensures Run(b, steps) && End(b, steps) == FirstQueued(b, user)
  {
    assert ActiveIds(b.db.rows, user) == {};
    var s' := CreateOne(b, 0, user, 0);
    steps := Creation(0, user, 0) + [Submit(0)];
    assert s'.handlers[0] == Inserted(0);
    FirstSubmit(b, user, s');
    RunOne(s', Submit(0));
    RunAppend(b, Creation(0, user, 0), [Submit(0)]);
  }

  lemma FirstSubmit(b: State, user: UserId, s: State)
    requires JustBooted(b)
    requires s == b.(handlers := map[0 := Inserted(0)], db := Record(EMPTY, Insert(0, user, 1), b.now))
    ensures Enabled(s, Submit(0)) && Apply(s, Submit(0)) == FirstQueued(b, user)
  {
    assert Apply(s, Submit(0)).handlers == map[];
  }

  /** A booted server of queue capacity 1, one job stored and queued. */
  function OneQueued(user: UserId, lease: int): State {
    FirstQueued(Booted(1, lease), user)
  }

  /** The next request is stored and then refused. */
  lemma SecondJobIsRefused(user: UserId, lease: int) returns (steps: seq<Step>, s': State)
    ensures Run(OneQueued(user, lease), steps) && End(OneQueued(user, lease), steps) == s'
    ensures Orphan(s', 1) && Serving(s')
  {
    var s := OneQueued(user, lease);
    assert ActiveIds(s.db.rows, user) == {0};
    var s1 := CreateOne(s, 1, user, 1);
    steps := Creation(1, user, 1) + [Submit(1)];
    assert s1.handlers == map[1 := Inserted(1)];
    s' := Apply(s1, Submit(1));
    RefusedIsOrphan(s1, 1, 1);
    RunOne(s1, Submit(1));
    RunAppend(s, Creation(1, user, 1), [Submit(1)]);
  }

  /** A refusal, with the id in no other hands, leaves an orphan. */
  lemma RefusedIsOrphan(s: State, h: HandlerId, id: JobId)
    requires h in s.handlers && s.handlers[h] == Inserted(id) && Refuses(s) && IsPending(s, id)
    requires id !in s.queue && s.sweeper.Dormant?
    requires forall w :: w in s.workers ==> s.workers[w] == Idle
    requires forall g :: g in s.handlers && g != h ==> s.handlers[g] != Inserted(id)
    ensures Enabled(s, Submit(h)) && Orphan(Apply(s, Submit(h)), id) && Serving(Apply(s, Submit(h)))
  {
    var s' := Apply(s, Submit(h));
    assert s' == s.(handlers := s.handlers - {h});
  }

  /**
   The answer "try again later" of a full queue is not harmless: the job is already stored, nobody holds it, and by
   `OrphanForever` no sweep of this process will enqueue it.
   */
  lemma RefusedSubmitOrphans(user: UserId, lease: int) returns (steps: seq<Step>, s: State)
    requires lease >= 0
    ensures Run(Booted(1, lease), steps) && s == End(Booted(1, lease), steps) && Orphan(s, 1) && Serving(s)
  {
    var first := FirstJobIsQueued(Booted(1, lease), user);
    var second, s' := SecondJobIsRefused(user, lease);
    RunAppend(Booted(1, lease), first, second);
    steps, s := first + second, s';
  }
}

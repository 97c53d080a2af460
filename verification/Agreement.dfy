/**
 The sequential method `Pipeline.ProcessJob` and the transition system describe the same program: an undisturbed call
 is a run of the worker's own steps, with the same effect on the table.
 */
module Agreement {
  import opened Basics
  import opened JobTable
  import opened Ledger
  import opened Protocol
  import Pipe = Pipeline

  /** `steps` is a run of worker `w` alone from `s` that leaves it idle with table `rows`. */
  ghost predicate Leaves(s: State, steps: seq<Step>, w: WorkerId, rows: Table) {
    && Run(s, steps)
    && At(End(s, steps), w, (p: Phase) => p.Idle?)
    && End(s, steps).db.rows == rows
  }

  lemma Prepend(s: State, step: Step, rest: seq<Step>, w: WorkerId, rows: Table)
    requires Enabled(s, step) && Leaves(Apply(s, step), rest, w, rows)
    ensures Leaves(s, [step] + rest, w, rows)
  {
    RunCons(s, step, rest);
  }

  lemma GiveUpRun(s: State, w: WorkerId, fault: Fault) returns (steps: seq<Step>)
    requires At(s, w, (p: Phase) => p.Failing?)
    ensures var p := s.workers[w];
            Leaves(s, steps, w, Pipe.Sent(s.db.rows, Statement.Fail(p.id, w, p.message), s.now, fault))
  {
    steps := [GiveUp(w, fault)];
    RunOne(s, steps[0]);
  }

  lemma FinishRun(s: State, w: WorkerId, fault: Fault) returns (steps: seq<Step>)
    requires At(s, w, (p: Phase) => p.Finishing?)
    ensures var p := s.workers[w];
            Leaves(s, steps, w, Pipe.Sent(s.db.rows, Complete(p.id, w, p.url, p.metrics), s.now, fault))
  {
    steps := [Finish(w, fault)];
    RunOne(s, steps[0]);
  }

  lemma VerifyRun(s: State, w: WorkerId, e: Pipe.Surroundings) returns (steps: seq<Step>)
    requires At(s, w, (p: Phase) => p.Verifying?) && s.now == e.now
    ensures var p := s.workers[w];
            Leaves(s, steps, w,
                   if !e.verifies || !Owns(s.db.rows, p.id, w, e.clock) then s.db.rows
                   else Pipe.Sent(s.db.rows, Complete(p.id, w, Pipe.UrlOf(p.id, e.s3), p.metrics), e.now, e.completion))
  {
    var p := s.workers[w];
    var verify := Verify(w, e.clock, e.verifies);
    var s1 := Apply(s, verify);
    if e.verifies && Owns(s.db.rows, p.id, w, e.clock) {
      var upload := Upload(w, Pipe.UrlOf(p.id, e.s3));
      var done := Pipe.Sent(s.db.rows, Complete(p.id, w, Pipe.UrlOf(p.id, e.s3), p.metrics), e.now, e.completion);
      steps := FinishRun(Apply(s1, upload), w, e.completion);
      Prepend(s1, upload, steps, w, done);
      steps := [upload] + steps;
      Prepend(s, verify, steps, w, done);
      steps := [verify] + steps;
    } else {
      steps := [verify];
      RunOne(s, verify);
    }
  }

  lemma RenderRun(s: State, w: WorkerId, e: Pipe.Surroundings) returns (steps: seq<Step>)
    requires At(s, w, (p: Phase) => p.Rendering?) && s.now == e.now
    ensures var id := s.workers[w].id;
            Leaves(s, steps, w,
                   match Pipe.FirstVideo(e.grpc, e.http, e.subprocess)
                   case RenderFailed(message) => Pipe.Sent(s.db.rows, Statement.Fail(id, w, message), e.now, e.failure)
                   case Video(metrics) =>
                     if !e.verifies || !Owns(s.db.rows, id, w, e.clock) then s.db.rows
                     else Pipe.Sent(s.db.rows, Complete(id, w, Pipe.UrlOf(id, e.s3), Pipe.MetricsArg(metrics)), e.now,
                                    e.completion))
  {
    var id := s.workers[w].id;
    match Pipe.FirstVideo(e.grpc, e.http, e.subprocess)
    case RenderFailed(message) =>
      var step := RenderError(w, message);
      steps := GiveUpRun(Apply(s, step), w, e.failure);
      RunCons(s, step, steps);
      steps := [step] + steps;
    case Video(metrics) =>
      var step := RenderOk(w, Pipe.MetricsArg(metrics));
      steps := VerifyRun(Apply(s, step), w, e);
      RunCons(s, step, steps);
      steps := [step] + steps;
  }

  /** The table an undisturbed call computes is the table some run of the worker's steps reaches. */
  lemma ProcessJobIsARun(s: State, w: WorkerId, e: Pipe.Surroundings) returns (steps: seq<Step>)
    requires At(s, w, (p: Phase) => p.Holding?) && s.now == e.now
    ensures Leaves(s, steps, w, Pipe.Processed(s.db.rows, s.workers[w].id, w, s.config.lease, e))
  {
    var id := s.workers[w].id;
    var claim := TryClaim(w, e.claim);
    var s1 := Apply(s, claim);
    if e.claim != Answered || id !in s.db.rows || s.db.rows[id].status != Pending {
      steps := [claim];
      RunOne(s, claim);
    } else {
      var load := Load(w, e.loads);
      assert s1.db.rows == Execute(s.db.rows, Statement.Claim(id, w, s.config.lease), s.now);
      var s2 := Apply(s1, load);
      if e.loads {
        steps := RenderRun(s2, w, e);
      } else {
        steps := GiveUpRun(s2, w, e.failure);
      }
      Prepend(s1, load, steps, w, Pipe.Processed(s.db.rows, id, w, s.config.lease, e));
      Prepend(s, claim, [load] + steps, w, Pipe.Processed(s.db.rows, id, w, s.config.lease, e));
      steps := [claim] + ([load] + steps);
    }
  }

  // ---------------------------------------------------------------- recovery and submission

  function Filled(queue: seq<JobId>, capacity: nat, ids: seq<JobId>): seq<JobId>
    requires |queue| <= capacity
  {
    Pipe.Refilled(queue, false, capacity, ids)
  }

  lemma {:induction false} PublishRun(s: State, ids: seq<JobId>, boot: bool) returns (steps: seq<Step>)
    requires s.sweeper == ToPublish(ids, boot) && !s.closing && |s.queue| <= s.config.capacity
    ensures Run(s, steps)
    ensures End(s, steps) == s.(sweeper := Dormant, queue := Filled(s.queue, s.config.capacity, ids))
    decreases |ids|
  {
    if ids == [] {
      assert Filled(s.queue, s.config.capacity, ids) == s.queue;
      steps := [];
    } else {
      var s' := Apply(s, Publish);
      assert s'.sweeper == ToPublish(ids[1..], boot);
      var rest := PublishRun(s', ids[1..], boot);
      FilledStep(s.queue, s.config.capacity, ids);
      RunCons(s, Publish, rest);
      steps := [Publish] + rest;
    }
  }

  lemma FilledStep(queue: seq<JobId>, capacity: nat, ids: seq<JobId>)
    requires |queue| <= capacity && ids != []
    ensures |queue| < capacity ==> Filled(queue, capacity, ids) == Filled(queue + [ids[0]], capacity, ids[1..])
    ensures |queue| == capacity ==> Filled(queue, capacity, ids) == queue == Filled(queue, capacity, ids[1..])
  {
    if |queue| < capacity {
      var n := Min(|ids|, capacity - |queue|);
      assert ids[..n] == [ids[0]] + ids[1..][..n - 1];
    }
  }

  /** One tick of a heartbeat is a step of the system: same table, and it stops exactly when the method says. */
  lemma TickIsAStep(s: State, beat: Heartbeat, fault: Fault)
    requires beat in s.beats
    ensures Enabled(s, Beat(beat, fault))
    ensures var s' := Apply(s, Beat(beat, fault));
            var owned := && beat.id in s.db.rows && s.db.rows[beat.id].status == Processing
                         && s.db.rows[beat.id].workerId == Some(beat.worker);
            && s'.db.rows == Pipe.Sent(s.db.rows, Statement.Extend(beat.id, beat.worker, s.config.lease), s.now, fault)
            && s'.beats == if fault == Answered && !owned then s.beats - multiset{beat} else s.beats
  {
  }

  /** One tick of the scheduled sweep is a run of the sweeper's own steps. */
  lemma SweepIsARun(s: State, recovered: seq<JobId>, fault: Fault) returns (steps: seq<Step>)
    requires s.sweeper.Dormant? && !s.closing && |s.queue| <= s.config.capacity
    requires Enumerates(recovered, StalledIds(s.db.rows, s.now, MAX_RETRY))
    ensures var published := if fault == Answered then recovered else [];
            && Run(s, steps) && End(s, steps).sweeper.Dormant?
            && End(s, steps).db.rows == Pipe.Sent(s.db.rows, Recover(MAX_RETRY), s.now, fault)
            && End(s, steps).queue == Filled(s.queue, s.config.capacity, published)
  {
    var sweep, published := Sweep(recovered, fault), if fault == Answered then recovered else [];
    var s' := Apply(s, sweep);
    assert s'.queue == s.queue && s'.config == s.config && s'.sweeper == ToPublish(published, false);
    assert s'.db.rows == Pipe.Sent(s.db.rows, Recover(MAX_RETRY), s.now, fault);
    var rest := PublishRun(s', published, false);
    RunCons(s, sweep, rest);
    steps := [sweep] + rest;
  }

  /** So is the recovery of a starting process. */
  lemma StartupIsARun(s: State, recovered: seq<JobId>, fault: Fault, pending: seq<JobId>, fetches: bool)
      returns (steps: seq<Step>)
    requires s.sweeper.Booting? && !s.closing && |s.queue| <= s.config.capacity
    requires Enumerates(recovered, StalledIds(s.db.rows, s.now, MAX_RETRY))
    requires Enumerates(pending, PendingIds(Pipe.Sent(s.db.rows, Recover(MAX_RETRY), s.now, fault), MAX_RETRY))
    ensures var published := if fetches then pending else [];
            && Run(s, steps) && End(s, steps).sweeper.Dormant?
            && End(s, steps).db.rows == Pipe.Sent(s.db.rows, Recover(MAX_RETRY), s.now, fault)
            && End(s, steps).queue == Filled(s.queue, s.config.capacity, published)
  {
    var sweep, fetch, published := Sweep(recovered, fault), Fetch(pending, fetches), if fetches then pending else [];
    var s1 := Apply(s, sweep);
    assert s1.queue == s.queue && s1.config == s.config && s1.sweeper == Fetching && !s1.closing;
    assert s1.db.rows == Pipe.Sent(s.db.rows, Recover(MAX_RETRY), s.now, fault);
    var s2 := Apply(s1, fetch);
    assert s2 == s1.(sweeper := ToPublish(published, true));
    var rest := PublishRun(s2, published, true);
    RunCons(s1, fetch, rest);
    RunCons(s, sweep, [fetch] + rest);
    steps := [sweep] + ([fetch] + rest);
  }

  /** A submission whose insert is answered: the job is stored, and queued if there is room. */
  lemma SubmissionIsARun(s: State, h: HandlerId, user: UserId, id: JobId, frames: int) returns (steps: seq<Step>)
    requires Serving(s) && !s.closing && h !in s.handlers && |ActiveIds(s.db.rows, user)| < 5
    requires id !in s.db.history && id !in s.db.rows && 0 < frames <= MAX_FRAMES
    ensures Run(s, steps)
    ensures End(s, steps).db.rows == s.db.rows[id := NewRow(user, frames, s.now)]
    ensures End(s, steps).queue == if |s.queue| < s.config.capacity then s.queue + [id] else s.queue
    ensures End(s, steps).handlers == s.handlers
  {
    var count, create, submit := Count(h, user), Create(h, id, frames, Answered), Submit(h);
    var s1 := Apply(s, count);
    assert s1 == s.(handlers := s.handlers[h := Admitted(user)]);
    var s2 := Apply(s1, create);
    assert s2.handlers == s.handlers[h := Inserted(id)];
    assert s2.queue == s.queue && s2.config == s.config && !s2.closing;
    assert s2.db.rows == s.db.rows[id := NewRow(user, frames, s.now)];
    var s3 := Apply(s2, submit);
    assert s3.handlers == s.handlers;
    RunOne(s2, submit);
    RunCons(s1, create, [submit]);
    RunCons(s, count, [create] + [submit]);
    steps := [count] + ([create] + [submit]);
  }
}

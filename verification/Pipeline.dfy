/**
 The worker pipeline and the job handlers as the program writes them: methods that change the table, the queue and
 the cancel map one call after another. Here each method runs undisturbed; `Protocol` interleaves the same calls.
 */
module Pipeline {
  import opened Basics
  import opened JobTable
  import opened Queues

  /** What one rendering strategy returns. */
  datatype Render = Video(metrics: string) | RenderFailed(message: string)

  /** Everything `processJob` meets on its way. A client that is not configured is None. */
  datatype Surroundings = Surroundings(
    now: int,
    claim: Fault,
    loads: bool,
    grpc: Option<Render>,
    http: Option<Render>,
    subprocess: Render,
    failure: Fault,
    clock: int,
    verifies: bool,
    s3: Option<Option<string>>,
    completion: Fault)

  // ---------------------------------------------------------------- what a call amounts to

  /** The first strategy of the chain gRPC, HTTP, subprocess that is configured and succeeds; else the last error. */
  function FirstVideo(grpc: Option<Render>, http: Option<Render>, subprocess: Render): Render {
    if grpc.Some? && grpc.value.Video? then grpc.value
    else if http.Some? && http.value.Video? then http.value
    else subprocess
  }

  function LocalUrl(id: JobId): string {
    "/videos/" + Decimal(id) + ".mp4"
  }

  function Decimal(n: nat): string {
    if n < 10 then [('0' as int + n) as char] else Decimal(n / 10) + [('0' as int + n % 10) as char]
  }

  /** The number a string of digits stands for. */
  function Value(s: string): int {
    if s == "" then 0 else 10 * Value(s[..|s| - 1]) + (s[|s| - 1] as int - '0' as int)
  }

  lemma {:induction false} DecimalReadsBack(n: nat)
    ensures Decimal(n) != "" && Value(Decimal(n)) == n
    ensures forall i :: 0 <= i < |Decimal(n)| ==> '0' <= Decimal(n)[i] <= '9'
  {
    if n >= 10 {
      DecimalReadsBack(n / 10);
      assert Decimal(n)[..|Decimal(n)| - 1] == Decimal(n / 10);
    } else {
      assert Decimal(n)[..0] == "";
    }
  }

  /** A local URL names the job in its file name, so no two jobs share one. */
  lemma LocalUrlNamesTheJob(id: JobId)
    ensures var url := LocalUrl(id);
            && |url| > 12 && url[..8] == "/videos/" && url[|url| - 4..] == ".mp4" && Value(url[8..|url| - 4]) == id
  {
    var url, name := LocalUrl(id), Decimal(id);
    DecimalReadsBack(id);
    assert url[..8] == "/videos/" && url[8..|url| - 4] == name && url[|url| - 4..] == ".mp4";
  }

  /** A failed or absent upload falls back to serving the file locally. */
  function UrlOf(id: JobId, s3: Option<Option<string>>): string {
    if s3.Some? && s3.value.Some? then s3.value.value else LocalUrl(id)
  }

  function Sent(t: Table, st: Statement, now: int, fault: Fault): Table {
    if fault == LostBefore then t else Execute(t, st, now)
  }

  function MetricsArg(metrics: string): Option<string> {
    if metrics == "" then None else Some(metrics)
  }

  /** The table after an undisturbed `processJob`. */
  function Processed(t: Table, id: JobId, w: WorkerId, lease: int, e: Surroundings): Table {
    var claimed := Sent(t, Statement.Claim(id, w, lease), e.now, e.claim);
    if e.claim != Answered || id !in t || t[id].status != Pending then claimed
    else if !e.loads then Sent(claimed, Statement.Fail(id, w, "failed to load job details"), e.now, e.failure)
    else
      match FirstVideo(e.grpc, e.http, e.subprocess)
      case RenderFailed(message) => Sent(claimed, Statement.Fail(id, w, message), e.now, e.failure)
      case Video(metrics) =>
        if !e.verifies || !Owns(claimed, id, w, e.clock) then claimed
        else Sent(claimed, Complete(id, w, UrlOf(id, e.s3), MetricsArg(metrics)), e.now, e.completion)
  }

  /** The status an undisturbed call leaves a pending job in. Other jobs it leaves alone. */
  lemma ProcessedStatus(t: Table, id: JobId, w: WorkerId, lease: int, e: Surroundings)
    requires id in t && t[id].status == Pending && Legal(t[id]) && t[id].retryCount == 0
    ensures var t', video := Processed(t, id, w, lease, e), FirstVideo(e.grpc, e.http, e.subprocess);
            var running := e.claim == Answered && e.loads;
            var inTime := e.clock <= e.now + WholeSeconds(Max(lease, 0));
            && t'.Keys == t.Keys
            && (forall other :: other in t && other != id ==> t'[other] == t[other])
            && (t'[id].status == Pending <==> e.claim == LostBefore)
            && (t'[id].status == Completed <==>
                running && video.Video? && e.verifies && inTime && e.completion != LostBefore)
            && (t'[id].status == Failed <==>
                e.claim == Answered && (!e.loads || video.RenderFailed?) && e.failure != LostBefore)
            && (t'[id].status == Completed ==>
                t'[id].videoUrl == Some(UrlOf(id, e.s3)) && t'[id].version == t[id].version + 2)
            && (t'[id].status == Processing ==> OwnedBy(t'[id], w) && t'[id].version == t[id].version + 1)
            && t'[id].status != Cancelled
  {
  }

  /**
   The pending row after an undisturbed call, column by column: what the claim wrote, and then, unless the connection or
   the lease was lost, the URL and the metrics of the first strategy in the order gRPC, HTTP, subprocess that made a
   video, or else the message of the subprocess.
   */
  lemma ProcessedRow(t: Table, id: JobId, w: WorkerId, lease: nat, e: Surroundings)
    requires id in t && t[id].status == Pending && 0 < t[id].frameCount <= 1800 && t[id].retryCount == 0
    ensures var expiry := e.now + lease - lease % 1_000_000_000;
            var claimed := t[id].(status := Processing, workerId := Some(w), leaseExpiry := Some(expiry),
                                  version := t[id].version + 1);
            var viaGrpc := e.grpc.Some? && e.grpc.value.Video?;
            var viaHttp := !viaGrpc && e.http.Some? && e.http.value.Video?;
            var made := viaGrpc || viaHttp || e.subprocess.Video?;
            var row := Processed(t, id, w, lease, e)[id];
            && (e.claim == LostBefore ==> row == t[id])
            && (e.claim == LostAfter ==> row == claimed)
            && (e.claim == Answered && !e.loads ==>
                row == if e.failure == LostBefore then claimed
                       else claimed.(status := Failed, errorMessage := Some("failed to load job details"),
                                     retryCount := 1, version := t[id].version + 2))
            && (e.claim == Answered && e.loads && !made ==>
                row == if e.failure == LostBefore then claimed
                       else claimed.(status := Failed, errorMessage := Some(e.subprocess.message),
                                     retryCount := 1, version := t[id].version + 2))
            && (e.claim == Answered && e.loads && made ==>
                var metrics := if viaGrpc then e.grpc.value.metrics
                               else if viaHttp then e.http.value.metrics else e.subprocess.metrics;
                var url := if e.s3.Some? && e.s3.value.Some? then e.s3.value.value else LocalUrl(id);
                row == if !e.verifies || e.clock > expiry || e.completion == LostBefore then claimed
                       else claimed.(status := Completed, videoUrl := Some(url), version := t[id].version + 2,
                                     metrics := if metrics == "" then t[id].metrics else Some(metrics)))
  {
  }

  // ---------------------------------------------------------------- the pipeline object

  class Pipeline {
    const repo: JobRepository
    const queue: ChannelQueue
    const leaseDuration: int
    var jobCancels: map<JobId, nat>
    /** The calls whose context has been cancelled. */
    var cancelled: set<nat>
    var totalProcessed: nat

    constructor (repo: JobRepository, queue: ChannelQueue)
      ensures this.repo == repo && this.queue == queue && leaseDuration == 300 * SECOND
      ensures jobCancels == map[] && cancelled == {} && totalProcessed == 0
    {
      this.repo, this.queue, this.leaseDuration := repo, queue, 300 * SECOND;
      jobCancels, cancelled, totalProcessed := map[], {}, 0;
    }

    /** Cancels the call entered for the job, and no other; the entry stays. */
    method AbortJob(id: JobId)
      modifies this`cancelled
      ensures forall call :: call in cancelled <==>
                call in old(cancelled) || (id in jobCancels && jobCancels[id] == call)
    {
      if id in jobCancels {
        cancelled := cancelled + {jobCancels[id]};
      }
    }

    /** The fallback chain of processJob. */
    method RenderChain(grpc: Option<Render>, http: Option<Render>, subprocess: Render)
        returns (videoPath: bool, metrics: string, err: Option<string>)
      ensures err.None? <==> FirstVideo(grpc, http, subprocess).Video?
      ensures videoPath <==> err.None?
      ensures err.None? ==> Video(metrics) == FirstVideo(grpc, http, subprocess)
      ensures err.Some? ==> RenderFailed(err.value) == FirstVideo(grpc, http, subprocess)
      ensures var viaGrpc, viaHttp := grpc.Some? && grpc.value.Video?, http.Some? && http.value.Video?;
              && (err.None? <==> viaGrpc || viaHttp || subprocess.Video?)
              && (viaGrpc ==> metrics == grpc.value.metrics)
              && (!viaGrpc && viaHttp ==> metrics == http.value.metrics)
              && (!viaGrpc && !viaHttp && subprocess.Video? ==> metrics == subprocess.metrics)
              && (err.Some? ==> subprocess == RenderFailed(err.value))
    {
      videoPath, metrics, err := false, "", None;
      if grpc.Some? {
        videoPath, metrics, err := Try(grpc.value);
        if err.Some? {
          err := None;
        }
      }
      if !videoPath && http.Some? {
        videoPath, metrics, err := Try(http.value);
        if err.Some? {
          err := None;
        }
      }
      if !videoPath {
        videoPath, metrics, err := Try(subprocess);
      }
    }

    method Try(r: Render) returns (videoPath: bool, metrics: string, err: Option<string>)
      ensures videoPath <==> r.Video?
      ensures r.Video? ==> metrics == r.metrics && err == None
      ensures r.RenderFailed? ==> metrics == "" && err == Some(r.message)
    {
      match r
      case Video(m) => videoPath, metrics, err := true, m, None;
      case RenderFailed(message) => videoPath, metrics, err := false, "", Some(message);
    }

    /** `call` names this invocation; its cancel function is in the map while it runs, and its entry is gone after. */
    method ProcessJob(id: JobId, w: WorkerId, call: nat, e: Surroundings) returns (counted: bool)
      modifies this, repo
      ensures repo.rows == Processed(old(repo.rows), id, w, leaseDuration, e)
      ensures jobCancels == old(jobCancels) - {id} && cancelled == old(cancelled) + {call}
      ensures totalProcessed == old(totalProcessed) + (if counted then 1 else 0)
      ensures leaseDuration >= 0 ==>
                (counted <==>
                 && e.claim == Answered && id in old(repo.rows) && old(repo.rows)[id].status == Pending && e.loads
                 && (|| (e.grpc.Some? && e.grpc.value.Video?)
                     || (e.http.Some? && e.http.value.Video?)
                     || e.subprocess.Video?)
                 && e.verifies && e.clock <= e.now + leaseDuration - leaseDuration % 1_000_000_000
                 && e.completion == Answered)
      ensures counted ==>
                id in repo.rows && repo.rows[id].status == Completed && repo.rows[id].workerId == Some(w)
    {
      jobCancels := jobCancels[id := call];
      counted := Work(id, w, e);
      cancelled := cancelled + {call};
      jobCancels := jobCancels - {id};
    }

    method Work(id: JobId, w: WorkerId, e: Surroundings) returns (counted: bool)
      modifies this`totalProcessed, repo
      ensures repo.rows == Processed(old(repo.rows), id, w, leaseDuration, e)
      ensures totalProcessed == old(totalProcessed) + (if counted then 1 else 0)
      ensures leaseDuration >= 0 ==>
                (counted <==>
                 && e.claim == Answered && id in old(repo.rows) && old(repo.rows)[id].status == Pending && e.loads
                 && (|| (e.grpc.Some? && e.grpc.value.Video?)
                     || (e.http.Some? && e.http.value.Video?)
                     || e.subprocess.Video?)
                 && e.verifies && e.clock <= e.now + leaseDuration - leaseDuration % 1_000_000_000
                 && e.completion == Answered)
      ensures counted ==>
                id in repo.rows && repo.rows[id].status == Completed && repo.rows[id].workerId == Some(w)
    {
      counted := false;
      var claimed := repo.ClaimJobCAS(id, w, leaseDuration, e.now, e.claim);
      if claimed != Ok(true) {
        return;
      }
      if !e.loads {
        var _ := repo.MarkFailed(id, w, "failed to load job details", e.now, e.failure);
        return;
      }
      var _, metrics, err := RenderChain(e.grpc, e.http, e.subprocess);
      if err.Some? {
        var _ := CheckCancelOrError(id, w, err, false, true, e.now, e.failure);
        return;
      }
      var owner := repo.VerifyOwnership(id, w, e.clock, e.verifies);
      if owner != Ok(true) {
        return;
      }
      var r := repo.MarkCompleted(id, w, UrlOf(id, e.s3), metrics, e.now, e.completion);
      if r.Ok? {
        totalProcessed := totalProcessed + 1;
        counted := true;
      }
    }

    /**
     An error marks the job failed; only without one is the cancel flag of the row looked at, and a query that fails
     reads as a flag that is not set.
     */
    method CheckCancelOrError(id: JobId, w: WorkerId, err: Option<string>, contextDone: bool, answered: bool, now: int,
                              fault: Fault)
        returns (stop: bool)
      modifies repo
      ensures err.Some? ==> stop && repo.rows == Sent(old(repo.rows), Statement.Fail(id, w, err.value), now, fault)
      ensures err.None? && contextDone ==> stop && repo.rows == old(repo.rows)
      ensures err.None? && !contextDone ==>
                && stop == (answered && id in old(repo.rows) && old(repo.rows)[id].cancelRequested)
                && repo.rows == if stop then Sent(old(repo.rows), Cancel(id, w), now, fault) else old(repo.rows)
    {
      if err.Some? {
        var _ := repo.MarkFailed(id, w, err.value, now, fault);
        return true;
      }
      if contextDone {
        return true;
      }
      var flag := repo.IsCancelRequested(id, answered);
      if flag == Ok(true) {
        var _ := repo.MarkCancelled(id, w, now, fault);
        return true;
      }
      return false;
    }

    /** One tick of the heartbeat: renews the lease, and stops when the job is not the worker's any more. */
    method HeartbeatTick(id: JobId, w: WorkerId, now: int, fault: Fault) returns (stop: bool)
      modifies repo
      ensures repo.rows == Sent(old(repo.rows), Statement.Extend(id, w, leaseDuration), now, fault)
      ensures stop <==>
              && fault == Answered
              && !(&& id in old(repo.rows)
                   && old(repo.rows)[id].status == Processing && old(repo.rows)[id].workerId == Some(w))
    {
      var r := repo.ExtendLease(id, w, leaseDuration, now, fault);
      stop := r == OptimisticLock;
    }

    /** Publishes ids in order; a full queue skips the rest one by one, a closed one panics at the first. */
    method PublishAll(ids: seq<JobId>) returns (panicked: bool)
      requires queue.Valid()
      modifies queue
      ensures queue.Valid() && queue.closed == old(queue.closed)
      ensures panicked <==> queue.closed && ids != []
      ensures queue.buffer == Refilled(old(queue.buffer), queue.closed, queue.capacity, ids)
    {
      var room := queue.capacity - |queue.buffer|;
      for i := 0 to |ids|
        invariant queue.Valid() && queue.closed == old(queue.closed) && (i > 0 ==> !queue.closed)
        invariant queue.buffer == old(queue.buffer) + ids[..Min(i, room)]
      {
        var r := queue.Publish(ids[i]);
        if r == Panicked {
          return true;
        }
        assert i < room ==> ids[..i + 1] == ids[..i] + [ids[i]];
      }
      return false;
    }

    /** Recovers, then enqueues every pending job, oldest first, as far as the queue has room. */
    method StartupRecovery(now: int, recover: Fault, fetches: bool) returns (pending: seq<JobId>, panicked: bool)
      requires queue.Valid()
      modifies repo, queue
      ensures repo.rows == Sent(old(repo.rows), Recover(MAX_RETRY), now, recover)
      ensures queue.Valid() && queue.closed == old(queue.closed)
      ensures if fetches then Enumerates(pending, PendingIds(repo.rows, MAX_RETRY)) else pending == []
      ensures forall i :: 0 <= i < |pending| ==> pending[i] in repo.rows
      ensures forall i, j :: 0 <= i < j < |pending| ==>
                repo.rows[pending[i]].createdAt <= repo.rows[pending[j]].createdAt
      ensures queue.buffer == Refilled(old(queue.buffer), queue.closed, queue.capacity, pending)
      ensures panicked <==> queue.closed && pending != []
    {
      var _ := repo.RecoverStalledJobs(MAX_RETRY, now, recover);
      var r := repo.GetPendingJobs(MAX_RETRY, fetches);
      if !r.Ok? {
        return [], false;
      }
      pending := r.value;
      panicked := PublishAll(pending);
    }

    /** One tick of the scheduled sweep: it enqueues what it recovered itself, and nothing else. */
    method SweepOnce(now: int, fault: Fault) returns (recovered: seq<JobId>, panicked: bool)
      requires queue.Valid()
      modifies repo, queue
      ensures repo.rows == Sent(old(repo.rows), Recover(MAX_RETRY), now, fault)
      ensures queue.Valid() && queue.closed == old(queue.closed)
      ensures if fault == Answered then Enumerates(recovered, StalledIds(old(repo.rows), now, MAX_RETRY))
              else recovered == []
      ensures queue.buffer == Refilled(old(queue.buffer), queue.closed, queue.capacity, recovered)
      ensures panicked <==> queue.closed && recovered != []
    {
      var r := repo.RecoverStalledJobs(MAX_RETRY, now, fault);
      if !r.Ok? {
        return [], false;
      }
      recovered := r.value;
      panicked := PublishAll(recovered);
    }
  }

  /** The queue after publishing `ids` one by one. */
  function Refilled(queue: seq<JobId>, closed: bool, capacity: nat, ids: seq<JobId>): seq<JobId>
    requires |queue| <= capacity
  {
    if closed then queue else queue + ids[..Min(|ids|, capacity - |queue|)]
  }

  // ---------------------------------------------------------------- the handlers

  datatype DateField = Missing | Malformed | Day(day: int)

  datatype CreateRequest = CreateRequest(
    frames: int, bboxSize: nat, start: DateField, end: DateField, fps: int, layers: nat)

  class JobHandler {
    const repo: JobRepository
    const pipeline: Pipeline

    constructor (repo: JobRepository, pipeline: Pipeline)
      requires pipeline.repo == repo
      ensures this.repo == repo && this.pipeline == pipeline
    {
      this.repo, this.pipeline := repo, pipeline;
    }

    /**
     The HTTP status of a submission. A refused publish (503), one on a closed queue (500, the panic is recovered) and
     an insert that committed unseen (409) all leave the job stored and pending, outside the queue.
     */
    method CreateJob(user: UserId, q: CreateRequest, id: JobId, now: int, counts: bool, insert: Fault)
        returns (status: int)
      requires repo == pipeline.repo && pipeline.queue.Valid() && id !in repo.rows
      modifies repo, pipeline.queue
      ensures pipeline.queue.Valid() && pipeline.queue.closed == old(pipeline.queue.closed)
      ensures var queue := old(pipeline.queue.buffer);
              var active := |set j | j in old(repo.rows) && old(repo.rows)[j].user == user &&
                                     old(repo.rows)[j].status in {Pending, Processing}|;
              var complete := && 0 < q.frames <= 1800 && q.bboxSize == 4 && !q.start.Missing? && !q.end.Missing?
                              && 0 < q.fps <= 60 && q.layers > 0;
              var datesFit := q.start.Day? && q.end.Day? && 0 <= q.end.day - q.start.day <= 300;
              var stored := complete && counts && active < 5 && datesFit && insert != LostBefore;
              var published := stored && insert == Answered && !pipeline.queue.closed;
              && repo.rows == (if stored
                               then old(repo.rows)[id := Row(user, Pending, q.frames, 0, None, None, 0, None, None,
                                                             false, None, now, 0)]
                               else old(repo.rows))
              && pipeline.queue.buffer == (if status == 202 then queue + [id] else queue)
              && (status == 202 <==> published && |queue| < pipeline.queue.capacity)
              && (status == 503 <==> published && |queue| == pipeline.queue.capacity)
              && (status == 409 <==> complete && counts && active < 5 && datesFit && insert != Answered)
              && (status == 429 <==> complete && counts && active >= 5)
              && (status == 400 <==> !complete || (counts && active < 5 && !datesFit))
              && (status == 500 <==>
                  complete && (!counts || (stored && insert == Answered && pipeline.queue.closed)))
    {
      if q.frames <= 0 || q.frames > MAX_FRAMES { return 400; }
      if q.bboxSize != 4 { return 400; }
      if q.start.Missing? || q.end.Missing? { return 400; }
      if q.fps <= 0 || q.fps > 60 { return 400; }
      if q.layers == 0 { return 400; }
      var count := repo.GetActiveJobCountByUser(user, counts);
      if !count.Ok? { return 500; }
      if count.value >= 5 { return 429; }
      if q.start.Malformed? || q.end.Malformed? { return 400; }
      var days := q.end.day - q.start.day;
      if days > 300 { return 400; }
      if days < 0 { return 400; }
      var created := repo.CreateJob(id, user, q.frames, now, insert);
      if !created.Ok? { return 409; }
      var published := pipeline.queue.Publish(id);
      if published == Panicked { return 500; }
      if published == QueueFull { return 503; }
      return 202;
    }

    /** Aborts what runs under the id, whoever owns it, then deletes the row if it is the user's. */
    method DeleteJob(user: UserId, id: JobId, now: int, fault: Fault) returns (status: int)
      requires repo == pipeline.repo
      modifies repo, pipeline`cancelled
      ensures forall call :: call in pipeline.cancelled <==>
                call in old(pipeline.cancelled) || (id in pipeline.jobCancels && pipeline.jobCancels[id] == call)
      ensures repo.rows == if fault != LostBefore && id in old(repo.rows) && old(repo.rows)[id].user == user
                           then old(repo.rows) - {id} else old(repo.rows)
      ensures status == (if fault != Answered then 500
                         else if id in old(repo.rows) && old(repo.rows)[id].user == user then 200 else 404)
    {
      pipeline.AbortJob(id);
      var r := repo.DeleteJob(id, user, now, fault);
      status := if r.Ok? then 200 else if r.JobNotFound? then 404 else 500;
    }
  }
}

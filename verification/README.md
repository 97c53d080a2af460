# GeoStream: a verified model of the job protocol, the breaker, the renderer loop and the tile cache

The server stores rendering jobs in one table, hands their ids through a bounded queue to a few workers, and keeps a
lease on every job in processing. Workers call a renderer through a circuit breaker; the renderer samples satellite
tiles over a range of days, fills gaps with the last good picture, and fetches tiles through a two-level cache. This
project models these parts in Dafny and proves what holds of them over every run, and, where a comment or the README of
the program promises more than the code does, exactly what the code does instead.

## How the model is built

| file | part of the program |
|---|---|
| `JobTable.dfy` | the `jobs` table; each SQL statement one atomic step; `JobRepository`, the object that issues them |
| `Ledger.dfy` | what every sequence of statements keeps, against a history kept by an observer of the status column |
| `Protocol.dfy` | handlers, workers, heartbeats, sweeper, queue, clock, crash and restart as one transition system |
| `Fencing.dfy`, `Custody.dfy`, `Delivery.dfy`, `Leases.dfy`, `ActiveJobs.dfy`, `CrashLoop.dfy` | the laws of its runs |
| `AbortMap.dfy`, `Overtaken.dfy`, `HeartbeatRun.dfy` | the map of cancel functions along those runs; a run in which one worker overtakes another; a run that survives a missed heartbeat |
| `Pipeline.dfy`, `Agreement.dfy` | the same program as sequential methods on objects, and the proof that both agree |
| `Queues.dfy` | the channel queue and the RabbitMQ queue |
| `CircuitBreaker.dfy`, `BreakerInterleaving.dfy`, `BreakerAdmission.dfy`, `RendererClients.dfy` | the breaker, atomic and as it locks |
| `Schedule.dfy`, `RenderVideo.dfy` | sampling arithmetic in microseconds, and the render loop over mutable frames |
| `TileCache.dfy`, `TileFetch.dfy`, `Compositing.dfy` | the cache, the fetch loop, the layer fold |

In the protocol a step carries whatever the program does not decide: which call comes next, whether a statement is
answered, lost before its commit or lost after it, what the renderer returns, what the two clocks (the database's and
the worker's) show. Nothing is assumed about clocks. A restart may come at any time, empties the queue and all memory,
and starts workers under names never used before. The claims are about all runs from the empty table.

## Where code and promises differ

* **A refused job is not picked up by the sweep.** `internal/handler/job_handler.go:160-161` lets a refused job sit as
  PENDING for a later sweep, and the program's README promises zero data loss. The scheduled sweep publishes only ids it
  has just recovered, so such a job is out of reach until the process restarts: `Delivery.RefusedSubmitOrphans`,
  `Delivery.OrphanForever`. `Delivery.CoverageKept` lists every way to lose a job, by the guard of the failing branch;
  that the guard suffices is due to `Custody.EveryIdInOnePlace`.
* **Five active jobs per user.** Count and insert are separate; with k overlapping requests the limit is 4 + k and is
  reached: `ActiveJobs.ActiveBound`, `ActiveJobs.BoundIsReached`, `ActiveJobs.FiveExactlyWhenSerial`.
* **Five retries.** Only failures, which are final, raise `retry_count`; crashes do not. `Ledger.BudgetNeverBinds`,
  `CrashLoop.RecoveredAnyNumberOfTimes`.
* **The version column.** It is written and never tested. Because each worker does one job at a time the test of
  `worker_id` is nevertheless as strict as a compare-and-swap on the version: `Fencing.WorkerGuardIsVersionGuard`.
* **HALF_OPEN tests with a single request.** It admits every request until one reports back:
  `CircuitBreaker.HalfOpenAdmitsAll`. The early returns of the HTTP client that report nothing are harmless
  (`RendererClients.UnsentOnlyWhileClosed`).
* **The breaker's four edges.** `Allow` releases its lock before it writes; three more edges occur, and no others:
  `BreakerInterleaving.EveryEdge`, `LateSuccessOccurs`, `StaleUpgradeOccurs`, `EarlyUpgradeOccurs`.
* **Aborting a job.** A worker that goes on working after its lease was taken away deletes, when it returns, the entry
  of the worker that owns the job now, and no abort reaches the owner any more: `Overtaken.OwnerIsHidden`. The map is
  exact throughout a run if and only if no two calls on the job ever overlap (`AbortMap.ExactWhileOneCall`), and an abort
  misses the owner if and only if another worker, which did not own the job, has returned from it since the owner's call
  began (`AbortMap.OwnerIsMissedExactly`).
* **RabbitMQ backpressure and at-least-once delivery.** `x-max-length` without an overflow policy drops the oldest
  waiting message and reports success (`Queues.FullBrokerDropsOldest`). Messages are acknowledged before they are worked
  on, so what is lost is exactly what a crash finds acknowledged and unfinished in the local buffer or in a worker's
  hands (`Queues.AtLeastOnceExactly`, `Queues.WorkerTakesItAlong`); a message worked on before its acknowledgement comes
  back (`Queues.DeliveredAgain`). The depth counter starts at zero whatever the broker holds (`Queues.RabbitAccounts`).
* **A lease in whole seconds.** The heartbeat period uses the fraction of a second that the stored lease drops:
  `Leases.FractionalLeaseLapses`. The configured five minutes are not affected.
* **Atomic disk writes.** `services/renderer/cache.py:28` promises them; the file is written in place, and a file cut
  off above 500 bytes is served: `TileCache.TornFileIsServed`.

## Model

| member | source | states |
|---|---|---|
| JobTable.ExecutedRow | internal/model/job_repo.go:91-133 | an accepted update keeps the set of rows and changes exactly the rows its WHERE clause selects |
| JobTable.SelectedCount | internal/model/job_repo.go:64 | a statement that names a job affects one row if its guard holds and none otherwise, which is what RowsAffected tells |
| JobTable.JobRepository.Exec | internal/model/job_repo.go:30-183 | the row-by-row update is one atomic statement; a constraint violation or a connection lost before the commit changes nothing; the affected count is the number of selected rows. What each statement does to the columns is stated by the methods below |
| JobTable.JobRepository.CreateJob | internal/model/job_repo.go:30-37 | inserts a pending row of version 0 unless the id exists or the frame count breaks its constraint |
| JobTable.JobRepository.GetActiveJobCountByUser | internal/model/job_repo.go:39-44 | a scan of the table counts each PENDING or PROCESSING row of the user once, or the database error is passed on |
| JobTable.JobRepository.ClaimJobCAS | internal/model/job_repo.go:49-65 | answers true exactly when this call moved the row from PENDING to PROCESSING |
| JobTable.JobRepository.VerifyOwnership | internal/model/job_repo.go:67-89 | true if and only if the row exists, is PROCESSING, carries this worker_id and its lease is not past on the worker's clock |
| JobTable.JobRepository.ExtendLease | internal/model/job_repo.go:91-105 | renews the owner's lease and answers ErrOptimisticLock exactly when the worker no longer owns the job |
| JobTable.JobRepository.MarkCompleted | internal/model/job_repo.go:107-135 | status, URL, version and, when given, metrics of the owner's job, and of no other; ErrOptimisticLock exactly when not the owner |
| JobTable.JobRepository.IsCancelRequested | internal/model/job_repo.go:158-162 | the flag of the row, or an error without a row or an answer |
| JobTable.JobRepository.MarkFailed | internal/model/job_repo.go:164-173 | fails the owner's job and reports no error when it changed nothing |
| JobTable.JobRepository.MarkCancelled | internal/model/job_repo.go:175-183 | cancels the owner's job and reports no error when it changed nothing |
| JobTable.JobRepository.RecoverStalledJobs | internal/model/job_repo.go:232-258 | returns every stalled id exactly once and moves exactly those rows back to PENDING |
| JobTable.JobRepository.GetPendingJobs | internal/model/job_repo.go:209-229 | every pending id inside the retry budget exactly once, oldest first |
| JobTable.JobRepository.DeleteJob | internal/model/job_repo.go:295-305 | the row is gone from the table if it was the user's, and the table is as it was otherwise; ErrJobNotFound exactly then |
| JobTable.JobRepository.UpdateProgress | internal/model/job_repo.go:309-313 | moves the frame counters whatever the status, refused only by the constraint on the total |
| Ledger.RecordBalanced | internal/model/job_repo.go:49-183 | any one statement keeps the books of every row |
| Ledger.AccountsBalance | internal/model/job_repo.go:30-65 | after any sequence of statements: version = 2 recoveries + 0, 1 or 2 by status; claims = recoveries + 1 unless pending; at most one finish; worker_id and lease NULL exactly when PENDING; retry_count 1 if FAILED, else 0 |
| Ledger.BudgetNeverBinds | internal/model/job_repo.go:209-237 | `retry_count < 5` never excludes a pending or stalled row, and the retry constraint never refuses a failure |
| Ledger.FinishedIsFinal | internal/model/job_repo.go:107-183 | a finished row is never changed again except by deletion, or in its two frame counters by a late progress report |
| Ledger.DeletedIsGone | internal/model/job_repo.go:295-305 | a deleted id never returns, whatever statements follow |
| Ledger.NeverCancelled | internal/worker/pipeline.go:182-185 | without a cancel statement, which the program never comes to send, no row is CANCELLED |
| Protocol.StepIsRecorded | internal/worker/pipeline.go:126-216 | a step of the program sends at most one statement, never a cancellation and never an insert under a used id |
| Protocol.RunIsReplayed | internal/worker/pipeline.go:102-216 | the table after a run is the replay of the statements of the run, so every law of the ledger holds of every run |
| Protocol.ReachableIsBalanced | internal/model/job_repo.go:30-65 | the exact accounts in every reachable state of the whole system |
| Protocol.FinishedJobsStay | internal/model/job_repo.go:107-183 | from any reachable state on, a finished job keeps everything but its two frame counters or is deleted, and a deleted id stays deleted |
| Protocol.RemovedForGood | internal/handler/job_handler.go:214-224 | a committed deletion by the job's user takes the row out, and the id is in no later table; one by anybody else changes nothing |
| Protocol.RestartKeepsTheTable | internal/worker/pipeline.go:41-64 | a restart keeps the table, and starts with an empty queue, no handlers, no heartbeats and workers under new names |
| Protocol.OnlyMoverMoves | internal/worker/pipeline.go:107-118 | each step but a restart moves at most the one worker it names: workers are sequential |
| Fencing.StatementKeepsFence | internal/model/job_repo.go:91-173 | no statement but the worker's own next claim can make worker_id and version disagree about who owns the row |
| Fencing.RunKeepsFences | internal/worker/pipeline.go:107-118 | in every run, each worker past its claim owns the row exactly while the row carries the version that claim wrote |
| Fencing.GuardsAgree | internal/model/job_repo.go:107-173 | from every fenced state a step does the same with the version tested in place of worker_id and status |
| Fencing.WorkerGuardIsVersionGuard | internal/worker/pipeline.go:187-208 | the program and its version-checked variant have the same runs and reach the same states, whatever clocks and failures do |
| Fencing.OneWriter | internal/model/job_repo.go:107-173 | of all workers past their claim of one job only the one whose claim wrote the row's version can still change it |
| Fencing.VersionGuardOnly | internal/model/job_repo.go:107-173 | what the version-checked variant tests and writes, column by column |
| Fencing.OvertakenNeverUploads | internal/worker/pipeline.go:187-197 | in every reachable state a worker passes the verification only with its own claim's version in the row; an overtaken one goes idle and never uploads |
| Custody.SoleKept | internal/worker/pipeline.go:107-142 | no step puts an id in a second place |
| Custody.EveryIdInOnePlace | internal/queue/channel.go:29-36 | in every reachable state each id lies in at most one slot, worker, handler or sweep, was inserted once, and belongs to a pending or deleted job; so no claim is lost to another worker |
| Delivery.CoverageKept | internal/worker/pipeline.go:107-142 | in every reachable state that still covers its pending jobs, the next step loses one if and only if it is one of seven steps, each told by a guard on the state before it |
| Delivery.NoLostJob | internal/worker/pipeline.go:467-519 | a run from the start without such a step loses no job |
| Delivery.StartupRestores | internal/worker/pipeline.go:478-491 | whatever was lost before, after a restart has read its pending jobs all of them are held again and stay so while nothing leaks |
| Delivery.OrphanForever | internal/worker/pipeline.go:504-515 | a pending job nobody holds stays pending and unheld, or is deleted, through every continuation without a restart, however many sweeps it has |
| Delivery.RefusedSubmitOrphans | internal/handler/job_handler.go:151-164 | a run in which a refused submission leaves a stored job that nobody holds |
| Delivery.BootedIsReachable | internal/worker/pipeline.go:467-492 | every empty booted state, with any workers, is reached from a starting one |
| Leases.RunShowsLease | internal/model/job_repo.go:54-103 | through every run the lease column of a job in processing is the time of its last claim or renewal plus the lease in whole seconds |
| Leases.SweepTakesExactlyTheLapsed | internal/model/job_repo.go:232-239 | in every reachable state a sweep takes a job if and only if more than a lease has passed since its last claim or renewal |
| Leases.PunctualIsSafe | internal/worker/pipeline.go:396-419 | if every sweep that finds the job in processing comes within a lease of its last renewal, the run never recovers it |
| Leases.SingleMissesTolerated | internal/worker/pipeline.go:399-406 | with ticks every third of the lease and no two misses in a row the lease does not lapse, given the slack |
| Leases.SlackIsExact | internal/worker/pipeline.go:399-406 | isolated misses are always survived if and only if start-up plus delivery delay fits beside two periods into the stored lease |
| Leases.WholeSecondLeaseHasAThird | internal/worker/pipeline.go:50 | for a lease of whole seconds a third of the lease is slack enough |
| Leases.FractionalLeaseLapses | internal/model/job_repo.go:60 | for which leases one missed tick lapses although nothing is late, exactly: below a second (from 3 ns) and in the upper half of the second second |
| Leases.TwoMissesLapse | internal/worker/pipeline.go:399-406 | two misses in a row are survived if and only if the third tick comes within the rounding of the period |
| Leases.HeartbeatProtects | internal/worker/pipeline.go:152-154 | from any claim in any reachable state: if the heartbeat's steps follow a timetable of isolated misses and a third of a lease of slack, no sweep of the rest of the run recovers the job |
| HeartbeatRun.MissedTickIsInTime | internal/worker/pipeline.go:399-406 | a run from the start whose heartbeat misses a tick, catches the next and meets all that HeartbeatProtects asks |
| ActiveJobs.ActiveBound | internal/handler/job_handler.go:84-96 | with at most k requests of a user between count and insert, never more than 4 + k active jobs |
| ActiveJobs.BoundIsReached | internal/handler/job_handler.go:84-151 | for every k a run from the start that overlaps by k and reaches 4 + k |
| ActiveJobs.FiveExactlyWhenSerial | internal/handler/job_handler.go:92-96 | the limit of five holds in every run from every initial state if and only if requests do not overlap |
| CrashLoop.RecoveredAnyNumberOfTimes | internal/worker/pipeline.go:471-479 | for every n a run that recovers one job n times with retry_count 0 |
| AbortMap.AbortReachesExactlyTheLast | internal/worker/pipeline.go:90-95 | in every run of the system an abort reaches a worker's call if and only if no call on the job has started or ended since that call started |
| AbortMap.EntriesKeepRunning | internal/worker/pipeline.go:130-135 | every entry is that of a call running on that very job, so no abort hits a call on another job |
| AbortMap.ExactWhileOneCall | internal/worker/pipeline.go:126-135 | the map says at every moment of a run exactly which call on a job is running if and only if at every moment at most one call on the job is running |
| AbortMap.ExactUntilDisplaced | internal/worker/pipeline.go:126-135 | a condition on the table that suffices for this: no worker works on the job after losing it |
| AbortMap.OwnerIsMissedExactly | internal/worker/pipeline.go:90-95 | in every reachable state an abort misses the worker that owns the job if and only if, since its call began, another worker has returned from a call on the job which it did not own |
| Overtaken.OwnerIsHidden | internal/worker/pipeline.go:130-142 | a run of two workers after which the owner of the job renders it and its entry is gone |
| Overtaken.LateReportOccurs | internal/model/job_repo.go:309-313 | a run in which an overtaken worker's report of its last frame moves the counter of a COMPLETED job |
| Queues.ChannelQueue.Publish | internal/queue/channel.go:29-36 | appends while there is room, else refuses and changes nothing; panics when closed |
| Queues.ChannelQueue.Receive | internal/queue/channel.go:39-41 | first in, first out; the end of the channel only after it is drained |
| Queues.ChannelQueue.Close | internal/queue/channel.go:49-52 | buffered ids stay receivable; a second close panics |
| Queues.RabbitAccounts | internal/queue/rabbitmq.go:94-182 | in every run, through any crashes, every message is in exactly one state at the broker; the depth counter equals the broker's backlog if and only if drops and rejects since the last start equal the backlog found then |
| Queues.FullBrokerDropsOldest | internal/queue/rabbitmq.go:58-67 | publishing on a full broker queue counts as a success, drops the oldest waiting message and keeps the others in order |
| Queues.AtLeastOnceExactly | internal/queue/rabbitmq.go:144-166 | after a run every message not dropped or rejected is on its way or worked on, if and only if no crash found an acknowledged and unfinished one in the buffer or in a worker's hands |
| Queues.WorkerTakesItAlong | internal/queue/rabbitmq.go:164-166 | a run that loses a message a worker has received and not yet worked on |
| Queues.DeliveredAgain | internal/queue/rabbitmq.go:164-165 | a run in which a message is worked on and, its acknowledgement missing at the crash, waits at the broker again |
| Queues.PumpedIsARun | internal/queue/rabbitmq.go:138-169 | what the bridge does in one go is a run of single deliveries, forwards, acknowledgements and rejects |
| Queues.LineKept | internal/queue/rabbitmq.go:144-164 | first in, first out from the broker to the worker: the bridge keeps the line, a worker takes its head, a publish joins its end |
| Queues.PumpedGoesOn | internal/queue/rabbitmq.go:138-169 | the bridge leaves off only stuck at a full buffer, closed on request, or with nothing left |
| Queues.RabbitMQQueue.Publish | internal/queue/rabbitmq.go:94-119 | publishes as the broker model says, a failed publish changes nothing |
| Queues.RabbitMQQueue.Bridge | internal/queue/rabbitmq.go:138-169 | forwards and acknowledges in order until nothing is left or the buffer is full, rejects what does not parse, and closes the buffer when told to stop, unless it is stuck sending |
| Pipeline.ProcessedStatus | internal/worker/pipeline.go:126-216 | which status an undisturbed call leaves a pending job in, exactly, for every combination of outcomes; other jobs unchanged |
| Pipeline.ProcessedRow | internal/worker/pipeline.go:126-216 | the row after a call, column by column: the metrics of the first strategy that made a video, the uploaded or local URL, or the message of the last strategy |
| Pipeline.LocalUrlNamesTheJob | internal/worker/pipeline.go:200-205 | the local URL names the job, so two jobs never share one |
| Pipeline.Pipeline.RenderChain | internal/worker/pipeline.go:156-185 | gRPC's metrics if it made a video, else HTTP's, else the subprocess's; an error exactly if none did, and then the subprocess's |
| Pipeline.Pipeline.ProcessJob | internal/worker/pipeline.go:126-216 | the table, the cancel map, the cancelled contexts and the counter after one call; it is counted if and only if the claim, a strategy, the verification and the completion all succeeded |
| Pipeline.Pipeline.CheckCancelOrError | internal/worker/pipeline.go:421-441 | an error fails the job; the cancel flag is looked at only without an error, and an unanswered query reads as not set |
| Pipeline.Pipeline.HeartbeatTick | internal/worker/pipeline.go:405-413 | renews, and stops if and only if the answer says that the job is not the worker's any more |
| Pipeline.Pipeline.AbortJob | internal/worker/pipeline.go:90-95 | cancels the context of the call in the map and of no other; the entry stays until the call returns |
| Pipeline.Pipeline.StartupRecovery | internal/worker/pipeline.go:467-492 | after the recovery every pending job is appended to the queue, oldest first, as far as it has room; a closed queue panics at the first |
| Pipeline.Pipeline.SweepOnce | internal/worker/pipeline.go:504-515 | appends exactly the ids it recovered itself, as far as the queue has room; a closed queue panics at the first |
| Pipeline.JobHandler.CreateJob | internal/handler/job_handler.go:62-164 | each of the six answers if and only if its condition holds; 503, a panic on the closed queue and an insert that committed unseen leave the job stored, pending and unqueued |
| Pipeline.JobHandler.DeleteJob | internal/handler/job_handler.go:205-226 | cancels the call entered for the id whoever owns the job, then takes out the row if it is the user's own and nothing otherwise; status by outcome |
| Agreement.ProcessJobIsARun | internal/worker/pipeline.go:126-216 | from every state in which a worker holds an id, some run of its steps ends idle with the table the sequential method computes |
| Agreement.TickIsAStep | internal/worker/pipeline.go:405-413 | a tick of the heartbeat method is the heartbeat's step of the transition system |
| Agreement.SweepIsARun | internal/worker/pipeline.go:504-515 | one tick of the sweep, as the sequential method performs it, is a run of the sweeper's steps: same table, same queue |
| Agreement.StartupIsARun | internal/worker/pipeline.go:467-492 | so is the recovery of a starting process |
| Agreement.SubmissionIsARun | internal/handler/job_handler.go:84-164 | a submission below the limit is a run of count, insert and publish that stores the job and queues it if there is room |
| CircuitBreaker.Circuit.Allow | internal/worker/circuit_breaker.go:52-76 | admits and moves the state as the machine does |
| CircuitBreaker.Circuit.RecordSuccess | internal/worker/circuit_breaker.go:79-85 | closes and clears the count |
| CircuitBreaker.Circuit.RecordFailure | internal/worker/circuit_breaker.go:88-98 | counts, stamps, and opens from HALF_OPEN or at the threshold |
| CircuitBreaker.StateIsHistory | internal/worker/circuit_breaker.go:52-98 | for every trace, CLOSED if and only if fewer failures than the limit followed the last success, else HALF_OPEN if and only if somebody asked after the cooldown |
| CircuitBreaker.RefusedExactly | internal/worker/circuit_breaker.go:59-70 | when a call is refused, in terms of the history alone; so never once the cooldown has passed |
| CircuitBreaker.SerialRefinesMachine | internal/worker/circuit_breaker.go:26-30 | with calls one at a time the code has the states and the answers of the documented four-edge machine |
| CircuitBreaker.HalfOpenAdmitsAll | internal/worker/circuit_breaker.go:71-72 | any number of questions in HALF_OPEN are all admitted and change nothing |
| BreakerInterleaving.EveryEdge | internal/worker/circuit_breaker.go:52-98 | with `Allow` split at its unlock and any number of threads, every change of state is documented or one of three named edges |
| BreakerInterleaving.SerialEdgesDocumented | internal/worker/circuit_breaker.go:26-30 | with calls one at a time even the split `Allow` takes documented edges only |
| BreakerInterleaving.UndisturbedAllowIsAtomic | internal/worker/circuit_breaker.go:52-69 | the two halves of `Allow` with nothing in between give the state and the answer of the atomic one |
| BreakerInterleaving.LateSuccessOccurs | internal/worker/circuit_breaker.go:79-85 | for every threshold and cooldown a run with OPEN to CLOSED |
| BreakerInterleaving.StaleUpgradeOccurs | internal/worker/circuit_breaker.go:61-68 | for every threshold and cooldown a run with CLOSED to HALF_OPEN |
| BreakerInterleaving.EarlyUpgradeOccurs | internal/worker/circuit_breaker.go:61-68 | for every threshold and cooldown a run with OPEN to HALF_OPEN before the cooldown is over |
| BreakerAdmission.AdmissionBound | internal/worker/circuit_breaker.go:52-98 | against a renderer that always fails, at most (limit - 1) + workers * (1 + k) admissions, with k = 0 or k cooldowns less than the time since the first trip |
| BreakerAdmission.BoundIsReached | internal/worker/circuit_breaker.go:52-98 | for every k a run that is admitted exactly that often |
| RendererClients.RendererClient.Render | internal/worker/renderer_client.go:86-141 | rendered if and only if admitted, sent and answered 200 with a body that decodes, which closes the breaker; every other sent call adds a failure at its time; a call not sent records nothing |
| RendererClients.GRPCRendererClient.Render | internal/worker/grpc_renderer_client.go:47-99 | every admitted call sends the layers field by field in order and records a success if and only if it was answered |
| RendererClients.UnsentOnlyWhileClosed | internal/worker/renderer_client.go:92-100 | through any sequence of calls of one client an admitted call of an encodable request ends without an outcome if and only if the base URL cannot be parsed, and the breaker of such a client never leaves its first state |
| Schedule.DataStepsExact | services/renderer/compositor.py:223-224 | (days + 1) * (86400 / f) samples for each of the four steps |
| Schedule.FrequencyTable | services/renderer/compositor.py:214-221 | which strings mean which step, in either case; everything else means daily |
| Schedule.Spacing | services/renderer/compositor.py:224-226 | uncapped, one sample a period; capped, one a frame, spread over the whole range to half a microsecond |
| Schedule.CappedFilmReachesTheEnd | scripts/generate_video.py:223-224 | the last sample of a capped film lies one spacing before the end, up to rounding |
| Schedule.WholeShare | services/renderer/compositor.py:248 | each step fills the whole part of frames / steps |
| Schedule.NeighboursApart | services/renderer/compositor.py:226 | samples are at least f apart, also when the spacing is a quotient rounded to microseconds |
| Schedule.LastSampleInRange | services/renderer/compositor.py:274 | the date guard never ends the loop early for 1 to 1800 frames |
| Schedule.SampleInRange | services/renderer/compositor.py:271-274 | every sample lies between the start and the end of the last day |
| Schedule.FloatQuotientHarmless | services/renderer/compositor.py:224 | a quotient off by one part in 2^53 has the same integer part for every range of dates Python can hold |
| Schedule.FrameConservation | scripts/generate_video.py:219-246 | frames written = frames - frames mod steps, more than half, all of them if and only if steps divides frames, always when capped |
| Schedule.ProgressUncapped | services/renderer/compositor.py:363 | the minimum in the progress report is never taken |
| RenderVideo.Fill | services/renderer/compositor.py:314-338 | the frame drawn on and the frame remembered are distinct objects, and drawing the banner leaves the remembered one as it was |
| RenderVideo.Render | services/renderer/compositor.py:267-364 | the loop over mutable frames writes the film and metrics of the specification for every sequence of samples; its dates are as many as the schedule plans and equally spaced, a period apart or, capped, spread over the range |
| RenderVideo.FilmAt | services/renderer/compositor.py:356-357 | frame k of step j shows the shot of step j |
| RenderVideo.OwnPicture | services/renderer/compositor.py:315-319 | a good composite, or any before the first good one, is shown unmarked |
| RenderVideo.OlderPicture | services/renderer/compositor.py:321-338 | otherwise the latest good composite before, with its own date in the banner |
| RenderVideo.NoPicture | services/renderer/compositor.py:327-330 | without any, black with the date awaited |
| RenderVideo.HudAndTelemetry | services/renderer/compositor.py:340-354 | then the HUD with one metric per step so far, then the telemetry if there is any, and nothing else |
| RenderVideo.MarksAreOwn | services/renderer/compositor.py:317-341 | no mark of an earlier step is on a later shot; a gap banner exactly when an older good picture stands in; black exactly without any picture |
| RenderVideo.RenderedVideo | scripts/generate_video.py:366-376 | the frame total of the schedule, and strictly increasing progress that ends at the number written, inside the requested days |
| TileCache.TieredCache.Get | services/renderer/cache.py:55-82 | Redis, then a file above 500 bytes with backfill, else a miss; under any failure |
| TileCache.TieredCache.Set | services/renderer/cache.py:84-99 | each tier written or not on its own, a file possibly cut off |
| TileCache.TieredCache.BackfillRedis | services/renderer/cache.py:101-107 | promotes the value or leaves Redis as it was |
| TileCache.TieredCache.Stats | services/renderer/cache.py:110-118 | the counters, and a ratio between 0 and 1 of four decimals within half a unit of the last one of the share of hits; by EveryGetIsCounted that is the share of gets that were answered |
| TileCache.OnlyStoredBytes | services/renderer/cache.py:55-107 | through any failures and expiries, gets give at every moment nothing or bytes that belong to their key, if and only if no write leaves a false file cut off above 500 bytes |
| TileCache.TornFileIsServed | services/renderer/cache.py:95-97 | after such a write a get is answered with bytes that do not belong to its key |
| TileCache.AgreesWithMap | services/renderer/cache.py:55-99 | when sets succeed and values exceed 500 bytes, a get answers what a plain map would, through expiry and failing reads of Redis |
| TileCache.LostRedisWriteIsStale | services/renderer/cache.py:87-91 | after a lost Redis write the new value is seen if and only if Redis does not answer with an older one |
| TileCache.SmallestTileNeverServed | services/renderer/cache.py:73 | a tile of exactly 500 bytes is stored and never served from disk |
| TileCache.EveryGetIsCounted | services/renderer/cache.py:62-82 | the hits count exactly the answered gets, the misses the others, and together all of them |
| TileFetch.Fetcher.Fetch | services/renderer/compositor.py:40-108 | the image is the cached one or that of the first decodable reply; only images of responses to this URL; and the cache afterwards: untouched after a hit, otherwise with every usable body stored, in order |
| TileFetch.FirstImageExactly | services/renderer/compositor.py:73-108 | which reply that is: the first decodable one with no final answer before it |
| TileFetch.ReplyKinds | services/renderer/compositor.py:78-89 | which replies are final and which are taken for an image |
| TileFetch.FetchedIsCached | services/renderer/compositor.py:91-99 | the body of the first decodable reply is in every tier whose write succeeded, and no request follows |
| Compositing.BlendBetween | services/renderer/compositor.py:130-140 | a blended channel lies between background and foreground; the clip does nothing; alpha 0 and 1 are exact |
| Compositing.ClipIdleExactly | services/renderer/compositor.py:134 | the clip is idle for all pixels if and only if the opacity is in 0..1 |
| Compositing.CompositeValid | services/renderer/compositor.py:115-140 | compositing keeps channels in 0..255 and gives a picture if and only if one of the two is there |
| Compositing.FoldedInSpan | services/renderer/compositor.py:305-308 | any number of layers keeps each channel in the span of that channel over the fetched tiles |
| Compositing.InvisibleChangesNothing | services/renderer/compositor.py:305-308 | a layer of zero alpha on top of a picture changes nothing |
| Compositing.TransparentPixel | services/renderer/compositor.py:130-134 | on top of a picture a pixel of alpha 0 keeps what is below at any opacity, one of alpha 255 at full opacity replaces it, and any other mixes the two in exactly that proportion, rounded down |
| Compositing.OpaquePixel | services/renderer/compositor.py:136-140 | a tile without alpha is seen where its channels sum to more than 10, at the layer's opacity, and nowhere else |
| Compositing.MissingTileChangesNothing | services/renderer/compositor.py:117-118 | a layer whose tile is missing leaves no trace |
| Compositing.CoveringHidesBelow | services/renderer/compositor.py:305-308 | a fully opaque layer makes the result independent of everything below it, whatever is above |
| Compositing.LowestIsTakenWhole | services/renderer/compositor.py:119-128 | the opacity and alpha of the lowest fetched tile make no difference to the picture of any list of layers |
| Compositing.CompositeLayers | services/renderer/compositor.py:305-308 | the loop is the fold |

## Left out

- HTTP routing, authentication, configuration, metrics, Swagger, SSE and MJPEG streaming: plumbing without state of their own.
- Postgres, Redis, S3 and broker internals: a statement is one atomic step, a broker a bounded sequence, Redis a map that may fail or forget, an upload a step that may fail.
- Several server processes on one database: the transition system has one process at a time; its successors are restarts.
- RabbitMQ in the transition system: it is modelled on its own in `Queues.dfy`, down to the gap between forwarding and acknowledging; Custody and Delivery are about the in-memory queue.
- Queues: a message is finished when the worker that took it returns, whatever became of its job; a waiting queue made longer by a redelivery is cut at the next publish.
- Closing the channel while the sweeper publishes: Go panics and the process ends, which is the restart step.
- Duplicate ids: the in-memory queue has none (Custody.EveryIdInOnePlace); a RabbitMQ backlog that StartupRecovery publishes again would bring them, and the abort map is not followed there.
- Columns no step reads: request_hash, bbox, dates, layers, fps, expires_at and the time stamps but created_at; the disabled cache of completed jobs.
- Deleting the video files of a job: an effect outside the table.
- Ids, worker names and cache keys: UUIDs are never repeated and the MD5 digest of a URL is taken to be injective.
- Start date, end date and layers of a render request as strings: `DateField` keeps whether they parse and the day; the text of a frame's date is its instant.
- Dates of a request beyond the range of Python's datetime, and the ValueError of an empty layer list.
- Pictures: a composite is known by a number and drawing by a list of marks; OpenCV decoding, HUD layout, codecs and the FFmpeg pass are not modelled.
- Tiles of different sizes and one-channel tiles: resizing and grey conversion are OpenCV's; all tiles of a fold have one size.
- Rounding of float32 in blending: blending is exact over the reals and then truncated.
- calculate_activity: a metric is an arbitrary number per step.
- Orbital tracking: SGP4 propagation and the TLE download; a sample says whether telemetry is shown.
- Retry pauses and time-outs of the tile fetch: a request ends in a reply or breaks; concurrent fetches are taken one after the other.
- Lost updates of the cache's hit counters under threads: each operation is one step.
- RendererClients.UnsentOnlyWhileClosed: takes requests to have a JSON form; they are decoded from JSON, which has no NaN and no infinity.
- TileCache.TieredCache.Stats: the ratio is rounded exactly, where Python rounds a floating point quotient.
- TileCache.AgreesWithMap: does not cover a failing set, where LostRedisWriteIsStale says what happens instead.
- TileCache.OnlyStoredBytes: each set is one step, so a get that reads a file while another thread writes it is not covered.
- Schedule.FloatQuotientHarmless: takes the relative error of one correctly rounded division as given.
- Agreement: says that each sequential method is some run, not that every interleaved run is sequential; interleavings are what the transition system is for.
- Liveness: nothing is claimed about how soon a step is taken.

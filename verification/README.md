# Fair queueing for LLM inference: a verified model

This project models the protocols of a Go service that queues inference requests fairly and runs them
through workers, and proves what those protocols promise. Redis and PostgreSQL are the shared state: each
Lua script, each Redis command and each SQL statement is one indivisible step, and everything else may
interleave. Nothing here runs the service.

| file | what it holds |
|---|---|
| `Common.dfy` | what several components share |
| `Scheduler.dfy` | the scheduler's keys, every script and command as an atomic step, the invariant all steps keep |
| `SchedulerRing.dfy` | the refinement of the scheduler to a plain ring of users |
| `SchedulerFairness.dfy` | bounded bypass, bounded waiting, no monopoly |
| `SchedulerHistory.dfy` | FIFO per user, balance of claims and leases, one place per job |
| `SchedulerLeases.dfy` | lease deadlines and takeovers |
| `SchedulerAdmission.dfy` | which pushes take effect: deduplication, markers, capacity; the wait a claim reports |
| `SchedulerStore.dfy` | the repository class whose methods update the keys in place |
| `JobRows.dfy`, `Ranking.dfy` | job rows, the read-then-write marks, the orphan query |
| `RecoveryWorld.dfy`, `RecoveryLedger.dfy` | what others may do beside recovery, and the accounts its history gives |
| `RecoveryPasses.dfy`, `Recovery.dfy` | what a pass of recovery has to do, and the loop that does it among failing calls |
| `Submission.dfy`, `SubmissionOutcomes.dfy` | the submission protocol, and what its records tell later Submits |
| `SubmitService.dfy` | the Submit code that follows the protocol |
| `TokenBucket.dfy` | the rate limiter |
| `Retry.dfy`, `Worker.dfy` | backoff, retry loop, heartbeat, one worker run |
| `Sse.dfy`, `Stream.dfy` | the stream log, the handler, and the client of sections 9.2.5 and 9.2.6 of the WHATWG HTML Standard |

## How the outside is modelled

- Clocks are integers passed to each step. Scores are naturals. JSON encoding is the identity.
- The recovery loop and a Submit call carry two oracles: what everybody else does before each of their external
  calls, and how that call ends. A call works, is lost, or takes effect and reports an error.
- Recovery's log is not written by its methods' own account. It is computed from the history of all moves, its own
  and others', and the class invariant ties the history to the state. A move that is not recovery's to make, such as
  dropping a lease, is an entry no account allows.
- Promises that need working calls are about the calls a method made, not about later ones.
- The inference engine is any sequence of chunk counts and outcomes; the payload fetch is any sequence of outcomes.
- The limiter keeps thousandths of a token, because the refill is elapsed milliseconds / 1000 times the rate.
- Durations are signed 64-bit integers with wrap-around.

## Where the code differs from what is said about it

- README.md line 133 of the repository says only the current lease owner acts. Extend and release go by the job id
  alone, so no such theorem is stated; what leases do guarantee is in `SchedulerLeases`.
- The limiter script's comment says nanoseconds; the clock it is given is in milliseconds.
- The worker pool validates the limit on renewal failures and never stores it. `UnstoredLimitIsHonouredIff` says
  when this makes no difference.
- Submit can return neither a job id nor an error, because the cleanup shadows the error that led to it.
  `SilentIffCleanupWorked` says exactly when.
- A worker whose payload fetch fails returns the error of the earlier policy lookup, which may be none.
- A missing job row reaches recovery as a plain lookup error: the lookup returns an error without the code the
  adapter looks for. So the "job not found" branches of recovery are not taken, and the model does not take them.
- Marking a job reads the status and later writes without looking again, so an outcome can be overwritten:
  `RacingMarksOverwrite` shows it and `OutcomeStandsIffNoRival` says exactly when.
- A binding whose acknowledgement is lost takes effect and is then cleaned up, so a replay can name a job the key no
  longer stands for: `LostAcknowledgementBreaksReplay` shows it and `PromisesKeptIffBindAcknowledged` says exactly when.
- A requeue after expiry does not look at the queue's capacity: `RequeueExceedsCapacity` shows a queue of two at
  capacity one, and `StaysWithinCapacityIff` says exactly when a push stays within it.
- The limiter's clock is the caller's and may go back, which refills time twice: `ElapsedTimeBoundsIffNeverBack`.
- A submission's push that is overtaken by the orphan sweep queues the job twice: `OvertakenPushDuplicates` shows
  it, `PushIsSafeIffUnplaced` and `StaysUniqueIffPushesUnplaced` say exactly when a push, and a run, is safe.

## Model

| member | source | states |
|---|---|---|
| Scheduler.FrontExists | internal/scheduler/infrastructure/lua_scripts.go:71 | a non-empty active set has a member with the least score, ties going to the least name |
| Scheduler.FrontUnique | internal/scheduler/infrastructure/lua_scripts.go:71 | that member is unique, so taking the first of the sorted set is a function |
| Scheduler.QueueEffect | internal/scheduler/infrastructure/lua_scripts.go:42-57 | every step except the dequeue changes lists, active set and counter by one push or not at all, and its reply says which |
| Scheduler.DequeuedLists | internal/scheduler/infrastructure/lua_scripts.go:67-99 | a dequeue pops the right end of the one list it serves; if it serves none, no list changes |
| Scheduler.StepKeepsInv | internal/scheduler/infrastructure/lua_scripts.go:11-172 | every step keeps: active users are exactly those with jobs, under distinct scores no greater than the counter |
| Scheduler.RunKeepsInv | internal/scheduler/infrastructure/lua_scripts.go:11-172 | the same over every run |
| SchedulerRing.PushRefines | internal/scheduler/infrastructure/lua_scripts.go:129-141 | a push is joining the ring: at the back for a user without work, at the end of its jobs otherwise |
| SchedulerRing.ServeRefines | internal/scheduler/infrastructure/lua_scripts.go:71-94 | a dequeue is serving the ring's front and re-appending it exactly when work remains |
| SchedulerRing.StepRefines | internal/scheduler/infrastructure/lua_scripts.go:11-172 | every step's observation is one the ring allows, and both stay in correspondence |
| SchedulerRing.RingRefinement | internal/scheduler/infrastructure/lua_scripts.go:11-172 | every run from a represented state is a behaviour of the ring |
| SchedulerRing.EveryRunIsRoundRobin | internal/scheduler/infrastructure/lua_scripts.go:11-172 | every run from the empty keyspace is a behaviour of the empty ring |
| SchedulerRing.DequeueIsWorkConserving | internal/scheduler/infrastructure/lua_scripts.go:67-78 | in every reachable state a dequeue comes back empty if and only if no user has a job; the "active user without a job" branch is never taken |
| SchedulerRing.BecameActiveMeansJoined | internal/scheduler/infrastructure/lua_scripts.go:132-141 | reply 2 is given if and only if the job was queued and its user was not in the ring |
| SchedulerFairness.PushKeepsPlace | internal/scheduler/infrastructure/lua_scripts.go:132-138 | no step but a dequeue changes who is ahead of a waiting user |
| SchedulerFairness.DequeueMovesUp | internal/scheduler/infrastructure/lua_scripts.go:71-94 | a dequeue serves somebody, and if not the waiting user, fewer users are ahead of it afterwards |
| SchedulerFairness.BoundedBypass | internal/scheduler/infrastructure/lua_scripts.go:71-94 | with r users ahead, a waiting user is served within r + 1 dequeues in every interleaving |
| SchedulerFairness.JobClaimedSoon | internal/scheduler/infrastructure/lua_scripts.go:71-94 | an upper bound, from its user's place and its own, on the dequeues before a given job is claimed |
| SchedulerFairness.BoundedWaiting | internal/scheduler/infrastructure/lua_scripts.go:71-94 | with at most U users ever active, a job p places from the pop end is claimed within (p + 1) * U dequeues |
| SchedulerFairness.PairStep | internal/scheduler/infrastructure/lua_scripts.go:85-94 | of two users that stay active the one behind is not served, and serving the one in front swaps them |
| SchedulerFairness.NoMonopoly | internal/scheduler/infrastructure/lua_scripts.go:85-94 | while two users both stay active their claims strictly alternate and their counts differ by at most one |
| SchedulerHistory.FifoStep | internal/scheduler/infrastructure/lua_scripts.go:73-97 | one step's pushes and claims account for the change of a user's queue, in order |
| SchedulerHistory.FifoConservation | internal/scheduler/infrastructure/lua_scripts.go:47-141 | per user, what was queued followed by all pushes is all claims followed by what is queued, over every run |
| SchedulerHistory.LeaseBalance | internal/scheduler/infrastructure/lua_scripts.go:25-97 | over every run leases at the start plus claims are leases at the end plus re-claims, releases, removals and requeues |
| SchedulerHistory.UniqueStep | internal/scheduler/infrastructure/lua_scripts.go:42-162 | with one owner per job and fresh submissions, every step keeps each job in one place, and no claim is of a leased job |
| SchedulerHistory.EveryJobHasOnePlace | internal/inference/usecase/inference.go:138-144 | over every disciplined run a job is in at most one list position or the lease set, and claims are exactly leases plus releases, removals and requeues |
| SchedulerHistory.PushIsSafeIffUnplaced | internal/scheduler/infrastructure/lua_scripts.go:114-141 | a submission push keeps unique placement if and only if the job is neither queued nor leased |
| SchedulerHistory.StaysUniqueIffPushesUnplaced | internal/scheduler/infrastructure/lua_scripts.go:114-172 | over every run in which jobs are queued under their owners, placement stays unique at every point if and only if each submission push that takes effect is of a job that is nowhere yet |
| SchedulerHistory.OvertakenPushDuplicates | internal/scheduler/infrastructure/lua_scripts.go:114-172 | an orphan insert before the submission push leaves the job in its list twice |
| SchedulerLeases.DeadlineRun | internal/scheduler/infrastructure/lua_scripts.go:11-97 | every lease's score is the time of its last claim or renewal plus the lease, over every run |
| SchedulerLeases.TakeoverOnlyAfterLeaseRanOut | internal/scheduler/infrastructure/lua_scripts.go:25-57 | a takeover at a cutoff succeeds if and only if the job is leased and was last claimed or renewed at least one lease before |
| SchedulerLeases.OnlyAClaimGrantsALease | internal/scheduler/infrastructure/lua_scripts.go:11-16 | a lease that is gone comes back only by a claim: no heartbeat, requeue or release recreates it |
| SchedulerLeases.ClaimBetweenTakeovers | internal/scheduler/infrastructure/lua_scripts.go:25-57 | between two successful takeovers of a job, by any number of services, lies a new claim of it |
| SchedulerAdmission.SubmissionQueuedIff | internal/scheduler/infrastructure/lua_scripts.go:114-141 | a submission is queued if and only if its list has room and its key is unknown, told "full" if and only if there is no room, and a duplicate otherwise; once queued its key is known; refused, nothing changes |
| SchedulerAdmission.QueuedOncePerKey | internal/scheduler/infrastructure/lua_scripts.go:120-124 | over every run without its expiry, a key lets at most one submission through, and none if it was known before |
| SchedulerAdmission.OnePushPerKey | internal/scheduler/infrastructure/lua_scripts.go:120-124 | from the empty keyspace, over every run without its expiry, at most one submission per key is queued |
| SchedulerAdmission.QueuedIffNotSinceExpiry | internal/scheduler/infrastructure/lua_scripts.go:120-124 | in every reachable state a submission with room is queued if and only if none with its key was queued since the key last expired |
| SchedulerAdmission.MarkerRun | internal/scheduler/infrastructure/repository.go:173-232 | over every run a job carries a completed marker if and only if it was marked since the marker was last removed |
| SchedulerAdmission.MarkedJobIsNoOrphan | internal/scheduler/infrastructure/lua_scripts.go:155 | in every reachable state an orphan insert of a job marked since its marker was last removed is refused |
| SchedulerAdmission.OrphanQueuedIff | internal/scheduler/infrastructure/lua_scripts.go:155-172 | an orphan insert is queued if and only if the job has no marker, no lease and no place in the list, and the list has room |
| SchedulerAdmission.StaysWithinCapacityIff | internal/scheduler/infrastructure/lua_scripts.go:42-172 | a step keeps a list within the capacity if and only if it is not a requeue that takes effect on a list at capacity |
| SchedulerAdmission.QueueStaysBounded | internal/scheduler/infrastructure/lua_scripts.go:114-172 | over every run a list exceeds the capacity, or the length it had, by no more than the expired jobs requeued onto it |
| SchedulerAdmission.RequeueExceedsCapacity | internal/scheduler/infrastructure/lua_scripts.go:42-57 | a submission, a claim, another submission and an expired requeue leave two jobs in a queue of capacity one |
| SchedulerAdmission.StampRun | internal/scheduler/infrastructure/lua_scripts.go:11-172 | over every run the timestamp kept for a job is that of its last timestamped push, unless it was claimed or removed since |
| SchedulerAdmission.WaitIsTimeSincePush | internal/scheduler/infrastructure/lua_scripts.go:80-99 | in every reachable state the wait a claim reports is the time since the job's last timestamped push, never negative, and zero if it carries none |
| SchedulerStore.RedisSchedulerRepository.constructor | internal/scheduler/infrastructure/repository.go:40-45 | a fresh repository's keys are the empty keyspace |
| SchedulerStore.RedisSchedulerRepository.PushAndActivate | internal/scheduler/infrastructure/lua_scripts.go:49-55 | the list push and conditional activation in place are the model's push |
| SchedulerStore.RedisSchedulerRepository.PushLeft | internal/scheduler/infrastructure/repository.go:88-132 | the enqueue in place is the atomic step; from the fields: full if and only if the list is at capacity, duplicate if and only if there is room and the key is known, otherwise the job heads the list, its key is known and its time stored; a refusal changes nothing |
| SchedulerStore.RedisSchedulerRepository.FirstActive | internal/scheduler/infrastructure/lua_scripts.go:71 | the scan of the active set finds its front |
| SchedulerStore.RedisSchedulerRepository.Reschedule | internal/scheduler/infrastructure/lua_scripts.go:87-94 | after a pop the user goes to the back with a fresh score, or out of the active set when its list is empty |
| SchedulerStore.RedisSchedulerRepository.RunFairDequeue | internal/scheduler/infrastructure/lua_scripts.go:67-99 | the dequeue script in place is the atomic dequeue, state and reply |
| SchedulerStore.RedisSchedulerRepository.ClaimNextJob | internal/scheduler/infrastructure/repository.go:47-86 | the claim is the atomic dequeue; an empty id is an error although the claim was made |
| SchedulerStore.RedisSchedulerRepository.ExtendProcessingLease | internal/scheduler/infrastructure/repository.go:162-171 | the renewal is the atomic step and reports whether a lease was there |
| SchedulerStore.RedisSchedulerRepository.RemoveIfExpired | internal/scheduler/infrastructure/repository.go:197-203 | the removal is the atomic step and reports whether it took the lease |
| SchedulerStore.RedisSchedulerRepository.RequeueIfExpired | internal/scheduler/infrastructure/repository.go:205-217 | the requeue is the atomic step and reports whether it took the lease |
| SchedulerStore.RedisSchedulerRepository.EnqueueIfAbsent | internal/scheduler/infrastructure/repository.go:234-246 | the orphan insert is the atomic step; a full queue and a present job both report false |
| SchedulerStore.RedisSchedulerRepository.ReleaseProcessingJob | internal/scheduler/infrastructure/repository.go:149-160 | the release is the atomic step and reports whether a lease was there |
| SchedulerStore.RedisSchedulerRepository.MarkJobCompleted | internal/scheduler/infrastructure/repository.go:173-178 | the marker is added and nothing else changes |
| SchedulerStore.RedisSchedulerRepository.RemoveCompletedJob | internal/scheduler/infrastructure/repository.go:227-232 | the marker is removed and nothing else changes |
| Ranking.TakeLeast | internal/scheduler/infrastructure/repository.go:180-195 | the keys with the least values, in order, distinct, at most the limit, none passed over for a greater one |
| JobRows.PendingOrphans | internal/job/infrastructure/persistence/postgres.go:104-123 | the oldest `created` rows before a time, oldest first, at most the limit, none skipped for a younger one; all of them if the limit is not reached |
| JobRows.MarksStayTerminal | internal/job/domain/state.go:13-27 | every mark in flight will write a terminal status, over every run of row statements |
| JobRows.TerminalNeverReopens | internal/job/infrastructure/persistence/postgres.go:125-162 | a terminal row never returns to `created`, however split marks, conditional updates and creations interleave |
| JobRows.RowsComeFromSteps | internal/job/infrastructure/persistence/postgres.go:25-162 | over every run a row has the owner and time it was created with, and a terminal row has the outcome and retry count of a mark that was begun for it |
| JobRows.OutcomeStandsIffNoRival | internal/job/usecase/job_usecase.go:113-149 | a terminal outcome stands in every continuation if and only if no mark with another outcome is still in flight |
| JobRows.RacingMarksOverwrite | internal/job/usecase/job_usecase.go:113-149 | two marks that both read `created`: one completes the job, the other overwrites it as failed |
| JobRows.FirstOutcomeStands | internal/job/usecase/job_usecase.go:113-149 | when marks are indivisible the first terminal outcome stands, over every run |
| RecoveryWorld.OthersMove | internal/job/infrastructure/persistence/postgres.go:125-162 | what others can do between two calls: markers only grow, terminal rows stay terminal, retry counts of `created` rows stay |
| RecoveryWorld.StaysClear | internal/scheduler/infrastructure/lua_scripts.go:11-97 | a job without an expired lease stays so while others only grant leases that end after the cutoff |
| RecoveryLedger.LedgerCounted | internal/recovery/usecase/service.go:175-193 | a requeue whose new retry count reaches the row keeps every job's account |
| RecoveryLedger.LedgerLost | internal/recovery/usecase/service.go:175-193 | a requeue whose count is lost keeps every account at the price of one failed call |
| RecoveryLedger.RequeueAnswers | internal/scheduler/infrastructure/lua_scripts.go:42-57 | the requeue script answers for an expired job below its limit: the job is in its owner's list and holds no lease |
| RecoveryLedger.SweptLater | internal/recovery/usecase/service.go:123-194 | what a sweep answered for stays answered for: queued jobs were queued, terminal rows stay terminal |
| RecoveryPasses.SettledLater | internal/recovery/usecase/service.go:63-96 | what a reconciliation settled stays settled: rows stay terminal, and what was closed was closed |
| RecoveryPasses.PassDoneLater | internal/recovery/usecase/service.go:216-227 | a pass done stays done under whatever happens later: sweep, reconciliation and orphan offers, in that order |
| Recovery.RecoveryService.constructor | internal/recovery/usecase/service.go:55-61 | from any rows and queues, accounts start in order |
| Recovery.RecoveryService.Mark | internal/job/usecase/job_usecase.go:113-149 | success means a terminal row and a recorded mark with this outcome; with working calls the row ends terminal even if somebody else marked it first |
| Recovery.RecoveryService.GiveUp | internal/recovery/usecase/service.go:156-178 | a job at its limit: accounts stay in order; when the calls made work it is answered for, that is, its lease had not run out when the script met it, or it is given up and its row ends terminal; if recovery marked it failed, its record and its stream are told so, in that order, after the mark |
| Recovery.RecoveryService.Requeue | internal/recovery/usecase/service.go:179-193 | a job below its limit: unless the script's call is lost, exactly one requeue is recorded if and only if the script meets an expired lease; when the calls made work the job is then in its owner's queue and its retry count is one more; accounts stay in order whatever fails |
| Recovery.RecoveryService.RecoverOne | internal/recovery/usecase/service.go:137-194 | no guarded job loses its guard and accounts stay in order; the log gains nothing, one requeue, or a giving-up with its mark; when the calls made work a job with a row is answered for and holds no expired lease |
| Recovery.RecoveryService.Sweep | internal/recovery/usecase/service.go:123-135 | the batch is the expired leases that ran out first and no job is requeued twice; when the calls made work no job of it with a row is lost: its lease had not run out after all, it went into its owner's queue below its limit, or its row ends terminal |
| Recovery.RecoveryService.ReconcileOne | internal/recovery/usecase/service.go:68-94 | a marker goes only after its row is terminal; with working calls the row ends terminal, and an already terminal job, or one that recovery itself completed, is closed: its record is told it completed, then its stream, then its marker is removed |
| Recovery.RecoveryService.ReconcileCompleted | internal/recovery/usecase/service.go:63-96 | no guarded job loses its guard whatever fails; with working calls every job marked in the state its read met and having a row ends terminal, and is closed after that read if its row was terminal already |
| Recovery.RecoveryService.SweepOrphans | internal/recovery/usecase/service.go:98-121 | the defaults are put in place; the rows are the oldest orphans past the grace in the state the query met, each is offered to the orphan script after the query when calls work, and no guarded job is queued |
| Recovery.RecoveryService.SettleThenSweepOrphans | internal/recovery/usecase/service.go:63-121 | marker beats orphan sweep: no job marked at the start is queued by the orphan sweep, whatever others do and whichever calls fail, and it keeps its marker or has a terminal row |
| Recovery.RecoveryService.Run | internal/recovery/usecase/service.go:196-232 | over any number of passes a job is requeued on expiry at most MaxAttempts less its first retry count, plus one per failed call; it is given up only after that many requeues, exactly that many if no call failed, and marked failed only if given up; when the calls made work, in every pass, one after the other: the sweep answers for every job of the batch its own first call reads, the later reconciliation settles every marked job its read meets, and the still later query's oldest orphans are each offered to the orphan script; every job marked failed has its record and stream told |
| Submission.StepKeepsInv | internal/inference/usecase/inference.go:63-163 | every external call of a Submit keeps the protocol's invariant unless a binding's acknowledgement is lost |
| Submission.TransitionKeepsInv | internal/inference/infrastructure/idempotency/idempotency.go:102-122 | a status transition keeps the invariant |
| Submission.RunKeepsInv | internal/inference/usecase/inference.go:55-178 | so does every interleaving of Submits and transitions |
| Submission.RunKeepsExclusive | internal/inference/usecase/inference.go:55-178 | over every run, lost acknowledgements included, at most one Submit owns a key and at most one holds a lock, and what is owned or held is there |
| Submission.OneAcceptedJobPerKey | internal/inference/infrastructure/idempotency/idempotency.go:41-81 | over every interleaving and every failure at most one Submit owns a key, so at most one job per key is accepted, and no two equal requests are past the coalescing lock together; if no binding's acknowledgement is lost, a replay returns the job bound |
| Submission.TerminalStatusIsFinal | internal/inference/infrastructure/idempotency/idempotency.go:102-122 | a key's terminal status and its job never change |
| Submission.BindSafeIffAcknowledged | internal/inference/usecase/inference.go:112-122 | a binding keeps the protocol's invariant if and only if it is not one that takes effect and reports an error |
| Submission.PromisesKeptIffBindAcknowledged | internal/inference/usecase/inference.go:112-122 | in every later run with acknowledged bindings terminal records stand and replays agree with the job bound, if and only if this binding is not one that takes effect and reports an error |
| Submission.LostAcknowledgementBreaksReplay | internal/inference/usecase/inference.go:112-122 | a run from the empty store: a binding is reported as failed, its job completes, a second Submit replays it, the first cleans up, and a third has another job accepted under the key |
| Submission.SilentIffCleanupWorked | internal/inference/usecase/inference.go:95-122 | a compensated Submit reports no error though it accepted nothing if and only if creation or binding failed and both deletes worked |
| Submission.FailedCreationIsSilent | internal/inference/usecase/inference.go:103-110 | a run in which creation fails, cleanup works and Submit returns neither id nor error |
| SubmissionOutcomes.RunKeepsLinked | internal/inference/infrastructure/idempotency/idempotency.go:77-81 | over every run, whatever fails, the reverse map leads from every bound job to the key it is bound to, and no two Submits share a job |
| SubmissionOutcomes.TransitionSettles | internal/inference/infrastructure/idempotency/idempotency.go:102-122 | a transition of a bound job whose record is in flight records under its key, and no other, that the job completed or failed, as it was told |
| SubmissionOutcomes.RejectionSettles | internal/inference/usecase/inference.go:124-153 | over every run, once a Submit has rejected the job it bound, its key is on record with that job as ended, for good |
| SubmissionOutcomes.ReplayMeansCompleted | internal/inference/infrastructure/idempotency/idempotency.go:52-59 | in every run from the empty store without a lost acknowledgement of a binding, a replay names a job that was transitioned to completed, and a record says completed or failed only of a job that was said to be so |
| SubmissionOutcomes.SettledKeyAnswers | internal/inference/infrastructure/idempotency/idempotency.go:48-59 | a Submit that asks for a settled key is given the job if it completed and the call worked, and an error otherwise |
| SubmissionOutcomes.LaterSubmitsAreTold | internal/inference/infrastructure/idempotency/idempotency.go:41-122 | once the job bound to a key has ended, every later Submit of the key is refused or, only if the job completed, given that job, over every continuation without a lost acknowledgement of a binding |
| SubmitService.OthersLeaveCall | internal/inference/usecase/inference.go:55-163 | other Submits and transitions do not move this call |
| SubmitService.OnTrackIffAllGoWell | internal/inference/usecase/inference.go:55-163 | in every run a Submit stays on the way to acceptance if and only if each of its steps works and finds what it needs free, or still there |
| SubmitService.SubmitInference.Submit | internal/inference/usecase/inference.go:55-163 | what has happened is the call's arrival and, turn by turn, what others did and the protocol's step on what the outside decided; it reports what it came to, is accepted if and only if every step went well, and keeps ownership exclusive, the invariant and the links of jobs to keys; a call that came by both claims and bound no job gives up the lock and frees its key unless the delete was lost; a bound job that meets a full queue or a short deadline ends on record under its key and gives up the lock; one that meets a queue error leaves all be |
| SubmitService.SubmitInference.CleanupClaims | internal/inference/usecase/inference.go:165-178 | both deletes are attempted, each the protocol's step on what the outside decided, and each that is not lost frees what it deletes; the cleanup is clean if and only if both were confirmed |
| SubmitService.SubmitInference.ClaimOrGet | internal/inference/infrastructure/idempotency/idempotency.go:41-60 | the protocol's step on what the outside decided; the call goes on if and only if the claim worked and the key was free in the state it met |
| SubmitService.SubmitInference.TryCoalesce | internal/inference/infrastructure/coalescing/coalescing.go:37-43 | the protocol's step; the call goes on if and only if it worked and the lock was free, and the idempotency records stay as they were met |
| SubmitService.SubmitInference.CreateAndBind | internal/inference/usecase/inference.go:103-122 | the protocol's steps; the call ends bound to the job the outside named only if creation and binding worked, and otherwise waits for cleanup |
| TokenBucket.BalanceStaysInRange | internal/admission/infrastructure/ratelimit/token_aware.go:56-83 | the balance stays between zero and the capacity, on any clock |
| TokenBucket.AdmittedIffCovered | internal/admission/infrastructure/ratelimit/token_aware.go:56-83 | a request is admitted if and only if it fits the capacity and the stored balance plus the refill covers it; it can never be admitted if and only if it exceeds the capacity |
| TokenBucket.RefillIsAdditive | internal/admission/infrastructure/ratelimit/token_aware.go:64-72 | capped refill over two adjacent intervals is capped refill over their union |
| TokenBucket.ExpiryRefinesNeverExpiring | internal/admission/infrastructure/ratelimit/token_aware.go:60-83 | a bucket dropped after its TTL answers every run as one never dropped if and only if TTL times rate reaches the capacity |
| TokenBucket.ShortTtlShows | internal/admission/infrastructure/ratelimit/token_aware.go:60-83 | with a shorter TTL: drain, wait for the TTL, ask again |
| TokenBucket.DeniedAreInvisible | internal/admission/infrastructure/ratelimit/token_aware.go:64-80 | deleting any set of turned-away requests from a run leaves every other decision as it was |
| TokenBucket.TokenConservation | internal/admission/infrastructure/ratelimit/token_aware.go:56-83 | the cost admitted by a run is at most the capacity plus the refill over the time it spans |
| TokenBucket.DeniedIffOverdrawn | internal/admission/infrastructure/ratelimit/token_aware.go:56-83 | conservation is tight: on a clock that never goes back, a request the bucket could hold is denied after any run if and only if, from some request on, what was admitted plus its cost exceeds the capacity and the refill since, or from the start exceeds what was there and the refill since |
| TokenBucket.BackwardClockOverspends | internal/admission/infrastructure/ratelimit/token_aware.go:70 | on every clock that goes back somewhere, some configuration and costs admit more than the capacity and the refill of the elapsed time |
| TokenBucket.ElapsedTimeBoundsIffNeverBack | internal/admission/infrastructure/ratelimit/token_aware.go:56-83 | elapsed time bounds what is admitted, for every configuration, balance and costs, if and only if the clock never goes back |
| TokenBucket.RedisRateLimiter.constructor | internal/admission/infrastructure/ratelimit/token_aware.go:29-33 | no user has a bucket at first |
| TokenBucket.RedisRateLimiter.Allow | internal/admission/infrastructure/ratelimit/token_aware.go:86-123 | the user's bucket for the tier moves by one charge, no other moves, and the answer is the decision; from the fields: admitted if and only if the cost fits the capacity and the balance with its refill covers it; an unknown tier uses the free tier's configuration under its own key |
| Retry.DelayIsCappedExponential | internal/shared/retry/retry.go:85-101 | without overflow the delay is base * 2^(attempt - 1), capped when the cap is positive |
| Retry.DelayIsCappedExponentialIff | internal/shared/retry/retry.go:85-101 | the delay is that if and only if the shift does not overflow or wraps to the cap or above |
| Retry.DelayIsMonotone | internal/shared/retry/retry.go:85-101 | without overflow a later attempt never waits less |
| Retry.OverflowedDelayDrops | internal/shared/retry/retry.go:94 | with overflow a later delay can be negative |
| Retry.DelayNeverExceedsCap | internal/shared/retry/retry.go:85-101 | for every attempt, wrapped or not, a positive cap is respected |
| Retry.DoWithRetry | internal/shared/retry/retry.go:25-83 | all attempts but the last failed retryably and were waited for, and the last succeeded, failed for good, used up the policy, or was cut short; the looks at the context are counted, and only the one that cuts it short found it cancelled |
| Retry.RetryIsBounded | internal/shared/retry/retry.go:38-76 | calls made are the attempts reported, at most the policy's, and total sleep is at most (MaxAttempts - 1) * maxDelay |
| Retry.WaitsAreBackoff | internal/shared/retry/retry.go:52-101 | in every run the wait after the n-th call is base * 2^(n - 1), capped, unless that overflows |
| Worker.Heartbeat | internal/worker/usecase/worker_pool.go:244-302 | the heartbeat gives up at the first renewal that is refused or completes a run of failures of the limit's length, and nowhere earlier |
| Worker.UnstoredLimitIsHonouredIff | internal/worker/usecase/worker_pool.go:79-98 | with the limit unstored the job is given up where the configured limit asks if and only if the limit is 1 or the first renewal that does not succeed is not a failure in transit |
| Worker.LossIsHeartbeatGivingUp | internal/worker/usecase/worker_pool.go:244-302 | if the lease counts as lost once the heartbeat has given the job up, it is lost at a look exactly when that look comes after the renewal the heartbeat reports, and stays lost |
| Worker.LoopRendered | internal/worker/usecase/worker_pool.go:402-466 | the calls of the inference loop: one generation per attempt, exactly its own chunks before the next, each retry announced once, in order, after exactly that many generations |
| Worker.CleanedUpShape | internal/worker/usecase/worker_pool.go:357-582 | work followed by the cleanup of its ending has the shape of a run |
| Worker.FetchWithRetry | internal/worker/usecase/worker_pool.go:328-372 | fetched if and only if the last attempt succeeded with the lease held through every look; otherwise the last attempt failed, and the look that follows says whether the lease is lost or held |
| Worker.InferWithRetry | internal/worker/usecase/worker_pool.go:402-470 | succeeded with the lease held through every look, or the last generation failed, and the look that follows says whether the lease is lost or held |
| Worker.ProcessJob | internal/worker/usecase/worker_pool.go:214-582 | a run whose fetching or inference failed makes no terminal call if the lease is lost at the look that follows; every other run that claimed a job makes exactly one terminal mark, one release after it and one terminal event with nothing after it; the mark's count is the generations made, at most MaxAttempts of the policy found or else the default; a failing run tells the idempotency record "failed" exactly once, after the mark and before the release; a finished run leaves its completion marker before it marks the job and, if the mark was recorded, tells the record "completed" exactly once, after the mark and before the terminal event; fetches, generations and looks determine the ending |
| Worker.EndingIsDetermined | internal/worker/usecase/worker_pool.go:357-582 | what the fetches, the generations and the looks at the lease come to leaves a run one ending only, with one number of fetches and of generations |
| Sse.DataLines | internal/stream/transport/handler.go:190-194 | a client splits the written data fields into exactly those lines |
| Sse.UnsplitSplit | internal/stream/transport/handler.go:190 | joining the split lines again gives the data back |
| Sse.InterpretItems | internal/stream/transport/handler.go:185-198 | a client recovers exactly the messages written, whatever heartbeats lie between |
| Sse.ClientRecoversIffCrFree | internal/stream/transport/handler.go:185-198 | a client recovers the messages if and only if no data holds a carriage return |
| Stream.Subscribe | internal/stream/infrastructure/redis/stream_service.go:110-191 | however the log is batched, the events are the log through its first terminal event, without gap or repeat, and what exists is taken once enough reads follow |
| Stream.ThroughTerminalEnds | internal/stream/infrastructure/redis/stream_service.go:151-185 | what a log holds through its first terminal event is its prefix up to and including the first completed or failed event, or all of it |
| Stream.ViewOfPublished | internal/stream/transport/handler.go:124-162 | of a log of the published kinds the client sees everything through the first terminal event |
| Stream.WriteSSEEvent | internal/stream/transport/handler.go:185-198 | the writer's loop produces the event text the parser theorems are about |
| Stream.HandleStream | internal/stream/transport/handler.go:104-165 | under every schedule a client parses exactly the view of the events taken, if and only if their data holds no carriage return; short of a terminal event, every event asked for before a disconnect is taken; the response holds one heartbeat for every beat picked before the end |
| Stream.StreamToClient | internal/stream/transport/handler.go:104-165 | from log to client: the client recovers a prefix of the log's view, all of it through the first terminal event if it stays connected and the log is read through; of a log of published events without carriage returns, exactly the events through the first terminal one |

## Left out

- Ownership of leases: the lease set carries no worker, so nothing is said about who renews or releases.
- Expiry of the idempotency, coalescing and reverse keys: the submission theorems are about runs without it.
- Job-failure marks that Submit makes when it compensates: they touch job rows only and no key of the protocol.
- Malformed Redis replies, undecodable stream entries (the reader skips them) and failed writes to the client.
- Stream retention, publishing and closing beyond appending to the log.
- Identity of hashes: the request hash is an arbitrary value, and nothing is said about collisions.
- The contents of the idempotency record and of the event stream inside recovery: what recovery tells them is in its history, and such a call may fail.
- Recovery.RecoveryService.Run: one recovery loop; with several, only the lease theorems of `SchedulerLeases` are stated.
- Recovery.RecoveryService.Run: the retry count is an integer; the 8-bit field it is read into is not modelled.
- JobRows.PendingOrphans: a negative limit, which PostgreSQL refuses, selects nothing here.
- TokenBucket.RedisRateLimiter.Allow: token counts are not negative, an error from Redis is not modelled, and key expiry is covered by the theorems on runs.
- Stream.HandleStream: an event is written whole or not at all; a disconnect falls between writes.
- Worker.ProcessJob: a publish that fails inside a generation is part of how that generation ends.
- The unguarded status update of the job use case, which nothing calls.
- HTTP routing, authentication, the OpenAI client, metrics, logging, configuration, admission policy and health checks: no hard property.

/** Lease safety for any number of workers and recovery services acting on the lease set. */
module SchedulerLeases {
  import opened Common
  import opened Scheduler

  /** Every claim and renewal in the run uses the same lease duration. */
  predicate UsesLease(steps: seq<Step>, lease: int) {
    forall i | 0 <= i < |steps| && (steps[i].Dequeue? || steps[i].Extend?) :: steps[i].lease == lease
  }

  /** The Redis time of the last claim of a job, or successful renewal of its lease, if this step is one. */
  ghost function TouchBy(s: State, step: Step, job: JobId, before: Option<int>): Option<int> {
    var r := Exec(s, step).reply;
    match step
    case Dequeue(now, _) => if r.Claim? && r.job == job then Some(now) else before
    case Extend(j, now, _) => if j == job && r == Code(1) then Some(now) else before
    case _ => before
  }

  ghost function LastTouch(s: State, steps: seq<Step>, job: JobId, before: Option<int>): Option<int>
    decreases |steps|
  {
    if steps == [] then before
    else LastTouch(Next(s, steps[0]), steps[1..], job, TouchBy(s, steps[0], job, before))
  }

  ghost predicate DeadlineIs(s: State, job: JobId, touch: Option<int>, lease: int) {
    job in s.leases ==> touch.Some? && s.leases[job] == touch.value + lease
  }

  lemma DeadlineStep(s: State, step: Step, job: JobId, touch: Option<int>, lease: int)
    requires DeadlineIs(s, job, touch, lease)
    requires step.Dequeue? || step.Extend? ==> step.lease == lease
    ensures DeadlineIs(Next(s, step), job, TouchBy(s, step, job, touch), lease)
  {}

  lemma {:induction false} DeadlineRun(s: State, steps: seq<Step>, job: JobId, touch: Option<int>, lease: int)
    requires DeadlineIs(s, job, touch, lease) && UsesLease(steps, lease)
    ensures DeadlineIs(Run(s, steps), job, LastTouch(s, steps, job, touch), lease)
    decreases |steps|
  {
    if steps != [] {
      DeadlineStep(s, steps[0], job, touch, lease);
      assert forall i | 0 <= i < |steps| - 1 :: steps[1..][i] == steps[i + 1];
      DeadlineRun(Next(s, steps[0]), steps[1..], job, TouchBy(s, steps[0], job, touch), lease);
    }
  }

  predicate IsTakeover(step: Step, job: JobId) {
    (step.RemoveExpired? || step.RequeueExpired?) && step.job == job
  }

  ghost predicate TakesOver(s: State, step: Step, job: JobId) {
    IsTakeover(step, job) && Exec(s, step).reply == Code(1)
  }

  /** In every reachable state a takeover at a cutoff succeeds exactly when the job is leased and was last
      claimed or renewed at least one lease before the cutoff. */
  lemma TakeoverOnlyAfterLeaseRanOut(steps: seq<Step>, step: Step, job: JobId, lease: int)
    requires UsesLease(steps, lease) && IsTakeover(step, job)
    ensures var s, touch := Run(EMPTY, steps), LastTouch(EMPTY, steps, job, None);
            TakesOver(s, step, job) <==> job in s.leases && touch.Some? && touch.value <= step.cutoff - lease
  {
    DeadlineRun(EMPTY, steps, job, None, lease);
  }

  ghost predicate ClaimedIn(trace: seq<Label>, job: JobId) {
    exists i :: 0 <= i < |trace| && trace[i].Served? && trace[i].job == job
  }

  /** A lease that is gone comes back only by a new claim: no heartbeat, requeue or release recreates it. */
  lemma {:induction false} OnlyAClaimGrantsALease(s: State, steps: seq<Step>, job: JobId)
    requires job !in s.leases && !ClaimedIn(Trace(s, steps), job)
    ensures job !in Run(s, steps).leases
    decreases |steps|
  {
    if steps != [] {
      var s', trace, trace' := Next(s, steps[0]), Trace(s, steps), Trace(Next(s, steps[0]), steps[1..]);
      assert trace[0] == LabelOf(s, steps[0]);
      assert forall i | 0 <= i < |trace'| :: trace[i + 1] == trace'[i];
      assert !ClaimedIn(trace', job);
      OnlyAClaimGrantsALease(s', steps[1..], job);
    }
  }

  /** However many recovery services run, between two successful takeovers of a job lies a new claim of it. */
  lemma ClaimBetweenTakeovers(s: State, first: Step, between: seq<Step>, second: Step, job: JobId)
    requires TakesOver(s, first, job)
    requires TakesOver(Run(Next(s, first), between), second, job)
    ensures ClaimedIn(Trace(Next(s, first), between), job)
  {
    if !ClaimedIn(Trace(Next(s, first), between), job) {
      OnlyAClaimGrantsALease(Next(s, first), between, job);
      assert false;
    }
  }
}

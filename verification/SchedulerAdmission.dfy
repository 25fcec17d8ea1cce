/** What gets into the queues: one push per dedup key, queues within their capacity, and the wait a claim reports. */
module SchedulerAdmission {
  import opened Common
  import opened Scheduler

  // ---- one push per key ----

  predicate IsSubmission(step: Step, key: DedupKey) {
    step.Enqueue? && DedupKey(step.user, step.job, step.attempt) == key
  }

  /** The submissions with this key that were queued. */
  function QueuedWith(s: State, steps: seq<Step>, key: DedupKey): nat
    decreases |steps|
  {
    if steps == [] then 0
    else (if IsSubmission(steps[0], key) && LabelOf(s, steps[0]).Pushed? then 1 else 0)
         + QueuedWith(Next(s, steps[0]), steps[1..], key)
  }

  /** A submission is queued exactly when its user's list is below the capacity and its key is new; the reply is full
      at the capacity, and duplicate otherwise.  Queued, its key is no longer new. */
  lemma SubmissionQueuedIff(s: State, step: Step)
    requires step.Enqueue?
    ensures var key, room := DedupKey(step.user, step.job, step.attempt), |List(s, step.user)| < step.capacity;
            && (LabelOf(s, step).Pushed? <==> room && key !in s.dedup)
            && (Exec(s, step).reply == Code(0) <==> !room)
            && (Exec(s, step).reply == Code(1) <==> room && key in s.dedup)
            && (LabelOf(s, step).Pushed? ==> key in Next(s, step).dedup)
            && (!LabelOf(s, step).Pushed? ==> Next(s, step) == s)
  {}

  lemma KeyStays(s: State, step: Step, key: DedupKey)
    requires key in s.dedup && step != ForgetDedup(key)
    ensures key in Next(s, step).dedup && !(IsSubmission(step, key) && LabelOf(s, step).Pushed?)
  {
    if step.Enqueue? { SubmissionQueuedIff(s, step); }
  }

  /** Until its key is forgotten, a submission is queued at most once, and not at all if its key is known. */
  lemma {:induction false} QueuedOncePerKey(s: State, steps: seq<Step>, key: DedupKey)
    requires ForgetDedup(key) !in steps
    ensures QueuedWith(s, steps, key) <= if key in s.dedup then 0 else 1
    decreases |steps|
  {
    if steps != [] {
      if key in s.dedup {
        KeyStays(s, steps[0], key);
      } else if IsSubmission(steps[0], key) {
        SubmissionQueuedIff(s, steps[0]);
      }
      QueuedOncePerKey(Next(s, steps[0]), steps[1..], key);
    }
  }

  /** From the empty keyspace, over every run: a job is queued for the same attempt at most once until its key
      expires. */
  lemma OnePushPerKey(steps: seq<Step>, key: DedupKey)
    requires ForgetDedup(key) !in steps
    ensures QueuedWith(EMPTY, steps, key) <= 1
  {
    QueuedOncePerKey(EMPTY, steps, key);
  }

  /** Whether the key's last queued submission is more recent than its last expiry. */
  predicate Known(s: State, steps: seq<Step>, key: DedupKey, before: bool)
    decreases |steps|
  {
    if steps == [] then before
    else Known(Next(s, steps[0]), steps[1..], key,
               if steps[0] == ForgetDedup(key) then false
               else before || (IsSubmission(steps[0], key) && LabelOf(s, steps[0]).Pushed?))
  }

  lemma KnownStep(s: State, step: Step, key: DedupKey)
    ensures key in Next(s, step).dedup <==>
            step != ForgetDedup(key) && (key in s.dedup || (IsSubmission(step, key) && LabelOf(s, step).Pushed?))
  {
    if step.Enqueue? { SubmissionQueuedIff(s, step); }
  }

  lemma {:induction false} KnownRun(s: State, steps: seq<Step>, key: DedupKey)
    ensures key in Run(s, steps).dedup <==> Known(s, steps, key, key in s.dedup)
    decreases |steps|
  {
    if steps != [] {
      KnownStep(s, steps[0], key);
      KnownRun(Next(s, steps[0]), steps[1..], key);
    }
  }

  /** In every reachable state a submission with room is queued exactly if none with its key was queued since the key
      last expired. */
  lemma QueuedIffNotSinceExpiry(steps: seq<Step>, step: Step)
    requires step.Enqueue? && |List(Run(EMPTY, steps), step.user)| < step.capacity
    ensures LabelOf(Run(EMPTY, steps), step).Pushed? <==>
            !Known(EMPTY, steps, DedupKey(step.user, step.job, step.attempt), false)
  {
    KnownRun(EMPTY, steps, DedupKey(step.user, step.job, step.attempt));
    SubmissionQueuedIff(Run(EMPTY, steps), step);
  }

  // ---- completed markers ----

  /** Whether the job was marked completed since its marker was last removed. */
  predicate MarkedSince(steps: seq<Step>, job: JobId, before: bool) {
    if steps == [] then before
    else MarkedSince(steps[1..], job,
                     steps[0] == MarkCompleted(job) || (before && steps[0] != RemoveCompleted(job)))
  }

  lemma MarkerStep(s: State, step: Step, job: JobId)
    ensures job in Next(s, step).completed <==>
            step == MarkCompleted(job) || (job in s.completed && step != RemoveCompleted(job))
  {}

  lemma {:induction false} MarkerRun(s: State, steps: seq<Step>, job: JobId)
    ensures job in Run(s, steps).completed <==> MarkedSince(steps, job, job in s.completed)
    decreases |steps|
  {
    if steps != [] {
      MarkerStep(s, steps[0], job);
      MarkerRun(Next(s, steps[0]), steps[1..], job);
    }
  }

  /** In every reachable state an orphan insert of a job is refused if it was marked completed and its marker has not
      been removed since. */
  lemma MarkedJobIsNoOrphan(steps: seq<Step>, step: Step)
    requires step.EnqueueOrphan? && MarkedSince(steps, step.job, false)
    ensures !LabelOf(Run(EMPTY, steps), step).Pushed?
  {
    MarkerRun(EMPTY, steps, step.job);
  }

  // ---- capacity ----

  /** Every submission and orphan insert is made with this capacity. */
  predicate UsesCapacity(steps: seq<Step>, capacity: int) {
    forall i | 0 <= i < |steps| && (steps[i].Enqueue? || steps[i].EnqueueOrphan?) :: steps[i].capacity == capacity
  }

  predicate IsRequeue(s: State, step: Step, user: UserId) {
    step.RequeueExpired? && step.user == user && LabelOf(s, step).Pushed?
  }

  function RequeuesTo(s: State, steps: seq<Step>, user: UserId): nat
    decreases |steps|
  {
    if steps == [] then 0
    else (if IsRequeue(s, steps[0], user) then 1 else 0) + RequeuesTo(Next(s, steps[0]), steps[1..], user)
  }

  /** An orphan is queued exactly when it carries no marker, holds no lease, is not in the list, and there is room. */
  lemma OrphanQueuedIff(s: State, step: Step)
    requires step.EnqueueOrphan?
    ensures LabelOf(s, step).Pushed? <==>
            && step.job !in s.completed && step.job !in s.leases && step.job !in List(s, step.user)
            && |List(s, step.user)| < step.capacity
    ensures !LabelOf(s, step).Pushed? ==> Next(s, step) == s
  {}

  /** What one step does to the length of a user's list. */
  lemma LengthStep(s: State, step: Step, user: UserId)
    ensures var did, before, after := LabelOf(s, step), |List(s, user)|, |List(Next(s, step), user)|;
            after == if did.Pushed? && did.user == user then before + 1
                     else if did.Served? && did.user == user then before - 1
                     else before
  {
    if step.Dequeue? {
      DequeuedLists(s, step.now, step.lease);
    } else {
      QueueEffect(s, step);
      var did := LabelOf(s, step);
      if did.Pushed? { PushLists(s, did.user, did.job); }
      assert List(Next(s, step), user) == List(if did.Pushed? then Push(s, did.user, did.job) else s, user);
    }
  }

  /** A submission or orphan insert leaves the list it goes to within the capacity. */
  lemma PushLeavesRoom(s: State, step: Step)
    requires (step.Enqueue? || step.EnqueueOrphan?) && LabelOf(s, step).Pushed?
    ensures |List(Next(s, step), step.user)| <= step.capacity
  {
    LengthStep(s, step, step.user);
    if step.Enqueue? { SubmissionQueuedIff(s, step); } else { OrphanQueuedIff(s, step); }
  }

  /** A list within the capacity stays so exactly unless an expired job is requeued onto a full one. */
  lemma StaysWithinCapacityIff(s: State, step: Step, user: UserId, capacity: nat)
    requires |List(s, user)| <= capacity && UsesCapacity([step], capacity)
    ensures |List(Next(s, step), user)| <= capacity <==> !(IsRequeue(s, step, user) && |List(s, user)| == capacity)
  {
    LengthStep(s, step, user);
    assert [step][0] == step;
    if (step.Enqueue? || step.EnqueueOrphan?) && LabelOf(s, step).Pushed? { PushLeavesRoom(s, step); }
  }

  /** Over every run a list exceeds the capacity by no more than the expired jobs requeued onto it. */
  lemma {:induction false} QueueStaysBounded(s: State, steps: seq<Step>, user: UserId, capacity: nat)
    requires UsesCapacity(steps, capacity)
    ensures |List(Run(s, steps), user)| <= RequeuesTo(s, steps, user) + Max(|List(s, user)|, capacity)
    decreases |steps|
  {
    if steps != [] {
      var s' := Next(s, steps[0]);
      assert forall i | 0 <= i < |steps| - 1 :: steps[1..][i] == steps[i + 1];
      LengthStep(s, steps[0], user);
      if (steps[0].Enqueue? || steps[0].EnqueueOrphan?) && LabelOf(s, steps[0]).Pushed? {
        PushLeavesRoom(s, steps[0]);
      }
      QueueStaysBounded(s', steps[1..], user, capacity);
    }
  }

  /** A requeue does exceed it: two jobs in a queue of capacity one. */
  lemma RequeueExceedsCapacity(u: UserId, j: JobId, k: JobId)
    requires j != k
    ensures var steps := [Enqueue(u, j, 1, 1, 0), Dequeue(0, 5), Enqueue(u, k, 1, 1, 1), RequeueExpired(j, u, 5)];
            List(Run(EMPTY, steps), u) == [j, k]
  {
    var a, b, c, d := Enqueue(u, j, 1, 1, 0), Dequeue(0, 5), Enqueue(u, k, 1, 1, 1), RequeueExpired(j, u, 5);
    var s1 := Next(EMPTY, a);
    assert [j] + List(EMPTY, u) == [j];
    assert s1.active == map[u := 1] && s1.lists == map[u := [j]] && s1.dedup == {DedupKey(u, j, 1)};
    OnlyUserServed(s1, u, j);
    var s2 := Next(s1, b);
    var s3 := Next(s2, c);
    assert List(s3, u) == [k] && s3.leases == map[j := 5];
    PlayFour(EMPTY, a, b, c, d);
  }

  lemma OnlyUserServed(s: State, u: UserId, j: JobId)
    requires s.active == map[u := 1] && s.lists == map[u := [j]] && s.leases == map[]
    ensures var s' := Next(s, Dequeue(0, 5));
            List(s', u) == [] && s'.leases == map[j := 5] && s'.dedup == s.dedup
  {
    assert u in s.active;
    assert Front(s.active) == u;
    assert [j][..0] == [];
  }

  lemma PlayFour(s: State, a: Step, b: Step, c: Step, d: Step)
    ensures Run(s, [a, b, c, d]) == Next(Next(Next(Next(s, a), b), c), d)
  {
    RunSteps(s, [a, b, c, d]);
    RunSteps(Next(s, a), [b, c, d]);
    RunSteps(Next(Next(s, a), b), [c, d]);
    assert [a, b, c, d][1..] == [b, c, d] && [b, c, d][1..] == [c, d] && [c, d][1..] == [d] && [d][1..] == [];
  }

  lemma RunSteps(s: State, steps: seq<Step>)
    requires steps != []
    ensures Run(s, steps) == Run(Next(s, steps[0]), steps[1..])
  {}

  // ---- the wait a claim reports ----

  /** The time of the push whose timestamp the job still carries, if this step changes it: a submission or orphan insert
      sets it, a claim or an expired removal clears it, and a requeue leaves it. */
  function StampBy(s: State, step: Step, job: JobId, before: Option<int>): Option<int> {
    var did := LabelOf(s, step);
    match step
    case Enqueue(_, j, _, _, now) => if j == job && did.Pushed? then Some(now) else before
    case EnqueueOrphan(j, _, _, now) => if j == job && did.Pushed? then Some(now) else before
    case Dequeue(_, _) => if did.Served? && did.job == job then None else before
    case RemoveExpired(j, _) => if j == job && Exec(s, step).reply == Code(1) then None else before
    case _ => before
  }

  function LastStamp(s: State, steps: seq<Step>, job: JobId, before: Option<int>): Option<int>
    decreases |steps|
  {
    if steps == [] then before
    else LastStamp(Next(s, steps[0]), steps[1..], job, StampBy(s, steps[0], job, before))
  }

  ghost predicate StampIs(s: State, job: JobId, stamp: Option<int>) {
    if stamp.Some? then job in s.enqueuedAt && s.enqueuedAt[job] == stamp.value else job !in s.enqueuedAt
  }

  lemma StampStep(s: State, step: Step, job: JobId, stamp: Option<int>)
    requires StampIs(s, job, stamp)
    ensures StampIs(Next(s, step), job, StampBy(s, step, job, stamp))
  {}

  lemma {:induction false} StampRun(s: State, steps: seq<Step>, job: JobId, stamp: Option<int>)
    requires StampIs(s, job, stamp)
    ensures StampIs(Run(s, steps), job, LastStamp(s, steps, job, stamp))
    decreases |steps|
  {
    if steps != [] {
      StampStep(s, steps[0], job, stamp);
      StampRun(Next(s, steps[0]), steps[1..], job, StampBy(s, steps[0], job, stamp));
    }
  }

  /** In every reachable state the wait a claim reports is the time since its job's last timestamped push, not below
      zero, and zero if there is none left to measure from. */
  lemma WaitIsTimeSincePush(steps: seq<Step>, now: int, lease: int)
    requires Exec(Run(EMPTY, steps), Dequeue(now, lease)).reply.Claim?
    ensures var claim := Exec(Run(EMPTY, steps), Dequeue(now, lease)).reply;
            var stamp := LastStamp(EMPTY, steps, claim.job, None);
            claim.waitMs == if stamp.Some? && stamp.value < now then now - stamp.value else 0
  {
    StampRun(EMPTY, steps, Exec(Run(EMPTY, steps), Dequeue(now, lease)).reply.job, None);
  }
}

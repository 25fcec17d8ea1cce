/** What every run of the scheduler conserves: per-user FIFO order, the balance of claims and
    leases, and one place per job. */
module SchedulerHistory {
  import opened Scheduler
  import opened SchedulerRing

  // ---- FIFO per user ----

  function PushedTo(trace: seq<Label>, u: UserId): seq<JobId> {
    if trace == [] then []
    else (if trace[0].Pushed? && trace[0].user == u then [trace[0].job] else []) + PushedTo(trace[1..], u)
  }

  function ClaimedFrom(trace: seq<Label>, u: UserId): seq<JobId> {
    if trace == [] then []
    else (if trace[0].Served? && trace[0].user == u then [trace[0].job] else []) + ClaimedFrom(trace[1..], u)
  }

  lemma FifoStep(s: State, step: Step, u: UserId)
    ensures var did := LabelOf(s, step);
            PopOrder(List(s, u)) + (if did.Pushed? && did.user == u then [did.job] else []) ==
            (if did.Served? && did.user == u then [did.job] else []) + PopOrder(List(Next(s, step), u))
  {
    var did := LabelOf(s, step);
    if step.Dequeue? {
      DequeuedLists(s, step.now, step.lease);
      if did.Served? && did.user == u { PopOrderPop(List(s, u)); }
    } else {
      QueueEffect(s, step);
      if did.Pushed? { PopOrderPush(List(s, did.user), did.job); }
    }
  }

  /** FIFO and conservation per user: what was queued at the start followed by everything pushed is
      everything claimed, in that order, followed by what is queued at the end. */
  lemma {:induction false} FifoConservation(s: State, steps: seq<Step>, u: UserId)
    ensures var trace := Trace(s, steps);
            PopOrder(List(s, u)) + PushedTo(trace, u) == ClaimedFrom(trace, u) + PopOrder(List(Run(s, steps), u))
    decreases |steps|
  {
    if steps != [] {
      var s', did := Next(s, steps[0]), LabelOf(s, steps[0]);
      var trace, trace' := Trace(s, steps), Trace(s', steps[1..]);
      assert trace[1..] == trace' && trace[0] == did;
      FifoStep(s, steps[0], u);
      FifoConservation(s', steps[1..], u);
      FifoChain(PopOrder(List(s, u)), if did.Pushed? && did.user == u then [did.job] else [], PushedTo(trace', u),
                if did.Served? && did.user == u then [did.job] else [], PopOrder(List(s', u)),
                ClaimedFrom(trace', u), PopOrder(List(Run(s', steps[1..]), u)));
    }
  }

  lemma FifoChain(q: seq<JobId>, pushed: seq<JobId>, pushes: seq<JobId>, served: seq<JobId>,
                  q': seq<JobId>, claims: seq<JobId>, end: seq<JobId>)
    requires q + pushed == served + q'
    requires q' + pushes == claims + end
    ensures q + (pushed + pushes) == (served + claims) + end
  {
    calc {
      q + (pushed + pushes);
      (q + pushed) + pushes;
      (served + q') + pushes;
      served + (q' + pushes);
      served + (claims + end);
      (served + claims) + end;
    }
  }

  // ---- claims against leases ----

  /** How a run's steps opened and closed leases.  A reclaim is a claim of a job that already held one. */
  datatype Tally = Tally(claims: nat, reclaims: nat, releases: nat, removals: nat, requeues: nat)

  ghost function TallyStep(s: State, step: Step): Tally {
    var reply := Exec(s, step).reply;
    match step
    case Dequeue(_, _) =>
      Tally(if reply.Claim? then 1 else 0, if reply.Claim? && reply.job in s.leases then 1 else 0, 0, 0, 0)
    case Release(_) => Tally(0, 0, if reply == Code(1) then 1 else 0, 0, 0)
    case RemoveExpired(_, _) => Tally(0, 0, 0, if reply == Code(1) then 1 else 0, 0)
    case RequeueExpired(_, _, _) => Tally(0, 0, 0, 0, if reply == Code(1) then 1 else 0)
    case _ => Tally(0, 0, 0, 0, 0)
  }

  function Plus(a: Tally, b: Tally): Tally {
    Tally(a.claims + b.claims, a.reclaims + b.reclaims, a.releases + b.releases,
          a.removals + b.removals, a.requeues + b.requeues)
  }

  ghost function TallyOf(s: State, steps: seq<Step>): Tally
    decreases |steps|
  {
    if steps == [] then Tally(0, 0, 0, 0, 0)
    else Plus(TallyStep(s, steps[0]), TallyOf(Next(s, steps[0]), steps[1..]))
  }

  lemma LeaseAdded(m: map<JobId, int>, job: JobId, deadline: int)
    ensures |m[job := deadline]| == |m| + if job in m then 0 else 1
  {
    assert m[job := deadline].Keys == m.Keys + {job};
  }

  lemma LeaseDropped(m: map<JobId, int>, job: JobId)
    ensures |m - {job}| == |m| - if job in m then 1 else 0
  {
    assert (m - {job}).Keys == m.Keys - {job};
  }

  ghost predicate Balanced(s: State, t: Tally, s': State) {
    |s.leases| + t.claims == |s'.leases| + t.reclaims + t.releases + t.removals + t.requeues
  }

  lemma ClaimBalance(s: State, now: int, lease: int)
    ensures Balanced(s, TallyStep(s, Dequeue(now, lease)), Next(s, Dequeue(now, lease)))
  {
    ClaimedLeases(s, now, lease);
    var did := LabelOf(s, Dequeue(now, lease));
    if did.Served? { LeaseAdded(s.leases, did.job, now + lease); }
  }

  lemma LeaseBalanceStep(s: State, step: Step)
    ensures Balanced(s, TallyStep(s, step), Next(s, step))
  {
    if step.Dequeue? {
      ClaimBalance(s, step.now, step.lease);
    } else if step.Extend? {
      LeaseAdded(s.leases, step.job, step.now + step.lease);
    } else if step.Release? || step.RemoveExpired? || step.RequeueExpired? {
      CloseBalance(s, step);
    }
  }

  lemma LeaseClosed(s: State, step: Step)
    requires step.Release? || step.RemoveExpired? || step.RequeueExpired?
    ensures Exec(s, step).reply == Code(1) ==> step.job in s.leases && Next(s, step).leases == s.leases - {step.job}
    ensures Exec(s, step).reply != Code(1) ==> Next(s, step).leases == s.leases
  {}

  lemma CloseBalance(s: State, step: Step)
    requires step.Release? || step.RemoveExpired? || step.RequeueExpired?
    ensures Balanced(s, TallyStep(s, step), Next(s, step))
  {
    LeaseClosed(s, step);
    LeaseDropped(s.leases, step.job);
  }

  /** Over every run, claims are accounted for: each is still leased, was released, removed or requeued
      on expiry, or was claimed again while leased. */
  lemma {:induction false} LeaseBalance(s: State, steps: seq<Step>)
    ensures Balanced(s, TallyOf(s, steps), Run(s, steps))
    decreases |steps|
  {
    if steps != [] {
      LeaseBalanceStep(s, steps[0]);
      LeaseBalance(Next(s, steps[0]), steps[1..]);
    }
  }

  // ---- one place per job ----

  /** A job sits in at most one place: once in its owner's list, or in the lease set, not both. */
  ghost predicate UniquePlacement(s: State, owner: JobId -> UserId) {
    && (forall u, i | 0 <= i < |List(s, u)| :: owner(List(s, u)[i]) == u && List(s, u)[i] !in s.leases)
    && (forall u, i, k | 0 <= i < k < |List(s, u)| :: List(s, u)[i] != List(s, u)[k])
  }

  ghost predicate Placed(s: State, job: JobId, owner: JobId -> UserId) {
    job in List(s, owner(job)) || job in s.leases
  }

  predicate Queues(step: Step) {
    step.Enqueue? || step.EnqueueOrphan? || step.RequeueExpired?
  }

  /** One owner per job, and a job's submission push comes before any other attempt to queue it;
      `seen` holds the jobs queueing was already attempted for. */
  ghost predicate Disciplined(steps: seq<Step>, owner: JobId -> UserId, seen: set<JobId>) {
    steps == [] || (
      && (Queues(steps[0]) ==> steps[0].user == owner(steps[0].job))
      && (steps[0].Enqueue? ==> steps[0].job !in seen)
      && Disciplined(steps[1..], owner, if Queues(steps[0]) then seen + {steps[0].job} else seen))
  }

  lemma PushKeepsUnique(s: State, owner: JobId -> UserId, job: JobId, t: State)
    requires UniquePlacement(s, owner) && job !in List(s, owner(job))
    requires forall u :: List(t, u) == if u == owner(job) then [job] + List(s, u) else List(s, u)
    requires t.leases == s.leases - {job}
    ensures UniquePlacement(t, owner)
  {
    forall u, i, k | 0 <= i < k < |List(t, u)| ensures List(t, u)[i] != List(t, u)[k] {
      if u == owner(job) { assert List(t, u)[k] == List(s, u)[k - 1]; }
    }
  }

  lemma PopKeepsUnique(s: State, owner: JobId -> UserId, now: int, lease: int)
    requires UniquePlacement(s, owner)
    ensures UniquePlacement(Next(s, Dequeue(now, lease)), owner)
    ensures TallyStep(s, Dequeue(now, lease)).reclaims == 0
  {
    var s' := Next(s, Dequeue(now, lease));
    if LabelOf(s, Dequeue(now, lease)).Served? {
      var user := Front(s.active);
      var list := List(s, user);
      var job := list[|list| - 1];
      DequeuedLists(s, now, lease);
      forall u, i | 0 <= i < |List(s', u)| ensures List(s', u)[i] != job {
        assert List(s', u)[i] == List(s, u)[i];
        if u != user { assert owner(job) == user; }
      }
    } else {
      assert forall u :: List(s', u) == List(s, u);
    }
  }

  lemma PushedLists(s: State, step: Step)
    requires Queues(step) && LabelOf(s, step).Pushed?
    ensures forall u :: List(Next(s, step), u) == if u == step.user then [step.job] + List(s, u) else List(s, u)
    ensures step.RequeueExpired? ==> step.job in s.leases
    ensures Next(s, step).leases == if step.RequeueExpired? then s.leases - {step.job} else s.leases
  {
    QueueEffect(s, step);
    PushLists(s, step.user, step.job);
  }

  lemma UniqueStep(s: State, step: Step, owner: JobId -> UserId)
    requires UniquePlacement(s, owner)
    requires Queues(step) ==> step.user == owner(step.job)
    requires step.Enqueue? && LabelOf(s, step).Pushed? ==> !Placed(s, step.job, owner)
    ensures UniquePlacement(Next(s, step), owner)
    ensures TallyStep(s, step).reclaims == 0
  {
    var s' := Next(s, step);
    if step.Dequeue? {
      PopKeepsUnique(s, owner, step.now, step.lease);
    } else if LabelOf(s, step).Pushed? {
      PushedLists(s, step);
      var job := step.job;
      assert step.RequeueExpired? ==> job !in List(s, owner(job));
      assert !step.RequeueExpired? ==> s.leases - {job} == s.leases;
      PushKeepsUnique(s, owner, job, s');
    } else {
      QueueEffect(s, step);
      assert forall u :: List(s', u) == List(s, u);
    }
  }

  lemma PlacedStep(s: State, step: Step, owner: JobId -> UserId, job: JobId)
    requires Placed(Next(s, step), job, owner) && !Placed(s, job, owner)
    requires Queues(step) ==> step.user == owner(step.job)
    requires UniquePlacement(s, owner)
    ensures Queues(step) && step.job == job
  {
    if step.Dequeue? {
      DequeuedLists(s, step.now, step.lease);
      ClaimedLeases(s, step.now, step.lease);
    } else if LabelOf(s, step).Pushed? {
      PushedLists(s, step);
    } else {
      QueueEffect(s, step);
    }
  }

  lemma {:induction false} UniqueRun(s: State, steps: seq<Step>, owner: JobId -> UserId, seen: set<JobId>)
    requires UniquePlacement(s, owner) && Disciplined(steps, owner, seen)
    requires forall job | Placed(s, job, owner) :: job in seen
    ensures UniquePlacement(Run(s, steps), owner) && TallyOf(s, steps).reclaims == 0
    decreases |steps|
  {
    if steps != [] {
      var s' := Next(s, steps[0]);
      UniqueStep(s, steps[0], owner);
      var seen' := if Queues(steps[0]) then seen + {steps[0].job} else seen;
      forall job | Placed(s', job, owner) ensures job in seen' {
        if !Placed(s, job, owner) { PlacedStep(s, steps[0], owner, job); }
      }
      UniqueRun(s', steps[1..], owner, seen');
    }
  }

  /** Unique placement over every run, and with it the exact balance of claims. */
  lemma EveryJobHasOnePlace(steps: seq<Step>, owner: JobId -> UserId)
    requires Disciplined(steps, owner, {})
    ensures var s, t := Run(EMPTY, steps), TallyOf(EMPTY, steps);
            && (forall u, v, i, k | 0 <= i < |List(s, u)| && 0 <= k < |List(s, v)| ::
                  List(s, u)[i] == List(s, v)[k] ==> u == v && i == k)
            && (forall u, i | 0 <= i < |List(s, u)| :: List(s, u)[i] !in s.leases)
            && t.claims == |s.leases| + t.releases + t.removals + t.requeues
  {
    UniqueRun(EMPTY, steps, owner, {});
    LeaseBalance(EMPTY, steps);
    var s := Run(EMPTY, steps);
    forall u, v, i, k | 0 <= i < |List(s, u)| && 0 <= k < |List(s, v)| && List(s, u)[i] == List(s, v)[k]
      ensures u == v && i == k
    {
      assert owner(List(s, u)[i]) == u && owner(List(s, v)[k]) == v;
      assert !(i < k) && !(k < i);
    }
  }

  /** Exactly when a submission push breaks unique placement: when the job is already somewhere. */
  lemma PushIsSafeIffUnplaced(s: State, step: Step, owner: JobId -> UserId)
    requires UniquePlacement(s, owner) && step.Enqueue? && step.user == owner(step.job)
    requires LabelOf(s, step).Pushed?
    ensures UniquePlacement(Next(s, step), owner) <==> !Placed(s, step.job, owner)
  {
    var s', user, job := Next(s, step), step.user, step.job;
    PushedLists(s, step);
    if Placed(s, job, owner) {
      assert List(s', user)[0] == job;
      if job in List(s, user) {
        var i :| 0 <= i < |List(s, user)| && List(s, user)[i] == job;
        assert List(s', user)[i + 1] == job;
      }
    } else {
      UniqueStep(s, step, owner);
    }
  }

  /** Every attempt to queue a job names its owner. */
  ghost predicate OwnersNamed(steps: seq<Step>, owner: JobId -> UserId) {
    forall i | 0 <= i < |steps| && Queues(steps[i]) :: steps[i].user == owner(steps[i].job)
  }

  /** Placement is unique at every point of the run. */
  ghost predicate StaysUnique(s: State, steps: seq<Step>, owner: JobId -> UserId)
    decreases |steps|
  {
    UniquePlacement(s, owner) && (steps != [] ==> StaysUnique(Next(s, steps[0]), steps[1..], owner))
  }

  /** Every submission push that takes effect is of a job that is nowhere yet. */
  ghost predicate PushesUnplaced(s: State, steps: seq<Step>, owner: JobId -> UserId)
    decreases |steps|
  {
    steps == [] || (
      && (steps[0].Enqueue? && LabelOf(s, steps[0]).Pushed? ==> !Placed(s, steps[0].job, owner))
      && PushesUnplaced(Next(s, steps[0]), steps[1..], owner))
  }

  /** Over every run: placement stays unique exactly when each effective submission push is of an unplaced job. */
  lemma {:induction false} StaysUniqueIffPushesUnplaced(s: State, steps: seq<Step>, owner: JobId -> UserId)
    requires UniquePlacement(s, owner) && OwnersNamed(steps, owner)
    ensures StaysUnique(s, steps, owner) <==> PushesUnplaced(s, steps, owner)
    decreases |steps|
  {
    if steps != [] {
      var step, s' := steps[0], Next(s, steps[0]);
      assert forall i | 0 <= i < |steps| - 1 :: steps[1..][i] == steps[i + 1];
      if step.Enqueue? && LabelOf(s, step).Pushed? {
        PushIsSafeIffUnplaced(s, step, owner);
      } else {
        UniqueStep(s, step, owner);
      }
      if UniquePlacement(s', owner) {
        StaysUniqueIffPushesUnplaced(s', steps[1..], owner);
      } else {
        assert !StaysUnique(s', steps[1..], owner);
      }
    }
  }

  /** Without the discipline it fails: an orphan sweep that overtakes the submission leaves two copies. */
  lemma OvertakenPushDuplicates(u: UserId, job: JobId)
    ensures List(Run(EMPTY, [EnqueueOrphan(job, u, 10, 0), Enqueue(u, job, 0, 10, 0)]), u) == [job, job]
  {
    var first, second := EnqueueOrphan(job, u, 10, 0), Enqueue(u, job, 0, 10, 0);
    assert [first, second][1..] == [second];
    var s := Next(EMPTY, first);
    assert List(s, u) == [job];
    assert Run(s, [second]) == Next(s, second);
  }
}

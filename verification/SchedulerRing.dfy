/** The scheduler refines a plain ring of users: a user joins at the back when it gets its
    first job, the front user is served one job, and goes to the back if it has more. */
module SchedulerRing {
  import opened Scheduler

  /** A user's jobs in the order they will be popped, which is from the right end of the list. */
  function PopOrder(list: seq<JobId>): seq<JobId> {
    if list == [] then [] else PopOrder(list[1..]) + [list[0]]
  }

  lemma PopOrderPush(list: seq<JobId>, job: JobId)
    ensures PopOrder([job] + list) == PopOrder(list) + [job]
  {
    assert ([job] + list)[1..] == list;
  }

  lemma {:induction false} PopOrderPop(list: seq<JobId>)
    requires list != []
    ensures PopOrder(list) == [list[|list| - 1]] + PopOrder(list[..|list| - 1])
    decreases |list|
  {
    if |list| > 1 {
      PopOrderPop(list[1..]);
      assert list[1..][..|list| - 2] == list[..|list| - 1][1..];
    }
  }

  lemma {:induction false} PopOrderSize(list: seq<JobId>)
    ensures |PopOrder(list)| == |list|
  {
    if list != [] { PopOrderSize(list[1..]); }
  }

  datatype Slot = Slot(user: UserId, jobs: seq<JobId>)

  type Ring = seq<Slot>

  function Find(r: Ring, user: UserId): (i: nat)
    ensures i <= |r|
    ensures i < |r| ==> r[i].user == user
    ensures forall k | 0 <= k < i :: r[k].user != user
  {
    if r == [] then 0 else if r[0].user == user then 0 else 1 + Find(r[1..], user)
  }

  function Join(r: Ring, user: UserId, job: JobId): Ring {
    var i := Find(r, user);
    if i == |r| then r + [Slot(user, [job])] else r[i := Slot(user, r[i].jobs + [job])]
  }

  function Serve(r: Ring): Ring
    requires r != [] && r[0].jobs != []
  {
    r[1..] + if |r[0].jobs| == 1 then [] else [Slot(r[0].user, r[0].jobs[1..])]
  }

  /** Whether the ring allows what was observed ... */
  predicate Enabled(r: Ring, did: Label) {
    match did
    case Served(user, job) => r != [] && r[0].user == user && r[0].jobs != [] && r[0].jobs[0] == job
    case Idle => r == []
    case _ => true
  }

  /** ... and the ring afterwards. */
  function After(r: Ring, did: Label): Ring
    requires Enabled(r, did)
  {
    match did
    case Pushed(user, job) => Join(r, user, job)
    case Served(_, _) => Serve(r)
    case _ => r
  }

  /** The observations are a behaviour of the ring that ends in `end`. */
  predicate Behaves(r: Ring, trace: seq<Label>, end: Ring)
    decreases |trace|
  {
    if trace == [] then r == end
    else Enabled(r, trace[0]) && Behaves(After(r, trace[0]), trace[1..], end)
  }

  /** The ring lists the active users by increasing score, each with its jobs in pop order. */
  ghost predicate Represents(s: State, r: Ring) {
    Inv(s) && Slots(s, r) && Sorted(s, r) && Complete(s, r)
  }

  ghost predicate Slots(s: State, r: Ring) {
    forall i | 0 <= i < |r| :: r[i].user in s.active && r[i].jobs == PopOrder(List(s, r[i].user))
  }

  ghost predicate Sorted(s: State, r: Ring)
    requires Slots(s, r)
  {
    forall i, k | 0 <= i < k < |r| :: s.active[r[i].user] < s.active[r[k].user]
  }

  ghost predicate Complete(s: State, r: Ring) {
    forall u | u in s.active :: Find(r, u) < |r|
  }

  lemma FindAt(r: Ring, i: nat, user: UserId)
    requires i < |r| && r[i].user == user
    ensures Find(r, user) < |r|
  {}

  lemma JoinSlots(s: State, r: Ring, user: UserId, job: JobId)
    requires Represents(s, r)
    ensures Slots(Push(s, user, job), Join(r, user, job))
  {
    var s', r', i := Push(s, user, job), Join(r, user, job), Find(r, user);
    PopOrderPush(List(s, user), job);
    assert i == |r| ==> user !in s.active;
    assert PopOrder([]) + [job] == [job];
    forall k | 0 <= k < |r'|
      ensures r'[k].user in s'.active && r'[k].jobs == PopOrder(List(s', r'[k].user))
    {
      if k < |r| && k != i {
        assert r'[k] == r[k];
        if i < |r| { SlotUsersDistinct(s, r, k, i); }
        assert List(s', r[k].user) == List(s, r[k].user);
      }
    }
  }

  lemma SlotUsersDistinct(s: State, r: Ring, i: nat, k: nat)
    requires Slots(s, r) && Sorted(s, r) && i < |r| && k < |r| && i != k
    ensures r[i].user != r[k].user
  {
    assert i < k || k < i;
  }

  /** Joining keeps every member's place and score; a newcomer's score is above them all. */
  lemma JoinScores(s: State, r: Ring, user: UserId, job: JobId, i: nat)
    requires Represents(s, r) && i < |r|
    ensures Join(r, user, job)[i].user == r[i].user
    ensures r[i].user in Push(s, user, job).active
    ensures Push(s, user, job).active[r[i].user] == s.active[r[i].user] <= s.rotation
    ensures |Join(r, user, job)| > |r| ==>
              user in Push(s, user, job).active && Push(s, user, job).active[user] == s.rotation + 1
  {
    assert Find(r, user) == |r| ==> user !in s.active;
  }

  lemma JoinSorted(s: State, r: Ring, user: UserId, job: JobId)
    requires Represents(s, r)
    ensures Slots(Push(s, user, job), Join(r, user, job)) && Sorted(Push(s, user, job), Join(r, user, job))
  {
    JoinSlots(s, r, user, job);
    var s', r' := Push(s, user, job), Join(r, user, job);
    forall i, k | 0 <= i < k < |r'| ensures s'.active[r'[i].user] < s'.active[r'[k].user] {
      JoinScores(s, r, user, job, i);
      if k < |r| { JoinScores(s, r, user, job, k); }
    }
  }

  lemma JoinComplete(s: State, r: Ring, user: UserId, job: JobId)
    requires Represents(s, r)
    ensures Complete(Push(s, user, job), Join(r, user, job))
  {
    var s', r' := Push(s, user, job), Join(r, user, job);
    forall u | u in s'.active ensures Find(r', u) < |r'| {
      var i := if u == user then Find(r, user) else Find(r, u);
      assert u != user ==> u in s.active;
      FindAt(r', i, u);
    }
  }

  lemma PushRefines(s: State, r: Ring, user: UserId, job: JobId)
    requires Represents(s, r)
    ensures Represents(Push(s, user, job), Join(r, user, job))
  {
    PushKeepsInv(s, user, job);
    JoinSorted(s, r, user, job);
    JoinComplete(s, r, user, job);
  }

  lemma FrontIsFirst(s: State, r: Ring)
    requires Represents(s, r)
    ensures r == [] <==> s.active == map[]
    ensures r != [] ==> Front(s.active) == r[0].user && List(s, r[0].user) != [] && r[0].jobs != []
  {
    if s.active != map[] {
      var i := Find(r, Front(s.active));
      PopOrderSize(List(s, r[0].user));
    }
    if r != [] { assert r[0].user in s.active; }
  }

  /** The facts about one successful dequeue that the ring needs. */
  lemma DequeueEffect(s: State, r: Ring, now: int, lease: int)
    requires Represents(s, r) && r != []
    ensures var user, s' := r[0].user, Next(s, Dequeue(now, lease));
            && r[0].jobs != [] && LabelOf(s, Dequeue(now, lease)) == Served(user, r[0].jobs[0])
            && PopOrder(List(s', user)) == r[0].jobs[1..]
            && (forall u | u != user :: List(s', u) == List(s, u))
            && s'.active == if |r[0].jobs| == 1 then s.active - {user}
                            else s.active[user := s.rotation + 1]
  {
    FrontIsFirst(s, r);
    var user, s' := r[0].user, Next(s, Dequeue(now, lease));
    var list := List(s, user);
    PopOrderPop(list);
    PopOrderSize(list);
    ServedFront(s, now, lease);
    assert r[0].jobs == PopOrder(list) && PopOrder(list)[1..] == PopOrder(list[..|list| - 1]);
  }

  lemma ServeScores(s: State, r: Ring, now: int, lease: int, i: nat)
    requires Represents(s, r) && i + 1 < |r| && r[0].jobs != []
    ensures Serve(r)[i] == r[i + 1] && r[i + 1].user in Next(s, Dequeue(now, lease)).active
    ensures Next(s, Dequeue(now, lease)).active[r[i + 1].user] == s.active[r[i + 1].user] <= s.rotation
  {
    DequeueEffect(s, r, now, lease);
    SlotUsersDistinct(s, r, 0, i + 1);
  }

  lemma ServeSlots(s: State, r: Ring, now: int, lease: int)
    requires Represents(s, r) && r != [] && r[0].jobs != []
    ensures Slots(Next(s, Dequeue(now, lease)), Serve(r))
  {
    var s', r' := Next(s, Dequeue(now, lease)), Serve(r);
    DequeueEffect(s, r, now, lease);
    forall i | 0 <= i < |r'|
      ensures r'[i].user in s'.active && r'[i].jobs == PopOrder(List(s', r'[i].user))
    {
      if i < |r| - 1 {
        ServeScores(s, r, now, lease, i);
        SlotUsersDistinct(s, r, 0, i + 1);
      }
    }
  }

  lemma ServeSorted(s: State, r: Ring, now: int, lease: int)
    requires Represents(s, r) && r != [] && r[0].jobs != []
    ensures Slots(Next(s, Dequeue(now, lease)), Serve(r)) && Sorted(Next(s, Dequeue(now, lease)), Serve(r))
  {
    var s', r' := Next(s, Dequeue(now, lease)), Serve(r);
    ServeSlots(s, r, now, lease);
    forall i, k | 0 <= i < k < |r'| ensures s'.active[r'[i].user] < s'.active[r'[k].user] {
      ServeScores(s, r, now, lease, i);
      if k < |r| - 1 {
        ServeScores(s, r, now, lease, k);
      } else {
        DequeueEffect(s, r, now, lease);
      }
    }
  }

  /** Serving loses nobody from the ring, except a front user whose last job it was. */
  lemma ServeKeepsUser(r: Ring, u: UserId)
    requires r != [] && r[0].jobs != [] && Find(r, u) < |r|
    requires u == r[0].user ==> |r[0].jobs| > 1
    ensures Find(Serve(r), u) < |Serve(r)|
  {
    var r', i := Serve(r), Find(r, u);
    if u == r[0].user {
      assert r'[|r'| - 1].user == u;
      FindAt(r', |r'| - 1, u);
    } else {
      assert r'[i - 1] == r[i];
      FindAt(r', i - 1, u);
    }
  }

  lemma ServeComplete(s: State, r: Ring, now: int, lease: int)
    requires Represents(s, r) && r != [] && r[0].jobs != []
    ensures Complete(Next(s, Dequeue(now, lease)), Serve(r))
  {
    DequeueEffect(s, r, now, lease);
    forall u | u in Next(s, Dequeue(now, lease)).active ensures Find(Serve(r), u) < |Serve(r)| {
      assert u in s.active;
      ServeKeepsUser(r, u);
    }
  }

  lemma ServeRefines(s: State, r: Ring, now: int, lease: int)
    requires Represents(s, r) && r != [] && r[0].jobs != []
    ensures Represents(Next(s, Dequeue(now, lease)), Serve(r))
  {
    DequeueKeepsInv(s, now, lease);
    ServeSorted(s, r, now, lease);
    ServeComplete(s, r, now, lease);
  }

  lemma SameQueuesRepresents(s: State, t: State, r: Ring)
    requires SameQueues(s, t) && Represents(s, r)
    ensures Represents(t, r)
  {
    SameQueuesInv(s, t);
    assert forall u :: List(t, u) == List(s, u);
  }

  lemma StepRefines(s: State, r: Ring, step: Step)
    requires Represents(s, r)
    ensures Enabled(r, LabelOf(s, step)) && Represents(Next(s, step), After(r, LabelOf(s, step)))
  {
    if step.Dequeue? {
      FrontIsFirst(s, r);
      if r != [] {
        DequeueEffect(s, r, step.now, step.lease);
        ServeRefines(s, r, step.now, step.lease);
      }
    } else {
      QueueEffect(s, step);
      var did := LabelOf(s, step);
      if did.Pushed? {
        PushRefines(s, r, did.user, did.job);
        SameQueuesRepresents(Push(s, did.user, did.job), Next(s, step), After(r, did));
      } else {
        SameQueuesRepresents(s, Next(s, step), r);
      }
    }
  }

  /** Every run of scheduler steps, whatever their interleaving and arguments, is a behaviour of
      the ring, and the two stay in correspondence. */
  lemma {:induction false} RingRefinement(s: State, r: Ring, steps: seq<Step>) returns (end: Ring)
    requires Represents(s, r)
    ensures Behaves(r, Trace(s, steps), end) && Represents(Run(s, steps), end)
    decreases |steps|
  {
    end := r;
    if steps != [] {
      StepRefines(s, r, steps[0]);
      end := RingRefinement(Next(s, steps[0]), After(r, LabelOf(s, steps[0])), steps[1..]);
      assert Trace(s, steps)[1..] == Trace(Next(s, steps[0]), steps[1..]);
    }
  }

  /** From the empty keyspace: every run is a behaviour of the empty ring. */
  lemma EveryRunIsRoundRobin(steps: seq<Step>)
    ensures exists end :: Behaves([], Trace(EMPTY, steps), end) && Represents(Run(EMPTY, steps), end)
  {
    var end := RingRefinement(EMPTY, [], steps);
  }

  /** In every reachable state a dequeue comes back empty only if no user has any job at all: the
      script's "active user without a job" branch is never taken. */
  lemma DequeueIsWorkConserving(steps: seq<Step>, now: int, lease: int)
    ensures var s := Run(EMPTY, steps);
            LabelOf(s, Dequeue(now, lease)) == Idle <==> forall u :: List(s, u) == []
  {
    RunKeepsInv(EMPTY, steps);
    var s := Run(EMPTY, steps);
    if s.active != map[] { assert List(s, Front(s.active)) != []; }
  }

  /** `BecameActive` (code 2) is reported exactly when the job was queued and its user was not in the ring. */
  lemma BecameActiveMeansJoined(s: State, r: Ring, step: Step)
    requires Represents(s, r) && step.Enqueue?
    ensures Exec(s, step).reply == Code(2) <==>
            LabelOf(s, step).Pushed? && forall k | 0 <= k < |r| :: r[k].user != step.user
  {
    if Find(r, step.user) < |r| { assert step.user in s.active; }
  }
}

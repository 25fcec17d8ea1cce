/** The Redis-backed fair scheduler as an atomic step system.

    Each Lua script, and each single Redis command the repository issues, is one
    indivisible step over the scheduler's keys.  A list is a sequence whose index 0
    is the left (push) end; an absent list reads as the empty one.  A sorted set is a
    map from member to score. */
module Scheduler {

  datatype UserId = UserId(name: string)
  datatype JobId = JobId(name: string)

  /** The key that makes one attempt at enqueueing a job unrepeatable. */
  datatype DedupKey = DedupKey(user: UserId, job: JobId, attempt: int)

  datatype State = State(
    lists: map<UserId, seq<JobId>>,
    active: map<UserId, nat>,
    rotation: nat,
    leases: map<JobId, int>,
    completed: set<JobId>,
    enqueuedAt: map<JobId, int>,
    dedup: set<DedupKey>)

  const EMPTY := State(map[], map[], 0, map[], {}, map[], {})

  /** What a script returns to the caller. */
  datatype Reply = Code(n: int) | Nil | Claim(user: UserId, job: JobId, waitMs: int)

  datatype Result = Result(state: State, reply: Reply)

  /** One atomic action on the scheduler's keys, with its arguments; `now` is Redis' clock. */
  datatype Step =
    | Enqueue(user: UserId, job: JobId, attempt: int, capacity: int, now: int)
    | ForgetDedup(key: DedupKey)
    | Dequeue(now: int, lease: int)
    | Extend(job: JobId, now: int, lease: int)
    | RemoveExpired(job: JobId, cutoff: int)
    | RequeueExpired(job: JobId, user: UserId, cutoff: int)
    | EnqueueOrphan(job: JobId, user: UserId, capacity: int, now: int)
    | Release(job: JobId)
    | MarkCompleted(job: JobId)
    | RemoveCompleted(job: JobId)

  function List(s: State, user: UserId): seq<JobId> {
    if user in s.lists then s.lists[user] else []
  }

  function Max(a: int, b: int): int {
    if a < b then b else a
  }

  /** Redis' order on members of equal score: byte by byte, a prefix first. */
  predicate Lex(a: string, b: string) {
    a == "" || (b != "" && (a[0] < b[0] || (a[0] == b[0] && Lex(a[1..], b[1..]))))
  }

  lemma LexAntisymmetric(a: string, b: string)
    requires Lex(a, b) && Lex(b, a)
    ensures a == b
  {
    if a != "" {
      LexAntisymmetric(a[1..], b[1..]);
      assert a == [a[0]] + a[1..] && b == [b[0]] + b[1..];
    }
  }

  lemma LexTransitive(a: string, b: string, c: string)
    requires Lex(a, b) && Lex(b, c)
    ensures Lex(a, c)
  {
    if a != "" && a[0] == b[0] == c[0] { LexTransitive(a[1..], b[1..], c[1..]); }
  }

  lemma LexTotal(a: string, b: string)
    ensures Lex(a, b) || Lex(b, a)
  {}

  predicate Precedes(active: map<UserId, nat>, u: UserId, v: UserId)
    requires u in active && v in active
  {
    active[u] < active[v] || (active[u] == active[v] && Lex(u.name, v.name))
  }

  /** The member that `ZRANGE key 0 0` returns: the least score, and among equals the least name. */
  predicate IsFront(active: map<UserId, nat>, user: UserId) {
    user in active && forall v | v in active :: Precedes(active, user, v)
  }

  lemma {:induction false} FrontExists(active: map<UserId, nat>)
    requires active != map[]
    ensures exists u :: IsFront(active, u)
    decreases |active|
  {
    var u :| u in active;
    var rest := active - {u};
    LexTotal(u.name, u.name);
    if rest == map[] {
      assert active.Keys == {u} + rest.Keys;
      assert IsFront(active, u);
    } else {
      FrontExists(rest);
      var v :| IsFront(rest, v);
      LexTotal(u.name, v.name);
      var w := if Precedes(active, u, v) then u else v;
      forall x | x in active ensures Precedes(active, w, x) {
        if x != u {
          assert Precedes(rest, v, x);
          if w == u && active[u] == active[v] == active[x] { LexTransitive(u.name, v.name, x.name); }
        }
      }
      assert IsFront(active, w);
    }
  }

  lemma FrontUnique(active: map<UserId, nat>, u: UserId, v: UserId)
    requires IsFront(active, u) && IsFront(active, v)
    ensures u == v
  {
    assert Precedes(active, u, v) && Precedes(active, v, u);
    LexAntisymmetric(u.name, v.name);
  }

  function Front(active: map<UserId, nat>): (user: UserId)
    requires active != map[]
    ensures IsFront(active, user)
  {
    FrontExists(active);
    assert forall u, v | IsFront(active, u) && IsFront(active, v) :: u == v by {
      forall u, v | IsFront(active, u) && IsFront(active, v) ensures u == v { FrontUnique(active, u, v); }
    }
    var u :| u in active && IsFront(active, u); u
  }

  /** `LPUSH` of a job, then, when the list was empty, `INCR` of the rotation counter and
      `ZADD NX` of the user at the new count. */
  function Push(s: State, user: UserId, job: JobId): State {
    var s' := s.(lists := s.lists[user := [job] + List(s, user)]);
    if List(s, user) != [] then s'
    else s'.(rotation := s.rotation + 1,
             active := if user in s.active then s.active else s.active[user := s.rotation + 1])
  }

  /** Every script and command, with what it returns. */
  function Exec(s: State, step: Step): Result {
    match step
    case Enqueue(user, job, attempt, capacity, now) =>
      if |List(s, user)| >= capacity then Result(s, Code(0))
      else if DedupKey(user, job, attempt) in s.dedup then Result(s, Code(1))
      else Result(Push(s, user, job).(
                    dedup := s.dedup + {DedupKey(user, job, attempt)},
                    enqueuedAt := s.enqueuedAt[job := now]),
                  Code(if List(s, user) == [] then 2 else 3))
    case ForgetDedup(key) => Result(s.(dedup := s.dedup - {key}), Nil)
    case Dequeue(now, lease) => FairDequeue(s, now, lease)
    case Extend(job, now, lease) =>
      if job !in s.leases then Result(s, Code(0))
      else Result(s.(leases := s.leases[job := now + lease]), Code(1))
    case RemoveExpired(job, cutoff) =>
      if job !in s.leases || s.leases[job] > cutoff then Result(s, Code(0))
      else Result(s.(leases := s.leases - {job}, enqueuedAt := s.enqueuedAt - {job}), Code(1))
    case RequeueExpired(job, user, cutoff) =>
      if job !in s.leases || s.leases[job] > cutoff then Result(s, Code(0))
      else Result(Push(s, user, job).(leases := s.leases - {job}), Code(1))
    case EnqueueOrphan(job, user, capacity, now) =>
      if job in s.completed || job in s.leases || job in List(s, user) then Result(s, Code(0))
      else if |List(s, user)| >= capacity then Result(s, Code(2))
      else Result(Push(s, user, job).(enqueuedAt := s.enqueuedAt[job := now]), Code(1))
    case Release(job) => Result(s.(leases := s.leases - {job}), Code(if job in s.leases then 1 else 0))
    case MarkCompleted(job) => Result(s.(completed := s.completed + {job}), Code(1))
    case RemoveCompleted(job) => Result(s.(completed := s.completed - {job}), Code(1))
  }

  function FairDequeue(s: State, now: int, lease: int): Result {
    if s.active == map[] then Result(s, Nil)
    else
      var user := Front(s.active);
      var list := List(s, user);
      if list == [] then Result(s.(active := s.active - {user}), Nil)
      else
        var job := list[|list| - 1];
        var rest := list[..|list| - 1];
        var queuedAt := if job in s.enqueuedAt then s.enqueuedAt[job] else now;
        var s' := s.(lists := s.lists[user := rest],
                     enqueuedAt := s.enqueuedAt - {job},
                     leases := s.leases[job := now + lease]);
        Result(if rest == [] then s'.(active := s.active - {user})
               else s'.(rotation := s.rotation + 1, active := s.active[user := s.rotation + 1]),
               Claim(user, job, Max(0, now - queuedAt)))
  }

  function Next(s: State, step: Step): State {
    Exec(s, step).state
  }

  function Run(s: State, steps: seq<Step>): State
    decreases |steps|
  {
    if steps == [] then s else Run(Next(s, steps[0]), steps[1..])
  }

  /** What a step did to the queues, read off its reply. */
  datatype Label = Pushed(user: UserId, job: JobId) | Served(user: UserId, job: JobId) | Idle | Quiet

  function LabelOf(s: State, step: Step): Label {
    var reply := Exec(s, step).reply;
    match step
    case Enqueue(user, job, _, _, _) => if reply in {Code(2), Code(3)} then Pushed(user, job) else Quiet
    case RequeueExpired(job, user, _) => if reply == Code(1) then Pushed(user, job) else Quiet
    case EnqueueOrphan(job, user, _, _) => if reply == Code(1) then Pushed(user, job) else Quiet
    case Dequeue(_, _) => if reply.Claim? then Served(reply.user, reply.job) else Idle
    case _ => Quiet
  }

  function Trace(s: State, steps: seq<Step>): (trace: seq<Label>)
    ensures |trace| == |steps|
    decreases |steps|
  {
    if steps == [] then [] else [LabelOf(s, steps[0])] + Trace(Next(s, steps[0]), steps[1..])
  }

  /** The active set is exactly the users with work, under distinct scores the counter has issued. */
  ghost predicate Inv(s: State) {
    && (forall u :: u in s.active <==> List(s, u) != [])
    && (forall u | u in s.active :: s.active[u] <= s.rotation)
    && (forall u, v | u in s.active && v in s.active && u != v :: s.active[u] != s.active[v])
  }

  lemma PushLists(s: State, user: UserId, job: JobId)
    ensures forall u :: List(Push(s, user, job), u) == if u == user then [job] + List(s, u) else List(s, u)
  {}

  lemma PushKeepsInv(s: State, user: UserId, job: JobId)
    requires Inv(s)
    ensures Inv(Push(s, user, job))
  {
    PushLists(s, user, job);
    assert Push(s, user, job).active == if user in s.active then s.active else s.active[user := s.rotation + 1];
  }

  lemma DequeueKeepsInv(s: State, now: int, lease: int)
    requires Inv(s)
    ensures Inv(FairDequeue(s, now, lease).state)
  {
    var s' := FairDequeue(s, now, lease).state;
    if s.active != map[] {
      var user := Front(s.active);
      forall u ensures List(s', u) == if u == user then List(s, u)[..|List(s, u)| - 1] else List(s, u) {}
    }
  }

  /** The two states agree on everything the round robin looks at. */
  ghost predicate SameQueues(s: State, t: State) {
    s.lists == t.lists && s.active == t.active && s.rotation == t.rotation
  }

  lemma SameQueuesInv(s: State, t: State)
    requires SameQueues(s, t) && Inv(s)
    ensures Inv(t)
  {
    assert forall u :: List(t, u) == List(s, u);
  }

  /** Apart from the dequeue, a step changes the queues as its label says: one `Push` or nothing. */
  lemma QueueEffect(s: State, step: Step)
    requires !step.Dequeue?
    ensures var did := LabelOf(s, step);
            SameQueues(if did.Pushed? then Push(s, did.user, did.job) else s, Next(s, step))
  {
    match step
    case Enqueue(user, job, _, _, _) =>
    case RequeueExpired(job, user, _) =>
    case EnqueueOrphan(job, user, _, _) =>
    case _ =>
  }

  /** What a dequeue does when the front user has work. */
  lemma ServedFront(s: State, now: int, lease: int)
    requires s.active != map[] && List(s, Front(s.active)) != []
    ensures var user, s' := Front(s.active), Next(s, Dequeue(now, lease));
            var list := List(s, user);
            && LabelOf(s, Dequeue(now, lease)) == Served(user, list[|list| - 1])
            && List(s', user) == list[..|list| - 1]
            && (forall u | u != user :: List(s', u) == List(s, u))
            && s'.active == if |list| == 1 then s.active - {user} else s.active[user := s.rotation + 1]
  {}

  /** A dequeue pops the right end of the list it serves and no other. */
  lemma DequeuedLists(s: State, now: int, lease: int)
    ensures var did, s' := LabelOf(s, Dequeue(now, lease)), Next(s, Dequeue(now, lease));
            if did.Served? then
              var list := List(s, did.user);
              && list != [] && did.job == list[|list| - 1]
              && forall u :: List(s', u) == if u == did.user then list[..|list| - 1] else List(s, u)
            else s'.lists == s.lists
  {
    if s.active != map[] && List(s, Front(s.active)) != [] { ServedFront(s, now, lease); }
  }

  lemma ClaimedLeases(s: State, now: int, lease: int)
    ensures var did, leases := LabelOf(s, Dequeue(now, lease)), Next(s, Dequeue(now, lease)).leases;
            leases == if did.Served? then s.leases[did.job := now + lease] else s.leases
  {}

  lemma StepKeepsInv(s: State, step: Step)
    requires Inv(s)
    ensures Inv(Next(s, step))
  {
    if step.Dequeue? {
      DequeueKeepsInv(s, step.now, step.lease);
    } else {
      QueueEffect(s, step);
      var did := LabelOf(s, step);
      if did.Pushed? {
        PushKeepsInv(s, did.user, did.job);
        SameQueuesInv(Push(s, did.user, did.job), Next(s, step));
      } else {
        SameQueuesInv(s, Next(s, step));
      }
    }
  }

  /** Over every run from the empty keyspace, a user is active exactly when it has work, and
      no two active users share a score. */
  lemma {:induction false} RunKeepsInv(s: State, steps: seq<Step>)
    requires Inv(s)
    ensures Inv(Run(s, steps))
    decreases |steps|
  {
    if steps != [] {
      StepKeepsInv(s, steps[0]);
      RunKeepsInv(Next(s, steps[0]), steps[1..]);
    }
  }
}

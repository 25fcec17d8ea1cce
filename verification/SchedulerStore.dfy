/** The repository over Redis: the scripts as they update the keys in place, each proved to be the
    atomic step of `Scheduler` it stands for. */
module SchedulerStore {
  import opened Scheduler

  datatype EnqueueResult = QueueFull | DuplicateJob | Enqueued(becameActive: bool)

  datatype FairDequeueResult = NoJob | EmptyId | Dequeued(user: UserId, job: JobId, queueWait: int)

  /** Keeping the earlier of two members keeps it ahead of everything either was ahead of. */
  lemma PrecedesAll(active: map<UserId, nat>, u: UserId, v: UserId, first: UserId, rest: set<UserId>)
    requires u in active && v in active && first in {u, v}
    requires Precedes(active, first, u) && Precedes(active, first, v)
    requires forall x | x in active && x !in rest + {v} :: Precedes(active, u, x)
    ensures forall x | x in active && x !in rest :: Precedes(active, first, x)
  {
    forall x | x in active && x !in rest ensures Precedes(active, first, x) {
      if x != v && active[first] == active[u] == active[x] {
        LexTransitive(first.name, u.name, x.name);
      }
    }
  }

  class RedisSchedulerRepository {
    const lease: int
    const queueCapacity: int

    var lists: map<UserId, seq<JobId>>
    var active: map<UserId, nat>
    var rotation: nat
    var leases: map<JobId, int>
    var completed: set<JobId>
    var enqueuedAt: map<JobId, int>
    var dedup: set<DedupKey>

    ghost function Contents(): State
      reads this
    {
      State(lists, active, rotation, leases, completed, enqueuedAt, dedup)
    }

    constructor (lease: int, queueCapacity: int)
      ensures Contents() == EMPTY
      ensures this.lease == lease && this.queueCapacity == queueCapacity
    {
      this.lease, this.queueCapacity := lease, queueCapacity;
      lists, active, rotation, leases := map[], map[], 0, map[];
      completed, enqueuedAt, dedup := {}, map[], {};
    }

    /** `LPUSH`, and activation of the user when the list had been empty. */
    method PushAndActivate(user: UserId, job: JobId)
      modifies this`lists, this`active, this`rotation
      ensures Contents() == Push(old(Contents()), user, job)
    {
      var list := if user in lists then lists[user] else [];
      lists := lists[user := [job] + list];
      if |lists[user]| == 1 {
        rotation := rotation + 1;
        if user !in active {
          active := active[user := rotation];
        }
      }
    }

    method PushLeft(user: UserId, job: JobId, attempt: int, now: int) returns (r: EnqueueResult)
      modifies this
      ensures var x := Exec(old(Contents()), Scheduler.Enqueue(user, job, attempt, queueCapacity, now));
              && Contents() == x.state
              && r == match x.reply.n
                      case 0 => QueueFull
                      case 1 => DuplicateJob
                      case 2 => Enqueued(true)
                      case _ => Enqueued(false)
      ensures var key, list := DedupKey(user, job, attempt), List(old(Contents()), user);
              && (r == QueueFull <==> |list| >= queueCapacity)
              && (r == DuplicateJob <==> |list| < queueCapacity && key in old(dedup))
              && (r.Enqueued? <==> |list| < queueCapacity && key !in old(dedup))
              && (r.Enqueued? ==>
                    && dedup == old(dedup) + {key} && enqueuedAt == old(enqueuedAt)[job := now]
                    && lists == old(lists)[user := [job] + list] && (r.becameActive <==> list == []))
              && (!r.Enqueued? ==> Contents() == old(Contents()))
    {
      var length := if user in lists then |lists[user]| else 0;
      if length >= queueCapacity {
        return QueueFull;
      }
      var key := DedupKey(user, job, attempt);
      if key in dedup {
        return DuplicateJob;
      }
      dedup := dedup + {key};
      PushAndActivate(user, job);
      enqueuedAt := enqueuedAt[job := now];
      return Enqueued(length == 0);
    }

    /** `ZRANGE active 0 0`: scans for the member with the least score. */
    method FirstActive() returns (user: UserId)
      requires active != map[]
      ensures user == Front(active)
    {
      var rest := active.Keys;
      user :| user in rest;
      rest := rest - {user};
      LexTotal(user.name, user.name);
      while rest != {}
        invariant rest <= active.Keys && user in active && user !in rest
        invariant forall v | v in active && v !in rest :: Precedes(active, user, v)
        decreases |rest|
      {
        var v :| v in rest;
        rest := rest - {v};
        ghost var was := user;
        LexTotal(user.name, v.name);
        LexTotal(v.name, v.name);
        if active[v] < active[user] || (active[v] == active[user] && Lex(v.name, user.name)) {
          user := v;
        }
        PrecedesAll(active, was, v, user, rest);
      }
      FrontUnique(active, user, Front(active));
    }

    /** After a pop: to the back of the rotation while work remains, otherwise out of it. */
    method Reschedule(user: UserId)
      requires user in lists
      modifies this`rotation, this`active
      ensures lists[user] == [] ==> rotation == old(rotation) && active == old(active) - {user}
      ensures lists[user] != [] ==> rotation == old(rotation) + 1 && active == old(active)[user := rotation]
    {
      if |lists[user]| > 0 {
        rotation := rotation + 1;
        active := active[user := rotation];
      } else {
        active := active - {user};
      }
    }

    /** `fairDequeueScript`: serves the front user one job, and moves the user to the back or out. */
    method RunFairDequeue(now: int) returns (reply: Reply)
      modifies this
      ensures Result(Contents(), reply) == FairDequeue(old(Contents()), now, lease)
    {
      if active == map[] {
        return Nil;
      }
      var user := FirstActive();
      var list := if user in lists then lists[user] else [];
      if list == [] {
        active := active - {user};
        return Nil;
      }
      var job := list[|list| - 1];
      lists := lists[user := list[..|list| - 1]];
      var queuedAt := if job in enqueuedAt then enqueuedAt[job] else now;
      enqueuedAt := enqueuedAt - {job};
      Reschedule(user);
      leases := leases[job := now + lease];
      return Claim(user, job, if now - queuedAt > 0 then now - queuedAt else 0);
    }

    /** The script's reply decoded; an empty id is an error, though the claim has been made. */
    method ClaimNextJob(now: int) returns (r: FairDequeueResult)
      modifies this
      ensures var x := Exec(old(Contents()), Dequeue(now, lease));
              && Contents() == x.state
              && r == if !x.reply.Claim? then NoJob
                      else if x.reply.user.name == "" || x.reply.job.name == "" then EmptyId
                      else Dequeued(x.reply.user, x.reply.job, x.reply.waitMs)
    {
      var reply := RunFairDequeue(now);
      if !reply.Claim? {
        return NoJob;
      }
      if reply.user.name == "" || reply.job.name == "" {
        return EmptyId;
      }
      return Dequeued(reply.user, reply.job, reply.waitMs);
    }

    method ExtendProcessingLease(job: JobId, now: int) returns (found: bool)
      modifies this`leases
      ensures var x := Exec(old(Contents()), Extend(job, now, lease));
              Contents() == x.state && found == (x.reply == Code(1))
      ensures found == (job in old(leases))
      ensures leases == if found then old(leases)[job := now + lease] else old(leases)
    {
      found := job in leases;
      if found {
        leases := leases[job := now + lease];
      }
    }

    method RemoveIfExpired(job: JobId, cutoff: int) returns (removed: bool)
      modifies this`leases, this`enqueuedAt
      ensures var x := Exec(old(Contents()), Scheduler.RemoveExpired(job, cutoff));
              Contents() == x.state && removed == (x.reply == Code(1))
      ensures removed <==> job in old(leases) && old(leases)[job] <= cutoff
      ensures leases == if removed then old(leases) - {job} else old(leases)
      ensures enqueuedAt == if removed then old(enqueuedAt) - {job} else old(enqueuedAt)
    {
      removed := job in leases && leases[job] <= cutoff;
      if removed {
        leases := leases - {job};
        enqueuedAt := enqueuedAt - {job};
      }
    }

    method RequeueIfExpired(job: JobId, user: UserId, cutoff: int) returns (requeued: bool)
      modifies this
      ensures var x := Exec(old(Contents()), Scheduler.RequeueExpired(job, user, cutoff));
              Contents() == x.state && requeued == (x.reply == Code(1))
      ensures requeued <==> job in old(leases) && old(leases)[job] <= cutoff
      ensures requeued ==>
                leases == old(leases) - {job} && lists == old(lists)[user := [job] + List(old(Contents()), user)]
      ensures !requeued ==> Contents() == old(Contents())
    {
      requeued := job in leases && leases[job] <= cutoff;
      if requeued {
        leases := leases - {job};
        PushAndActivate(user, job);
      }
    }

    method EnqueueIfAbsent(job: JobId, user: UserId, capacity: int, now: int) returns (queued: bool)
      modifies this
      ensures var x := Exec(old(Contents()), Scheduler.EnqueueOrphan(job, user, capacity, now));
              Contents() == x.state && queued == (x.reply == Code(1))
      ensures var list := List(old(Contents()), user);
              && (queued <==> job !in old(completed) && job !in old(leases) && job !in list && |list| < capacity)
              && (queued ==> lists == old(lists)[user := [job] + list] && enqueuedAt == old(enqueuedAt)[job := now])
              && (!queued ==> Contents() == old(Contents()))
    {
      var list := if user in lists then lists[user] else [];
      if job in completed || job in leases || job in list || |list| >= capacity {
        return false;
      }
      PushAndActivate(user, job);
      enqueuedAt := enqueuedAt[job := now];
      return true;
    }

    method ReleaseProcessingJob(job: JobId) returns (found: bool)
      modifies this`leases
      ensures var x := Exec(old(Contents()), Scheduler.Release(job));
              Contents() == x.state && found == (x.reply == Code(1))
      ensures found == (job in old(leases)) && leases == old(leases) - {job}
    {
      found := job in leases;
      leases := leases - {job};
    }

    method MarkJobCompleted(job: JobId)
      modifies this`completed
      ensures Contents() == Next(old(Contents()), Scheduler.MarkCompleted(job))
      ensures completed == old(completed) + {job}
    {
      completed := completed + {job};
    }

    method RemoveCompletedJob(job: JobId)
      modifies this`completed
      ensures Contents() == Next(old(Contents()), Scheduler.RemoveCompleted(job))
      ensures completed == old(completed) - {job}
    {
      completed := completed - {job};
    }
  }
}

/** The recovery loop: expired leases, completed markers, orphan rows, in that order, while others move between
    any two of its calls and any call may fail before or after taking effect. */
module Recovery {
  import opened Common
  import opened Scheduler
  import opened RecoveryWorld
  import opened RecoveryLedger
  import opened RecoveryPasses
  import JobRows
  import Ranking

  /** The members of a set, in some order. */
  method Members(s: set<JobId>) returns (ids: seq<JobId>)
    ensures forall job :: job in ids <==> job in s
    ensures forall i, k | 0 <= i < k < |ids| :: ids[i] != ids[k]
  {
    ids := [];
    var rest := s;
    while rest != {}
      invariant rest <= s && forall job :: job in s <==> job in rest || job in ids
      invariant forall i | 0 <= i < |ids| :: ids[i] !in rest
      invariant forall i, k | 0 <= i < k < |ids| :: ids[i] != ids[k]
      decreases |rest|
    {
      var job :| job in rest;
      rest := rest - {job};
      ids := ids + [job];
    }
  }

  /** An orphan that is guarded is so by its marker. */
  lemma GuardedAreNoOrphans(s: Sys, ids: seq<JobId>, before: int)
    requires forall i | 0 <= i < |ids| :: JobRows.IsOrphan(s.db.rows, ids[i], before)
    ensures forall job | Guarded(s, job) :: job !in ids || job in s.queue.completed
  {}

  class RecoveryService {
    const world: nat -> seq<Move>
    const fate: nat -> Fate
    const policy: UserId -> int

    var interval: int
    var batch: int
    var orphanGrace: int
    var queueCapacity: int

    var sys: Sys
    var tick: nat
    ghost var start: Sys
    ghost var trace: seq<Entry>
    ghost var log: seq<Action>
    ghost var served: seq<nat>

    /** Others behave, and the state and the log are what the history of all moves makes them. */
    ghost predicate Sound()
      reads this
    {
      && (forall n :: AllOutside(world(n)))
      && JobRows.MarksAreTerminal(sys.db)
      && Happened(start, trace, sys, log)
      && |served| == tick && ServedIn(trace, served, world)
    }

    /** History and calls have only grown. */
    twostate predicate Grown()
      reads this
    {
      old(tick) <= tick && old(trace) <= trace && old(served) <= served
    }

    /** A job without a lease expired by some time still has none, if leases granted meanwhile end after it. */
    twostate predicate StillClear()
      reads this
    {
      forall job, c | Beyond(old(tick), tick, c) && Clear(old(sys).queue.leases, job, c) ::
        Clear(sys.queue.leases, job, c)
    }

    /** ... and no mark of recovery's own is under way. */
    ghost predicate Valid()
      reads this
    {
      Sound() && RECOVERY !in sys.db.marks
    }

    /** The calls among the first `n` that did not work. */
    ghost function Failures(n: nat): nat {
      if n == 0 then 0 else Failures(n - 1) + if fate(n - 1) == Works then 0 else 1
    }

    /** Every job's account is in order. */
    ghost predicate InOrder()
      reads this
    {
      Ledger(start.db.rows, sys.db.rows, log, Failures(tick), policy)
    }

    /** Every lease others grant or renew before one of these calls ends after the cutoff. */
    ghost predicate Beyond(from: nat, upTo: nat, cutoff: int) {
      forall n | from <= n < upTo :: AllGrantBeyond(world(n), cutoff)
    }

    /** All of these calls work. */
    ghost predicate Worked(from: nat, upTo: nat) {
      forall n | from <= n < upTo :: fate(n) == Works
    }

    /** Any state of rows and queues will do: accounts start from the retry counts found. */
    constructor (world: nat -> seq<Move>, fate: nat -> Fate, policy: UserId -> int, start: Sys,
                 interval: int, batch: int, orphanGrace: int, queueCapacity: int)
      requires (forall n :: AllOutside(world(n))) && JobRows.MarksAreTerminal(start.db) && RECOVERY !in start.db.marks
      ensures Valid() && InOrder() && sys == this.start == start && log == [] && tick == 0
      ensures this.policy == policy && this.fate == fate && this.world == world
      ensures this.interval == interval && this.batch == batch
      ensures this.orphanGrace == orphanGrace && this.queueCapacity == queueCapacity
    {
      this.world, this.fate, this.policy := world, fate, policy;
      this.interval, this.batch, this.orphanGrace, this.queueCapacity := interval, batch, orphanGrace, queueCapacity;
      sys, tick := start, 0;
      this.start, trace, log, served := start, [], [], [];
      NothingHappened(start);
      assert ServedBy([], [], world);
    }

    /** Others move up to the moment the call reaches the store; then the call meets its fate. */
    method Call() returns (f: Fate)
      requires Sound()
      modifies this`sys, this`tick, this`trace, this`served
      ensures Sound() && tick == old(tick) + 1 && f == fate(old(tick))
      ensures Failures(tick) == Failures(old(tick)) + if f == Works then 0 else 1
      ensures sys == Steps(old(sys), world(old(tick))) && trace == old(trace) + Others(world(old(tick)))
      ensures served == old(served) + [|trace|]
      ensures Moved(old(sys), sys)
      ensures StillClear()
    {
      OthersMove(sys, world(tick));
      OthersHaveNoEffects(sys, world(tick));
      HappenedAppend(start, trace, sys, log, Others(world(tick)));
      ServedNext(trace, served, world);
      assert log + [] == log;
      forall job, c | Beyond(tick, tick + 1, c) && Clear(sys.queue.leases, job, c)
        ensures Clear(Steps(sys, world(tick)).queue.leases, job, c)
      {
        StaysClear(sys, world(tick), job, c);
      }
      sys := Steps(sys, world(tick));
      trace := trace + Others(world(tick));
      served := served + [|trace|];
      f := fate(tick);
      tick := tick + 1;
    }

    /** A call, while every account is in order. */
    method Reach() returns (f: Fate)
      requires Valid() && InOrder()
      modifies this`sys, this`tick, this`trace, this`served
      ensures Valid() && InOrder() && tick == old(tick) + 1 && f == fate(old(tick))
      ensures sys == Steps(old(sys), world(old(tick))) && trace == old(trace) + Others(world(old(tick)))
      ensures served == old(served) + [|trace|]
      ensures Kept(old(sys), sys) && Preserved(old(sys), sys)
      ensures StillClear()
    {
      f := Call();
      LedgerMoved(start.db.rows, old(sys).db.rows, sys.db.rows, log, Failures(old(tick)), Failures(tick), policy);
      KeptGuards(old(sys), sys);
    }

    /** One of recovery's own moves takes effect. */
    method Do(m: Move)
      requires Sound() && (m.OnRows? ==> JobRows.Lawful(m.r))
      modifies this`sys, this`trace, this`log
      ensures Sound() && sys == Step1(old(sys), m)
      ensures trace == old(trace) + [Mine(m)] && log == old(log) + Effect(old(sys), m)
      ensures Effect(old(sys), m) == [] ==> log == old(log)
    {
      HappenedAppend(start, trace, sys, log, [Mine(m)]);
      ServedMore(trace, trace + [Mine(m)], served, world);
      assert [Mine(m)][1..] == [] && Effects(sys, [Mine(m)]) == Effect(sys, m);
      assert Replay(sys, [Mine(m)]) == Step1(sys, m);
      log := log + Effect(sys, m);
      trace := trace + [Mine(m)];
      sys := Step1(sys, m);
    }

    /** Reads the row, checks that it is `created`, and later writes the outcome unconditionally. */
    method Mark(job: JobId, outcome: JobRows.Status, retryCount: int) returns (ok: bool)
      requires Valid() && outcome != JobRows.Created
      requires IsFounded(sys, JobRows.Mark(job, outcome, retryCount))
      modifies this`sys, this`tick, this`trace, this`served, this`log
      ensures Valid() && Grown()
      ensures Failures(tick) >= Failures(old(tick)) && Moved(old(sys), sys)
      ensures ok ==> JobRows.IsTerminal(sys.db, job) && log == old(log) + [Marked(job, outcome)]
      ensures log == old(log) || (log == old(log) + [Marked(job, outcome)] && !JobRows.IsTerminal(old(sys).db, job))
      ensures !ok && Worked(old(tick), tick) ==> log == old(log)
      ensures Worked(old(tick), tick) ==> JobRows.IsTerminal(sys.db, job)
      ensures StillClear()
    {
      var f := Call();
      assert RowMoved(old(sys).db.rows[job], sys.db.rows[job]);
      if f != Works || sys.db.rows[job].status != JobRows.Created {
        return false;
      }
      ok := WriteOutcome(job, outcome, retryCount, old(sys));
    }

    /** The write of a mark that has read `created`. */
    method WriteOutcome(job: JobId, outcome: JobRows.Status, retryCount: int, ghost was: Sys) returns (ok: bool)
      requires Valid() && outcome != JobRows.Created && Moved(was, sys)
      requires IsFounded(sys, JobRows.Mark(job, outcome, retryCount)) && sys.db.rows[job].status == JobRows.Created
      modifies this`sys, this`tick, this`trace, this`served, this`log
      ensures Valid() && tick == old(tick) + 1 && Grown() && Moved(was, sys)
      ensures ok <==> fate(old(tick)) == Works
      ensures log == if fate(old(tick)) == Lost then old(log) else old(log) + [Marked(job, outcome)]
      ensures fate(old(tick)) != Lost ==> JobRows.IsTerminal(sys.db, job)
      ensures StillClear()
    {
      StartMark(JobRows.Mark(job, outcome, retryCount));
      ghost var s0 := sys;
      var f := Call();
      ghost var s1 := sys;
      RowsMovedTransitive(was.db.rows, s0.db.rows, s1.db.rows);
      assert RowMoved(s0.db.rows[job], s1.db.rows[job]);
      if f == Lost {
        Do(OnRows(JobRows.AbandonMark(RECOVERY)));
        return false;
      }
      FinishMark(JobRows.Mark(job, outcome, retryCount));
      RowsMovedTransitive(was.db.rows, s1.db.rows, sys.db.rows);
      return f == Works;
    }

    /** A mark has read `created`. */
    method StartMark(mark: JobRows.Mark)
      requires Valid() && mark.outcome != JobRows.Created
      requires mark.job in sys.db.rows && sys.db.rows[mark.job].status == JobRows.Created
      modifies this`sys, this`trace, this`log
      ensures Sound() && Grown() && log == old(log)
      ensures RECOVERY in sys.db.marks && sys.db.marks[RECOVERY] == mark
      ensures sys.db.rows == old(sys).db.rows && sys.queue == old(sys).queue
    {
      Do(OnRows(JobRows.BeginMark(RECOVERY, mark)));
    }

    /** The outcome of the mark under way reaches the row. */
    method FinishMark(mark: JobRows.Mark)
      requires Sound() && RECOVERY in sys.db.marks && sys.db.marks[RECOVERY] == mark && IsFounded(sys, mark)
      modifies this`sys, this`trace, this`log
      ensures Valid() && Grown() && log == old(log) + [Marked(mark.job, mark.outcome)]
      ensures JobRows.IsTerminal(sys.db, mark.job) && RowsMoved(old(sys).db.rows, sys.db.rows)
      ensures sys.queue == old(sys).queue
    {
      Do(OnRows(JobRows.WriteMark(RECOVERY)));
    }

    // ---- expired leases ----

    /** Removes the job's lease if it has run out when the script, after the history `before`, meets the state `met`;
        the log shows it when the row was not terminal. */
    method RemoveIfExpired(job: JobId, cutoff: int)
      returns (removed: bool, failed: bool, ghost before: seq<Entry>, ghost met: Sys)
      requires Valid()
      modifies this`sys, this`tick, this`trace, this`served, this`log
      ensures Valid() && tick == old(tick) + 1 && Moved(old(sys), sys)
      ensures failed <==> fate(old(tick)) != Works
      ensures Failures(tick) >= Failures(old(tick))
      ensures old(served) <= served && old(trace) <= before <= trace
      ensures Happened(start, before, met, old(log)) && met.db == sys.db
      ensures fate(old(tick)) != Lost ==>
                trace == before + [Mine(OnQueue(RemoveExpired(job, cutoff)))]
                && Clear(sys.queue.leases, job, cutoff)
                && (!Clear(met.queue.leases, job, cutoff) ==>
                      job !in Step1(met, OnQueue(RemoveExpired(job, cutoff))).queue.leases)
      ensures removed <==> !failed && !Clear(met.queue.leases, job, cutoff)
      ensures log == old(log) || (log == old(log) + [Abandoned(job)] && !JobRows.IsTerminal(sys.db, job))
      ensures removed && log == old(log) ==> JobRows.IsTerminal(sys.db, job)
      ensures !failed && !removed ==> log == old(log)
      ensures StillClear()
    {
      var f := Call();
      before, met := trace, sys;
      if f == Lost {
        return false, true, before, met;
      }
      var r := Exec(sys.queue, RemoveExpired(job, cutoff));
      Do(OnQueue(RemoveExpired(job, cutoff)));
      return f == Works && r.reply == Code(1), f != Works, before, met;
    }

    /** Takes over a job that has used up its retries, and marks it failed if the takeover succeeded.  When the calls
        made work the job is answered for: its lease was found not to have run out, or its row is terminal. */
    method GiveUp(id: JobId, cutoff: int, row: JobRows.Row) returns (failed: bool)
      requires Valid() && InOrder() && id in sys.db.rows && RowMoved(row, sys.db.rows[id])
      requires policy(row.user) <= row.retryCount <= Base(start.db.rows, id) + Times(log, Requeued(id))
      modifies this`sys, this`tick, this`trace, this`served, this`log
      ensures Valid() && Grown() && InOrder() && Kept(old(sys), sys)
      ensures OneAnswer(old(log), log, id)
      ensures Worked(old(tick), tick) ==> Resolved(start, trace, |old(trace)|, sys, id, cutoff, policy)
      ensures Worked(old(tick), tick) && log != old(log) ==> JobRows.IsTerminal(sys.db, id)
      ensures Worked(old(tick), tick) ==> FailuresTold(old(log), log, trace, |old(trace)|)
      ensures Worked(old(tick), tick) && Beyond(old(tick), tick, cutoff) ==> Clear(sys.queue.leases, id, cutoff)
      ensures StillClear()
    {
      var removed, err;
      ghost var before, met;
      removed, err, before, met := RemoveAtLimit(id, cutoff, row);
      ghost var s, removal := sys, trace;
      if err {
        return true;
      }
      assert trace[|before|] == Mine(OnQueue(RemoveExpired(id, cutoff)));
      if removed {
        failed := EndJob(id, row.retryCount);
        KeptTransitive(old(sys), s, sys);
      } else {
        failed := false;
      }
      if Worked(old(tick), tick) {
        AnsweredNow(start, before, met, old(log), trace, |old(trace)|, sys, id, cutoff, policy);
        if |log| > |old(log)| && log[|log| - 1] == Marked(id, JobRows.Failed) {
          ToldFailedGrows(trace, trace, |removal|, |old(trace)|, id);
        }
        OneAnswerTold(old(log), log, id, trace, |old(trace)|);
      }
    }

    /** The takeover of a job at its limit. */
    method RemoveAtLimit(id: JobId, cutoff: int, row: JobRows.Row)
      returns (removed: bool, failed: bool, ghost before: seq<Entry>, ghost met: Sys)
      requires Valid() && InOrder() && id in sys.db.rows && RowMoved(row, sys.db.rows[id])
      requires policy(row.user) <= row.retryCount <= Base(start.db.rows, id) + Times(log, Requeued(id))
      modifies this`sys, this`tick, this`trace, this`served, this`log
      ensures Valid() && Grown() && InOrder() && Kept(old(sys), sys) && tick == old(tick) + 1
      ensures id in sys.db.rows && RowMoved(row, sys.db.rows[id])
      ensures failed <==> fate(old(tick)) != Works
      ensures old(trace) <= before <= trace && Happened(start, before, met, old(log)) && met.db == sys.db
      ensures !failed ==>
                trace == before + [Mine(OnQueue(RemoveExpired(id, cutoff)))] && Clear(sys.queue.leases, id, cutoff)
      ensures !failed && !Clear(met.queue.leases, id, cutoff) ==>
                removed && id !in Step1(met, OnQueue(RemoveExpired(id, cutoff))).queue.leases
      ensures log == old(log) || (log == old(log) + [Abandoned(id)] && !JobRows.IsTerminal(sys.db, id))
      ensures removed && log == old(log) ==> JobRows.IsTerminal(sys.db, id)
      ensures !failed && !removed ==> log == old(log)
      ensures StillClear()
    {
      removed, failed, before, met := RemoveIfExpired(id, cutoff);
      assert RowMoved(old(sys).db.rows[id], sys.db.rows[id]);
      LedgerMoved(start.db.rows, old(sys).db.rows, sys.db.rows, old(log), Failures(old(tick)), Failures(tick), policy);
      if log != old(log) {
        LedgerEntered(start.db.rows, sys.db.rows, old(log), Failures(tick), policy, Abandoned(id));
      }
    }

    /** Marks a job failed whose lease recovery has removed, and tells the idempotency record and the stream. */
    method EndJob(id: JobId, retryCount: int) returns (failed: bool)
      requires Valid() && InOrder() && IsFounded(sys, JobRows.Mark(id, JobRows.Failed, retryCount))
      requires Abandoned(id) in log || JobRows.IsTerminal(sys.db, id)
      modifies this`sys, this`tick, this`trace, this`served, this`log
      ensures Valid() && Grown() && InOrder() && Kept(old(sys), sys)
      ensures log == old(log) ||
              (log == old(log) + [Marked(id, JobRows.Failed)] && !JobRows.IsTerminal(old(sys).db, id))
      ensures Worked(old(tick), tick) ==> JobRows.IsTerminal(sys.db, id)
      ensures Worked(old(tick), tick) && log != old(log) ==> ToldFailed(trace, |old(trace)|, id)
      ensures StillClear()
    {
      var ok := Mark(id, JobRows.Failed, retryCount);
      ghost var before := trace;
      LedgerMoved(start.db.rows, old(sys).db.rows, sys.db.rows, old(log), Failures(old(tick)), Failures(tick), policy);
      if log != old(log) {
        LedgerEntered(start.db.rows, sys.db.rows, old(log), Failures(tick), policy, Marked(id, JobRows.Failed));
      }
      if !ok {
        return true;
      }
      ghost var s := sys;
      failed := Announce(id);
      KeptTransitive(old(sys), s, sys);
      KeptGuards(s, sys);
      if Worked(old(tick), tick) {
        ToldFailedGrows(trace, trace, |before|, |old(trace)|, id);
      }
    }

    /** Tells the idempotency record and then the stream that the job has failed. */
    method Announce(id: JobId) returns (failed: bool)
      requires Valid() && InOrder()
      modifies this`sys, this`tick, this`trace, this`served, this`log
      ensures Valid() && Grown() && InOrder() && Kept(old(sys), sys) && Preserved(old(sys), sys) && log == old(log)
      ensures Worked(old(tick), tick) ==> ToldFailed(trace, |old(trace)|, id)
      ensures StillClear()
    {
      failed := Tell(ToRecord(id, false));
      if failed {
        return true;
      }
      ghost var s, before := sys, trace;
      failed := Tell(ToStream(id, false));
      KeptTransitive(old(sys), s, sys);
      PreservedTransitive(old(sys), s, sys);
      assert trace[|before| - 1] == before[|before| - 1];
    }

    /** A read of something that is neither queue nor rows, or of rows that are looked at next. */
    method Ask() returns (failed: bool)
      requires Valid() && InOrder()
      modifies this`sys, this`tick, this`trace, this`served
      ensures Valid() && Grown() && InOrder() && Kept(old(sys), sys) && Preserved(old(sys), sys)
      ensures tick == old(tick) + 1 && Failures(tick) >= Failures(old(tick))
      ensures failed <==> fate(old(tick)) != Works
      ensures StillClear()
    {
      var f := Reach();
      failed := f != Works;
    }

    /** Word to the idempotency record or the event stream; when the call works it is the last thing that happened. */
    method Tell(n: Notice) returns (failed: bool)
      requires Valid() && InOrder()
      modifies this`sys, this`tick, this`trace, this`served, this`log
      ensures Valid() && Grown() && InOrder() && Kept(old(sys), sys) && Preserved(old(sys), sys) && log == old(log)
      ensures tick == old(tick) + 1 && Failures(tick) >= Failures(old(tick))
      ensures failed <==> fate(old(tick)) != Works
      ensures !failed ==> |trace| > |old(trace)| && trace[|trace| - 1] == Mine(Telling(n))
      ensures StillClear()
    {
      var f := Reach();
      if f != Lost {
        Do(Telling(n));
      }
      failed := f != Works;
    }

    /** A call while the accounts stand at an earlier log, about a job whose row was read before. */
    method ReachFor(id: JobId, row: JobRows.Row, ghost before: seq<Action>, ghost fails: nat) returns (f: Fate)
      requires Valid() && Ledger(start.db.rows, sys.db.rows, before, fails, policy)
      requires id in sys.db.rows && RowMoved(row, sys.db.rows[id])
      modifies this`sys, this`tick, this`trace, this`served
      ensures Valid() && Ledger(start.db.rows, sys.db.rows, before, fails, policy) && Preserved(old(sys), sys)
      ensures tick == old(tick) + 1 && f == fate(old(tick))
      ensures sys == Steps(old(sys), world(old(tick))) && Grown()
      ensures Failures(tick) == Failures(old(tick)) + if f == Works then 0 else 1
      ensures id in sys.db.rows && RowMoved(row, sys.db.rows[id])
      ensures StillClear()
    {
      f := Call();
      LedgerMoved(start.db.rows, old(sys).db.rows, sys.db.rows, before, fails, fails, policy);
      KeptGuards(old(sys), sys);
      assert RowMoved(old(sys).db.rows[id], sys.db.rows[id]);
    }

    /** Puts an expired job back into its user's queue and raises its retry count, unless it has ended since. */
    method Requeue(id: JobId, cutoff: int, row: JobRows.Row) returns (failed: bool)
      requires Valid() && InOrder() && id in sys.db.rows && RowMoved(row, sys.db.rows[id])
      requires MayRequeue(start.db.rows, log, Failures(tick), policy, id, row)
      modifies this`sys, this`tick, this`trace, this`served, this`log
      ensures Valid() && Grown() && InOrder() && Preserved(old(sys), sys)
      ensures log == old(log) || log == old(log) + [Requeued(id)]
      ensures Worked(old(tick), tick) ==> Resolved(start, trace, |old(trace)|, sys, id, cutoff, policy)
      ensures Worked(old(tick), tick) && log != old(log) ==> id in sys.db.rows && CountIs(id, row.retryCount + 1)
      ensures fate(old(tick)) != Lost ==>
                (log != old(log) <==> !Clear(Steps(old(sys), world(old(tick))).queue.leases, id, cutoff))
      ensures Worked(old(tick), tick) && Beyond(old(tick), tick, cutoff) ==> Clear(sys.queue.leases, id, cutoff)
      ensures StillClear()
    {
      var f := ReachFor(id, row, log, Failures(tick));
      if f == Lost {
        LedgerGrows(start.db.rows, sys.db.rows, log, Failures(old(tick)), Failures(tick), policy);
        return true;
      }
      ghost var s, before := sys, trace;
      failed := PutBack(id, cutoff, row, f, Failures(old(tick)));
      PreservedTransitive(old(sys), s, sys);
      ResolvedLater(start, trace, |before|, sys, trace, |old(trace)|, sys, id, cutoff, policy);
    }

    /** `requeueExpiredScript` on the job of this user. */
    method TakeBack(id: JobId, user: UserId, cutoff: int) returns (taken: bool)
      requires Valid() && IsOwner(sys, id, user)
      requires sys.db.rows[id].status == JobRows.Created ==> sys.db.rows[id].retryCount < policy(user)
      modifies this`sys, this`trace, this`log
      ensures Valid() && Grown() && Preserved(old(sys), sys) && sys.db == old(sys).db
      ensures taken <==> !Clear(old(sys).queue.leases, id, cutoff)
      ensures taken ==> List(sys.queue, user) == [id] + List(old(sys).queue, user) && id !in sys.queue.leases
      ensures Resolved(start, trace, |old(trace)|, sys, id, cutoff, policy)
      ensures log == if taken then old(log) + [Requeued(id)] else old(log)
      ensures Clear(sys.queue.leases, id, cutoff)
      ensures forall j, c | Clear(old(sys).queue.leases, j, c) :: Clear(sys.queue.leases, j, c)
    {
      taken := Exec(sys.queue, RequeueExpired(id, user, cutoff)).reply == Code(1);
      QueuePreserves(sys, RequeueExpired(id, user, cutoff));
      Do(OnQueue(RequeueExpired(id, user, cutoff)));
      ghost var e := Mine(OnQueue(RequeueExpired(id, user, cutoff)));
      RequeueAnswers(old(sys), sys, id, user, cutoff, policy);
      assert trace[|old(trace)|] == e;
      AnsweredNow(start, old(trace), old(sys), old(log), trace, |old(trace)|, sys, id, cutoff, policy);
    }

    /** The requeue takes effect; if it is known to have, the retry count is raised. */
    method PutBack(id: JobId, cutoff: int, row: JobRows.Row, f: Fate, ghost fails: nat) returns (failed: bool)
      requires Valid() && Ledger(start.db.rows, sys.db.rows, log, fails, policy)
      requires Failures(tick) == fails + if f == Works then 0 else 1
      requires id in sys.db.rows && RowMoved(row, sys.db.rows[id])
      requires MayRequeue(start.db.rows, log, fails, policy, id, row)
      modifies this`sys, this`tick, this`trace, this`served, this`log
      ensures Valid() && Grown() && InOrder() && Preserved(old(sys), sys)
      ensures log == if Clear(old(sys).queue.leases, id, cutoff) then old(log) else old(log) + [Requeued(id)]
      ensures f == Works && Worked(old(tick), tick) && log != old(log) ==>
                id in sys.db.rows && CountIs(id, row.retryCount + 1)
      ensures Resolved(start, trace, |old(trace)|, sys, id, cutoff, policy)
      ensures Beyond(old(tick), tick, cutoff) ==> Clear(sys.queue.leases, id, cutoff)
      ensures StillClear()
    {
      var taken := TakeBack(id, row.user, cutoff);
      ghost var s, after := sys, trace;
      if !taken {
        LedgerGrows(start.db.rows, sys.db.rows, log, fails, Failures(tick), policy);
        return f != Works;
      }
      if f != Works {
        LedgerLost(start.db.rows, sys.db.rows, old(log), fails, policy, id, row);
        return true;
      }
      failed := RaiseRetryCount(id, row, old(log));
      PreservedTransitive(old(sys), s, sys);
      ResolvedLater(start, after, |old(trace)|, s, trace, |old(trace)|, sys, id, cutoff, policy);
    }

    /** Stores the new retry count of a job just requeued, if its row is still `created`. */
    method RaiseRetryCount(id: JobId, row: JobRows.Row, ghost before: seq<Action>) returns (failed: bool)
      requires Valid() && Ledger(start.db.rows, sys.db.rows, before, Failures(tick), policy)
      requires log == before + [Requeued(id)]
      requires id in sys.db.rows && RowMoved(row, sys.db.rows[id])
      requires MayRequeue(start.db.rows, before, Failures(tick), policy, id, row)
      modifies this`sys, this`tick, this`trace, this`served, this`log
      ensures Valid() && Grown() && InOrder() && Preserved(old(sys), sys) && log == old(log)
      ensures Worked(old(tick), tick) ==> id in sys.db.rows && CountIs(id, row.retryCount + 1)
      ensures StillClear()
    {
      var f := ReachFor(id, row, before, Failures(tick));
      if f == Lost {
        LedgerLost(start.db.rows, sys.db.rows, before, Failures(old(tick)), policy, id, row);
        return true;
      }
      ghost var s := sys;
      StoreCount(id, row, before, Failures(old(tick)));
      PreservedTransitive(old(sys), s, sys);
      return f != Works;
    }

    /** The job's row, if still `created`, has this retry count. */
    ghost predicate CountIs(id: JobId, n: int)
      requires id in sys.db.rows
      reads this
    {
      sys.db.rows[id].status == JobRows.Created ==> sys.db.rows[id].retryCount == n
    }

    method StoreCount(id: JobId, row: JobRows.Row, ghost before: seq<Action>, ghost fails: nat)
      requires Valid() && Ledger(start.db.rows, sys.db.rows, before, fails, policy) && log == before + [Requeued(id)]
      requires fails <= Failures(tick) && id in sys.db.rows && RowMoved(row, sys.db.rows[id])
      requires MayRequeue(start.db.rows, before, fails, policy, id, row)
      modifies this`sys, this`trace, this`log
      ensures Valid() && InOrder() && Grown() && Preserved(old(sys), sys) && log == old(log)
      ensures sys.queue == old(sys).queue && id in sys.db.rows && CountIs(id, row.retryCount + 1)
    {
      LedgerCounted(start.db.rows, sys.db, before, fails, policy, id, row);
      CountPreserves(sys, id, row.retryCount + 1);
      Do(OnRows(JobRows.UpdateIfCreated(id, row.retryCount + 1)));
      LedgerGrows(start.db.rows, sys.db.rows, log, fails, Failures(tick), policy);
    }

    /** Takes the job's expired lease away: a job at its limit is marked failed, any other goes back to its
        user's queue and its retry count is raised.  When the calls made work, a job with a row is answered for. */
    method RecoverOne(id: JobId, cutoff: int) returns (failed: bool)
      requires Valid() && InOrder()
      modifies this`sys, this`tick, this`trace, this`served, this`log
      ensures Valid() && Grown() && InOrder() && Preserved(old(sys), sys)
      ensures OneAnswer(old(log), log, id)
      ensures Worked(old(tick), tick) && id in old(sys).db.rows ==>
                Resolved(start, trace, |old(trace)|, sys, id, cutoff, policy)
      ensures Worked(old(tick), tick) ==> FailuresTold(old(log), log, trace, |old(trace)|)
      ensures StillClear()
      ensures Worked(old(tick), tick) && Beyond(old(tick), tick, cutoff) && id in old(sys).db.rows ==>
                Clear(sys.queue.leases, id, cutoff)
    {
      failed := Ask();
      if failed || id !in sys.db.rows {
        return true;
      }
      ghost var read := |trace|;
      var row := sys.db.rows[id];
      assert Account(start.db.rows, sys.db.rows, log, Failures(tick), policy, id);
      if row.status != JobRows.Created {
        failed := DropLease(id, cutoff);
      } else {
        failed := RecoverCreated(id, cutoff, row);
      }
      if Worked(old(tick), tick) {
        ResolvedLater(start, trace, read, sys, trace, |old(trace)|, sys, id, cutoff, policy);
        FailuresToldJoined(old(log), old(log), log, trace[..read], |old(trace)|, trace, read);
      }
    }

    /** The same for a row just read as `created`. */
    method RecoverCreated(id: JobId, cutoff: int, row: JobRows.Row) returns (failed: bool)
      requires Valid() && InOrder() && id in sys.db.rows && sys.db.rows[id] == row && row.status == JobRows.Created
      modifies this`sys, this`tick, this`trace, this`served, this`log
      ensures Valid() && Grown() && InOrder() && Preserved(old(sys), sys)
      ensures OneAnswer(old(log), log, id)
      ensures Worked(old(tick), tick) ==> Resolved(start, trace, |old(trace)|, sys, id, cutoff, policy)
      ensures Worked(old(tick), tick) ==> FailuresTold(old(log), log, trace, |old(trace)|)
      ensures StillClear()
      ensures Worked(old(tick), tick) && Beyond(old(tick), tick, cutoff) ==> Clear(sys.queue.leases, id, cutoff)
    {
      assert Account(start.db.rows, sys.db.rows, log, Failures(tick), policy, id);
      failed := Ask();
      if failed {
        return true;
      }
      assert RowMoved(row, sys.db.rows[id]);
      ghost var s, before := sys, |trace|;
      if row.retryCount >= policy(row.user) {
        failed := GiveUp(id, cutoff, row);
        KeptGuards(s, sys);
      } else {
        failed := Requeue(id, cutoff, row);
        OneAnswerTold(old(log), log, id, trace, before);
      }
      PreservedTransitive(old(sys), s, sys);
      if Worked(old(tick), tick) {
        ResolvedLater(start, trace, before, sys, trace, |old(trace)|, sys, id, cutoff, policy);
        FailuresToldJoined(old(log), old(log), log, trace[..before], |old(trace)|, trace, before);
      }
    }

    /** Removes the expired lease of a job whose row is terminal. */
    method DropLease(id: JobId, cutoff: int) returns (failed: bool)
      requires Valid() && InOrder() && JobRows.IsTerminal(sys.db, id)
      modifies this`sys, this`tick, this`trace, this`served, this`log
      ensures Valid() && Grown() && InOrder() && Preserved(old(sys), sys) && log == old(log)
      ensures Worked(old(tick), tick) ==> Clear(sys.queue.leases, id, cutoff)
      ensures Worked(old(tick), tick) ==> Resolved(start, trace, |old(trace)|, sys, id, cutoff, policy)
      ensures StillClear()
    {
      ghost var before, met;
      var removed;
      removed, failed, before, met := RemoveIfExpired(id, cutoff);
      KeptGuards(old(sys), sys);
      LedgerMoved(start.db.rows, old(sys).db.rows, sys.db.rows, old(log), Failures(old(tick)), Failures(tick), policy);
      if !failed {
        ghost var e := Mine(OnQueue(RemoveExpired(id, cutoff)));
        assert trace[|before|] == e && Answers(met, e, sys, id, cutoff, policy);
        AnsweredNow(start, before, met, old(log), trace, |old(trace)|, sys, id, cutoff, policy);
      }
    }

    /** Handles a batch of expired leases, those that ran out first.  Whatever fails, every account stays in order and
        no job is requeued twice.  When the calls made work, no job of the batch that has a row is lost: its lease was
        found not to have run out after all, it was put into its owner's queue, or its row is terminal; and if leases
        granted meanwhile end after the cutoff, none is left with an expired lease. */
    method Sweep(now: int) returns (failed: bool, ids: seq<JobId>)
      requires Valid() && InOrder()
      modifies this`sys, this`tick, this`trace, this`served, this`log
      ensures Valid() && Grown() && InOrder() && Preserved(old(sys), sys)
      ensures failed <==> fate(old(tick)) != Works
      ensures !failed ==> IsBatch(ids, Steps(old(sys), world(old(tick))).queue.leases, now, batch)
      ensures NoOrphansAdded(old(log), log)
      ensures forall job :: Times(log, Requeued(job)) <= Times(old(log), Requeued(job)) + if job in ids then 1 else 0
      ensures Worked(old(tick), tick) ==> FailuresTold(old(log), log, trace, |old(trace)|)
      ensures Worked(old(tick), tick) ==>
                forall k | 0 <= k < |ids| && ids[k] in old(sys).db.rows ::
                  Resolved(start, trace, |old(trace)|, sys, ids[k], now, policy)
      ensures old(tick) < tick
      ensures Worked(old(tick), tick) ==> Swept(start, trace, served[old(tick)], sys, now, batch, policy)
      ensures Worked(old(tick), tick) && Beyond(old(tick), tick, now) ==>
                forall k | 0 <= k < |ids| && ids[k] in old(sys).db.rows :: Clear(sys.queue.leases, ids[k], now)
    {
      var f := Reach();
      if f != Works {
        return true, [];
      }
      ghost var s, at := sys, trace;
      var leases := Expired(sys.queue.leases, now);
      ids := Ranking.TakeLeast(leases, if batch > 0 then batch else |leases|);
      RecoverAll(ids, now);
      failed := false;
      PreservedTransitive(old(sys), s, sys);
      if Worked(old(tick), tick) {
        forall k | 0 <= k < |ids| && ids[k] in old(sys).db.rows
          ensures Resolved(start, trace, |old(trace)|, sys, ids[k], now, policy)
        {
          ResolvedLater(start, trace, |at|, sys, trace, |old(trace)|, sys, ids[k], now, policy);
        }
        FailuresToldJoined(old(log), old(log), log, at, |old(trace)|, trace, |at|);
        SweptNow(start, at, s, old(log), trace, ids, sys, now, batch, policy);
      }
    }

    method RecoverAll(ids: seq<JobId>, now: int)
      requires Valid() && InOrder() && forall i, k | 0 <= i < k < |ids| :: ids[i] != ids[k]
      modifies this`sys, this`tick, this`trace, this`served, this`log
      ensures Valid() && Grown() && InOrder() && Preserved(old(sys), sys)
      ensures NoOrphansAdded(old(log), log)
      ensures forall job :: Times(log, Requeued(job)) <= Times(old(log), Requeued(job)) + if job in ids then 1 else 0
      ensures Worked(old(tick), tick) ==> FailuresTold(old(log), log, trace, |old(trace)|)
      ensures Worked(old(tick), tick) ==>
                Handled(start, trace, |old(trace)|, sys, old(sys).db.rows, ids, now, policy)
      ensures Worked(old(tick), tick) && Beyond(old(tick), tick, now) ==>
                forall k | 0 <= k < |ids| && ids[k] in old(sys).db.rows :: Clear(sys.queue.leases, ids[k], now)
    {
      var i := 0;
      while i < |ids|
        invariant 0 <= i <= |ids|
        invariant Valid() && Grown() && InOrder() && Preserved(old(sys), sys)
        invariant NoOrphansAdded(old(log), log)
        invariant forall job ::
                    Times(log, Requeued(job)) <= Times(old(log), Requeued(job)) + if job in ids[..i] then 1 else 0
        invariant Worked(old(tick), tick) ==> FailuresTold(old(log), log, trace, |old(trace)|)
        invariant Worked(old(tick), tick) ==>
                    Handled(start, trace, |old(trace)|, sys, old(sys).db.rows, ids[..i], now, policy)
        invariant Worked(old(tick), tick) && Beyond(old(tick), tick, now) ==>
                    forall k | 0 <= k < i && ids[k] in old(sys).db.rows :: Clear(sys.queue.leases, ids[k], now)
      {
        ghost var l, s, before := log, sys, trace;
        var _ := RecoverOne(ids[i], now);
        OneAnswerCounts(l, log, ids[i]);
        PreservedTransitive(old(sys), s, sys);
        assert ids[..i + 1] == ids[..i] + [ids[i]];
        if Worked(old(tick), tick) {
          FailuresToldJoined(old(log), l, log, before, |old(trace)|, trace, |before|);
          HandledNext(start, before, |old(trace)|, s, old(sys).db.rows, ids[..i], now, policy, trace, sys, ids[i]);
        }
        i := i + 1;
      }
      assert ids[..i] == ids;
    }

    // ---- completed markers ----

    /** Settles one marked job; its marker goes only after its row is terminal. */
    method ReconcileOne(id: JobId) returns (aborted: bool)
      requires Valid() && InOrder() && id in sys.queue.completed
      modifies this`sys, this`tick, this`trace, this`served, this`log
      ensures Valid() && Grown() && InOrder() && Preserved(old(sys), sys)
      ensures sys.queue.completed >= old(sys).queue.completed - {id} && NoOrphansAdded(old(log), log)
      ensures forall a | a in old(log) :: a in log
      ensures Worked(old(tick), tick) ==> !aborted && (id in old(sys).db.rows ==> JobRows.IsTerminal(sys.db, id))
      ensures Worked(old(tick), tick) && JobRows.IsTerminal(old(sys).db, id) ==>
                Closed(trace, |old(trace)|, id)
      ensures SettledAfterMark(old(log), log, id, Worked(old(tick), tick))
    {
      var lost := Ask();
      if lost || id !in sys.db.rows {
        return false;
      }
      var row := sys.db.rows[id];
      if row.status == JobRows.Created {
        var ok := CompleteRow(id, row.retryCount);
        if !ok {
          return false;
        }
      }
      ghost var before := trace;
      aborted := SettleEnded(id);
      if Worked(old(tick), tick) {
        ClosedGrows(trace, trace, |before|, |old(trace)|, id);
      }
    }

    /** Settles a marked job whose row is terminal. */
    method SettleEnded(id: JobId) returns (aborted: bool)
      requires Valid() && InOrder() && JobRows.IsTerminal(sys.db, id)
      modifies this`sys, this`tick, this`trace, this`served, this`log
      ensures Valid() && Grown() && InOrder()
      ensures Preserved(old(sys), sys) && sys.queue.completed >= old(sys).queue.completed - {id}
      ensures NoOrphansAdded(old(log), log) && forall a | a in old(log) :: a in log
      ensures log == old(log) || log == old(log) + [Settled(id)]
      ensures Worked(old(tick), tick) ==> !aborted && log == old(log) + [Settled(id)]
      ensures Worked(old(tick), tick) ==> Closed(trace, |old(trace)|, id)
    {
      var lost := Tell(ToRecord(id, true));
      if lost {
        return false;
      }
      ghost var s, before := sys, trace;
      aborted := DropMarker(id);
      PreservedTransitive(old(sys), s, sys);
      assert trace[|before| - 1] == before[|before| - 1];
    }

    /** Marks a job completed that carries a marker. */
    method CompleteRow(id: JobId, retryCount: int) returns (ok: bool)
      requires Valid() && InOrder() && IsFounded(sys, JobRows.Mark(id, JobRows.Completed, retryCount))
      modifies this`sys, this`tick, this`trace, this`served, this`log
      ensures Valid() && Grown() && InOrder() && Kept(old(sys), sys) && Preserved(old(sys), sys)
      ensures NoOrphansAdded(old(log), log) && forall a | a in old(log) :: a in log
      ensures log == old(log) || log == old(log) + [Marked(id, JobRows.Completed)]
      ensures !ok && Worked(old(tick), tick) ==> log == old(log)
      ensures ok || Worked(old(tick), tick) ==> JobRows.IsTerminal(sys.db, id)
    {
      ok := Mark(id, JobRows.Completed, retryCount);
      LedgerMoved(start.db.rows, old(sys).db.rows, sys.db.rows, old(log), Failures(old(tick)), Failures(tick), policy);
      LedgerEntered(start.db.rows, sys.db.rows, old(log), Failures(tick), policy, Marked(id, JobRows.Completed));
      EntryAdded(old(log), Marked(id, JobRows.Completed));
      KeptGuards(old(sys), sys);
    }

    /** Closes the event stream, whatever comes of it, and removes the marker. */
    method DropMarker(id: JobId) returns (aborted: bool)
      requires Valid() && InOrder() && JobRows.IsTerminal(sys.db, id)
      modifies this`sys, this`tick, this`trace, this`served, this`log
      ensures Valid() && Grown() && InOrder() && Preserved(old(sys), sys)
      ensures sys.queue.completed >= old(sys).queue.completed - {id} && NoOrphansAdded(old(log), log)
      ensures forall a | a in old(log) :: a in log
      ensures log == old(log) || log == old(log) + [Settled(id)]
      ensures aborted || Settled(id) in log
      ensures Worked(old(tick), tick) ==> log == old(log) + [Settled(id)]
      ensures Worked(old(tick), tick) ==> !aborted && Dropped(trace, |old(trace)|, id)
    {
      var untold := Tell(ToStream(id, true));
      ghost var s, told := sys, trace;
      aborted := RemoveMarker(id);
      PreservedTransitive(old(sys), s, sys);
      if !untold && !aborted {
        DroppedNow(trace, |old(trace)|, told, id);
      }
    }

    /** The call that removes the marker of a job that has ended. */
    method RemoveMarker(id: JobId) returns (aborted: bool)
      requires Valid() && InOrder() && JobRows.IsTerminal(sys.db, id)
      modifies this`sys, this`tick, this`trace, this`served, this`log
      ensures Valid() && Grown() && InOrder() && Preserved(old(sys), sys) && tick == old(tick) + 1
      ensures sys.queue.completed >= old(sys).queue.completed - {id} && NoOrphansAdded(old(log), log)
      ensures aborted <==> fate(old(tick)) != Works
      ensures log == if fate(old(tick)) == Lost then old(log) else old(log) + [Settled(id)]
      ensures !aborted ==> |trace| > |old(trace)| && trace[|trace| - 1] == Mine(OnQueue(RemoveCompleted(id)))
    {
      var f := Reach();
      ghost var s := sys;
      if f != Lost {
        Unmark(id);
        PreservedTransitive(old(sys), s, sys);
      }
      return f != Works;
    }

    /** The marker of a job that has ended goes. */
    method Unmark(id: JobId)
      requires Valid() && InOrder() && JobRows.IsTerminal(sys.db, id)
      modifies this`sys, this`trace, this`log
      ensures Valid() && InOrder() && Grown() && Preserved(old(sys), sys) && log == old(log) + [Settled(id)]
      ensures sys.queue.completed == old(sys).queue.completed - {id} && NoOrphansAdded(old(log), log)
      ensures trace == old(trace) + [Mine(OnQueue(RemoveCompleted(id)))]
    {
      QueuePreserves(sys, RemoveCompleted(id));
      LedgerEntered(start.db.rows, sys.db.rows, log, Failures(tick), policy, Settled(id));
      EntryAdded(log, Settled(id));
      Do(OnQueue(RemoveCompleted(id)));
    }

    /** Settles every marked job it can; when the calls made work all that were marked when it read the markers end up
        terminal, and those that were terminal by then lose their marker. */
    method ReconcileCompleted() returns (failed: bool)
      requires Valid() && InOrder()
      modifies this`sys, this`tick, this`trace, this`served, this`log
      ensures Valid() && Grown() && InOrder() && Preserved(old(sys), sys)
      ensures NoOrphansAdded(old(log), log) && NoFailuresMarked(old(log), log) && tick > old(tick)
      ensures Worked(old(tick), tick) ==> !failed && SettledFrom(start, trace, served[old(tick)], sys)
      ensures Worked(old(tick), tick) ==>
                forall job | job in old(sys).queue.completed :: Reconciled(old(sys), sys, trace, |old(trace)|, job)
    {
      var f := Reach();
      if f != Works {
        return true;
      }
      ghost var s, before := sys, trace;
      var ids := Members(sys.queue.completed);
      failed := ReconcileAll(ids);
      PreservedTransitive(old(sys), s, sys);
      if Worked(old(tick), tick) {
        SettledNow(start, before, s, old(log), trace, sys);
        forall job | job in old(sys).queue.completed ensures Reconciled(old(sys), sys, trace, |old(trace)|, job) {
          assert Reconciled(s, sys, trace, |before|, job);
          OneReconciled(old(sys), s, sys, trace, |before|, |old(trace)|, job);
        }
      }
    }

    method ReconcileAll(ids: seq<JobId>) returns (failed: bool)
      requires Valid() && InOrder() && forall i, k | 0 <= i < k < |ids| :: ids[i] != ids[k]
      requires forall k | 0 <= k < |ids| :: ids[k] in sys.queue.completed
      modifies this`sys, this`tick, this`trace, this`served, this`log
      ensures Valid() && Grown() && InOrder() && Preserved(old(sys), sys)
      ensures NoOrphansAdded(old(log), log) && NoFailuresMarked(old(log), log)
      ensures Worked(old(tick), tick) ==>
                !failed && forall k | 0 <= k < |ids| :: Reconciled(old(sys), sys, trace, |old(trace)|, ids[k])
    {
      var i := 0;
      while i < |ids|
        invariant 0 <= i <= |ids|
        invariant Valid() && Grown() && InOrder() && Preserved(old(sys), sys)
        invariant NoOrphansAdded(old(log), log) && NoFailuresMarked(old(log), log)
        invariant forall k | i <= k < |ids| :: ids[k] in sys.queue.completed
        invariant Worked(old(tick), tick) ==>
                    forall k | 0 <= k < i :: Reconciled(old(sys), sys, trace, |old(trace)|, ids[k])
      {
        ghost var s, before, l, n := sys, trace, log, tick;
        var aborted := ReconcileOne(ids[i]);
        PreservedTransitive(old(sys), s, sys);
        SettlingMarksNoFailure(l, log, ids[i], Worked(n, tick));
        if aborted {
          return true;
        }
        if Worked(old(tick), tick) {
          forall k | 0 <= k < i ensures Reconciled(old(sys), sys, trace, |old(trace)|, ids[k]) {
            ReconciledLater(old(sys), s, before, |old(trace)|, sys, trace, ids[k]);
          }
          OneReconciled(old(sys), s, sys, trace, |before|, |old(trace)|, ids[i]);
        }
        i := i + 1;
      }
      return false;
    }

    // ---- orphans ----

    /** Queues the oldest `created` rows past the grace that are neither queued, leased nor marked; a guarded job is
        never among them, and when the calls made work none of the rows selected is left out. */
    method SweepOrphans(now: int) returns (failed: bool, ids: seq<JobId>)
      requires Valid() && InOrder()
      modifies this`sys, this`tick, this`trace, this`served, this`log, this`orphanGrace, this`queueCapacity
      ensures Valid() && Grown() && InOrder() && Preserved(old(sys), sys) && tick > old(tick)
      ensures orphanGrace == if old(orphanGrace) <= 0 then 5 * interval else old(orphanGrace)
      ensures queueCapacity == if old(queueCapacity) <= 0 then 10 else old(queueCapacity)
      ensures failed <==> fate(old(tick)) != Works
      ensures NoFailuresMarked(old(log), log)
      ensures !failed ==>
                JobRows.OldestOrphans(ids, Steps(old(sys), world(old(tick))).db.rows, now - orphanGrace, batch)
      ensures Worked(old(tick), tick) ==> OrphansFrom(start, trace, served[old(tick)], now, Set())
      ensures forall job | Guarded(old(sys), job) :: Times(log, OrphanQueued(job)) == Times(old(log), OrphanQueued(job))
    {
      if orphanGrace <= 0 {
        orphanGrace := 5 * interval;
      }
      if queueCapacity <= 0 {
        queueCapacity := 10;
      }
      failed, ids := QueueOrphans(now);
    }

    ghost function Set(): Settings
      reads this
    {
      Settings(batch, orphanGrace, queueCapacity, policy)
    }

    method QueueOrphans(now: int) returns (failed: bool, ids: seq<JobId>)
      requires Valid() && InOrder()
      modifies this`sys, this`tick, this`trace, this`served, this`log
      ensures Valid() && Grown() && InOrder() && Preserved(old(sys), sys) && tick > old(tick)
      ensures failed <==> fate(old(tick)) != Works
      ensures NoFailuresMarked(old(log), log)
      ensures !failed ==>
                JobRows.OldestOrphans(ids, Steps(old(sys), world(old(tick))).db.rows, now - orphanGrace, batch)
      ensures Worked(old(tick), tick) ==> OrphansFrom(start, trace, served[old(tick)], now, Set())
      ensures forall job | Guarded(old(sys), job) :: Times(log, OrphanQueued(job)) == Times(old(log), OrphanQueued(job))
    {
      var rows;
      failed, ids, rows := SelectOrphans(now - orphanGrace);
      if !failed {
        ghost var s, before := sys, trace;
        QueueAll(ids, rows, now);
        PreservedTransitive(old(sys), s, sys);
        if Worked(old(tick), tick) {
          OrphansNow(start, before, s, old(log), trace, ids, now, Set());
        }
      }
    }

    /** The query for orphans older than a time; none of those found is guarded except by a marker. */
    method SelectOrphans(before: int) returns (failed: bool, ids: seq<JobId>, rows: Rows)
      requires Valid() && InOrder()
      modifies this`sys, this`tick, this`trace, this`served
      ensures Valid() && InOrder() && tick == old(tick) + 1 && Preserved(old(sys), sys) && Grown()
      ensures served[old(tick)] == |trace|
      ensures failed <==> fate(old(tick)) != Works
      ensures rows == sys.db.rows == Steps(old(sys), world(old(tick))).db.rows
      ensures !failed ==> JobRows.OldestOrphans(ids, rows, before, batch)
      ensures forall k | 0 <= k < |ids| :: ids[k] in rows
      ensures forall job | Guarded(old(sys), job) :: job !in ids || job in sys.queue.completed
    {
      var f := Reach();
      failed, ids, rows := f != Works, [], sys.db.rows;
      if !failed {
        ids := JobRows.PendingOrphans(rows, before, batch);
        GuardedAreNoOrphans(sys, ids, before);
      }
    }

    /** Offers every job to the orphan script; one that carries a marker is not queued. */
    method QueueAll(ids: seq<JobId>, rows: map<JobId, JobRows.Row>, now: int)
      requires Valid() && InOrder() && rows == sys.db.rows
      requires forall k | 0 <= k < |ids| :: ids[k] in rows
      modifies this`sys, this`tick, this`trace, this`served, this`log
      ensures Valid() && Grown() && InOrder() && Preserved(old(sys), sys)
      ensures Worked(old(tick), tick) ==> Offered(trace, |old(trace)|, rows, ids, queueCapacity, now)
      ensures NoFailuresMarked(old(log), log)
      ensures forall job | job !in ids || job in old(sys).queue.completed ::
                Times(log, OrphanQueued(job)) == Times(old(log), OrphanQueued(job))
    {
      var i := 0;
      while i < |ids|
        invariant 0 <= i <= |ids|
        invariant Valid() && Grown() && InOrder() && Preserved(old(sys), sys)
        invariant RowsMoved(rows, sys.db.rows) && old(sys).queue.completed <= sys.queue.completed
        invariant Worked(old(tick), tick) ==> Offered(trace, |old(trace)|, rows, ids[..i], queueCapacity, now)
        invariant NoFailuresMarked(old(log), log)
        invariant forall job | job !in ids || job in old(sys).queue.completed ::
                    Times(log, OrphanQueued(job)) == Times(old(log), OrphanQueued(job))
      {
        ghost var s, before := sys, trace;
        assert RowMoved(rows[ids[i]], sys.db.rows[ids[i]]);
        QueueOrphan(ids[i], rows[ids[i]].user, now);
        RowsMovedTransitive(rows, s.db.rows, sys.db.rows);
        PreservedTransitive(old(sys), s, sys);
        if Worked(old(tick), tick) {
          SinceEarlier(trace, |before|, |old(trace)|, Offer(ids[i], rows[ids[i]].user, queueCapacity, now));
          OfferedNext(before, |old(trace)|, rows, ids[..i], queueCapacity, now, trace, ids[i]);
          assert ids[..i + 1] == ids[..i] + [ids[i]];
        }
        i := i + 1;
      }
      assert ids[..i] == ids;
    }

    method QueueOrphan(id: JobId, user: UserId, now: int)
      requires Valid() && InOrder() && IsOwner(sys, id, user)
      modifies this`sys, this`tick, this`trace, this`served, this`log
      ensures Valid() && Grown() && InOrder() && Preserved(old(sys), sys)
      ensures old(sys).queue.completed <= sys.queue.completed && RowsMoved(old(sys).db.rows, sys.db.rows)
      ensures Worked(old(tick), tick) ==> Since(trace, |old(trace)|, Offer(id, user, queueCapacity, now))
      ensures NoFailuresMarked(old(log), log)
      ensures forall job | job != id || job in old(sys).queue.completed ::
                Times(log, OrphanQueued(job)) == Times(old(log), OrphanQueued(job))
    {
      var f := Reach();
      assert RowMoved(old(sys).db.rows[id], sys.db.rows[id]);
      if f == Lost {
        return;
      }
      ghost var m := Offer(id, user, queueCapacity, now);
      QueuePreserves(sys, m.q);
      PreservedTransitive(old(sys), sys, Step1(sys, m));
      LedgerEntered(start.db.rows, sys.db.rows, log, Failures(tick), policy, OrphanQueued(id));
      EntryAdded(log, OrphanQueued(id));
      Do(Offer(id, user, queueCapacity, now));
      assert trace[|trace| - 1] == Mine(m);
    }

    /** Marker beats orphan sweep: no job that is marked when reconciliation starts, or whose row is terminal by
        then, is queued by the orphan sweep that follows, whatever others do in between and whichever calls fail. */
    method SettleThenSweepOrphans(now: int) returns (ghost orphans: nat)
      requires Valid() && InOrder()
      modifies this`sys, this`tick, this`trace, this`served, this`log, this`orphanGrace, this`queueCapacity
      ensures Valid() && Grown() && InOrder() && Preserved(old(sys), sys)
      ensures forall job | job in old(sys).queue.completed :: Guarded(sys, job)
      ensures forall job | Guarded(old(sys), job) :: Times(log, OrphanQueued(job)) == Times(old(log), OrphanQueued(job))
      ensures orphanGrace == if old(orphanGrace) <= 0 then 5 * interval else old(orphanGrace)
      ensures queueCapacity == if old(queueCapacity) <= 0 then 10 else old(queueCapacity)
      ensures NoFailuresMarked(old(log), log) && old(tick) < orphans < tick
      ensures Worked(old(tick), tick) ==>
                && SettledFrom(start, trace, served[old(tick)], sys)
                && OrphansFrom(start, trace, served[orphans], now, Set())
    {
      var _ := ReconcileCompleted();
      orphans := tick;
      ghost var s, before, were := sys, trace, served;
      var _, _ := SweepOrphans(now);
      PreservedTransitive(old(sys), s, sys);
      if Worked(old(tick), tick) {
        assert Worked(old(tick), orphans) && Worked(orphans, tick) && served[old(tick)] == were[old(tick)];
        SettledLater(start, before, were[old(tick)], s, trace, sys);
      }
    }

    /** The loop, one pass per tick.  Over any number of passes, whatever others do: a job is requeued on lease expiry
        at most MaxAttempts less its first retry count times, plus once for each failed call; it is given up only
        after that many requeues; and recovery marks it failed only if it gave it up.  Each pass reads the expired
        leases, then the markers, then the orphan rows, and if all calls made work it follows each read up.  Every
        expired job of the batch is answered for: below the limit it is in its owner's queue from then on, at the limit
        its row ends terminal.  Every marked job ends terminal, and one that was terminal already loses its marker.
        The oldest orphans are offered to their queues.  Of every job recovery marked failed, the idempotency record and
        then the stream are told. */
    method Run(ticks: seq<int>) returns (ghost passes: seq<PassCalls>)
      requires Valid() && InOrder()
      modifies this
      ensures Valid() && Grown() && InOrder()
      ensures Preserved(old(sys), sys) && start == old(start)
      ensures forall job | job in sys.db.rows ::
                var limit := policy(sys.db.rows[job].user) - Base(start.db.rows, job);
                var requeues := Times(log, Requeued(job));
                && requeues <= AtLeastZero(limit) + Failures(tick)
                && (Abandoned(job) in log ==> limit <= requeues)
                && (Marked(job, JobRows.Failed) in log ==> Abandoned(job) in log)
                && (Failures(tick) == 0 && Abandoned(job) in log ==> requeues == AtLeastZero(limit))
      ensures interval == if old(interval) <= 0 then 30000 else old(interval)
      ensures batch == if old(batch) <= 0 then 100 else old(batch)
      ensures ticks != [] ==> orphanGrace == if old(orphanGrace) <= 0 then 5 * interval else old(orphanGrace)
      ensures ticks != [] ==> queueCapacity == if old(queueCapacity) <= 0 then 10 else old(queueCapacity)
      ensures |passes| == |ticks| && InSequence(passes, old(tick), tick)
      ensures Worked(old(tick), tick) ==> AllDone(start, trace, served, passes, ticks, sys, Set())
      ensures Worked(old(tick), tick) ==> FailuresTold(old(log), log, trace, |old(trace)|)
    {
      if interval <= 0 {
        interval := 30000;
      }
      if batch <= 0 {
        batch := 100;
      }
      passes := Passes(ticks);
      assert forall job | job in sys.db.rows :: Account(start.db.rows, sys.db.rows, log, Failures(tick), policy, job);
    }

    method Passes(ticks: seq<int>) returns (ghost passes: seq<PassCalls>)
      requires Valid() && InOrder() && interval > 0
      modifies this`sys, this`tick, this`trace, this`served, this`log, this`orphanGrace, this`queueCapacity
      ensures Valid() && Grown() && InOrder()
      ensures ticks != [] ==> orphanGrace == if old(orphanGrace) <= 0 then 5 * interval else old(orphanGrace)
      ensures ticks != [] ==> queueCapacity == if old(queueCapacity) <= 0 then 10 else old(queueCapacity)
      ensures Preserved(old(sys), sys) && |passes| == |ticks| && InSequence(passes, old(tick), tick)
      ensures Worked(old(tick), tick) ==> AllDone(start, trace, served, passes, ticks, sys, Set())
      ensures Worked(old(tick), tick) ==> FailuresTold(old(log), log, trace, |old(trace)|)
    {
      passes := [];
      var i := 0;
      while i < |ticks|
        invariant 0 <= i <= |ticks| && |passes| == i && InSequence(passes, old(tick), tick)
        invariant if i == 0
                  then tick == old(tick) && orphanGrace == old(orphanGrace) && queueCapacity == old(queueCapacity)
                  else && orphanGrace == (if old(orphanGrace) <= 0 then 5 * interval else old(orphanGrace))
                       && queueCapacity == if old(queueCapacity) <= 0 then 10 else old(queueCapacity)
        invariant Valid() && Grown() && InOrder()
        invariant Preserved(old(sys), sys)
        invariant Worked(old(tick), tick) ==> AllDone(start, trace, served, passes, ticks, sys, Set())
        invariant Worked(old(tick), tick) ==> FailuresTold(old(log), log, trace, |old(trace)|)
      {
        ghost var s, before, were, n, l := sys, trace, served, tick, log;
        ghost var calls := Pass(ticks[i]);
        PreservedTransitive(old(sys), s, sys);
        if Worked(old(tick), tick) {
          assert Worked(old(tick), n) && AllDone(start, before, were, passes, ticks, s, Set());
          FailuresToldJoined(old(log), l, log, before, |old(trace)|, trace, |before|);
          AllDoneNext(start, before, were, passes, ticks, s, Set(), trace, served, sys, calls);
        }
        NextInSequence(passes, old(tick), n, tick, calls);
        passes := passes + [calls];
        i := i + 1;
      }
    }

    method Pass(now: int) returns (ghost calls: PassCalls)
      requires Valid() && InOrder()
      modifies this`sys, this`tick, this`trace, this`served, this`log, this`orphanGrace, this`queueCapacity
      ensures Valid() && Grown() && InOrder() && Preserved(old(sys), sys)
      ensures orphanGrace == if old(orphanGrace) <= 0 then 5 * interval else old(orphanGrace)
      ensures queueCapacity == if old(queueCapacity) <= 0 then 10 else old(queueCapacity)
      ensures calls.sweep == old(tick) < calls.settle < calls.orphans < tick
      ensures Worked(old(tick), tick) ==> PassDone(start, trace, served, calls, sys, now, Set())
      ensures Worked(old(tick), tick) ==> FailuresTold(old(log), log, trace, |old(trace)|)
    {
      var _, _ := Sweep(now);
      ghost var s, before, were, n, l := sys, trace, served, tick, log;
      ghost var orphans := SettleThenSweepOrphans(now);
      calls := PassCalls(old(tick), n, orphans);
      PreservedTransitive(old(sys), s, sys);
      if Worked(old(tick), tick) {
        assert Worked(old(tick), n) && Worked(n, tick) && served[old(tick)] == were[old(tick)];
        SweptLater(start, before, were[old(tick)], s, trace, sys, now, batch, policy);
        FailuresToldJoined(old(log), l, log, before, |old(trace)|, trace, |before|);
      }
    }
  }
}

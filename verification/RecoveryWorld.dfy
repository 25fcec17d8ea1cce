/** Everything that may happen beside the recovery loop: workers and submissions acting on the scheduler's keys
    and on the job rows, in any number and order, between any two calls recovery makes. */
module RecoveryWorld {
  import opened Scheduler
  import JobRows

  datatype Sys = Sys(queue: Scheduler.State, db: JobRows.Table)

  /** Word that a job has ended, to its idempotency record or to its event stream. */
  datatype Notice = ToRecord(job: JobId, completed: bool) | ToStream(job: JobId, completed: bool)

  datatype Move = OnQueue(q: Step) | OnRows(r: JobRows.RowStep) | Telling(n: Notice)

  /** The identity recovery's own marks go by. */
  const RECOVERY: nat := 0

  /** With one recovery loop, nobody else takes over leases, sweeps orphans, removes markers or rewrites a
      `created` row; everything else is anybody's. */
  predicate Outside(m: Move) {
    match m
    case OnQueue(q) => !q.RemoveCompleted? && !q.RequeueExpired? && !q.RemoveExpired? && !q.EnqueueOrphan?
    case OnRows(r) =>
      && JobRows.Lawful(r) && !r.UpdateIfCreated?
      && (r.BeginMark? ==> r.id != RECOVERY)
      && (r.WriteMark? ==> r.writer != RECOVERY)
      && (r.AbandonMark? ==> r.quitter != RECOVERY)
    case Telling(_) => true
  }

  predicate AllOutside(moves: seq<Move>) {
    forall i | 0 <= i < |moves| :: Outside(moves[i])
  }

  function Step1(s: Sys, m: Move): Sys {
    match m
    case OnQueue(q) => s.(queue := Next(s.queue, q))
    case OnRows(r) => s.(db := JobRows.Apply(s.db, r))
    case Telling(_) => s
  }

  function Steps(s: Sys, moves: seq<Move>): Sys
    decreases |moves|
  {
    if moves == [] then s else Steps(Step1(s, moves[0]), moves[1..])
  }

  // ---- what others can do to rows and markers ----

  /** How a row may change under others: its owner and age never, a terminal status never back, and the retry
      count only together with a terminal status. */
  predicate RowMoved(a: JobRows.Row, b: JobRows.Row) {
    && b.user == a.user && b.createdAt == a.createdAt
    && (b.status == JobRows.Created ==> a.status == JobRows.Created && b.retryCount == a.retryCount)
  }

  ghost predicate RowsMoved(a: map<JobId, JobRows.Row>, b: map<JobId, JobRows.Row>) {
    && (forall job | job in a :: job in b && RowMoved(a[job], b[job]))
    && (forall job | job in b && job !in a :: b[job].status == JobRows.Created ==> b[job].retryCount == 1)
  }

  ghost predicate Moved(s: Sys, t: Sys) {
    && s.queue.completed <= t.queue.completed
    && RowsMoved(s.db.rows, t.db.rows)
    && (RECOVERY in s.db.marks <==> RECOVERY in t.db.marks)
    && (RECOVERY in s.db.marks ==> s.db.marks[RECOVERY] == t.db.marks[RECOVERY])
    && (JobRows.MarksAreTerminal(s.db) ==> JobRows.MarksAreTerminal(t.db))
  }

  lemma RowsMovedTransitive(a: map<JobId, JobRows.Row>, b: map<JobId, JobRows.Row>, c: map<JobId, JobRows.Row>)
    requires RowsMoved(a, b) && RowsMoved(b, c)
    ensures RowsMoved(a, c)
  {
    forall job | job in a ensures job in c && RowMoved(a[job], c[job]) {
      assert RowMoved(a[job], b[job]) && RowMoved(b[job], c[job]);
    }
    forall job | job in c && job !in a && c[job].status == JobRows.Created ensures c[job].retryCount == 1 {
      if job in b { assert RowMoved(b[job], c[job]); }
    }
  }

  lemma QueueMove(s: Sys, q: Step)
    requires Outside(OnQueue(q))
    ensures Moved(s, Step1(s, OnQueue(q)))
  {}

  lemma RowMove(s: Sys, r: JobRows.RowStep)
    requires Outside(OnRows(r)) && JobRows.MarksAreTerminal(s.db)
    ensures Moved(s, Step1(s, OnRows(r)))
  {}

  lemma {:induction false} OthersMove(s: Sys, moves: seq<Move>)
    requires AllOutside(moves) && JobRows.MarksAreTerminal(s.db)
    ensures Moved(s, Steps(s, moves))
    decreases |moves|
  {
    if moves != [] {
      assert Outside(moves[0]);
      assert forall i | 0 <= i < |moves| - 1 :: moves[1..][i] == moves[i + 1];
      var t := Step1(s, moves[0]);
      match moves[0] {
        case OnQueue(q) => QueueMove(s, q);
        case OnRows(r) => RowMove(s, r);
        case Telling(_) =>
      }
      OthersMove(t, moves[1..]);
      RowsMovedTransitive(s.db.rows, t.db.rows, Steps(t, moves[1..]).db.rows);
    }
  }

  // ---- what others can do to leases ----

  /** Any lease this move grants or renews ends after the cutoff. */
  predicate GrantsBeyond(m: Move, cutoff: int) {
    m.OnQueue? && (m.q.Dequeue? || m.q.Extend?) ==> m.q.now + m.q.lease > cutoff
  }

  predicate AllGrantBeyond(moves: seq<Move>, cutoff: int) {
    forall i | 0 <= i < |moves| :: GrantsBeyond(moves[i], cutoff)
  }

  /** The job holds no lease that has run out by the cutoff. */
  predicate Clear(leases: map<JobId, int>, job: JobId, cutoff: int) {
    job in leases ==> leases[job] > cutoff
  }

  lemma {:induction false} StaysClear(s: Sys, moves: seq<Move>, job: JobId, cutoff: int)
    requires AllGrantBeyond(moves, cutoff) && Clear(s.queue.leases, job, cutoff)
    ensures Clear(Steps(s, moves).queue.leases, job, cutoff)
    decreases |moves|
  {
    if moves != [] {
      assert GrantsBeyond(moves[0], cutoff);
      assert forall i | 0 <= i < |moves| - 1 :: moves[1..][i] == moves[i + 1];
      ClearStep(s, moves[0], job, cutoff);
      StaysClear(Step1(s, moves[0]), moves[1..], job, cutoff);
    }
  }

  lemma ClearStep(s: Sys, m: Move, job: JobId, cutoff: int)
    requires GrantsBeyond(m, cutoff) && Clear(s.queue.leases, job, cutoff)
    ensures Clear(Step1(s, m).queue.leases, job, cutoff)
  {
    if m.OnQueue? {
      if m.q.Dequeue? {
        ClaimedLeases(s.queue, m.q.now, m.q.lease);
      } else {
        LeasesWithoutClaim(s.queue, m.q, job);
      }
    }
  }

  lemma LeasesWithoutClaim(s: Scheduler.State, q: Step, job: JobId)
    requires !q.Dequeue?
    ensures job in Next(s, q).leases ==>
              && job in s.leases
              && Next(s, q).leases[job] == if q.Extend? && q.job == job then q.now + q.lease else s.leases[job]
  {}
}

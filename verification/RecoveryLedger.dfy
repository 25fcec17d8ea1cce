/** What recovery did, read off the history of all moves, and the account it leaves of every job. */
module RecoveryLedger {
  import opened Scheduler
  import opened RecoveryWorld
  import JobRows
  import Ranking

  // ---- what recovery did ----

  /** One entry of the history: a move of recovery's own, or anybody else's. */
  datatype Entry = Mine(m: Move) | Theirs(m: Move)

  /** What one of recovery's moves came to, judged by the state it met. */
  datatype Action =
    | Requeued(job: JobId)
    | Abandoned(job: JobId)       // its lease was removed though its row was not terminal
    | Marked(job: JobId, outcome: JobRows.Status)
    | Settled(job: JobId)         // its completed marker was removed
    | OrphanQueued(job: JobId)
    | Unfounded(m: Move)          // the wrong user's queue, a wrong retry count, `completed` without a marker, or
                                  // a move that is not recovery's to make

  predicate IsOwner(s: Sys, job: JobId, user: UserId) {
    job in s.db.rows && s.db.rows[job].user == user
  }

  predicate IsFounded(s: Sys, mark: JobRows.Mark) {
    && mark.job in s.db.rows
    && (mark.outcome == JobRows.Completed ==> mark.job in s.queue.completed)
    && (s.db.rows[mark.job].status == JobRows.Created ==> mark.retryCount == s.db.rows[mark.job].retryCount)
  }

  ghost function Effect(s: Sys, m: Move): seq<Action> {
    match m
    case OnQueue(q) =>
      (match q
       case RequeueExpired(job, user, _) =>
         if Exec(s.queue, q).reply != Code(1) then []
         else [if IsOwner(s, job, user) then Requeued(job) else Unfounded(m)]
       case RemoveExpired(job, _) =>
         if Exec(s.queue, q).reply != Code(1) || JobRows.IsTerminal(s.db, job) then [] else [Abandoned(job)]
       case EnqueueOrphan(job, user, _, _) =>
         if Exec(s.queue, q).reply != Code(1) then []
         else [if IsOwner(s, job, user) then OrphanQueued(job) else Unfounded(m)]
       case RemoveCompleted(job) => [Settled(job)]
       case _ => [Unfounded(m)])
    case OnRows(r) =>
      (match r
       case BeginMark(id, _) => if id == RECOVERY then [] else [Unfounded(m)]
       case AbandonMark(id) => if id == RECOVERY then [] else [Unfounded(m)]
       case WriteMark(id) =>
         if id == RECOVERY && id in s.db.marks && IsFounded(s, s.db.marks[id])
         then [Marked(s.db.marks[id].job, s.db.marks[id].outcome)] else [Unfounded(m)]
       case UpdateIfCreated(job, n) =>
         if job in s.db.rows && s.db.rows[job].status == JobRows.Created && n != s.db.rows[job].retryCount + 1
         then [Unfounded(m)] else []
       case Create(_, _, _) => [Unfounded(m)])
    case Telling(_) => []
  }

  ghost function EffectOf(s: Sys, e: Entry): seq<Action> {
    if e.Mine? then Effect(s, e.m) else []
  }

  /** The state a history leads to, and everything recovery did in it. */
  ghost function Replay(s: Sys, trace: seq<Entry>): Sys
    decreases |trace|
  {
    if trace == [] then s else Replay(Step1(s, trace[0].m), trace[1..])
  }

  ghost function Effects(s: Sys, trace: seq<Entry>): seq<Action>
    decreases |trace|
  {
    if trace == [] then [] else EffectOf(s, trace[0]) + Effects(Step1(s, trace[0].m), trace[1..])
  }

  function Others(moves: seq<Move>): (trace: seq<Entry>)
    ensures |trace| == |moves| && forall i | 0 <= i < |moves| :: trace[i] == Theirs(moves[i])
  {
    seq(|moves|, i requires 0 <= i < |moves| => Theirs(moves[i]))
  }

  lemma {:induction false} OthersHaveNoEffects(s: Sys, moves: seq<Move>)
    ensures Replay(s, Others(moves)) == Steps(s, moves) && Effects(s, Others(moves)) == []
    decreases |moves|
  {
    if moves != [] {
      assert Others(moves)[1..] == Others(moves[1..]);
      OthersHaveNoEffects(Step1(s, moves[0]), moves[1..]);
    }
  }

  lemma {:induction false} ReplayAppend(s: Sys, a: seq<Entry>, b: seq<Entry>)
    ensures Replay(s, a + b) == Replay(Replay(s, a), b)
    decreases |a|
  {
    if a == [] {
      assert a + b == b;
    } else {
      assert (a + b)[1..] == a[1..] + b;
      ReplayAppend(Step1(s, a[0].m), a[1..], b);
    }
  }

  lemma {:induction false} EffectsAppend(s: Sys, a: seq<Entry>, b: seq<Entry>)
    ensures Effects(s, a + b) == Effects(s, a) + Effects(Replay(s, a), b)
    decreases |a|
  {
    if a == [] {
      assert a + b == b;
    } else {
      assert (a + b)[1..] == a[1..] + b;
      var first, s' := EffectOf(s, a[0]), Step1(s, a[0].m);
      calc {
        Effects(s, a + b);
        first + Effects(s', a[1..] + b);
        { EffectsAppend(s', a[1..], b); }
        first + (Effects(s', a[1..]) + Effects(Replay(s', a[1..]), b));
        (first + Effects(s', a[1..])) + Effects(Replay(s', a[1..]), b);
        Effects(s, a) + Effects(Replay(s, a), b);
      }
    }
  }

  /** The history leads from one state to the other, and the log is what recovery did in it.  The quantifier keeps
      the verifier from unfolding the history where nobody asks for it. */
  ghost predicate Happened(start: Sys, trace: seq<Entry>, s: Sys, log: seq<Action>) {
    forall t {:trigger Replay(start, t)} | t == trace :: s == Replay(start, t) && log == Effects(start, t)
  }

  lemma NothingHappened(start: Sys)
    ensures Happened(start, [], start, [])
  {
    assert Replay(start, []) == start && Effects(start, []) == [];
  }

  lemma HappenedAppend(start: Sys, trace: seq<Entry>, s: Sys, log: seq<Action>, more: seq<Entry>)
    requires Happened(start, trace, s, log)
    ensures Happened(start, trace + more, Replay(s, more), log + Effects(s, more))
  {
    assert s == Replay(start, trace) && log == Effects(start, trace);
    ReplayAppend(start, trace, more);
    EffectsAppend(start, trace, more);
  }

  // ---- no expired job is lost ----

  /** Recovery's script for a job's expired lease, met in this state, and how things stand at the end.  A job below its
      limit, if its lease has run out, is in its owner's queue from here on; one at its limit, or ended already, has a
      terminal row at the end. */
  ghost predicate Answers(s: Sys, e: Entry, end: Sys, id: JobId, cutoff: int, policy: UserId -> int) {
    && e.Mine? && e.m.OnQueue? && id in s.db.rows
    && var row, t := s.db.rows[id], Step1(s, e.m);
    match e.m.q
    case RequeueExpired(job, user, c) =>
      && job == id && user == row.user && c == cutoff
      && (row.status == JobRows.Created ==> row.retryCount < policy(user))
      && (!Clear(s.queue.leases, id, cutoff) ==> id in List(t.queue, user) && id !in t.queue.leases)
    case RemoveExpired(job, c) =>
      && job == id && c == cutoff
      && (row.status == JobRows.Created ==> policy(row.user) <= row.retryCount)
      && (!Clear(s.queue.leases, id, cutoff) ==> id !in t.queue.leases && JobRows.IsTerminal(end.db, id))
    case _ => false
  }

  /** Since the history was `from` entries long recovery has answered for the job. */
  ghost predicate Resolved(start: Sys, trace: seq<Entry>, from: nat, end: Sys, id: JobId, cutoff: int,
                           policy: UserId -> int)
  {
    forall t {:trigger Replay(start, t)} | t == trace ::
      exists j :: from <= j < |t| && Answers(Replay(start, t[..j]), t[j], end, id, cutoff, policy)
  }

  lemma AnsweredNow(start: Sys, before: seq<Entry>, s: Sys, log: seq<Action>, trace: seq<Entry>, from: nat, end: Sys,
                    id: JobId, cutoff: int, policy: UserId -> int)
    requires Happened(start, before, s, log) && before <= trace && from <= |before| < |trace|
    requires Answers(s, trace[|before|], end, id, cutoff, policy)
    ensures Resolved(start, trace, from, end, id, cutoff, policy)
  {
    assert trace[..|before|] == before && s == Replay(start, before);
  }

  lemma RequeueAnswers(s: Sys, end: Sys, id: JobId, user: UserId, cutoff: int, policy: UserId -> int)
    requires IsOwner(s, id, user)
    requires s.db.rows[id].status == JobRows.Created ==> s.db.rows[id].retryCount < policy(user)
    ensures Answers(s, Mine(OnQueue(RequeueExpired(id, user, cutoff))), end, id, cutoff, policy)
  {
    PushLists(s.queue, user, id);
  }

  lemma AnsweredStill(s: Sys, e: Entry, end: Sys, later: Sys, id: JobId, cutoff: int, policy: UserId -> int)
    requires Answers(s, e, end, id, cutoff, policy) && Preserved(end, later)
    ensures Answers(s, e, later, id, cutoff, policy)
  {}

  lemma ResolvedLater(start: Sys, trace: seq<Entry>, from: nat, end: Sys, more: seq<Entry>, earlier: nat, later: Sys,
                      id: JobId, cutoff: int, policy: UserId -> int)
    requires Resolved(start, trace, from, end, id, cutoff, policy)
    requires trace <= more && earlier <= from && Preserved(end, later)
    ensures Resolved(start, more, earlier, later, id, cutoff, policy)
  {
    var _ := Replay(start, trace);
    var j :| from <= j < |trace| && Answers(Replay(start, trace[..j]), trace[j], end, id, cutoff, policy);
    assert more[..j] == trace[..j] && more[j] == trace[j];
    AnsweredStill(Replay(start, trace[..j]), trace[j], end, later, id, cutoff, policy);
  }

  /** Recovery has answered for each of these jobs that had a row. */
  ghost predicate Handled(start: Sys, trace: seq<Entry>, from: nat, end: Sys, rows: Rows, ids: seq<JobId>, now: int,
                          policy: UserId -> int)
  {
    forall k | 0 <= k < |ids| && ids[k] in rows :: Resolved(start, trace, from, end, ids[k], now, policy)
  }

  lemma HandledNext(start: Sys, trace: seq<Entry>, from: nat, end: Sys, rows: Rows, ids: seq<JobId>, now: int,
                    policy: UserId -> int, more: seq<Entry>, later: Sys, id: JobId)
    requires Handled(start, trace, from, end, rows, ids, now, policy)
    requires from <= |trace| && trace <= more && Preserved(end, later)
    requires id in rows ==> Resolved(start, more, |trace|, later, id, now, policy)
    ensures Handled(start, more, from, later, rows, ids + [id], now, policy)
  {
    forall k | 0 <= k < |ids| && ids[k] in rows ensures Resolved(start, more, from, later, ids[k], now, policy) {
      ResolvedLater(start, trace, from, end, more, from, later, ids[k], now, policy);
    }
    if id in rows { ResolvedLater(start, more, |trace|, later, more, from, later, id, now, policy); }
  }

  /** The leases expired by `now` were read when the history was `at` entries long, and recovery has since answered for
      every job of the batch that had a row. */
  ghost predicate Swept(start: Sys, trace: seq<Entry>, at: nat, end: Sys, now: int, batch: int, policy: UserId -> int) {
    exists ids :: SweptAt(start, trace, at, ids, end, now, batch, policy)
  }

  ghost predicate SweptAt(start: Sys, trace: seq<Entry>, at: nat, ids: seq<JobId>, end: Sys, now: int, batch: int,
                          policy: UserId -> int)
  {
    && at <= |trace|
    && ReadAt(start, trace, at, ids, now, batch)
    && forall k | 0 <= k < |ids| ::
         HadNoRow(start, trace, at, ids[k]) || Resolved(start, trace, at, end, ids[k], now, policy)
  }

  /** The ids are the leases that had run out first, of those expired when the history was `at` entries long. */
  ghost predicate ReadAt(start: Sys, trace: seq<Entry>, at: nat, ids: seq<JobId>, now: int, batch: int)
    requires at <= |trace|
  {
    forall t {:trigger Replay(start, t)} | t == trace[..at] :: IsBatch(ids, Replay(start, t).queue.leases, now, batch)
  }

  ghost predicate HadNoRow(start: Sys, trace: seq<Entry>, at: nat, id: JobId)
    requires at <= |trace|
  {
    forall t {:trigger Replay(start, t)} | t == trace[..at] :: id !in Replay(start, t).db.rows
  }

  /** The leases that have run out by a time. */
  function Expired(leases: map<JobId, int>, cutoff: int): map<JobId, int> {
    map job | job in leases && leases[job] <= cutoff :: leases[job]
  }

  /** The expired leases that ran out first; a batch size that is not positive takes them all. */
  ghost predicate IsBatch(ids: seq<JobId>, leases: map<JobId, int>, now: int, batch: int) {
    Ranking.IsLeast(ids, Expired(leases, now), if batch > 0 then batch else |Expired(leases, now)|)
  }

  lemma SweptNow(start: Sys, before: seq<Entry>, s: Sys, log: seq<Action>, trace: seq<Entry>, ids: seq<JobId>, end: Sys,
                 now: int, batch: int, policy: UserId -> int)
    requires Happened(start, before, s, log) && before <= trace && IsBatch(ids, s.queue.leases, now, batch)
    requires forall k | 0 <= k < |ids| && ids[k] in s.db.rows ::
               Resolved(start, trace, |before|, end, ids[k], now, policy)
    ensures Swept(start, trace, |before|, end, now, batch, policy)
  {
    assert trace[..|before|] == before && s == Replay(start, before);
    assert SweptAt(start, trace, |before|, ids, end, now, batch, policy);
  }

  lemma SweptLater(start: Sys, trace: seq<Entry>, at: nat, end: Sys, more: seq<Entry>, later: Sys, now: int, batch: int,
                   policy: UserId -> int)
    requires Swept(start, trace, at, end, now, batch, policy) && trace <= more && Preserved(end, later)
    ensures Swept(start, more, at, later, now, batch, policy)
  {
    var ids :| SweptAt(start, trace, at, ids, end, now, batch, policy);
    assert more[..at] == trace[..at];
    forall k | 0 <= k < |ids| && !HadNoRow(start, more, at, ids[k])
      ensures Resolved(start, more, at, later, ids[k], now, policy)
    {
      ResolvedLater(start, trace, at, end, more, at, later, ids[k], now, policy);
    }
    assert SweptAt(start, more, at, ids, later, now, batch, policy);
  }

  // ---- where in the history each call was served ----

  /** Call number `n` was served when the history was `served[n]` entries long, right after what others did before. */
  ghost predicate ServedBy(trace: seq<Entry>, served: seq<nat>, world: nat -> seq<Move>) {
    && (forall n | 0 <= n < |served| :: ServedAt(trace, served[n], world(n)))
    && (forall m, n | 0 <= m < n < |served| :: served[m] + |world(n)| <= served[n])
  }

  ghost predicate ServedAt(trace: seq<Entry>, at: nat, moves: seq<Move>) {
    |moves| <= at <= |trace| && trace[at - |moves|..at] == Others(moves)
  }

  /** The same, unfolded only where it is asked for. */
  ghost predicate ServedIn(trace: seq<Entry>, served: seq<nat>, world: nat -> seq<Move>) {
    forall t {:trigger ServedBy(t, served, world)} | t == trace :: ServedBy(t, served, world)
  }

  lemma ServedMore(trace: seq<Entry>, more: seq<Entry>, served: seq<nat>, world: nat -> seq<Move>)
    requires ServedIn(trace, served, world) && trace <= more
    ensures ServedIn(more, served, world)
  {
    assert ServedBy(trace, served, world);
    forall n | 0 <= n < |served| ensures ServedAt(more, served[n], world(n)) {
      assert ServedAt(trace, served[n], world(n));
      assert more[served[n] - |world(n)|..served[n]] == trace[served[n] - |world(n)|..served[n]];
    }
  }

  lemma ServedNext(trace: seq<Entry>, served: seq<nat>, world: nat -> seq<Move>)
    requires ServedIn(trace, served, world)
    ensures var more := trace + Others(world(|served|));
            ServedIn(more, served + [|more|], world)
  {
    var more := trace + Others(world(|served|));
    ServedMore(trace, more, served, world);
    assert ServedBy(trace, served, world) && ServedBy(more, served, world);
    assert forall n | 0 <= n < |served| :: ServedAt(trace, served[n], world(n));
    assert more[|trace|..|more|] == Others(world(|served|));
  }

  // ---- counting ----

  function Times(log: seq<Action>, a: Action): nat {
    multiset(log)[a]
  }

  lemma TimesAppend(log: seq<Action>, a: Action, b: Action)
    ensures Times(log + [a], b) == Times(log, b) + if a == b then 1 else 0
  {
    assert multiset(log + [a]) == multiset(log) + multiset([a]);
  }

  /** A completed job that must not run again: its marker is there, or its row is terminal. */
  ghost predicate Guarded(s: Sys, job: JobId) {
    job in s.queue.completed || JobRows.IsTerminal(s.db, job)
  }

  // ---- every job's account ----

  type Rows = map<JobId, JobRows.Row>

  function AtLeastZero(x: int): nat {
    if x > 0 then x else 0
  }

  /** The retry count a job had when recovery started, or was created with since. */
  function Base(start: Rows, job: JobId): int {
    if job in start then start[job].retryCount else 1
  }

  /** One job's account after `fails` failed calls.  While the job is `created`, its retry count has followed its
      requeues; it was requeued no more often than the policy allows, given up only when it had used the policy
      up, and marked failed only when given up. */
  ghost predicate Account(start: Rows, rows: Rows, log: seq<Action>, fails: nat, policy: UserId -> int, job: JobId) {
    var requeues := Times(log, Requeued(job));
    && (Marked(job, JobRows.Failed) in log ==> Abandoned(job) in log)
    && (job in start ==> job in rows)
    && if job !in rows then requeues == 0 && Abandoned(job) !in log
       else
         var row, base := rows[job], Base(start, job);
         && (row.status == JobRows.Created ==> row.retryCount <= base + requeues <= row.retryCount + fails)
         && requeues <= AtLeastZero(policy(row.user) - base) + fails
         && (Abandoned(job) in log ==> policy(row.user) <= base + requeues)
  }

  /** Every account is in order, and recovery did nothing it had no ground for. */
  ghost predicate Ledger(start: Rows, rows: Rows, log: seq<Action>, fails: nat, policy: UserId -> int) {
    && (forall job :: Account(start, rows, log, fails, policy, job))
    && (forall i | 0 <= i < |log| :: !log[i].Unfounded?)
  }

  lemma LedgerMoved(start: Rows, rows: Rows, later: Rows, log: seq<Action>, fails: nat, more: nat,
                    policy: UserId -> int)
    requires Ledger(start, rows, log, fails, policy) && RowsMoved(rows, later) && fails <= more
    ensures Ledger(start, later, log, more, policy)
  {
    forall job ensures Account(start, later, log, more, policy, job) {
      assert Account(start, rows, log, fails, policy, job);
      if job in rows { assert RowMoved(rows[job], later[job]); }
    }
  }

  lemma LedgerGrows(start: Rows, rows: Rows, log: seq<Action>, fails: nat, more: nat, policy: UserId -> int)
    requires Ledger(start, rows, log, fails, policy) && fails <= more
    ensures Ledger(start, rows, log, more, policy)
  {
    forall job ensures Account(start, rows, log, more, policy, job) {
      assert Account(start, rows, log, fails, policy, job);
    }
  }

  /** Whether the account allows this entry as it stands. */
  ghost predicate MayEnter(start: Rows, rows: Rows, log: seq<Action>, policy: UserId -> int, a: Action) {
    match a
    case Abandoned(job) =>
      job in rows && policy(rows[job].user) <= Base(start, job) + Times(log, Requeued(job))
    case Marked(job, outcome) => outcome == JobRows.Failed ==> Abandoned(job) in log
    case Settled(_) => true
    case OrphanQueued(_) => true
    case _ => false
  }

  lemma LedgerEntered(start: Rows, rows: Rows, log: seq<Action>, fails: nat, policy: UserId -> int, a: Action)
    requires Ledger(start, rows, log, fails, policy) && MayEnter(start, rows, log, policy, a)
    ensures Ledger(start, rows, log + [a], fails, policy)
  {
    forall job ensures Account(start, rows, log + [a], fails, policy, job) {
      assert Account(start, rows, log, fails, policy, job);
      TimesAppend(log, a, Requeued(job));
    }
  }

  /** The row was read as `created` and below its limit, and its account was in order. */
  predicate MayRequeue(start: Rows, log: seq<Action>, fails: nat, policy: UserId -> int, id: JobId, row: JobRows.Row) {
    && row.retryCount < policy(row.user)
    && row.retryCount <= Base(start, id) + Times(log, Requeued(id)) <= row.retryCount + fails
  }

  /** A requeue keeps the ledger when its new retry count reaches the row ... */
  lemma LedgerCounted(start: Rows, t: JobRows.Table, log: seq<Action>, fails: nat, policy: UserId -> int,
                      id: JobId, row: JobRows.Row)
    requires Ledger(start, t.rows, log, fails, policy) && MayRequeue(start, log, fails, policy, id, row)
    requires id in t.rows && RowMoved(row, t.rows[id])
    ensures Ledger(start, JobRows.Apply(t, JobRows.UpdateIfCreated(id, row.retryCount + 1)).rows,
                   log + [Requeued(id)], fails, policy)
  {
    var rows := JobRows.Apply(t, JobRows.UpdateIfCreated(id, row.retryCount + 1)).rows;
    forall job ensures Account(start, rows, log + [Requeued(id)], fails, policy, job) {
      assert Account(start, t.rows, log, fails, policy, job);
      TimesAppend(log, Requeued(id), Requeued(job));
    }
  }

  /** ... and when the count is lost with one more failed call. */
  lemma LedgerLost(start: Rows, rows: Rows, log: seq<Action>, fails: nat, policy: UserId -> int,
                   id: JobId, row: JobRows.Row)
    requires Ledger(start, rows, log, fails, policy) && MayRequeue(start, log, fails, policy, id, row)
    requires id in rows && RowMoved(row, rows[id])
    ensures Ledger(start, rows, log + [Requeued(id)], fails + 1, policy)
  {
    var more := fails + 1;
    forall job ensures Account(start, rows, log + [Requeued(id)], more, policy, job) {
      assert Account(start, rows, log, fails, policy, job);
      TimesAppend(log, Requeued(id), Requeued(job));
    }
  }

  /** Markers stay, and rows change only as others may change them. */
  ghost predicate Kept(s: Sys, t: Sys) {
    s.queue.completed <= t.queue.completed && RowsMoved(s.db.rows, t.db.rows)
  }

  lemma KeptTransitive(s: Sys, t: Sys, u: Sys)
    requires Kept(s, t) && Kept(t, u)
    ensures Kept(s, u)
  {
    RowsMovedTransitive(s.db.rows, t.db.rows, u.db.rows);
  }

  /** No guarded job loses its guard, no terminal row is reopened, no row disappears. */
  ghost predicate Preserved(s: Sys, t: Sys) {
    && (forall job | Guarded(s, job) :: Guarded(t, job))
    && (forall job | JobRows.IsTerminal(s.db, job) :: JobRows.IsTerminal(t.db, job))
    && s.db.rows.Keys <= t.db.rows.Keys
  }

  lemma KeptGuards(s: Sys, t: Sys)
    requires Kept(s, t)
    ensures Preserved(s, t)
  {
    forall job | JobRows.IsTerminal(s.db, job) ensures JobRows.IsTerminal(t.db, job) {
      assert RowMoved(s.db.rows[job], t.db.rows[job]);
    }
  }

  ghost predicate NoOrphansAdded(before: seq<Action>, after: seq<Action>) {
    forall job :: Times(after, OrphanQueued(job)) == Times(before, OrphanQueued(job))
  }

  lemma PreservedTransitive(s: Sys, t: Sys, u: Sys)
    requires Preserved(s, t) && Preserved(t, u)
    ensures Preserved(s, u)
  {}

  /** Storing a retry count in a `created` row takes nothing away. */
  lemma CountPreserves(s: Sys, id: JobId, n: int)
    ensures Preserved(s, Step1(s, OnRows(JobRows.UpdateIfCreated(id, n))))
  {}

  /** Nor does a move on the queues, unless it removes the marker of a job that has not ended. */
  lemma QueuePreserves(s: Sys, q: Step)
    requires q.RemoveCompleted? ==> JobRows.IsTerminal(s.db, q.job)
    ensures Preserved(s, Step1(s, OnQueue(q)))
  {}

  lemma EntryAdded(log: seq<Action>, a: Action)
    ensures !a.OrphanQueued? ==> NoOrphansAdded(log, log + [a])
    ensures forall b :: Times(log + [a], b) == Times(log, b) + if a == b then 1 else 0
  {
    forall b ensures Times(log + [a], b) == Times(log, b) + if a == b then 1 else 0 { TimesAppend(log, a, b); }
  }

  /** The stream is closed and then the marker removed, since the history was `from` entries long. */
  ghost predicate Dropped(trace: seq<Entry>, from: nat, job: JobId) {
    exists j, k :: from <= j < k < |trace|
      && trace[j] == Mine(Telling(ToStream(job, true))) && trace[k] == Mine(OnQueue(RemoveCompleted(job)))
  }

  lemma DroppedNow(trace: seq<Entry>, from: nat, told: seq<Entry>, job: JobId)
    requires from < |told| < |trace| && told <= trace && told[|told| - 1] == Mine(Telling(ToStream(job, true)))
    requires trace[|trace| - 1] == Mine(OnQueue(RemoveCompleted(job)))
    ensures Dropped(trace, from, job)
  {
    assert trace[|told| - 1] == told[|told| - 1];
  }

  /** The idempotency record is told that the job completed, then the stream is closed, then the marker removed. */
  ghost predicate Closed(trace: seq<Entry>, from: nat, job: JobId) {
    exists i :: from <= i < |trace| && trace[i] == Mine(Telling(ToRecord(job, true))) && Dropped(trace, i + 1, job)
  }

  lemma ClosedGrows(trace: seq<Entry>, more: seq<Entry>, from: nat, earlier: nat, job: JobId)
    requires Closed(trace, from, job) && trace <= more && earlier <= from
    ensures Closed(more, earlier, job)
  {
    var i :| from <= i < |trace| && trace[i] == Mine(Telling(ToRecord(job, true))) && Dropped(trace, i + 1, job);
    var j, k :| i + 1 <= j < k < |trace|
      && trace[j] == Mine(Telling(ToStream(job, true))) && trace[k] == Mine(OnQueue(RemoveCompleted(job)));
    assert more[i] == trace[i] && more[j] == trace[j] && more[k] == trace[k];
    assert Dropped(more, i + 1, job);
  }

  /** The idempotency record is told that the job failed, and then the stream. */
  ghost predicate ToldFailed(trace: seq<Entry>, from: nat, job: JobId) {
    exists i, j :: from <= i < j < |trace|
      && trace[i] == Mine(Telling(ToRecord(job, false))) && trace[j] == Mine(Telling(ToStream(job, false)))
  }

  lemma ToldFailedGrows(trace: seq<Entry>, more: seq<Entry>, from: nat, earlier: nat, job: JobId)
    requires ToldFailed(trace, from, job) && trace <= more && earlier <= from
    ensures ToldFailed(more, earlier, job)
  {
    var i, j :| from <= i < j < |trace|
      && trace[i] == Mine(Telling(ToRecord(job, false))) && trace[j] == Mine(Telling(ToStream(job, false)));
    assert more[i] == trace[i] && more[j] == trace[j];
  }

  /** Every job recovery marked failed between the two logs, record and stream have been told of. */
  ghost predicate FailuresTold(before: seq<Action>, after: seq<Action>, trace: seq<Entry>, from: nat) {
    forall job | Times(after, Marked(job, JobRows.Failed)) > Times(before, Marked(job, JobRows.Failed)) ::
      ToldFailed(trace, from, job)
  }

  ghost predicate NoFailuresMarked(before: seq<Action>, after: seq<Action>) {
    forall job :: Times(after, Marked(job, JobRows.Failed)) == Times(before, Marked(job, JobRows.Failed))
  }

  lemma FailuresToldJoined(a: seq<Action>, b: seq<Action>, c: seq<Action>, trace: seq<Entry>, from: nat,
                           more: seq<Entry>, mid: nat)
    requires FailuresTold(a, b, trace, from) && FailuresTold(b, c, more, mid) && trace <= more && from <= mid
    ensures FailuresTold(a, c, more, from)
  {
    forall job | Times(c, Marked(job, JobRows.Failed)) > Times(a, Marked(job, JobRows.Failed))
      ensures ToldFailed(more, from, job)
    {
      if Times(b, Marked(job, JobRows.Failed)) > Times(a, Marked(job, JobRows.Failed)) {
        ToldFailedGrows(trace, more, from, from, job);
      } else {
        ToldFailedGrows(more, more, mid, from, job);
      }
    }
  }

  lemma OneAnswerTold(before: seq<Action>, after: seq<Action>, id: JobId, trace: seq<Entry>, from: nat)
    requires OneAnswer(before, after, id)
    requires |after| > |before| && after[|after| - 1] == Marked(id, JobRows.Failed) ==> ToldFailed(trace, from, id)
    ensures FailuresTold(before, after, trace, from)
  {
    EntryAdded(before, Requeued(id));
    EntryAdded(before, Abandoned(id));
    EntryAdded(before + [Abandoned(id)], Marked(id, JobRows.Failed));
  }

  lemma SettlingMarksNoFailure(before: seq<Action>, after: seq<Action>, id: JobId, worked: bool)
    requires SettledAfterMark(before, after, id, worked)
    ensures NoFailuresMarked(before, after)
  {
    EntryAdded(before, Settled(id));
    EntryAdded(before, Marked(id, JobRows.Completed));
    EntryAdded(before + [Marked(id, JobRows.Completed)], Settled(id));
  }

  /** A marked job with a row is terminal at the end, and if it was so before, it was closed since the history was
      `from` entries long. */
  ghost predicate Reconciled(s: Sys, end: Sys, trace: seq<Entry>, from: nat, job: JobId) {
    job in s.db.rows ==>
      && JobRows.IsTerminal(end.db, job)
      && (JobRows.IsTerminal(s.db, job) ==> Closed(trace, from, job))
  }

  lemma SinceGrows(trace: seq<Entry>, more: seq<Entry>, from: nat, earlier: nat, m: Move)
    requires Since(trace, from, m) && trace <= more && earlier <= from
    ensures Since(more, earlier, m)
  {
    var k :| from <= k < |trace| && trace[k] == Mine(m);
    assert more[k] == Mine(m);
  }

  /** One job settled since the history was `from` entries long, seen from an earlier state. */
  lemma OneReconciled(s: Sys, mid: Sys, end: Sys, trace: seq<Entry>, from: nat, earlier: nat, job: JobId)
    requires Preserved(s, mid) && earlier <= from && (job in mid.db.rows ==> JobRows.IsTerminal(end.db, job))
    requires JobRows.IsTerminal(mid.db, job) ==> Closed(trace, from, job)
    ensures Reconciled(s, end, trace, earlier, job)
  {
    if JobRows.IsTerminal(s.db, job) { ClosedGrows(trace, trace, from, earlier, job); }
  }

  lemma ReconciledLater(s: Sys, end: Sys, trace: seq<Entry>, from: nat, later: Sys, more: seq<Entry>, job: JobId)
    requires Reconciled(s, end, trace, from, job) && trace <= more && Preserved(end, later)
    ensures Reconciled(s, later, more, from, job)
  {
    if job in s.db.rows && JobRows.IsTerminal(s.db, job) {
      ClosedGrows(trace, more, from, from, job);
    }
  }

  /** What settling one marked job adds to the log; when the calls made work, recovery's own completed mark does not
      come without the removal of the marker. */
  ghost predicate SettledAfterMark(before: seq<Action>, after: seq<Action>, id: JobId, worked: bool) {
    var marked := before + [Marked(id, JobRows.Completed)];
    || after == before || after == before + [Settled(id)] || after == marked + [Settled(id)]
    || (after == marked && !worked)
  }

  function Offer(id: JobId, user: UserId, capacity: int, now: int): Move {
    OnQueue(EnqueueOrphan(id, user, capacity, now))
  }

  /** Recovery made the move after the history was `from` entries long. */
  predicate Since(trace: seq<Entry>, from: nat, m: Move) {
    exists k :: from <= k < |trace| && trace[k] == Mine(m)
  }

  /** Since then recovery has offered each of these jobs to the orphan script. */
  ghost predicate Offered(trace: seq<Entry>, from: nat, rows: Rows, ids: seq<JobId>, capacity: int, now: int) {
    forall k | 0 <= k < |ids| :: ids[k] in rows && Since(trace, from, Offer(ids[k], rows[ids[k]].user, capacity, now))
  }

  lemma OfferedNext(trace: seq<Entry>, from: nat, rows: Rows, ids: seq<JobId>, capacity: int, now: int,
                    more: seq<Entry>, id: JobId)
    requires Offered(trace, from, rows, ids, capacity, now) && trace <= more
    requires id in rows && Since(more, from, Offer(id, rows[id].user, capacity, now))
    ensures Offered(more, from, rows, ids + [id], capacity, now)
  {
    forall k | 0 <= k < |ids| ensures Since(more, from, Offer(ids[k], rows[ids[k]].user, capacity, now)) {
      var m := Offer(ids[k], rows[ids[k]].user, capacity, now);
      var n :| from <= n < |trace| && trace[n] == Mine(m);
      assert more[n] == Mine(m);
    }
  }

  lemma SinceEarlier(trace: seq<Entry>, from: nat, earlier: nat, m: Move)
    requires Since(trace, from, m) && earlier <= from
    ensures Since(trace, earlier, m)
  {}

  /** What handling one expired job adds to the log: nothing, one requeue, or giving it up, with its mark. */
  ghost predicate OneAnswer(before: seq<Action>, after: seq<Action>, id: JobId) {
    || after == before
    || after == before + [Requeued(id)]
    || after == before + [Abandoned(id)]
    || after == before + [Abandoned(id)] + [Marked(id, JobRows.Failed)]
  }

  lemma OneAnswerCounts(before: seq<Action>, after: seq<Action>, id: JobId)
    requires OneAnswer(before, after, id)
    ensures NoOrphansAdded(before, after)
    ensures forall job :: Times(after, Requeued(job)) <= Times(before, Requeued(job)) + if job == id then 1 else 0
    ensures forall job | job != id :: Times(after, Abandoned(job)) == Times(before, Abandoned(job))
  {
    EntryAdded(before, Requeued(id));
    EntryAdded(before, Abandoned(id));
    EntryAdded(before + [Abandoned(id)], Marked(id, JobRows.Failed));
  }
}

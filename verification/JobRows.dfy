/** Job rows in PostgreSQL.  Each SQL statement is one atomic step; marking a job completed or failed is two
    of them, a read that checks the status and a later write that does not. */
module JobRows {
  import opened Scheduler
  import Ranking

  datatype Status = Created | Completed | Failed

  datatype Row = Row(user: UserId, status: Status, retryCount: int, createdAt: int)

  /** A mark that has read `created` and has yet to write its outcome. */
  datatype Mark = Mark(job: JobId, outcome: Status, retryCount: int)

  datatype Table = Table(rows: map<JobId, Row>, marks: map<nat, Mark>)

  datatype RowStep =
    | Create(newJob: JobId, user: UserId, at: int)
    | BeginMark(id: nat, mark: Mark)
    | WriteMark(writer: nat)
    | AbandonMark(quitter: nat)
    | UpdateIfCreated(job: JobId, retryCount: int)

  /** A mark's outcome is one of the two terminal statuses. */
  predicate Lawful(step: RowStep) {
    step.BeginMark? ==> step.mark.outcome != Created
  }

  function StatusOf(t: Table, job: JobId): Status
    requires job in t.rows
  {
    t.rows[job].status
  }

  function SetRow(t: Table, job: JobId, status: Status, retryCount: int): Table {
    if job !in t.rows then t
    else t.(rows := t.rows[job := t.rows[job].(status := status, retryCount := retryCount)])
  }

  function Apply(t: Table, step: RowStep): Table {
    match step
    case Create(job, user, at) =>
      if job in t.rows then t else t.(rows := t.rows[job := Row(user, Created, 1, at)])
    case BeginMark(id, mark) =>
      if mark.job in t.rows && t.rows[mark.job].status == Created && id !in t.marks
      then t.(marks := t.marks[id := mark]) else t
    case WriteMark(id) =>
      if id !in t.marks then t
      else SetRow(t, t.marks[id].job, t.marks[id].outcome, t.marks[id].retryCount).(marks := t.marks - {id})
    case AbandonMark(id) => t.(marks := t.marks - {id})
    case UpdateIfCreated(job, retryCount) =>
      if job in t.rows && t.rows[job].status == Created then SetRow(t, job, Created, retryCount) else t
  }

  function ApplyAll(t: Table, steps: seq<RowStep>): Table
    decreases |steps|
  {
    if steps == [] then t else ApplyAll(Apply(t, steps[0]), steps[1..])
  }

  /** Every mark in flight will write a terminal status. */
  ghost predicate MarksAreTerminal(t: Table) {
    forall id | id in t.marks :: t.marks[id].outcome != Created
  }

  ghost predicate AllLawful(steps: seq<RowStep>) {
    forall i | 0 <= i < |steps| :: Lawful(steps[i])
  }

  ghost predicate IsTerminal(t: Table, job: JobId) {
    job in t.rows && t.rows[job].status != Created
  }

  lemma {:induction false} MarksStayTerminal(t: Table, steps: seq<RowStep>)
    requires MarksAreTerminal(t) && AllLawful(steps)
    ensures MarksAreTerminal(ApplyAll(t, steps))
    decreases |steps|
  {
    if steps != [] {
      assert Lawful(steps[0]);
      assert forall i | 0 <= i < |steps| - 1 :: steps[1..][i] == steps[i + 1];
      MarksStayTerminal(Apply(t, steps[0]), steps[1..]);
    }
  }

  /** Terminal jobs never return to `created`, however the reads and writes of marks, recovery's conditional
      update and creations interleave. */
  lemma {:induction false} TerminalNeverReopens(t: Table, steps: seq<RowStep>, job: JobId)
    requires MarksAreTerminal(t) && AllLawful(steps) && IsTerminal(t, job)
    ensures IsTerminal(ApplyAll(t, steps), job)
    decreases |steps|
  {
    if steps != [] {
      assert Lawful(steps[0]);
      assert forall i | 0 <= i < |steps| - 1 :: steps[1..][i] == steps[i + 1];
      assert MarksAreTerminal(Apply(t, steps[0]));
      TerminalNeverReopens(Apply(t, steps[0]), steps[1..], job);
    }
  }

  // ---- where a row's contents come from ----

  /** Every row was created by one of these steps, with its owner and time, and every terminal row and every mark in
      flight was begun by one of them. */
  ghost predicate ComesFrom(t: Table, steps: seq<RowStep>) {
    && (forall job | job in t.rows :: Create(job, t.rows[job].user, t.rows[job].createdAt) in steps)
    && (forall job | job in t.rows && t.rows[job].status != Created :: BegunIn(t.rows[job], job, steps))
    && (forall id | id in t.marks :: BeginMark(id, t.marks[id]) in steps)
  }

  /** A mark with the row's outcome and retry count was begun. */
  ghost predicate BegunIn(row: Row, job: JobId, steps: seq<RowStep>) {
    exists id :: BeginMark(id, Mark(job, row.status, row.retryCount)) in steps
  }

  lemma ComesFromStep(t: Table, seen: seq<RowStep>, step: RowStep)
    requires ComesFrom(t, seen)
    ensures ComesFrom(Apply(t, step), seen + [step])
  {
    var t', all := Apply(t, step), seen + [step];
    assert forall e | e in seen :: e in all;
    assert step in all;
    forall job | job in t'.rows && t'.rows[job].status != Created ensures BegunIn(t'.rows[job], job, all) {
      if job in t.rows && t.rows[job] == t'.rows[job] {
        var id :| BeginMark(id, Mark(job, t.rows[job].status, t.rows[job].retryCount)) in seen;
      } else {
        var mark := t.marks[step.writer];
        assert mark == Mark(job, t'.rows[job].status, t'.rows[job].retryCount);
        assert BeginMark(step.writer, mark) in all;
      }
    }
  }

  lemma {:induction false} ComesFromRun(t: Table, seen: seq<RowStep>, steps: seq<RowStep>)
    requires ComesFrom(t, seen)
    ensures ComesFrom(ApplyAll(t, steps), seen + steps)
    decreases |steps|
  {
    if steps == [] {
      assert seen + steps == seen;
    } else {
      ComesFromStep(t, seen, steps[0]);
      ComesFromRun(Apply(t, steps[0]), seen + [steps[0]], steps[1..]);
      assert seen + [steps[0]] + steps[1..] == seen + steps;
    }
  }

  /** Over every run: a row has the owner and the time it was created with, and a terminal row has the outcome and the
      retry count of a mark that was begun. */
  lemma RowsComeFromSteps(steps: seq<RowStep>)
    ensures ComesFrom(ApplyAll(Table(map[], map[]), steps), steps)
  {
    assert ComesFrom(Table(map[], map[]), []);
    ComesFromRun(Table(map[], map[]), [], steps);
    assert [] + steps == steps;
  }

  // ---- which outcome stands ----

  /** A mark of the job is in flight that would write something other than what the row holds. */
  ghost predicate RivalInFlight(t: Table, job: JobId)
    requires job in t.rows
  {
    exists id :: id in t.marks && t.marks[id].job == job && t.marks[id].outcome != t.rows[job].status
  }

  lemma {:induction false} NoRivalOutcomeStands(t: Table, steps: seq<RowStep>, job: JobId)
    requires IsTerminal(t, job) && !RivalInFlight(t, job)
    ensures IsTerminal(ApplyAll(t, steps), job) && StatusOf(ApplyAll(t, steps), job) == StatusOf(t, job)
    decreases |steps|
  {
    if steps != [] {
      var t' := Apply(t, steps[0]);
      assert IsTerminal(t', job) && StatusOf(t', job) == StatusOf(t, job);
      assert !RivalInFlight(t', job);
      NoRivalOutcomeStands(t', steps[1..], job);
    }
  }

  ghost predicate OutcomeStands(t: Table, job: JobId)
    requires job in t.rows
  {
    forall steps :: job in ApplyAll(t, steps).rows && StatusOf(ApplyAll(t, steps), job) == StatusOf(t, job)
  }

  /** A terminal outcome stands in every continuation exactly when no mark that read `created` earlier is still
      in flight with another outcome. */
  lemma OutcomeStandsIffNoRival(t: Table, job: JobId)
    requires IsTerminal(t, job)
    ensures OutcomeStands(t, job) <==> !RivalInFlight(t, job)
  {
    if RivalInFlight(t, job) {
      var id :| id in t.marks && t.marks[id].job == job && t.marks[id].outcome != t.rows[job].status;
      var t' := Apply(t, WriteMark(id));
      assert StatusOf(t', job) != StatusOf(t, job);
      assert [WriteMark(id)][1..] == [];
      assert ApplyAll(t, [WriteMark(id)]) == ApplyAll(t', []) == t';
    } else {
      forall steps ensures job in ApplyAll(t, steps).rows && StatusOf(ApplyAll(t, steps), job) == StatusOf(t, job) {
        NoRivalOutcomeStands(t, steps, job);
      }
    }
  }

  /** The race behind it: two marks read `created`, one completes the job, the other overwrites it as failed. */
  lemma RacingMarksOverwrite(job: JobId, user: UserId)
    ensures var start := ApplyAll(Table(map[], map[]),
              [Create(job, user, 0), BeginMark(1, Mark(job, Completed, 1)), BeginMark(2, Mark(job, Failed, 1))]);
            && job in start.rows
            && StatusOf(ApplyAll(start, [WriteMark(1)]), job) == Completed
            && StatusOf(ApplyAll(ApplyAll(start, [WriteMark(1)]), [WriteMark(2)]), job) == Failed
  {
    var m1, m2 := Mark(job, Completed, 1), Mark(job, Failed, 1);
    var t0 := Apply(Table(map[], map[]), Create(job, user, 0));
    var t1 := Apply(t0, BeginMark(1, m1));
    var t2 := Apply(t1, BeginMark(2, m2));
    var steps := [Create(job, user, 0), BeginMark(1, m1), BeginMark(2, m2)];
    assert steps[1..] == [BeginMark(1, m1), BeginMark(2, m2)] && steps[1..][1..] == [BeginMark(2, m2)];
    assert ApplyAll(t1, [BeginMark(2, m2)]) == t2;
    assert ApplyAll(t0, steps[1..]) == t2;
    assert ApplyAll(t2, [WriteMark(1)]) == Apply(t2, WriteMark(1));
    var t3 := Apply(t2, WriteMark(1));
    assert ApplyAll(t3, [WriteMark(2)]) == Apply(t3, WriteMark(2));
  }

  /** Marks whose read and write are indivisible: nothing runs between the two. */
  predicate Indivisible(steps: seq<RowStep>) {
    || steps == []
    || (if steps[0].BeginMark?
        then |steps| >= 2 && steps[1] in {WriteMark(steps[0].id), AbandonMark(steps[0].id)} && Indivisible(steps[2..])
        else Indivisible(steps[1..]))
  }

  /** When marks are indivisible the first terminal outcome stands. */
  lemma {:induction false} FirstOutcomeStands(t: Table, steps: seq<RowStep>, n: nat, job: JobId)
    requires t.marks == map[] && Indivisible(steps) && n <= |steps|
    requires IsTerminal(ApplyAll(t, steps[..n]), job)
    ensures IsTerminal(ApplyAll(t, steps), job)
    ensures StatusOf(ApplyAll(t, steps), job) == StatusOf(ApplyAll(t, steps[..n]), job)
    decreases |steps|
  {
    if n == 0 {
      assert steps[..0] == [];
      NoRivalOutcomeStands(t, steps, job);
    } else if steps[0].BeginMark? {
      var t1 := Apply(t, steps[0]);
      assert steps[..n][1..] == steps[1..n];
      assert ApplyAll(t, steps[..n]) == ApplyAll(t1, steps[1..n]);
      if n == 1 {
        NoRivalOutcomeStands(t, steps, job);
      } else {
        var t2 := Apply(t1, steps[1]);
        assert t2.marks == map[];
        assert steps[1..n][1..] == steps[2..n] && steps[2..][..n - 2] == steps[2..n];
        assert steps[1..][1..] == steps[2..];
        assert ApplyAll(t1, steps[1..n]) == ApplyAll(t2, steps[2..n]);
        assert ApplyAll(t1, steps[1..]) == ApplyAll(t2, steps[2..]);
        FirstOutcomeStands(t2, steps[2..], n - 2, job);
      }
    } else {
      var t' := Apply(t, steps[0]);
      assert steps[..n][1..] == steps[1..][..n - 1];
      FirstOutcomeStands(t', steps[1..], n - 1, job);
    }
  }

  // ---- the orphan query ----

  predicate IsOrphan(rows: map<JobId, Row>, job: JobId, before: int) {
    job in rows && rows[job].status == Created && rows[job].createdAt < before
  }

  function OrphanAges(rows: map<JobId, Row>, before: int): map<JobId, int> {
    map job | job in rows && IsOrphan(rows, job, before) :: rows[job].createdAt
  }

  /** The ids are the oldest orphans, oldest first, at most `limit` of them; none is skipped for a younger one.  The
      quantifier keeps the verifier from unfolding this where nobody asks for it. */
  ghost predicate OldestOrphans(ids: seq<JobId>, rows: map<JobId, Row>, before: int, limit: int) {
    forall ages {:trigger Ranking.IsLeast(ids, ages, limit)} | ages == OrphanAges(rows, before) ::
      Ranking.IsLeast(ids, ages, limit)
  }

  /** `created` rows older than a time, oldest first, at most `limit` of them; none is skipped for a younger one. */
  method PendingOrphans(rows: map<JobId, Row>, before: int, limit: int) returns (ids: seq<JobId>)
    ensures Ranking.IsLeast(ids, OrphanAges(rows, before), limit) && OldestOrphans(ids, rows, before, limit)
    ensures forall i | 0 <= i < |ids| :: ids[i] in rows && IsOrphan(rows, ids[i], before)
    ensures forall i | 0 <= i < |ids| ::
              ids[i] in rows && rows[ids[i]].status == Created && rows[ids[i]].createdAt < before
    ensures |ids| < limit ==>
              forall job | job in rows && rows[job].status == Created && rows[job].createdAt < before :: job in ids
  {
    ids := Ranking.TakeLeast(OrphanAges(rows, before), limit);
  }
}

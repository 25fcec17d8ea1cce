/** What every pass of the recovery loop accomplishes when the calls made work: expired leases are answered for, marked
    jobs are settled, orphans are offered to their queues, each from the state its own call read. */
module RecoveryPasses {
  import opened Scheduler
  import opened RecoveryWorld
  import opened RecoveryLedger
  import JobRows

  /** The calls with which a pass reads the expired leases, the markers and the orphan rows. */
  datatype PassCalls = PassCalls(sweep: nat, settle: nat, orphans: nat)

  datatype Settings = Settings(batch: int, grace: int, capacity: int, policy: UserId -> int)

  /** The markers were read when the history was `at` entries long, and every job marked then has been settled since. */
  ghost predicate SettledFrom(start: Sys, trace: seq<Entry>, at: nat, end: Sys) {
    && at <= |trace|
    && forall t {:trigger Replay(start, t)} | t == trace[..at] :: AllReconciled(Replay(start, t), end, trace, at)
  }

  ghost predicate AllReconciled(s: Sys, end: Sys, trace: seq<Entry>, at: nat) {
    forall job | job in s.queue.completed :: Reconciled(s, end, trace, at, job)
  }

  lemma SettledNow(start: Sys, before: seq<Entry>, s: Sys, log: seq<Action>, trace: seq<Entry>, end: Sys)
    requires Happened(start, before, s, log) && before <= trace && AllReconciled(s, end, trace, |before|)
    ensures SettledFrom(start, trace, |before|, end)
  {
    assert trace[..|before|] == before && s == Replay(start, before);
  }

  lemma SettledLater(start: Sys, trace: seq<Entry>, at: nat, end: Sys, more: seq<Entry>, later: Sys)
    requires SettledFrom(start, trace, at, end) && trace <= more && Preserved(end, later)
    ensures SettledFrom(start, more, at, later)
  {
    var s := Replay(start, trace[..at]);
    assert more[..at] == trace[..at];
    forall job | job in s.queue.completed ensures Reconciled(s, later, more, at, job) {
      ReconciledLater(s, end, trace, at, later, more, job);
    }
    assert AllReconciled(s, later, more, at);
  }

  /** The orphan rows were read when the history was `at` entries long, and the oldest of them have been offered to the
      orphan script since. */
  ghost predicate OrphansFrom(start: Sys, trace: seq<Entry>, at: nat, now: int, settings: Settings) {
    at <= |trace| && exists ids :: OrphansAt(start, trace, at, ids, now, settings)
  }

  ghost predicate OrphansAt(start: Sys, trace: seq<Entry>, at: nat, ids: seq<JobId>, now: int, settings: Settings)
    requires at <= |trace|
  {
    forall t {:trigger Replay(start, t)} | t == trace[..at] ::
      OldestOffered(Replay(start, t).db.rows, trace, at, ids, now, settings)
  }

  ghost predicate OldestOffered(rows: Rows, trace: seq<Entry>, at: nat, ids: seq<JobId>, now: int, settings: Settings) {
    && JobRows.OldestOrphans(ids, rows, now - settings.grace, settings.batch)
    && Offered(trace, at, rows, ids, settings.capacity, now)
  }

  lemma OrphansNow(start: Sys, before: seq<Entry>, s: Sys, log: seq<Action>, trace: seq<Entry>, ids: seq<JobId>,
                   now: int, settings: Settings)
    requires Happened(start, before, s, log) && before <= trace
    requires OldestOffered(s.db.rows, trace, |before|, ids, now, settings)
    ensures OrphansFrom(start, trace, |before|, now, settings)
  {
    assert trace[..|before|] == before && s == Replay(start, before);
    assert OrphansAt(start, trace, |before|, ids, now, settings);
  }

  lemma OrphansLater(start: Sys, trace: seq<Entry>, at: nat, now: int, settings: Settings, more: seq<Entry>)
    requires OrphansFrom(start, trace, at, now, settings) && trace <= more
    ensures OrphansFrom(start, more, at, now, settings)
  {
    var ids :| OrphansAt(start, trace, at, ids, now, settings);
    var rows := Replay(start, trace[..at]).db.rows;
    assert more[..at] == trace[..at] && OldestOffered(rows, trace, at, ids, now, settings);
    forall k | 0 <= k < |ids| ensures Since(more, at, Offer(ids[k], rows[ids[k]].user, settings.capacity, now)) {
      SinceGrows(trace, more, at, at, Offer(ids[k], rows[ids[k]].user, settings.capacity, now));
    }
    assert OldestOffered(rows, more, at, ids, now, settings);
    assert OrphansAt(start, more, at, ids, now, settings);
  }

  /** One pass at `now`: its three reads come in order, and each has been followed up. */
  ghost predicate PassDone(start: Sys, trace: seq<Entry>, served: seq<nat>, calls: PassCalls, end: Sys, now: int,
                           settings: Settings)
  {
    && calls.sweep < calls.settle < calls.orphans < |served|
    && Swept(start, trace, served[calls.sweep], end, now, settings.batch, settings.policy)
    && SettledFrom(start, trace, served[calls.settle], end)
    && OrphansFrom(start, trace, served[calls.orphans], now, settings)
  }

  lemma PassDoneLater(start: Sys, trace: seq<Entry>, served: seq<nat>, calls: PassCalls, end: Sys, now: int,
                      settings: Settings, more: seq<Entry>, later: seq<nat>, end': Sys)
    requires PassDone(start, trace, served, calls, end, now, settings)
    requires trace <= more && served <= later && Preserved(end, end')
    ensures PassDone(start, more, later, calls, end', now, settings)
  {
    SweptLater(start, trace, served[calls.sweep], end, more, end', now, settings.batch, settings.policy);
    SettledLater(start, trace, served[calls.settle], end, more, end');
    OrphansLater(start, trace, served[calls.orphans], now, settings, more);
  }

  /** One pass per tick. */
  ghost predicate AllDone(start: Sys, trace: seq<Entry>, served: seq<nat>, passes: seq<PassCalls>, ticks: seq<int>,
                          end: Sys, settings: Settings)
  {
    forall k | 0 <= k < |passes| && k < |ticks| :: PassDone(start, trace, served, passes[k], end, ticks[k], settings)
  }

  lemma AllDoneNext(start: Sys, trace: seq<Entry>, served: seq<nat>, passes: seq<PassCalls>, ticks: seq<int>, end: Sys,
                    settings: Settings, more: seq<Entry>, later: seq<nat>, end': Sys, calls: PassCalls)
    requires AllDone(start, trace, served, passes, ticks, end, settings) && |passes| < |ticks|
    requires trace <= more && served <= later && Preserved(end, end')
    requires PassDone(start, more, later, calls, end', ticks[|passes|], settings)
    ensures AllDone(start, more, later, passes + [calls], ticks, end', settings)
  {
    forall k | 0 <= k < |passes| ensures PassDone(start, more, later, passes[k], end', ticks[k], settings) {
      PassDoneLater(start, trace, served, passes[k], end, ticks[k], settings, more, later, end');
    }
  }

  /** The passes follow each other: the first starts at once, each after the reads of the one before. */
  ghost predicate InSequence(passes: seq<PassCalls>, from: nat, upTo: nat) {
    && (passes != [] ==> passes[0].sweep == from)
    && (forall i | 0 <= i < |passes| :: from <= passes[i].sweep < passes[i].settle < passes[i].orphans < upTo)
    && (forall i, k | 0 <= i < k < |passes| :: passes[i].orphans < passes[k].sweep)
  }

  lemma NextInSequence(passes: seq<PassCalls>, from: nat, n: nat, upTo: nat, calls: PassCalls)
    requires InSequence(passes, from, n) && from <= n == calls.sweep < calls.settle < calls.orphans < upTo
    requires passes == [] ==> n == from
    ensures InSequence(passes + [calls], from, upTo)
  {}
}

/** Fairness of the round robin: bounded bypass, bounded waiting of a job, and no monopoly. */
module SchedulerFairness {
  import opened Scheduler

  /** The outcomes of the dequeues in a trace, in order. */
  function Outcomes(trace: seq<Label>): seq<Label> {
    if trace == [] then []
    else (if trace[0].Served? || trace[0].Idle? then [trace[0]] else []) + Outcomes(trace[1..])
  }

  ghost function OutcomesOf(s: State, steps: seq<Step>): seq<Label> {
    Outcomes(Trace(s, steps))
  }

  lemma OutcomesStep(s: State, steps: seq<Step>)
    requires steps != []
    ensures OutcomesOf(s, steps) ==
            (if steps[0].Dequeue? then [LabelOf(s, steps[0])] else []) + OutcomesOf(Next(s, steps[0]), steps[1..])
  {
    assert Trace(s, steps)[1..] == Trace(Next(s, steps[0]), steps[1..]);
  }

  /** The active users the scheduler will serve before `v`. */
  ghost function Ahead(s: State, v: UserId): set<UserId>
    requires v in s.active
  {
    set u | u in s.active && s.active[u] < s.active[v]
  }

  lemma SubsetSize(a: set<UserId>, b: set<UserId>)
    requires a <= b
    ensures |a| <= |b|
  {
    assert b == a + (b - a);
  }

  lemma PushKeepsPlace(s: State, step: Step, v: UserId)
    requires Inv(s) && v in s.active && !step.Dequeue?
    ensures var s' := Next(s, step);
            v in s'.active && s'.active[v] == s.active[v] && Ahead(s', v) == Ahead(s, v)
  {
    QueueEffect(s, step);
  }

  lemma DequeueMovesUp(s: State, step: Step, v: UserId)
    requires Inv(s) && v in s.active && step.Dequeue?
    ensures LabelOf(s, step).Served?
    ensures LabelOf(s, step).user != v ==>
              var s' := Next(s, step);
              v in s'.active && s'.active[v] == s.active[v] && |Ahead(s', v)| < |Ahead(s, v)|
  {
    var front := Front(s.active);
    assert List(s, front) != [];
    ServedFront(s, step.now, step.lease);
    if front != v {
      assert Precedes(s.active, front, v);
      FrontStepsBack(s, front, v, Next(s, step));
    }
  }

  /** When a user ahead leaves the active set, or goes to its back, one fewer is ahead. */
  lemma FrontStepsBack(s: State, front: UserId, v: UserId, s': State)
    requires Inv(s) && v in s.active && front in s.active && front != v && s.active[front] <= s.active[v]
    requires s'.active == s.active - {front} || s'.active == s.active[front := s.rotation + 1]
    ensures v in s'.active && s'.active[v] == s.active[v] && |Ahead(s', v)| < |Ahead(s, v)|
  {
    assert front in Ahead(s, v);
    SubsetSize(Ahead(s', v), Ahead(s, v) - {front});
  }

  /** Bounded bypass: if `r` users are ahead of a waiting user, that user is served within the next
      r + 1 dequeues, whatever enqueues, requeues, orphan inserts, renewals and releases interleave. */
  lemma {:induction false} BoundedBypass(s: State, steps: seq<Step>, v: UserId)
    requires Inv(s) && v in s.active
    requires |OutcomesOf(s, steps)| > |Ahead(s, v)|
    ensures var out := OutcomesOf(s, steps);
            exists k :: 0 <= k <= |Ahead(s, v)| && out[k].Served? && out[k].user == v
    decreases |steps|
  {
    OutcomesStep(s, steps);
    StepKeepsInv(s, steps[0]);
    var out, s' := OutcomesOf(s, steps), Next(s, steps[0]);
    if !steps[0].Dequeue? {
      PushKeepsPlace(s, steps[0], v);
      BoundedBypass(s', steps[1..], v);
      assert out == OutcomesOf(s', steps[1..]);
    } else {
      DequeueMovesUp(s, steps[0], v);
      if LabelOf(s, steps[0]).user == v {
        assert out[0].Served? && out[0].user == v;
      } else {
        BoundedBypass(s', steps[1..], v);
        var k :| 0 <= k <= |Ahead(s', v)| && OutcomesOf(s', steps[1..])[k].Served?
                 && OutcomesOf(s', steps[1..])[k].user == v;
        assert out[k + 1] == OutcomesOf(s', steps[1..])[k];
      }
    }
  }

  /** At every point of the run at most `limit` users are active. */
  ghost predicate AtMostActive(s: State, steps: seq<Step>, limit: nat)
    decreases |steps|
  {
    |s.active| <= limit && (steps != [] ==> AtMostActive(Next(s, steps[0]), steps[1..], limit))
  }

  /** The job `p` places from the pop end of a user's list. */
  ghost predicate WaitsAt(s: State, v: UserId, job: JobId, p: nat) {
    p < |List(s, v)| && List(s, v)[|List(s, v)| - 1 - p] == job
  }

  lemma AheadSize(s: State, v: UserId)
    requires v in s.active
    ensures |Ahead(s, v)| < |s.active|
  {
    SubsetSize(Ahead(s, v) + {v}, s.active.Keys);
  }

  /** Serving the user moves the job one place up or claims it; serving another leaves it where it is. */
  lemma WaitDequeue(s: State, now: int, lease: int, v: UserId, job: JobId, p: nat)
    requires WaitsAt(s, v, job, p)
    ensures var did, s' := LabelOf(s, Dequeue(now, lease)), Next(s, Dequeue(now, lease));
            if did.Served? && did.user == v
            then if p == 0 then did.job == job else WaitsAt(s', v, job, p - 1)
            else WaitsAt(s', v, job, p)
  {
    DequeuedLists(s, now, lease);
  }

  lemma WaitPush(s: State, step: Step, v: UserId, job: JobId, p: nat)
    requires WaitsAt(s, v, job, p) && !step.Dequeue?
    ensures !LabelOf(s, step).Served? && WaitsAt(Next(s, step), v, job, p)
  {
    QueueEffect(s, step);
    var did := LabelOf(s, step);
    if did.Pushed? { PushLists(s, did.user, did.job); }
    assert List(Next(s, step), v) == List(if did.Pushed? then Push(s, did.user, did.job) else s, v);
  }

  function Rounds(p: nat, limit: nat): nat {
    if p == 0 then 0 else limit + Rounds(p - 1, limit)
  }

  lemma {:induction false} RoundsIsProduct(p: nat, limit: nat)
    ensures Rounds(p, limit) == p * limit
  {
    if p > 0 { RoundsIsProduct(p - 1, limit); }
  }

  /** One dequeue moves the job's user up, or moves the job up in its user's list. */
  lemma ClaimProgress(s: State, step: Step, v: UserId, job: JobId, p: nat, limit: nat) returns (q: nat)
    requires Inv(s) && WaitsAt(s, v, job, p) && step.Dequeue?
    requires LabelOf(s, step) != Served(v, job) && |Next(s, step).active| <= limit
    ensures v in s.active && v in Next(s, step).active && WaitsAt(Next(s, step), v, job, q)
    ensures |Ahead(Next(s, step), v)| + Rounds(q, limit) < |Ahead(s, v)| + Rounds(p, limit)
  {
    StepKeepsInv(s, step);
    assert v in s.active;
    WaitDequeue(s, step.now, step.lease, v, job, p);
    DequeueMovesUp(s, step, v);
    q := if LabelOf(s, step).user == v then p - 1 else p;
    assert List(Next(s, step), v) != [];
    if LabelOf(s, step).user == v { AheadSize(Next(s, step), v); }
  }

  lemma {:induction false} JobClaimedSoon(s: State, steps: seq<Step>, v: UserId, job: JobId, p: nat, limit: nat)
    returns (k: nat)
    requires Inv(s) && WaitsAt(s, v, job, p)
    requires AtMostActive(s, steps, limit) && v in s.active
    requires |OutcomesOf(s, steps)| > |Ahead(s, v)| + Rounds(p, limit)
    ensures k <= |Ahead(s, v)| + Rounds(p, limit) && OutcomesOf(s, steps)[k] == Served(v, job)
    decreases |steps|
  {
    OutcomesStep(s, steps);
    StepKeepsInv(s, steps[0]);
    var s' := Next(s, steps[0]);
    if !steps[0].Dequeue? {
      WaitPush(s, steps[0], v, job, p);
      PushKeepsPlace(s, steps[0], v);
      k := JobClaimedSoon(s', steps[1..], v, job, p, limit);
    } else if LabelOf(s, steps[0]) == Served(v, job) {
      k := 0;
    } else {
      assert |s'.active| <= limit;
      var q := ClaimProgress(s, steps[0], v, job, p, limit);
      k := JobClaimedSoon(s', steps[1..], v, job, q, limit);
      k := k + 1;
    }
  }

  /** Bounded waiting: with at most `limit` users active at any time, a job `p` places from the pop
      end of its list is claimed within (p + 1) * limit dequeues, in every interleaving. */
  lemma BoundedWaiting(s: State, steps: seq<Step>, v: UserId, job: JobId, p: nat, limit: nat)
    requires Inv(s) && WaitsAt(s, v, job, p)
    requires AtMostActive(s, steps, limit)
    requires |OutcomesOf(s, steps)| >= (p + 1) * limit
    ensures var out := OutcomesOf(s, steps);
            exists k :: 0 <= k < (p + 1) * limit && out[k] == Served(v, job)
  {
    assert v in s.active;
    AheadSize(s, v);
    RoundsIsProduct(p + 1, limit);
    var k := JobClaimedSoon(s, steps, v, job, p, limit);
  }

  // ---- no monopoly ----

  /** Both users have work at every point of the run. */
  ghost predicate BothStayActive(s: State, steps: seq<Step>, u: UserId, v: UserId)
    decreases |steps|
  {
    u in s.active && v in s.active &&
    (steps != [] ==> BothStayActive(Next(s, steps[0]), steps[1..], u, v))
  }

  /** The claims that went to `u` or `v`, as the sequence of users served. */
  function Turns(out: seq<Label>, u: UserId, v: UserId): seq<UserId> {
    if out == [] then []
    else (if out[0].Served? && out[0].user in {u, v} then [out[0].user] else []) + Turns(out[1..], u, v)
  }

  predicate Alternates(turns: seq<UserId>, first: UserId, second: UserId) {
    forall i | 0 <= i < |turns| :: turns[i] == if i % 2 == 0 then first else second
  }

  lemma AlternatesCons(turns: seq<UserId>, u: UserId, v: UserId)
    requires Alternates(turns, v, u)
    ensures Alternates([u] + turns, u, v)
  {}

  function Count(turns: seq<UserId>, u: UserId): nat {
    if turns == [] then 0 else (if turns[0] == u then 1 else 0) + Count(turns[1..], u)
  }

  lemma {:induction false} AlternationCounts(turns: seq<UserId>, u: UserId, v: UserId)
    requires u != v && Alternates(turns, u, v)
    ensures Count(turns, v) <= Count(turns, u) <= Count(turns, v) + 1
  {
    if turns != [] {
      assert Alternates(turns[1..], v, u) by {
        forall i | 0 <= i < |turns| - 1 ensures turns[1..][i] == if i % 2 == 0 then v else u {
          assert turns[1..][i] == turns[i + 1];
        }
      }
      AlternationCounts(turns[1..], v, u);
    }
  }

  /** While both stay active, the one behind is never served, and serving the one in front swaps them. */
  lemma PairStep(s: State, step: Step, u: UserId, v: UserId)
    requires Inv(s) && u in s.active && v in s.active && s.active[u] < s.active[v]
    requires u in Next(s, step).active && v in Next(s, step).active
    ensures var did, s' := LabelOf(s, step), Next(s, step);
            && !(did.Served? && did.user == v)
            && (if did.Served? && did.user == u then s'.active[v] < s'.active[u] else s'.active[u] < s'.active[v])
  {
    if step.Dequeue? {
      DequeueMovesUp(s, step, v);
      if Front(s.active) != u { DequeueMovesUp(s, step, u); }
    } else {
      PushKeepsPlace(s, step, u);
      PushKeepsPlace(s, step, v);
    }
  }

  lemma {:induction false} TurnsAlternate(s: State, steps: seq<Step>, u: UserId, v: UserId)
    requires Inv(s) && u != v && BothStayActive(s, steps, u, v) && s.active[u] < s.active[v]
    ensures Alternates(Turns(OutcomesOf(s, steps), u, v), u, v)
    decreases |steps|, 0
  {
    if steps != [] {
      var s', rest, did := Next(s, steps[0]), steps[1..], LabelOf(s, steps[0]);
      StepKeepsInv(s, steps[0]);
      assert BothStayActive(s', rest, u, v);
      PairStep(s, steps[0], u, v);
      TurnsStep(s, steps, u, v);
      var turns := Turns(OutcomesOf(s', rest), u, v);
      if did.Served? && did.user == u {
        TurnsAlternateSwapped(s', rest, u, v);
        AlternatesCons(turns, u, v);
      } else {
        TurnsAlternate(s', rest, u, v);
        assert [] + turns == turns;
      }
    }
  }

  lemma TurnsStep(s: State, steps: seq<Step>, u: UserId, v: UserId)
    requires steps != []
    ensures var did := LabelOf(s, steps[0]);
            Turns(OutcomesOf(s, steps), u, v) ==
            (if did.Served? && did.user in {u, v} then [did.user] else [])
            + Turns(OutcomesOf(Next(s, steps[0]), steps[1..]), u, v)
  {
    OutcomesStep(s, steps);
    var out, out' := OutcomesOf(s, steps), OutcomesOf(Next(s, steps[0]), steps[1..]);
    if steps[0].Dequeue? { assert out[1..] == out'; } else { assert out == out'; }
  }

  lemma {:induction false} TurnsAlternateSwapped(s: State, steps: seq<Step>, u: UserId, v: UserId)
    requires Inv(s) && u != v && BothStayActive(s, steps, u, v) && s.active[v] < s.active[u]
    ensures Alternates(Turns(OutcomesOf(s, steps), u, v), v, u)
    decreases |steps|, 1
  {
    BothStayActiveSymmetric(s, steps, u, v);
    TurnsAlternate(s, steps, v, u);
    TurnsSymmetric(OutcomesOf(s, steps), u, v);
  }

  lemma {:induction false} BothStayActiveSymmetric(s: State, steps: seq<Step>, u: UserId, v: UserId)
    requires BothStayActive(s, steps, u, v)
    ensures BothStayActive(s, steps, v, u)
    decreases |steps|
  {
    if steps != [] { BothStayActiveSymmetric(Next(s, steps[0]), steps[1..], u, v); }
  }

  lemma {:induction false} TurnsSymmetric(out: seq<Label>, u: UserId, v: UserId)
    ensures Turns(out, u, v) == Turns(out, v, u)
  {
    if out != [] { TurnsSymmetric(out[1..], u, v); }
  }

  /** No monopoly: over any stretch in which two users both stay active their claims strictly
      alternate, so their claim counts differ by at most one. */
  lemma NoMonopoly(s: State, steps: seq<Step>, u: UserId, v: UserId)
    requires Inv(s) && u != v && BothStayActive(s, steps, u, v)
    ensures var turns := Turns(OutcomesOf(s, steps), u, v);
            && Alternates(turns, if s.active[u] < s.active[v] then u else v,
                                 if s.active[u] < s.active[v] then v else u)
            && -1 <= Count(turns, u) - Count(turns, v) <= 1
  {
    var turns := Turns(OutcomesOf(s, steps), u, v);
    if s.active[u] < s.active[v] {
      TurnsAlternate(s, steps, u, v);
      AlternationCounts(turns, u, v);
    } else {
      TurnsAlternateSwapped(s, steps, u, v);
      AlternationCounts(turns, v, u);
    }
  }
}

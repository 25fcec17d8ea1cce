/** What a key's record tells later Submits: a replay means the job completed, a failed job refuses them, and every
    status transition of a bound job reaches the record of its key. */
module SubmissionOutcomes {
  import opened Common
  import opened Submission

  // ---- transitions find their record ----

  /** The call has created a job, and may have bound it. */
  predicate HasJob(pc: Pc) {
    pc.Made? || HasBound(pc)
  }

  function JobOf(pc: Pc): JobId
    requires HasJob(pc)
  {
    if pc.Made? then pc.job else BoundJob(pc)
  }

  /** The job of this call is known; the reverse map leads from it to the call's key exactly once it is bound. */
  ghost predicate CallLinked(s: State, call: Call) {
    HasJob(call.pc) ==>
      && JobOf(call.pc) in s.jobs
      && (call.pc.Made? ==> call.pc.job !in s.reverse)
      && (HasBound(call.pc) ==> BoundJob(call.pc) in s.reverse && s.reverse[BoundJob(call.pc)] == call.key)
  }

  /** No two calls have the same job, and each job leads to its key. */
  ghost predicate Linked(s: State) {
    && s.reverse.Keys <= s.jobs
    && (forall id | id in s.calls :: CallLinked(s, s.calls[id]))
    && (forall p, q | p in s.calls && q in s.calls && p != q && HasJob(s.calls[p].pc) && HasJob(s.calls[q].pc) ::
          JobOf(s.calls[p].pc) != JobOf(s.calls[q].pc))
  }

  /** One call moves on, keeping its job, taking a new one, or dropping the one it has. */
  ghost predicate MovesOn(s: State, id: nat, t: State)
    requires id in s.calls && id in t.calls
  {
    var pc, pc' := s.calls[id].pc, t.calls[id].pc;
    && t.calls == s.calls[id := s.calls[id].(pc := pc')] && t.reverse == s.reverse && s.jobs <= t.jobs
    && (HasJob(pc') ==>
          || (HasJob(pc) && (pc'.Made? <==> pc.Made?) && JobOf(pc') == JobOf(pc))
          || (pc'.Made? && pc'.job in t.jobs && pc'.job !in s.jobs))
  }

  lemma MoveKeepsLinked(s: State, id: nat, t: State)
    requires Linked(s) && id in s.calls && id in t.calls && MovesOn(s, id, t)
    ensures Linked(t)
  {
    forall q | q in t.calls ensures CallLinked(t, t.calls[q]) { assert CallLinked(s, s.calls[q]); }
    forall p, q | p in t.calls && q in t.calls && p != q && HasJob(t.calls[p].pc) && HasJob(t.calls[q].pc)
      ensures JobOf(t.calls[p].pc) != JobOf(t.calls[q].pc)
    {
      assert CallLinked(s, s.calls[p]) && CallLinked(s, s.calls[q]);
    }
  }

  lemma StepMovesOn(s: State, id: nat, i: Input)
    requires id in s.calls && !s.calls[id].pc.Made? && !s.calls[id].pc.Returned?
    ensures MovesOn(s, id, Step(s, id, i))
  {}

  lemma BindKeepsLinked(s: State, id: nat, job: JobId, fate: Fate)
    requires Linked(s) && id in s.calls && s.calls[id].pc == Made(job)
    ensures Linked(SetJobID(s, id, job, fate))
  {
    var t := SetJobID(s, id, job, fate);
    assert CallLinked(s, s.calls[id]);
    forall q | q in t.calls ensures CallLinked(t, t.calls[q]) { assert CallLinked(s, s.calls[q]); }
  }

  lemma StepKeepsLinked(s: State, id: nat, i: Input)
    requires Linked(s) && id in s.calls
    ensures Linked(Step(s, id, i))
  {
    var pc := s.calls[id].pc;
    if pc.Made? {
      BindKeepsLinked(s, id, pc.job, i.fate);
    } else if !pc.Returned? {
      StepMovesOn(s, id, i);
      MoveKeepsLinked(s, id, Step(s, id, i));
    }
  }

  lemma SameLinks(s: State, t: State)
    requires Linked(s) && t.calls == s.calls && t.reverse == s.reverse && t.jobs == s.jobs
    ensures Linked(t)
  {
    forall q | q in t.calls ensures CallLinked(t, t.calls[q]) { assert CallLinked(s, s.calls[q]); }
  }

  lemma ArrivalKeepsLinked(s: State, id: nat, key: Key, lock: Lock)
    requires Linked(s) && id !in s.calls
    ensures Linked(s.(calls := s.calls[id := Call(key, lock, Start)]))
  {
    var t := s.(calls := s.calls[id := Call(key, lock, Start)]);
    forall q | q in t.calls ensures CallLinked(t, t.calls[q]) { if q in s.calls { assert CallLinked(s, s.calls[q]); } }
  }

  lemma EventKeepsLinked(s: State, e: Event)
    requires Linked(s)
    ensures Linked(Next(s, e))
  {
    match e
    case Arrive(id, key, lock) => if id !in s.calls { ArrivalKeepsLinked(s, id, key, lock); }
    case Advance(id, i) => if id in s.calls { StepKeepsLinked(s, id, i); }
    case Transition(job, done) => SameLinks(s, TransitionStatus(s, job, done));
  }

  /** Over every run, whatever fails, every bound job leads to the key it is bound to. */
  lemma {:induction false} RunKeepsLinked(s: State, events: seq<Event>)
    requires Linked(s)
    ensures Linked(Run(s, events))
    decreases |events|
  {
    if events != [] {
      EventKeepsLinked(s, events[0]);
      RunKeepsLinked(Next(s, events[0]), events[1..]);
    }
  }

  /** A transition of a bound job whose record is in flight records how the job ended, under its own key only. */
  lemma TransitionSettles(s: State, id: nat, done: bool)
    requires Inv(s) && Linked(s) && id in s.calls && HasBound(s.calls[id].pc)
    requires s.idem[s.calls[id].key].status == InFlight
    ensures var key, job := s.calls[id].key, BoundJob(s.calls[id].pc);
            TransitionStatus(s, job, done).idem == s.idem[key := Record(if done then Done else JobFailed, Some(job))]
  {
    assert RecordFits(s.idem, s.calls[id]) && CallLinked(s, s.calls[id]);
  }

  lemma {:induction false} AcknowledgedSplit(s: State, a: seq<Event>, b: seq<Event>)
    requires BindsAcknowledged(s, a + b)
    ensures BindsAcknowledged(s, a) && BindsAcknowledged(Run(s, a), b)
    decreases |a|
  {
    if a == [] {
      assert a + b == b;
    } else {
      assert (a + b)[1..] == a[1..] + b;
      AcknowledgedSplit(Next(s, a[0]), a[1..], b);
    }
  }

  /** Over every run: once a Submit has rejected the job it bound, its key is on record with that job as ended, for
      good. */
  lemma RejectionSettles(s: State, before: seq<Event>, id: nat, job: JobId, i: Input, after: seq<Event>)
    requires Inv(s) && Linked(s) && BindsAcknowledged(s, before + [Advance(id, i)] + after)
    requires id in Run(s, before).calls && Run(s, before).calls[id].pc == Rejecting(job) && i.fate != Lost
    ensures var t, key := Run(s, before + [Advance(id, i)] + after), Run(s, before).calls[id].key;
            key in t.idem && t.idem[key].status != InFlight && t.idem[key].job == Some(job)
  {
    var e, met := Advance(id, i), Run(s, before);
    AcknowledgedSplit(s, before + [e], after);
    AcknowledgedSplit(s, before, [e]);
    RunConcat(s, before + [e], after);
    RunConcat(s, before, [e]);
    assert [e][1..] == [];
    assert Run(s, before + [e]) == Next(met, e);
    RunKeepsInv(s, before);
    RunKeepsLinked(s, before);
    RejectionRecords(met, id, i);
    EventKeepsInv(met, e);
    TerminalStatusIsFinal(Next(met, e), after, met.calls[id].key);
  }

  lemma RejectionRecords(s: State, id: nat, i: Input)
    requires Inv(s) && Linked(s) && id in s.calls && s.calls[id].pc.Rejecting? && i.fate != Lost
    ensures var key := s.calls[id].key;
            key in Step(s, id, i).idem && Step(s, id, i).idem[key].status != InFlight
            && Step(s, id, i).idem[key].job == Some(s.calls[id].pc.job)
  {
    assert RecordFits(s.idem, s.calls[id]);
    if s.idem[s.calls[id].key].status == InFlight { TransitionSettles(s, id, false); }
  }

  // ---- a replay means the job completed ----

  function CompletedIn(events: seq<Event>): set<JobId> {
    set e | e in events && e.Transition? && e.done :: e.job
  }

  function FailedIn(s: State, events: seq<Event>): set<JobId>
    decreases |events|
  {
    if events == [] then {}
    else FailedBy(s, events[0]) + FailedIn(Next(s, events[0]), events[1..])
  }

  /** The job this event says has failed: a transition to failed, or the rejection by its own Submit. */
  function FailedBy(s: State, e: Event): set<JobId> {
    match e
    case Transition(job, false) => {job}
    case Advance(id, i) =>
      if id in s.calls && s.calls[id].pc.Rejecting? && i.fate != Lost then {s.calls[id].pc.job} else {}
    case _ => {}
  }

  /** Every settled record is of a job that was said to have ended that way, and so is every replay. */
  ghost predicate Honest(s: State, done: set<JobId>, failed: set<JobId>) {
    && (forall key | key in s.idem && s.idem[key].status == Done ::
          s.idem[key].job.Some? && s.idem[key].job.value in done)
    && (forall key | key in s.idem && s.idem[key].status == JobFailed ::
          s.idem[key].job.Some? && s.idem[key].job.value in failed)
    && (forall id | id in s.calls && s.calls[id].pc.Returned? && s.calls[id].pc.result.Replayed? ::
          s.calls[id].pc.result.original.Some? && s.calls[id].pc.result.original.value in done)
  }

  lemma HonestTransition(s: State, job: JobId, ended: bool, done: set<JobId>, failed: set<JobId>)
    requires Inv(s) && Honest(s, done, failed)
    ensures Honest(TransitionStatus(s, job, ended), if ended then done + {job} else done,
                   if ended then failed else failed + {job})
  {}

  /** The step settles no record, and a replay it ends with is of a completed one. */
  ghost predicate SettlesNothing(s: State, id: nat, t: State)
    requires id in s.calls && id in t.calls
  {
    && t.calls == s.calls[id := t.calls[id]]
    && (forall key | key in t.idem && t.idem[key].status != InFlight :: key in s.idem && t.idem[key] == s.idem[key])
    && (t.calls[id].pc.Returned? && t.calls[id].pc.result.Replayed? && t.calls[id] != s.calls[id] ==>
          exists key :: key in s.idem && s.idem[key] == Record(Done, t.calls[id].pc.result.original))
  }

  lemma HonestMove(s: State, id: nat, t: State, done: set<JobId>, failed: set<JobId>)
    requires Honest(s, done, failed) && id in s.calls && id in t.calls && SettlesNothing(s, id, t)
    ensures Honest(t, done, failed)
  {}

  lemma StepSettlesNothing(s: State, id: nat, i: Input)
    requires id in s.calls && RecordFits(s.idem, s.calls[id]) && !s.calls[id].pc.Rejecting?
    ensures SettlesNothing(s, id, Step(s, id, i))
  {
    if s.calls[id].pc == Start && s.calls[id].key in s.idem {
      var record := s.idem[s.calls[id].key];
      assert record == Record(record.status, record.job);
    }
  }

  lemma HonestStep(s: State, id: nat, i: Input, done: set<JobId>, failed: set<JobId>)
    requires Inv(s) && Honest(s, done, failed) && id in s.calls
    ensures Honest(Step(s, id, i), done, failed + FailedBy(s, Advance(id, i)))
  {
    assert RecordFits(s.idem, s.calls[id]);
    var pc := s.calls[id].pc;
    if pc.Rejecting? {
      HonestTransition(s, pc.job, false, done, failed);
    } else {
      StepSettlesNothing(s, id, i);
      HonestMove(s, id, Step(s, id, i), done, failed);
      assert failed + {} == failed;
    }
  }

  lemma HonestEvent(s: State, e: Event, done: set<JobId>, failed: set<JobId>)
    requires Inv(s) && Honest(s, done, failed)
    ensures Honest(Next(s, e), done + CompletedIn([e]), failed + FailedBy(s, e))
  {
    match e
    case Arrive(_, _, _) =>
    case Advance(id, i) => if id in s.calls { HonestStep(s, id, i, done, failed); }
    case Transition(job, ended) =>
      HonestTransition(s, job, ended, done, failed);
      if ended { assert e in [e] && job in CompletedIn([e]); }
  }

  lemma {:induction false} HonestRun(s: State, events: seq<Event>, done: set<JobId>, failed: set<JobId>)
    requires Inv(s) && Honest(s, done, failed) && BindsAcknowledged(s, events)
    ensures Honest(Run(s, events), done + CompletedIn(events), failed + FailedIn(s, events))
    decreases |events|
  {
    if events == [] {
      assert CompletedIn(events) == {};
    } else {
      HonestEvent(s, events[0], done, failed);
      EventKeepsInv(s, events[0]);
      HonestRun(Next(s, events[0]), events[1..], done + CompletedIn([events[0]]), failed + FailedBy(s, events[0]));
      assert events == [events[0]] + events[1..];
      assert CompletedIn(events) == CompletedIn([events[0]]) + CompletedIn(events[1..]);
    }
  }

  /** In every run without a lost acknowledgement of a binding, a replay names a job that was transitioned to
      completed, and a key's record says completed or failed only of a job that was said to be so. */
  lemma ReplayMeansCompleted(events: seq<Event>)
    requires BindsAcknowledged(EMPTY, events)
    ensures var s := Run(EMPTY, events);
            && (forall id | id in s.calls && s.calls[id].pc.Returned? && s.calls[id].pc.result.Replayed? ::
                  var original := s.calls[id].pc.result.original;
                  original.Some? && Transition(original.value, true) in events)
            && (forall key | key in s.idem && s.idem[key].status == Done ::
                  s.idem[key].job.Some? && Transition(s.idem[key].job.value, true) in events)
            && (forall key | key in s.idem && s.idem[key].status == JobFailed ::
                  s.idem[key].job.Some? && s.idem[key].job.value in FailedIn(EMPTY, events))
  {
    HonestRun(EMPTY, events, {}, {});
    forall job | job in CompletedIn(events) ensures Transition(job, true) in events {
      var e :| e in events && e.Transition? && e.done && e.job == job;
      assert e == Transition(job, true);
    }
  }

  // ---- what later Submits are told ----

  /** How a Submit of a settled key stands: it has not asked yet, or it was told how the job ended, or it was
      refused. */
  predicate ToldOf(record: Record, pc: Pc) {
    pc == Start || pc == Returned(Refused) || (record.status == Done && pc == Returned(Replayed(record.job)))
  }

  /** The call, if it is there, is of another key or has been told of this record. */
  ghost predicate Told(s: State, q: nat, key: Key, record: Record) {
    q in s.calls && s.calls[q].key == key ==> ToldOf(record, s.calls[q].pc)
  }

  /** A Submit that asks for a settled key is told at once: the job if it completed, an error if it failed. */
  lemma SettledKeyAnswers(s: State, q: nat, i: Input)
    requires q in s.calls && s.calls[q].pc == Start && s.calls[q].key in s.idem
    requires s.idem[s.calls[q].key].status != InFlight
    ensures var record := s.idem[s.calls[q].key];
            Step(s, q, i).calls[q].pc ==
            if i.fate == Works && record.status == Done then Returned(Replayed(record.job)) else Returned(Refused)
  {}

  lemma TellStep(s: State, e: Event, q: nat, key: Key)
    requires key in s.idem && s.idem[key].status != InFlight && Told(s, q, key, s.idem[key])
    ensures Told(Next(s, e), q, key, s.idem[key])
  {
    if e.Advance? && e.id == q && q in s.calls && s.calls[q].pc == Start && s.calls[q].key == key {
      SettledKeyAnswers(s, q, e.input);
    }
  }

  lemma {:induction false} SettledKeyTells(s: State, events: seq<Event>, q: nat, key: Key)
    requires Inv(s) && BindsAcknowledged(s, events)
    requires key in s.idem && s.idem[key].status != InFlight && Told(s, q, key, s.idem[key])
    ensures Told(Run(s, events), q, key, s.idem[key])
    decreases |events|
  {
    if events != [] {
      TellStep(s, events[0], q, key);
      SettledStep(s, events[0], key);
      EventKeepsInv(s, events[0]);
      SettledKeyTells(Next(s, events[0]), events[1..], q, key);
    }
  }

  /** Once the job bound to a key has ended, every later Submit of the key is refused or, if it completed, is given that
      job, over every continuation without a lost acknowledgement of a binding. */
  lemma LaterSubmitsAreTold(s: State, id: nat, done: bool, events: seq<Event>, q: nat)
    requires Inv(s) && Linked(s) && id in s.calls && HasBound(s.calls[id].pc)
    requires s.idem[s.calls[id].key].status == InFlight
    requires q !in s.calls || s.calls[q].pc == Start
    requires BindsAcknowledged(Next(s, Transition(BoundJob(s.calls[id].pc), done)), events)
    ensures var job := BoundJob(s.calls[id].pc);
            var t := Run(Next(s, Transition(job, done)), events);
            q in t.calls && t.calls[q].key == s.calls[id].key ==>
              || t.calls[q].pc == Start || t.calls[q].pc == Returned(Refused)
              || (done && t.calls[q].pc == Returned(Replayed(Some(job))))
  {
    var job, key := BoundJob(s.calls[id].pc), s.calls[id].key;
    TransitionSettles(s, id, done);
    TransitionKeepsInv(s, job, done);
    SettledKeyTells(Next(s, Transition(job, done)), events, q, key);
  }
}

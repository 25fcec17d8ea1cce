/** The Submit code: each of its external calls is one step of the protocol in `Submission`, taken after
    everybody else has acted for as long as they like. */
module SubmitService {
  import opened Common
  import opened Submission
  import opened SubmissionOutcomes

  /** What the caller of Submit is told: a job id or none, and whether there is an error. */
  function Reported(r: Result): (Option<JobId>, bool) {
    match r
    case Accepted(job) => (Some(job), false)
    case Replayed(original) => (original, false)
    case Nothing => (None, false)
    case _ => (None, true)
  }

  predicate Concerns(e: Event, id: nat) {
    (e.Arrive? || e.Advance?) && e.id == id
  }

  lemma OtherLeavesCall(s: State, e: Event, id: nat)
    requires !Concerns(e, id)
    ensures id in Next(s, e).calls <==> id in s.calls
    ensures id in s.calls ==> Next(s, e).calls[id] == s.calls[id]
  {
    if e.Advance? && e.id in s.calls { var _ := StepMovesOne(s, e.id, e.input); }
  }

  /** A step of one call moves that call and no other. */
  lemma StepMovesOne(s: State, id: nat, i: Input) returns (call: Call)
    requires id in s.calls
    ensures Step(s, id, i).calls == s.calls[id := call]
  {
    call := s.calls[id];
    match call.pc
    case Returned(_) =>
    case Start => call := call.(pc := ClaimOrGet(s, id, i.fate).calls[id].pc);
    case Claimed => call := call.(pc := TryCoalesce(s, id, i.fate).calls[id].pc);
    case Made(job) => call := call.(pc := SetJobID(s, id, job, i.fate).calls[id].pc);
    case _ => call := call.(pc := Step(s, id, i).calls[id].pc);
  }

  lemma {:induction false} OthersLeaveCall(s: State, events: seq<Event>, id: nat)
    requires forall i | 0 <= i < |events| :: !Concerns(events[i], id)
    ensures id in Run(s, events).calls <==> id in s.calls
    ensures id in s.calls ==> Run(s, events).calls[id] == s.calls[id]
    decreases |events|
  {
    if events != [] {
      OtherLeavesCall(s, events[0], id);
      assert forall i | 0 <= i < |events| - 1 :: events[1..][i] == events[i + 1];
      OthersLeaveCall(Next(s, events[0]), events[1..], id);
    }
  }

  // ---- which Submits are accepted ----

  /** Nothing has gone wrong for a call in one of these states. */
  predicate OnTrack(pc: Pc) {
    || pc.Start? || pc.Claimed? || pc.Coalesced? || pc.Admitted? || pc.Made? || pc.Bound?
    || (pc.Returned? && pc.result.Accepted?)
  }

  /** The call's next step works, and finds what it needs free, or still there. */
  predicate GoesWell(s: State, id: nat, i: Input)
    requires id in s.calls
  {
    var call := s.calls[id];
    match call.pc
    case Start => i.fate == Works && call.key !in s.idem
    case Claimed => i.fate == Works && call.lock !in s.locks
    case Coalesced => i.admitted
    case Admitted => i.fate == Works && i.newJob !in s.jobs
    case Made(_) => i.fate == Works && call.key in s.idem
    case Bound(_) => i.queue == Queued
    case _ => true
  }

  /** Every step of the call goes well when it is reached. */
  predicate AllGoWell(s: State, events: seq<Event>, id: nat)
    decreases |events|
  {
    events == [] || (
      && (events[0].Advance? && events[0].id == id && id in s.calls ==> GoesWell(s, id, events[0].input))
      && AllGoWell(Next(s, events[0]), events[1..], id))
  }

  lemma StepStaysOnTrackIff(s: State, id: nat, i: Input)
    requires id in s.calls
    ensures id in Step(s, id, i).calls
    ensures OnTrack(Step(s, id, i).calls[id].pc) <==> OnTrack(s.calls[id].pc) && GoesWell(s, id, i)
  {
    match s.calls[id].pc
    case Start =>
    case Claimed =>
    case Made(_) =>
    case Rejecting(_) =>
    case CleanKey(_, _) =>
    case _ =>
  }

  /** Whatever others do in between, a call stays on track exactly as long as each of its steps goes well. */
  lemma {:induction false} OnTrackIffAllGoWell(s: State, events: seq<Event>, id: nat)
    requires id in s.calls && OnTrack(s.calls[id].pc)
    ensures id in Run(s, events).calls
    ensures OnTrack(Run(s, events).calls[id].pc) <==> AllGoWell(s, events, id)
    decreases |events|
  {
    if events != [] {
      var e, s' := events[0], Next(s, events[0]);
      if e.Advance? && e.id == id {
        StepStaysOnTrackIff(s, id, e.input);
      } else if !Concerns(e, id) {
        OtherLeavesCall(s, e, id);
      }
      if OnTrack(s'.calls[id].pc) {
        OnTrackIffAllGoWell(s', events[1..], id);
      } else {
        OffTrackForGood(s', events[1..], id);
      }
    }
  }

  lemma {:induction false} OffTrackForGood(s: State, events: seq<Event>, id: nat)
    requires id in s.calls && !OnTrack(s.calls[id].pc)
    ensures id in Run(s, events).calls && !OnTrack(Run(s, events).calls[id].pc)
    decreases |events|
  {
    if events != [] {
      var e, s' := events[0], Next(s, events[0]);
      if e.Advance? && e.id == id {
        StepStaysOnTrackIff(s, id, e.input);
      } else if !Concerns(e, id) {
        OtherLeavesCall(s, e, id);
      }
      OffTrackForGood(s', events[1..], id);
    }
  }

  /** What an arrival and a run keep. */
  lemma KeptByRun(s: State, e: Event, events: seq<Event>)
    requires e.Arrive?
    ensures Exclusive(s) ==> Exclusive(Run(Next(s, e), events))
    ensures Linked(s) ==> Linked(Next(s, e)) && Linked(Run(Next(s, e), events))
    ensures Inv(s) ==> Inv(Next(s, e)) && (BindsAcknowledged(Next(s, e), events) ==> Inv(Run(Next(s, e), events)))
  {
    if Exclusive(s) {
      EventKeepsExclusive(s, e);
      RunKeepsExclusive(Next(s, e), events);
    }
    if Linked(s) {
      EventKeepsLinked(s, e);
      RunKeepsLinked(Next(s, e), events);
    }
    if Inv(s) {
      EventKeepsInv(s, e);
      if BindsAcknowledged(Next(s, e), events) { RunKeepsInv(Next(s, e), events); }
    }
  }

  // ---- the code ----

  /** One Submit call as the code runs it, with everybody else's events between any two of its external calls. */
  class SubmitInference {
    const world: nat -> seq<Event>
    const inputs: nat -> Input
    const id: nat
    const key: Key
    const lock: Lock

    var st: State
    var tick: nat

    /** Nobody else acts in this call's name. */
    ghost predicate Valid() {
      forall n, i | 0 <= i < |world(n)| :: !Concerns(world(n)[i], id)
    }

    ghost predicate At(pc: Pc)
      reads this
    {
      id in st.calls && st.calls[id] == Call(key, lock, pc)
    }

    /** The protocol's turn number `n`: everybody else's events, then this call's step on what the outside decided. */
    ghost function Turn(s: State, n: nat): State {
      Next(Run(s, world(n)), Advance(id, inputs(n)))
    }

    ghost function Turns(s: State, from: nat, next: nat): State {
      if next <= from then s else Turn(Turns(s, from, next - 1), next - 1)
    }

    /** The events of those turns. */
    ghost function Schedule(from: nat, next: nat): seq<Event> {
      if next <= from then [] else Schedule(from, next - 1) + (world(next - 1) + [Advance(id, inputs(next - 1))])
    }

    lemma TurnIsRun(s: State, n: nat)
      ensures Run(s, world(n) + [Advance(id, inputs(n))]) == Turn(s, n)
    {
      var e := Advance(id, inputs(n));
      RunConcat(s, world(n), [e]);
      assert [e][1..] == [];
      assert Run(Run(s, world(n)), [e]) == Next(Run(s, world(n)), e);
    }

    lemma {:induction false} TurnsAreRun(s: State, from: nat, next: nat)
      ensures Turns(s, from, next) == Run(s, Schedule(from, next))
      decreases next
    {
      if next > from {
        TurnsAreRun(s, from, next - 1);
        RunConcat(s, Schedule(from, next - 1), world(next - 1) + [Advance(id, inputs(next - 1))]);
        TurnIsRun(Turns(s, from, next - 1), next - 1);
      }
    }

    /** The turns lead from one state to the other.  The quantifier keeps the verifier from unfolding them where
        nobody asks for it. */
    ghost predicate Took(s: State, from: nat, t: State, next: nat) {
      from <= next && forall n {:trigger Turns(s, from, n)} | n == next :: t == Turns(s, from, n)
    }

    lemma TookOne(s: State, n: nat)
      ensures Took(s, n, Turn(s, n), n + 1)
    {
      assert Turns(s, n, n) == s;
      assert Turns(s, n, n + 1) == Turn(s, n);
    }

    lemma TookTurn(s: State, n: nat, t: State)
      requires Took(s, n, t, n + 1)
      ensures t == Turn(s, n)
    {
      assert Turns(s, n, n) == s;
      assert Turns(s, n, n + 1) == Turn(s, n);
    }

    lemma TookJoin(s: State, a: nat, t: State, b: nat, u: State, c: nat)
      requires Took(s, a, t, b) && Took(t, b, u, c)
      ensures Took(s, a, u, c)
    {
      TurnsJoin(s, a, b, c);
      assert t == Turns(s, a, b) && u == Turns(t, b, c);
    }

    lemma {:induction false} TurnsJoin(s: State, a: nat, b: nat, c: nat)
      requires a <= b <= c
      ensures Turns(s, a, c) == Turns(Turns(s, a, b), b, c)
      decreases c
    {
      if c > b { TurnsJoin(s, a, b, c - 1); }
    }

    /** What a call that came by both claims leaves behind, having started from `s` at call number `from`.  Unless its
        job was bound, the deletes that were not lost gave up the lock and freed the key.  A bound job that the queue
        did not take for want of room or time gives up the lock; one that met a queue error leaves all be. */
    ghost predicate LeavesBehind(s: State, from: nat)
      reads this
    {
      && id in st.calls && st.calls[id].pc.Returned?
      && match st.calls[id].pc.result
         case Accepted(_) => inputs(from + 5).queue == Queued && tick == from + 6
         case Abandoned(_) =>
           if inputs(from + 5).queue == QueueError then tick == from + 6
           else tick == from + 8 && (inputs(tick - 1).fate != Lost ==> lock !in st.locks)
         case _ =>
           && tick > from + 4 && (inputs(tick - 1).fate != Lost ==> key !in st.idem)
           && (inputs(tick - 2).fate != Lost ==> lock !in Run(s, Schedule(from, tick - 1)).locks)
    }

    /** A job that was bound and given up is on record under its key as ended. */
    ghost predicate OnRecord(from: nat)
      reads this
    {
      id in st.calls && st.calls[id].pc.Returned? && st.calls[id].pc.result.Abandoned? && tick == from + 8
      && inputs(tick - 2).fate != Lost ==>
        key in st.idem && st.idem[key].status != InFlight && st.idem[key].job == Some(st.calls[id].pc.result.job)
    }

    lemma CompensatedLeaves(s: State, from: nat, eve: State)
      requires Compensated(s, from, eve, from + 2)
      ensures LeavesBehind(s, from)
    {
      if !st.calls[id].pc.result.Abandoned? && !st.calls[id].pc.result.Accepted? {
        NextTurn(s, from, eve, tick - 2);
      }
    }

    lemma NextTurn(s: State, from: nat, t: State, n: nat)
      requires Took(s, from, t, n)
      ensures Run(s, Schedule(from, n + 1)) == Turn(t, n)
    {
      assert Turns(s, from, n) == t;
      TurnsAreRun(s, from, n);
      RunConcat(s, Schedule(from, n), world(n) + [Advance(id, inputs(n))]);
      TurnIsRun(t, n);
    }

    lemma CompensatedOnRecord(s: State, from: nat, eve: State)
      requires Valid() && Compensated(s, from, eve, from + 2) && Inv(s) && Linked(s)
      requires st == Run(s, Schedule(from, tick)) && BindsAcknowledged(s, Schedule(from, tick))
      ensures OnRecord(from)
    {
      if st.calls[id].pc.result.Abandoned? && tick == from + 8 && inputs(tick - 2).fate != Lost {
        var n, job := tick - 2, st.calls[id].pc.result.job;
        StillThere(s, from, eve, n);
        LastTwoTurns(from, n);
        RejectionSettles(s, Schedule(from, n) + world(n), id, job, inputs(n),
                         world(n + 1) + [Advance(id, inputs(n + 1))]);
      }
    }

    /** The turns taken since the call arrived are a run. */
    lemma RunOf(s: State, from: nat)
      requires Took(Next(s, Arrive(id, key, lock)), from, st, tick) && id !in s.calls && id in st.calls
      ensures var arrived := Next(s, Arrive(id, key, lock));
              && st == Run(arrived, Schedule(from, tick))
              && (OnTrack(st.calls[id].pc) <==> AllGoWell(arrived, Schedule(from, tick), id))
    {
      var arrived := Next(s, Arrive(id, key, lock));
      assert st == Turns(arrived, from, tick);
      TurnsAreRun(arrived, from, tick);
      OnTrackIffAllGoWell(arrived, Schedule(from, tick), id);
    }

    lemma Aftermath(s: State, from: nat, eve: State)
      requires var arrived := Next(s, Arrive(id, key, lock));
               && Valid() && st == Run(arrived, Schedule(from, tick))
               && (tick > from + 2 ==> Compensated(arrived, from, eve, from + 2))
      ensures tick > from + 2 ==> LeavesBehind(Next(s, Arrive(id, key, lock)), from)
      ensures Inv(s) && Linked(s) && BindsAcknowledged(Next(s, Arrive(id, key, lock)), Schedule(from, tick)) ==>
                OnRecord(from)
    {
      var arrived := Next(s, Arrive(id, key, lock));
      if tick > from + 2 {
        CompensatedLeaves(arrived, from, eve);
        if Inv(s) && Linked(s) && BindsAcknowledged(arrived, Schedule(from, tick)) {
          KeptByRun(s, Arrive(id, key, lock), []);
          CompensatedOnRecord(arrived, from, eve);
        }
      }
    }

    lemma StillThere(s: State, from: nat, eve: State, n: nat)
      requires Valid() && Took(s, from, eve, n) && id in eve.calls
      ensures var met := Run(s, Schedule(from, n) + world(n)); id in met.calls && met.calls[id] == eve.calls[id]
    {
      assert Turns(s, from, n) == eve;
      TurnsAreRun(s, from, n);
      RunConcat(s, Schedule(from, n), world(n));
      OthersLeaveCall(eve, world(n), id);
    }

    lemma LastTwoTurns(from: nat, n: nat)
      requires from <= n
      ensures Schedule(from, n + 2) ==
              Schedule(from, n) + world(n) + [Advance(id, inputs(n))] + (world(n + 1) + [Advance(id, inputs(n + 1))])
    {
      assert Schedule(from, n + 1) == Schedule(from, n) + world(n) + [Advance(id, inputs(n))];
    }

    constructor (world: nat -> seq<Event>, inputs: nat -> Input, id: nat, key: Key, lock: Lock, st: State)
      requires forall n, i | 0 <= i < |world(n)| :: !Concerns(world(n)[i], id)
      ensures Valid() && this.st == st && tick == 0
      ensures this.world == world && this.inputs == inputs && this.id == id && this.key == key && this.lock == lock
    {
      this.world, this.inputs, this.id, this.key, this.lock := world, inputs, id, key, lock;
      this.st, this.tick := st, 0;
    }

    /** Others act until this call's next external call is served, and the outside decides its fate. */
    method Meet() returns (i: Input)
      requires Valid()
      modifies this
      ensures st == Run(old(st), world(old(tick))) && i == inputs(old(tick)) && tick == old(tick) + 1
      ensures id in st.calls <==> id in old(st).calls
      ensures id in st.calls ==> st.calls[id] == old(st).calls[id]
    {
      OthersLeaveCall(st, world(tick), id);
      st := Run(st, world(tick));
      i := inputs(tick);
      tick := tick + 1;
    }

    method MoveTo(pc: Pc)
      requires id in st.calls
      modifies this`st
      ensures st == Goto(old(st), id, pc)
    {
      st := st.(calls := st.calls[id := st.calls[id].(pc := pc)]);
    }

    /** The two deletes, whose first is call number `n`, took the lock and left the key free. */
    ghost predicate CleanedUp(s: State, n: nat, t: State) {
      && (inputs(n).fate != Lost ==> lock !in Turn(s, n).locks)
      && (inputs(n + 1).fate != Lost ==> key !in t.idem)
    }

    /** Call number `n` went to the record of a bound job that is rejected, and the next gave up the lock. */
    ghost predicate GivenUp(s: State, n: nat, t: State, job: JobId) {
      && id in s.calls && s.calls[id] == Call(key, lock, Rejecting(job))
      && (inputs(n + 1).fate != Lost ==> lock !in t.locks)
    }

    /** How a call that came by both claims and was not accepted was compensated.  Its admission is call number `n`, and
        `eve` is the state before its last two calls, reached from `s` by the turns since call number `from`. */
    ghost predicate Compensated(s: State, from: nat, eve: State, n: nat)
      reads this
    {
      && id in st.calls && st.calls[id].pc.Returned?
      && match st.calls[id].pc.result
         case Abandoned(job) =>
           if inputs(n + 3).queue == QueueError then tick == n + 4
           else tick == n + 6 && Took(s, from, eve, tick - 2) && GivenUp(eve, tick - 2, st, job)
         case Accepted(_) => inputs(n + 3).queue == Queued && tick == n + 4
         case _ => tick > n + 2 && Took(s, from, eve, tick - 2) && CleanedUp(eve, tick - 2, st)
    }

    lemma CompensatedSince(s: State, a: nat, t: State, b: nat, eve: State, n: nat)
      requires Took(s, a, t, b) && Compensated(t, b, eve, n)
      ensures Compensated(s, a, eve, n)
    {
      if Took(t, b, eve, tick - 2) { TookJoin(s, a, t, b, eve, tick - 2); }
    }

    /** Attempts both deletes, lock and key; `clean` when both were confirmed. */
    method CleanupClaims(shadowed: bool) returns (clean: bool)
      requires Valid() && At(CleanLock(shadowed))
      modifies this
      ensures Took(old(st), old(tick), st, tick) && tick == old(tick) + 2
      ensures clean <==> inputs(old(tick)).fate == Works && inputs(old(tick) + 1).fate == Works
      ensures CleanedUp(old(st), old(tick), st)
      ensures At(Returned(if shadowed && clean then Nothing else Refused))
    {
      var unlocked := DeleteLock(CleanKey(shadowed, false), CleanKey(shadowed, true));
      ghost var s := st;
      TookTurn(old(st), old(tick), s);
      clean := DeleteKey(shadowed, !unlocked);
      TookJoin(old(st), old(tick), s, old(tick) + 1, st, tick);
    }

    /** Deletes the coalescing lock and goes on to one state or the other. */
    method DeleteLock(ifDeleted: Pc, ifNot: Pc) returns (deleted: bool)
      requires Valid()
      requires || (exists shadowed :: At(CleanLock(shadowed))
                     && ifDeleted == CleanKey(shadowed, false) && ifNot == CleanKey(shadowed, true))
               || (exists job :: At(Rejected(job)) && ifDeleted == ifNot == Returned(Abandoned(job)))
      modifies this
      ensures Took(old(st), old(tick), st, tick) && tick == old(tick) + 1
      ensures deleted <==> inputs(old(tick)).fate == Works
      ensures st.locks == Run(old(st), world(old(tick))).locks - if inputs(old(tick)).fate == Lost then {} else {lock}
      ensures At(if deleted then ifDeleted else ifNot)
    {
      TookOne(st, tick);
      var i := Meet();
      if i.fate != Lost {
        st := st.(locks := st.locks - {lock});
      }
      deleted := i.fate == Works;
      MoveTo(if deleted then ifDeleted else ifNot);
      assert st == Turn(old(st), old(tick));
    }

    method DeleteKey(shadowed: bool, bad: bool) returns (clean: bool)
      requires Valid() && At(CleanKey(shadowed, bad))
      modifies this
      ensures Took(old(st), old(tick), st, tick) && tick == old(tick) + 1
      ensures clean <==> !bad && inputs(old(tick)).fate == Works
      ensures st.idem == Run(old(st), world(old(tick))).idem - if inputs(old(tick)).fate == Lost then {} else {key}
      ensures At(Returned(if shadowed && clean then Nothing else Refused))
    {
      TookOne(st, tick);
      var i := Meet();
      if i.fate != Lost {
        st := st.(idem := st.idem - {key});
      }
      clean := !bad && i.fate == Works;
      MoveTo(Returned(if shadowed && clean then Nothing else Refused));
      assert st == Turn(old(st), old(tick));
    }

    /** Marks the key's record failed and gives up the lock, after a full queue or a deadline too close. */
    method RejectBound(job: JobId)
      requires Valid() && At(Rejecting(job))
      modifies this
      ensures Took(old(st), old(tick), st, tick) && tick == old(tick) + 2
      ensures At(Returned(Abandoned(job))) && GivenUp(old(st), old(tick), st, job)
    {
      FailRecord(job);
      ghost var s := st;
      var _ := DeleteLock(Returned(Abandoned(job)), Returned(Abandoned(job)));
      TookJoin(old(st), old(tick), s, old(tick) + 1, st, tick);
    }

    method FailRecord(job: JobId)
      requires Valid() && At(Rejecting(job))
      modifies this
      ensures Took(old(st), old(tick), st, tick) && tick == old(tick) + 1 && At(Rejected(job))
      ensures var met := Run(old(st), world(old(tick)));
              Inv(met) && Linked(met) && inputs(old(tick)).fate != Lost
              && key in met.idem && met.idem[key].status == InFlight ==>
                st.idem == met.idem[key := Record(JobFailed, Some(job))]
    {
      TookOne(st, tick);
      var i := Meet();
      if Inv(st) && Linked(st) {
        assert RecordFits(st.idem, st.calls[id]);
        if st.idem[key].status == InFlight { TransitionSettles(st, id, false); }
      }
      if i.fate != Lost {
        st := TransitionStatus(st, job, false);
      }
      MoveTo(Rejected(job));
      assert st == Turn(old(st), old(tick));
    }

    /** Claims the idempotency key; `None` when the call may go on, otherwise how it ends. */
    method ClaimOrGet() returns (over: Option<Result>)
      requires Valid() && At(Start)
      modifies this
      ensures Took(old(st), old(tick), st, tick) && tick == old(tick) + 1
      ensures over.None? <==> inputs(old(tick)).fate == Works && key !in Run(old(st), world(old(tick))).idem
      ensures At(if over.None? then Claimed else Returned(over.value))
    {
      TookOne(st, tick);
      var i := Meet();
      if i.fate == Lost {
        over := Some(Refused);
      } else if key !in st.idem {
        st := st.(idem := st.idem[key := Record(InFlight, None)]);
        over := if i.fate == Works then None else Some(Refused);
      } else if i.fate == Works && st.idem[key].status == Done {
        over := Some(Replayed(st.idem[key].job));
      } else {
        over := Some(Refused);
      }
      MoveTo(if over.None? then Claimed else Returned(over.value));
      assert st == Turn(old(st), old(tick));
    }

    /** Takes the coalescing lock; a refusal leaves the idempotency record as it was met. */
    method TryCoalesce() returns (proceed: bool)
      requires Valid() && At(Claimed)
      modifies this
      ensures Took(old(st), old(tick), st, tick) && tick == old(tick) + 1
      ensures proceed <==> inputs(old(tick)).fate == Works && lock !in Run(old(st), world(old(tick))).locks
      ensures st.idem == Run(old(st), world(old(tick))).idem
      ensures At(if proceed then Coalesced else Returned(Refused))
    {
      TookOne(st, tick);
      var i := Meet();
      proceed := false;
      if i.fate != Lost && lock !in st.locks {
        st := st.(locks := st.locks + {lock});
        proceed := i.fate == Works;
      }
      MoveTo(if proceed then Coalesced else Returned(Refused));
      assert st == Turn(old(st), old(tick));
    }

    /** Creates the job and binds it to the key; without success the call is left to be cleaned up. */
    method CreateAndBind() returns (job: Option<JobId>)
      requires Valid() && At(Admitted)
      modifies this
      ensures Took(old(st), old(tick), st, tick) && old(tick) < tick <= old(tick) + 2
      ensures job.Some? ==> tick == old(tick) + 2 && job.value == inputs(old(tick)).newJob
                            && inputs(old(tick)).fate == Works && inputs(old(tick) + 1).fate == Works
      ensures At(if job.Some? then Bound(job.value) else CleanLock(true))
    {
      var made := CreateJob();
      ghost var s := st;
      if made.None? {
        return None;
      }
      job := BindJob(made.value);
      TookJoin(old(st), old(tick), s, old(tick) + 1, st, tick);
    }

    method CreateJob() returns (made: Option<JobId>)
      requires Valid() && At(Admitted)
      modifies this
      ensures Took(old(st), old(tick), st, tick) && tick == old(tick) + 1
      ensures made.Some? <==>
              inputs(old(tick)).fate == Works && inputs(old(tick)).newJob !in Run(old(st), world(old(tick))).jobs
      ensures made.Some? ==> made.value == inputs(old(tick)).newJob
      ensures At(if made.Some? then Made(made.value) else CleanLock(true))
    {
      TookOne(st, tick);
      var i := Meet();
      made := None;
      if i.fate != Lost && i.newJob !in st.jobs {
        st := st.(jobs := st.jobs + {i.newJob});
        made := if i.fate == Works then Some(i.newJob) else None;
      }
      MoveTo(if made.Some? then Made(i.newJob) else CleanLock(true));
      assert st == Turn(old(st), old(tick));
    }

    method BindJob(newJob: JobId) returns (job: Option<JobId>)
      requires Valid() && At(Made(newJob))
      modifies this
      ensures Took(old(st), old(tick), st, tick) && tick == old(tick) + 1
      ensures job == if inputs(old(tick)).fate == Works && key in Run(old(st), world(old(tick))).idem
                     then Some(newJob) else None
      ensures At(if job.Some? then Bound(newJob) else CleanLock(true))
    {
      TookOne(st, tick);
      var i := Meet();
      job := None;
      if i.fate != Lost && key in st.idem {
        st := st.(idem := st.idem[key := st.idem[key].(job := Some(newJob))], reverse := st.reverse[newJob := key]);
        job := if i.fate == Works then Some(newJob) else None;
      }
      MoveTo(if job.Some? then Bound(newJob) else CleanLock(true));
      assert st == Turn(old(st), old(tick));
    }

    /** The whole call, for every interleaving and every failure of its external calls.  What has happened is this
        call's arrival and, turn by turn, what others did and the protocol's step on what the outside decided; so the
        protocol's theorems hold of it.  It reports what it came to, and it is accepted exactly when every step went
        well.  A call that came by both claims and was not accepted gives up the lock and frees the key, unless its job
        was bound; then a full queue or a short deadline settles the key's record, and a queue error leaves all be. */
    method Submit() returns (job: Option<JobId>, err: bool)
      requires Valid() && id !in st.calls
      modifies this
      ensures st == Run(Next(old(st), Arrive(id, key, lock)), Schedule(old(tick), tick))
      ensures id in st.calls && st.calls[id].key == key && st.calls[id].lock == lock && st.calls[id].pc.Returned?
      ensures (job, err) == Reported(st.calls[id].pc.result)
      ensures st.calls[id].pc.result.Accepted? <==>
              AllGoWell(Next(old(st), Arrive(id, key, lock)), Schedule(old(tick), tick), id)
      ensures Exclusive(old(st)) ==> Exclusive(st)
      ensures Linked(old(st)) ==> Linked(st)
      ensures Inv(old(st)) && BindsAcknowledged(Next(old(st), Arrive(id, key, lock)), Schedule(old(tick), tick)) ==>
                Inv(st)
      ensures tick > old(tick) + 2 ==> LeavesBehind(Next(old(st), Arrive(id, key, lock)), old(tick))
      ensures Inv(old(st)) && Linked(old(st))
              && BindsAcknowledged(Next(old(st), Arrive(id, key, lock)), Schedule(old(tick), tick)) ==>
                OnRecord(old(tick))
    {
      ghost var eve;
      job, err, eve := Proceed();
      RunOf(old(st), old(tick));
      KeptByRun(old(st), Arrive(id, key, lock), Schedule(old(tick), tick));
      Aftermath(old(st), old(tick), eve);
    }

    /** The calls of Submit in order, with the compensation each failure leads to. */
    method Proceed() returns (job: Option<JobId>, err: bool, ghost eve: State)
      requires Valid() && id !in st.calls
      modifies this
      ensures Took(Next(old(st), Arrive(id, key, lock)), old(tick), st, tick)
      ensures tick > old(tick) + 2 ==>
                Compensated(Next(old(st), Arrive(id, key, lock)), old(tick), eve, old(tick) + 2)
      ensures id in st.calls && st.calls[id].key == key && st.calls[id].lock == lock && st.calls[id].pc.Returned?
      ensures (job, err) == Reported(st.calls[id].pc.result)
    {
      st := st.(calls := st.calls[id := Call(key, lock, Start)]);
      ghost var s0 := st;
      eve := s0;
      var over := ClaimOrGet();
      if over.Some? {
        job, err := Reported(over.value).0, Reported(over.value).1;
        return;
      }
      ghost var s, n := st, tick;
      var proceed := TryCoalesce();
      TookJoin(s0, old(tick), s, n, st, tick);
      if !proceed {
        job, err := None, true;
        return;
      }
      s, n := st, tick;
      job, err, eve := AdmitAndCreate();
      TookJoin(s0, old(tick), s, n, st, tick);
      CompensatedSince(s0, old(tick), s, n, eve, n);
    }

    method AdmitAndCreate() returns (job: Option<JobId>, err: bool, ghost eve: State)
      requires Valid() && At(Coalesced)
      modifies this
      ensures Took(old(st), old(tick), st, tick) && tick > old(tick)
      ensures id in st.calls && st.calls[id].key == key && st.calls[id].lock == lock && st.calls[id].pc.Returned?
      ensures (job, err) == Reported(st.calls[id].pc.result)
      ensures Compensated(old(st), old(tick), eve, old(tick))
    {
      var admitted := Admit();
      ghost var s, n := st, tick;
      if admitted {
        job, err, eve := CreateAndEnqueue();
        CompensatedSince(old(st), old(tick), s, n, eve, old(tick));
      } else {
        eve := s;
        var _ := CleanupClaims(false);
        job, err := None, true;
      }
      TookJoin(old(st), old(tick), s, n, st, tick);
    }

    method CreateAndEnqueue() returns (job: Option<JobId>, err: bool, ghost eve: State)
      requires Valid() && At(Admitted) && tick >= 1
      modifies this
      ensures Took(old(st), old(tick), st, tick) && tick > old(tick)
      ensures id in st.calls && st.calls[id].key == key && st.calls[id].lock == lock && st.calls[id].pc.Returned?
      ensures (job, err) == Reported(st.calls[id].pc.result)
      ensures Compensated(old(st), old(tick), eve, old(tick) - 1)
    {
      var created := CreateAndBind();
      ghost var s, n := st, tick;
      if created.Some? {
        job, err, eve := Enqueue(created.value);
        CompensatedSince(old(st), old(tick), s, n, eve, old(tick) - 1);
      } else {
        eve := s;
        var clean := CleanupClaims(true);
        job, err := None, !clean;
      }
      TookJoin(old(st), old(tick), s, n, st, tick);
    }

    method Admit() returns (admitted: bool)
      requires Valid() && At(Coalesced)
      modifies this
      ensures Took(old(st), old(tick), st, tick) && tick == old(tick) + 1
      ensures admitted == inputs(old(tick)).admitted
      ensures At(if admitted then Admitted else CleanLock(false))
    {
      TookOne(st, tick);
      var i := Meet();
      admitted := i.admitted;
      MoveTo(if admitted then Admitted else CleanLock(false));
      assert st == Turn(old(st), old(tick));
    }

    method Enqueue(bound: JobId) returns (job: Option<JobId>, err: bool, ghost eve: State)
      requires Valid() && At(Bound(bound)) && tick >= 3
      modifies this
      ensures Took(old(st), old(tick), st, tick)
      ensures id in st.calls && st.calls[id].key == key && st.calls[id].lock == lock && st.calls[id].pc.Returned?
      ensures (job, err) == Reported(st.calls[id].pc.result)
      ensures Compensated(old(st), old(tick), eve, old(tick) - 3)
    {
      var outcome := TryEnqueue(bound);
      eve := st;
      match outcome {
        case Queued =>
          job, err := Some(bound), false;
        case QueueError =>
          job, err := None, true;
        case _ =>
          RejectBound(bound);
          TookJoin(old(st), old(tick), eve, old(tick) + 1, st, tick);
          job, err := None, true;
      }
    }

    method TryEnqueue(bound: JobId) returns (outcome: QueueOutcome)
      requires Valid() && At(Bound(bound))
      modifies this
      ensures Took(old(st), old(tick), st, tick) && tick == old(tick) + 1 && outcome == inputs(old(tick)).queue
      ensures At(match outcome
                 case Queued => Returned(Accepted(bound))
                 case QueueError => Returned(Abandoned(bound))
                 case _ => Rejecting(bound))
    {
      TookOne(st, tick);
      var i := Meet();
      outcome := i.queue;
      MoveTo(match outcome
             case Queued => Returned(Accepted(bound))
             case QueueError => Returned(Abandoned(bound))
             case _ => Rejecting(bound));
      assert st == Turn(old(st), old(tick));
    }
  }
}

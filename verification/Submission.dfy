/** Submission: claiming an idempotency key, taking the coalescing lock, admission, job creation, binding and
    enqueueing, with compensation, for any number of Submit calls interleaved at every call they make. */
module Submission {
  import opened Common
  import Scheduler

  type UserId = Scheduler.UserId
  type JobId = Scheduler.JobId

  datatype Key = Key(user: UserId, header: string)

  /** The coalescing lock of a request: its user and the hash of its content. */
  datatype Lock = Lock(user: UserId, hash: int)

  datatype Status = InFlight | Done | JobFailed

  datatype Record = Record(status: Status, job: Option<JobId>)

  /** What a Submit call came to. */
  datatype Result =
    | Accepted(job: JobId)
    | Replayed(original: Option<JobId>)
    | Refused
    | Nothing             // no error, and no job id either
    | Abandoned(job: JobId)

  /** Where a Submit call stands; the cleanup states say whether the error that led there will be shadowed, and
      whether a delete has failed. */
  datatype Pc =
    | Start
    | Claimed
    | Coalesced
    | Admitted
    | Made(job: JobId)
    | Bound(job: JobId)
    | Rejecting(job: JobId)
    | Rejected(job: JobId)
    | CleanLock(shadowed: bool)
    | CleanKey(shadowed: bool, bad: bool)
    | Returned(result: Result)

  datatype Call = Call(key: Key, lock: Lock, pc: Pc)

  datatype State = State(
    idem: map<Key, Record>,
    reverse: map<JobId, Key>,
    locks: set<Lock>,
    jobs: set<JobId>,
    calls: map<nat, Call>)

  const EMPTY := State(map[], map[], {}, {}, map[])

  datatype QueueOutcome = Queued | QueueFull | QueueError | DeadlineTooShort

  /** What the outside decides for one call of a Submit. */
  datatype Input = Input(fate: Fate, admitted: bool, newJob: JobId, queue: QueueOutcome)

  datatype Event =
    | Arrive(id: nat, key: Key, lock: Lock)
    | Advance(id: nat, input: Input)
    | Transition(job: JobId, done: bool)

  function Goto(s: State, id: nat, pc: Pc): State
    requires id in s.calls
  {
    s.(calls := s.calls[id := s.calls[id].(pc := pc)])
  }

  /** `in_flight` to `completed` or `failed` through the reverse map; anything else is refused. */
  function TransitionStatus(s: State, job: JobId, done: bool): State {
    if job !in s.reverse || s.reverse[job] !in s.idem || s.idem[s.reverse[job]].status != InFlight then s
    else var key := s.reverse[job];
         s.(idem := s.idem[key := s.idem[key].(status := if done then Done else JobFailed)])
  }

  function ClaimOrGet(s: State, id: nat, fate: Fate): State
    requires id in s.calls
  {
    var key := s.calls[id].key;
    if fate == Lost then Goto(s, id, Returned(Refused))
    else if key !in s.idem then
      Goto(s, id, if fate == Works then Claimed else Returned(Refused)).(idem := s.idem[key := Record(InFlight, None)])
    else if fate == Works && s.idem[key].status == Done then Goto(s, id, Returned(Replayed(s.idem[key].job)))
    else Goto(s, id, Returned(Refused))
  }

  function TryCoalesce(s: State, id: nat, fate: Fate): State
    requires id in s.calls
  {
    var lock := s.calls[id].lock;
    if fate == Lost || lock in s.locks then Goto(s, id, Returned(Refused))
    else Goto(s, id, if fate == Works then Coalesced else Returned(Refused)).(locks := s.locks + {lock})
  }

  function SetJobID(s: State, id: nat, job: JobId, fate: Fate): State
    requires id in s.calls
  {
    var key := s.calls[id].key;
    if fate == Lost || key !in s.idem then Goto(s, id, CleanLock(true))
    else Goto(s, id, if fate == Works then Bound(job) else CleanLock(true)).(
           idem := s.idem[key := s.idem[key].(job := Some(job))],
           reverse := s.reverse[job := key])
  }

  /** The next external call of a Submit; a call that has returned does nothing. */
  function Step(s: State, id: nat, i: Input): State
    requires id in s.calls
  {
    var call := s.calls[id];
    match call.pc
    case Start => ClaimOrGet(s, id, i.fate)
    case Claimed => TryCoalesce(s, id, i.fate)
    case Coalesced => Goto(s, id, if i.admitted then Admitted else CleanLock(false))
    case Admitted =>
      if i.fate == Lost || i.newJob in s.jobs then Goto(s, id, CleanLock(true))
      else Goto(s, id, if i.fate == Works then Made(i.newJob) else CleanLock(true)).(jobs := s.jobs + {i.newJob})
    case Made(job) => SetJobID(s, id, job, i.fate)
    case Bound(job) =>
      (match i.queue
       case Queued => Goto(s, id, Returned(Accepted(job)))
       case QueueError => Goto(s, id, Returned(Abandoned(job)))
       case _ => Goto(s, id, Rejecting(job)))
    case Rejecting(job) =>
      Goto(if i.fate == Lost then s else TransitionStatus(s, job, false), id, Rejected(job))
    case Rejected(job) =>
      Goto(s, id, Returned(Abandoned(job))).(locks := if i.fate == Lost then s.locks else s.locks - {call.lock})
    case CleanLock(shadowed) =>
      Goto(s, id, CleanKey(shadowed, i.fate != Works)).(
        locks := if i.fate == Lost then s.locks else s.locks - {call.lock})
    case CleanKey(shadowed, bad) =>
      Goto(s, id, Returned(if shadowed && !bad && i.fate == Works then Nothing else Refused)).(
        idem := if i.fate == Lost then s.idem else s.idem - {call.key})
    case Returned(_) => s
  }

  function Next(s: State, e: Event): State {
    match e
    case Arrive(id, key, lock) => if id in s.calls then s else s.(calls := s.calls[id := Call(key, lock, Start)])
    case Advance(id, i) => if id in s.calls then Step(s, id, i) else s
    case Transition(job, done) => TransitionStatus(s, job, done)
  }

  function Run(s: State, events: seq<Event>): State
    decreases |events|
  {
    if events == [] then s else Run(Next(s, events[0]), events[1..])
  }

  // ---- the invariant ----

  /** The call holds its key and has not bound a job to it. */
  predicate Holds(pc: Pc) {
    pc.Claimed? || pc.Coalesced? || pc.Admitted? || pc.Made? || pc.CleanLock? || pc.CleanKey?
  }

  /** The call has bound a job to its key. */
  predicate HasBound(pc: Pc) {
    pc.Bound? || pc.Rejecting? || pc.Rejected? || (pc.Returned? && (pc.result.Accepted? || pc.result.Abandoned?))
  }

  function BoundJob(pc: Pc): JobId
    requires HasBound(pc)
  {
    if pc.Returned? then pc.result.job else pc.job
  }

  predicate Owns(pc: Pc) {
    Holds(pc) || HasBound(pc)
  }

  predicate HoldsLock(pc: Pc) {
    pc.Coalesced? || pc.Admitted? || pc.Made? || pc.Bound? || pc.Rejecting? || pc.Rejected? || pc.CleanLock?
  }

  ghost predicate RecordFits(idem: map<Key, Record>, call: Call) {
    && (Owns(call.pc) ==> call.key in idem)
    && (Holds(call.pc) ==> idem[call.key] == Record(InFlight, None))
    && (HasBound(call.pc) ==> idem[call.key].job == Some(BoundJob(call.pc)))
    && (call.pc.Returned? && call.pc.result.Replayed? ==>
          call.key in idem && idem[call.key] == Record(Done, call.pc.result.original) && call.pc.result.original.Some?)
  }

  ghost predicate CallsFit(s: State) {
    forall id | id in s.calls :: RecordFits(s.idem, s.calls[id])
  }

  ghost predicate OneOwner(s: State) {
    forall p, q | p in s.calls && q in s.calls && p != q && Owns(s.calls[p].pc) && Owns(s.calls[q].pc) ::
      s.calls[p].key != s.calls[q].key
  }

  ghost predicate OneLockHolder(s: State) {
    && (forall id | id in s.calls && HoldsLock(s.calls[id].pc) :: s.calls[id].lock in s.locks)
    && (forall p, q | p in s.calls && q in s.calls && p != q && HoldsLock(s.calls[p].pc) && HoldsLock(s.calls[q].pc) ::
          s.calls[p].lock != s.calls[q].lock)
  }

  ghost predicate MapsFit(s: State) {
    && (forall job | job in s.reverse :: s.reverse[job] in s.idem && s.idem[s.reverse[job]].job == Some(job))
    && (forall key | key in s.idem && s.idem[key].status != InFlight :: s.idem[key].job.Some?)
  }

  ghost predicate Inv(s: State) {
    CallsFit(s) && OneOwner(s) && OneLockHolder(s) && MapsFit(s)
  }

  /** A binding whose error hides that it took effect is the one failure the protocol does not absorb. */
  predicate BindAcknowledged(s: State, e: Event) {
    e.Advance? && e.id in s.calls && s.calls[e.id].pc.Made? ==> e.input.fate != Unacknowledged
  }

  ghost predicate BindsAcknowledged(s: State, events: seq<Event>)
    decreases |events|
  {
    events == [] || (BindAcknowledged(s, events[0]) && BindsAcknowledged(Next(s, events[0]), events[1..]))
  }

  // ---- every step keeps it ----

  /** Moving one call without touching the shared maps. */
  lemma GotoKeepsInv(s: State, id: nat, pc: Pc)
    requires Inv(s) && id in s.calls
    requires RecordFits(s.idem, s.calls[id].(pc := pc))
    requires Owns(pc) ==> Owns(s.calls[id].pc)
    requires HoldsLock(pc) ==> HoldsLock(s.calls[id].pc)
    ensures Inv(Goto(s, id, pc))
  {}

  lemma NewKeyUnowned(s: State, id: nat, key: Key)
    requires Inv(s) && id in s.calls && key !in s.idem
    ensures s.calls[id].key == key ==> !Owns(s.calls[id].pc)
  {
    assert RecordFits(s.idem, s.calls[id]);
  }

  /** Taking a key nobody has, whether or not the claim is acknowledged. */
  lemma NewKeyKeepsInv(s: State, id: nat, pc: Pc)
    requires Inv(s) && id in s.calls && s.calls[id].key !in s.idem
    requires pc in {Claimed, Returned(Refused)}
    ensures Inv(Goto(s, id, pc).(idem := s.idem[s.calls[id].key := Record(InFlight, None)]))
  {
    var key := s.calls[id].key;
    var s' := Goto(s, id, pc).(idem := s.idem[key := Record(InFlight, None)]);
    forall q | q in s.calls ensures s.calls[q].key == key ==> !Owns(s.calls[q].pc) { NewKeyUnowned(s, q, key); }
    forall q | q in s'.calls ensures RecordFits(s'.idem, s'.calls[q]) { assert RecordFits(s.idem, s.calls[q]); }
  }

  lemma ClaimKeepsInv(s: State, id: nat, fate: Fate)
    requires Inv(s) && id in s.calls && s.calls[id].pc.Start?
    ensures Inv(ClaimOrGet(s, id, fate))
  {
    var s' := ClaimOrGet(s, id, fate);
    if fate != Lost && s.calls[id].key !in s.idem {
      NewKeyKeepsInv(s, id, s'.calls[id].pc);
    } else {
      GotoKeepsInv(s, id, s'.calls[id].pc);
    }
  }

  lemma CoalesceKeepsInv(s: State, id: nat, fate: Fate)
    requires Inv(s) && id in s.calls && s.calls[id].pc.Claimed?
    ensures Inv(TryCoalesce(s, id, fate))
  {
    var s' := TryCoalesce(s, id, fate);
    assert RecordFits(s.idem, s.calls[id]);
    forall q | q in s'.calls ensures RecordFits(s'.idem, s'.calls[q]) { assert RecordFits(s.idem, s.calls[q]); }
  }

  lemma BindKeepsInv(s: State, id: nat, job: JobId, fate: Fate)
    requires Inv(s) && id in s.calls && s.calls[id].pc == Made(job) && fate != Unacknowledged
    ensures Inv(SetJobID(s, id, job, fate))
  {
    var key, s' := s.calls[id].key, SetJobID(s, id, job, fate);
    assert RecordFits(s.idem, s.calls[id]);
    if fate == Lost {
      GotoKeepsInv(s, id, CleanLock(true));
    } else {
      forall q | q in s'.calls ensures RecordFits(s'.idem, s'.calls[q]) { assert RecordFits(s.idem, s.calls[q]); }
    }
  }

  lemma TransitionKeepsInv(s: State, job: JobId, done: bool)
    requires Inv(s)
    ensures Inv(TransitionStatus(s, job, done))
  {
    var s' := TransitionStatus(s, job, done);
    forall q | q in s'.calls ensures RecordFits(s'.idem, s'.calls[q]) { assert RecordFits(s.idem, s.calls[q]); }
  }

  lemma DropKeyKeepsInv(s: State, id: nat, pc: Pc)
    requires Inv(s) && id in s.calls && Holds(s.calls[id].pc)
    requires pc.Returned? && (pc.result.Nothing? || pc.result.Refused?)
    ensures Inv(Goto(s, id, pc).(idem := s.idem - {s.calls[id].key}))
  {
    var s' := Goto(s, id, pc).(idem := s.idem - {s.calls[id].key});
    assert RecordFits(s.idem, s.calls[id]);
    forall q | q in s'.calls ensures RecordFits(s'.idem, s'.calls[q]) { assert RecordFits(s.idem, s.calls[q]); }
  }

  lemma DropLockKeepsInv(s: State, id: nat, pc: Pc)
    requires Inv(s) && id in s.calls && HoldsLock(s.calls[id].pc) && !HoldsLock(pc)
    requires RecordFits(s.idem, s.calls[id].(pc := pc)) && (Owns(pc) ==> Owns(s.calls[id].pc))
    ensures Inv(Goto(s, id, pc).(locks := s.locks - {s.calls[id].lock}))
  {
    GotoKeepsInv(s, id, pc);
    var t, s' := Goto(s, id, pc), Goto(s, id, pc).(locks := s.locks - {s.calls[id].lock});
    forall q | q in s'.calls ensures RecordFits(s'.idem, s'.calls[q]) { assert RecordFits(t.idem, t.calls[q]); }
  }

  lemma SameInv(s: State, t: State)
    requires Inv(s) && t.idem == s.idem && t.calls == s.calls && t.locks == s.locks && t.reverse == s.reverse
    ensures Inv(t)
  {}

  lemma CreateKeepsInv(s: State, id: nat, i: Input)
    requires Inv(s) && id in s.calls && s.calls[id].pc.Admitted?
    ensures Inv(Step(s, id, i))
  {
    var s' := Step(s, id, i);
    assert RecordFits(s.idem, s.calls[id]);
    GotoKeepsInv(s, id, s'.calls[id].pc);
    SameInv(Goto(s, id, s'.calls[id].pc), s');
  }

  lemma RejectKeepsInv(s: State, id: nat, job: JobId, fate: Fate)
    requires Inv(s) && id in s.calls && s.calls[id].pc == Rejecting(job)
    ensures Inv(Goto(if fate == Lost then s else TransitionStatus(s, job, false), id, Rejected(job)))
  {
    var t := if fate == Lost then s else TransitionStatus(s, job, false);
    TransitionKeepsInv(s, job, false);
    assert RecordFits(t.idem, t.calls[id]);
    GotoKeepsInv(t, id, Rejected(job));
  }

  /** Deleting the lock or the key, with or without effect. */
  lemma ReleaseKeepsInv(s: State, id: nat, i: Input)
    requires Inv(s) && id in s.calls
    requires s.calls[id].pc.Rejected? || s.calls[id].pc.CleanLock? || s.calls[id].pc.CleanKey?
    ensures Inv(Step(s, id, i))
  {
    var pc := Step(s, id, i).calls[id].pc;
    assert RecordFits(s.idem, s.calls[id]);
    if i.fate == Lost {
      GotoKeepsInv(s, id, pc);
    } else if s.calls[id].pc.CleanKey? {
      DropKeyKeepsInv(s, id, pc);
    } else {
      DropLockKeepsInv(s, id, pc);
    }
  }

  lemma StepKeepsInv(s: State, id: nat, i: Input)
    requires Inv(s) && id in s.calls && (s.calls[id].pc.Made? ==> i.fate != Unacknowledged)
    ensures Inv(Step(s, id, i))
  {
    var pc, s' := s.calls[id].pc, Step(s, id, i);
    assert RecordFits(s.idem, s.calls[id]);
    match pc
    case Start => ClaimKeepsInv(s, id, i.fate);
    case Claimed => CoalesceKeepsInv(s, id, i.fate);
    case Coalesced => GotoKeepsInv(s, id, s'.calls[id].pc);
    case Admitted =>
      CreateKeepsInv(s, id, i);
    case Made(job) => BindKeepsInv(s, id, job, i.fate);
    case Bound(job) => GotoKeepsInv(s, id, s'.calls[id].pc);
    case Rejecting(job) =>
      RejectKeepsInv(s, id, job, i.fate);
    case Rejected(job) => ReleaseKeepsInv(s, id, i);
    case CleanLock(_) => ReleaseKeepsInv(s, id, i);
    case CleanKey(_, _) => ReleaseKeepsInv(s, id, i);
    case Returned(_) =>
  }

  lemma EventKeepsInv(s: State, e: Event)
    requires Inv(s) && BindAcknowledged(s, e)
    ensures Inv(Next(s, e))
  {
    match e
    case Arrive(id, key, lock) =>
      var s' := Next(s, e);
      forall q | q in s'.calls ensures RecordFits(s'.idem, s'.calls[q]) {
        if q in s.calls { assert RecordFits(s.idem, s.calls[q]); }
      }
    case Advance(id, i) => if id in s.calls { StepKeepsInv(s, id, i); }
    case Transition(job, done) => TransitionKeepsInv(s, job, done);
  }

  lemma {:induction false} RunKeepsInv(s: State, events: seq<Event>)
    requires Inv(s) && BindsAcknowledged(s, events)
    ensures Inv(Run(s, events))
    decreases |events|
  {
    if events != [] {
      EventKeepsInv(s, events[0]);
      RunKeepsInv(Next(s, events[0]), events[1..]);
    }
  }

  // ---- who owns what, whatever fails ----

  /** At most one call owns a key and at most one holds a lock, and what is owned or held is there. */
  ghost predicate Exclusive(s: State) {
    && (forall id | id in s.calls && Owns(s.calls[id].pc) :: s.calls[id].key in s.idem)
    && OneOwner(s) && OneLockHolder(s)
  }

  /** One call moves; it takes only what is free and gives back only what it has. */
  ghost predicate MovesFairly(s: State, id: nat, t: State)
    requires id in s.calls && id in t.calls
  {
    var call, pc := s.calls[id], t.calls[id].pc;
    && t.calls == s.calls[id := call.(pc := pc)]
    && (forall key | key in s.idem && key !in t.idem :: key == call.key && Owns(call.pc) && !Owns(pc))
    && (Owns(pc) ==> call.key in t.idem && (Owns(call.pc) || call.key !in s.idem))
    && (forall lock | lock in s.locks && lock !in t.locks :: lock == call.lock && HoldsLock(call.pc) && !HoldsLock(pc))
    && (HoldsLock(pc) ==> call.lock in t.locks && (HoldsLock(call.pc) || call.lock !in s.locks))
  }

  lemma FairMoveKeepsExclusive(s: State, id: nat, t: State)
    requires Exclusive(s) && id in s.calls && id in t.calls && MovesFairly(s, id, t)
    ensures Exclusive(t)
  {}

  lemma StepMovesFairly(s: State, id: nat, i: Input)
    requires id in s.calls && !s.calls[id].pc.Returned?
    requires Owns(s.calls[id].pc) ==> s.calls[id].key in s.idem
    requires HoldsLock(s.calls[id].pc) ==> s.calls[id].lock in s.locks
    ensures MovesFairly(s, id, Step(s, id, i))
  {
    match s.calls[id].pc
    case Start =>
    case Claimed =>
    case Made(_) =>
    case Rejecting(_) =>
    case CleanLock(_) =>
    case CleanKey(_, _) =>
    case _ =>
  }

  lemma StepKeepsExclusive(s: State, id: nat, i: Input)
    requires Exclusive(s) && id in s.calls
    ensures Exclusive(Step(s, id, i))
  {
    if !s.calls[id].pc.Returned? {
      StepMovesFairly(s, id, i);
      FairMoveKeepsExclusive(s, id, Step(s, id, i));
    }
  }

  lemma ArrivalKeepsExclusive(s: State, id: nat, key: Key, lock: Lock)
    requires Exclusive(s) && id !in s.calls
    ensures Exclusive(s.(calls := s.calls[id := Call(key, lock, Start)]))
  {}

  lemma TransitionKeepsExclusive(s: State, job: JobId, done: bool)
    requires Exclusive(s)
    ensures Exclusive(TransitionStatus(s, job, done))
  {}

  lemma EventKeepsExclusive(s: State, e: Event)
    requires Exclusive(s)
    ensures Exclusive(Next(s, e))
  {
    match e
    case Arrive(id, key, lock) => if id !in s.calls { ArrivalKeepsExclusive(s, id, key, lock); }
    case Transition(job, done) => TransitionKeepsExclusive(s, job, done);
    case Advance(id, i) => if id in s.calls { StepKeepsExclusive(s, id, i); }
  }

  lemma {:induction false} RunKeepsExclusive(s: State, events: seq<Event>)
    requires Exclusive(s)
    ensures Exclusive(Run(s, events))
    decreases |events|
  {
    if events != [] {
      EventKeepsExclusive(s, events[0]);
      RunKeepsExclusive(Next(s, events[0]), events[1..]);
    }
  }

  // ---- what it means ----

  /** A replay names the job that the owner of the key has bound to it. */
  ghost predicate ReplaysAgree(s: State) {
    forall p, q | p in s.calls && q in s.calls && s.calls[p].key == s.calls[q].key
                  && HasBound(s.calls[p].pc) && s.calls[q].pc.Returned? && s.calls[q].pc.result.Replayed? ::
      s.calls[q].pc.result.original == Some(BoundJob(s.calls[p].pc))
  }

  /** Over every interleaving of Submits and status transitions, whichever calls fail: at most one Submit owns a key,
      so at most one job per key is accepted, and no two Submits of equal content are past the coalescing lock
      together.  If no binding's acknowledgement is lost, a replay returns the one job bound to the key. */
  lemma OneAcceptedJobPerKey(events: seq<Event>)
    ensures var s := Run(EMPTY, events);
            && (forall p, q | p in s.calls && q in s.calls && s.calls[p].key == s.calls[q].key
                  && Owns(s.calls[p].pc) && Owns(s.calls[q].pc) :: p == q)
            && (forall p, q | p in s.calls && q in s.calls && s.calls[p].lock == s.calls[q].lock
                  && HoldsLock(s.calls[p].pc) && HoldsLock(s.calls[q].pc) :: p == q)
            && (BindsAcknowledged(EMPTY, events) ==> ReplaysAgree(s))
  {
    RunKeepsExclusive(EMPTY, events);
    if BindsAcknowledged(EMPTY, events) {
      RunKeepsInv(EMPTY, events);
      InvReplaysAgree(Run(EMPTY, events));
    }
  }

  lemma InvReplaysAgree(s: State)
    requires Inv(s)
    ensures ReplaysAgree(s)
  {
    forall p, q | p in s.calls && q in s.calls && s.calls[p].key == s.calls[q].key
                  && HasBound(s.calls[p].pc) && s.calls[q].pc.Returned? && s.calls[q].pc.result.Replayed?
      ensures s.calls[q].pc.result.original == Some(BoundJob(s.calls[p].pc))
    {
      assert RecordFits(s.idem, s.calls[p]) && RecordFits(s.idem, s.calls[q]);
    }
  }

  lemma SettledStep(s: State, e: Event, key: Key)
    requires Inv(s) && BindAcknowledged(s, e)
    requires key in s.idem && s.idem[key].status != InFlight
    ensures key in Next(s, e).idem && Next(s, e).idem[key] == s.idem[key]
  {
    if e.Advance? && e.id in s.calls { assert RecordFits(s.idem, s.calls[e.id]); }
  }

  /** A terminal status never changes, nor the job it belongs to. */
  lemma {:induction false} TerminalStatusIsFinal(s: State, events: seq<Event>, key: Key)
    requires Inv(s) && BindsAcknowledged(s, events)
    requires key in s.idem && s.idem[key].status != InFlight
    ensures key in Run(s, events).idem && Run(s, events).idem[key] == s.idem[key]
    decreases |events|
  {
    if events != [] {
      SettledStep(s, events[0], key);
      EventKeepsInv(s, events[0]);
      TerminalStatusIsFinal(Next(s, events[0]), events[1..], key);
    }
  }

  // ---- where it stops ----

  function Drive(s: State, id: nat, inputs: seq<Input>): State
    decreases |inputs|
  {
    if inputs == [] then s else Drive(Next(s, Advance(id, inputs[0])), id, inputs[1..])
  }

  function Advances(id: nat, inputs: seq<Input>): seq<Event> {
    if inputs == [] then [] else [Advance(id, inputs[0])] + Advances(id, inputs[1..])
  }

  lemma {:induction false} RunConcat(s: State, a: seq<Event>, b: seq<Event>)
    ensures Run(s, a + b) == Run(Run(s, a), b)
    decreases |a|
  {
    if a == [] {
      assert a + b == b;
    } else {
      assert (a + b)[1..] == a[1..] + b;
      RunConcat(Next(s, a[0]), a[1..], b);
    }
  }

  lemma {:induction false} DriveIsRun(s: State, id: nat, inputs: seq<Input>)
    ensures Drive(s, id, inputs) == Run(s, Advances(id, inputs))
    decreases |inputs|
  {
    if inputs != [] {
      assert Advances(id, inputs)[1..] == Advances(id, inputs[1..]);
      DriveIsRun(Next(s, Advance(id, inputs[0])), id, inputs[1..]);
    }
  }

  /** The invariant survives a binding exactly when its acknowledgement is not lost. */
  lemma BindSafeIffAcknowledged(s: State, id: nat, job: JobId, fate: Fate)
    requires Inv(s) && id in s.calls && s.calls[id].pc == Made(job)
    ensures Inv(SetJobID(s, id, job, fate)) <==> fate != Unacknowledged
  {
    if fate == Unacknowledged {
      var s' := SetJobID(s, id, job, fate);
      assert RecordFits(s.idem, s.calls[id]);
      assert !RecordFits(s'.idem, s'.calls[id]);
    } else {
      BindKeepsInv(s, id, job, fate);
    }
  }

  /** Whatever is terminal after the first events is the same after the later ones. */
  ghost predicate TerminalStands(s: State, first: seq<Event>, later: seq<Event>) {
    forall key | key in Run(s, first).idem && Run(s, first).idem[key].status != InFlight ::
      key in Run(s, first + later).idem && Run(s, first + later).idem[key] == Run(s, first).idem[key]
  }

  /** In every later run without a lost acknowledgement of a binding, terminal records stand and replays agree with
      the job bound. */
  ghost predicate PromisesKept(s: State) {
    forall first, later | BindsAcknowledged(s, first + later) ::
      TerminalStands(s, first, later) && ReplaysAgree(Run(s, first + later))
  }

  lemma {:induction false} AcknowledgedSplit(s: State, a: seq<Event>, b: seq<Event>)
    requires BindsAcknowledged(s, a + b)
    ensures BindsAcknowledged(s, a) && BindsAcknowledged(Run(s, a), b)
    decreases |a|
  {
    if a == [] {
      assert a + b == b;
    } else {
      assert (a + b)[1..] == a[1..] + b;
      AcknowledgedSplit(Next(s, a[0]), a[1..], b);
    }
  }

  /** Exactly when a binding leaves the promises intact: when it is not one that takes effect and reports an error. */
  lemma PromisesKeptIffBindAcknowledged(s: State, id: nat, job: JobId, fate: Fate)
    requires Inv(s) && id in s.calls && s.calls[id].pc == Made(job)
    ensures PromisesKept(SetJobID(s, id, job, fate)) <==> fate != Unacknowledged
  {
    var s' := SetJobID(s, id, job, fate);
    if fate == Unacknowledged {
      LostAcknowledgementUndoesRecord(s, id, job);
    } else {
      BindKeepsInv(s, id, job, fate);
      forall first, later | BindsAcknowledged(s', first + later)
        ensures TerminalStands(s', first, later) && ReplaysAgree(Run(s', first + later))
      {
        AcknowledgedRunKeepsPromises(s', first, later);
      }
    }
  }

  lemma AcknowledgedRunKeepsPromises(s: State, first: seq<Event>, later: seq<Event>)
    requires Inv(s) && BindsAcknowledged(s, first + later)
    ensures TerminalStands(s, first, later) && ReplaysAgree(Run(s, first + later))
  {
    AcknowledgedSplit(s, first, later);
    RunConcat(s, first, later);
    RunKeepsInv(s, first);
    var t := Run(s, first);
    forall key | key in t.idem && t.idem[key].status != InFlight
      ensures key in Run(t, later).idem && Run(t, later).idem[key] == t.idem[key]
    {
      TerminalStatusIsFinal(t, later, key);
    }
    RunKeepsInv(t, later);
    InvReplaysAgree(Run(t, later));
  }

  const OK_INPUT := Input(Works, true, Scheduler.JobId(""), Queued)

  lemma Play2(s: State, a: Event, b: Event)
    ensures Run(s, [a, b]) == Next(Next(s, a), b)
  {
    assert [a, b][1..] == [b] && [b][1..] == [];
    assert Run(Next(s, a), [b]) == Next(Next(s, a), b);
  }

  /** A worker completes the job whose binding was reported as failed, and then the compensation deletes the record. */
  lemma LostAcknowledgementUndoesRecord(s: State, id: nat, job: JobId)
    requires Inv(s) && id in s.calls && s.calls[id].pc == Made(job)
    ensures !PromisesKept(SetJobID(s, id, job, Unacknowledged))
  {
    assert RecordFits(s.idem, s.calls[id]);
    var s' := SetJobID(s, id, job, Unacknowledged);
    var key, done, clean := s.calls[id].key, Transition(job, true), Advance(id, OK_INPUT);
    var first, later := [done], [clean, clean];
    var s1 := Next(s', done);
    assert s'.reverse[job] == key && s'.idem[key] == Record(InFlight, Some(job));
    assert s1.calls[id].pc == CleanLock(true) && s1.idem[key].status == Done;
    var s3 := RecordDeleted(s1, id, true);
    assert (first + later)[1..] == later && first[1..] == [];
    assert Run(s', first) == s1;
    RunConcat(s', first, later);
    assert BindsAcknowledged(s', first + later);
    assert !TerminalStands(s', first, later);
  }

  lemma RecordDeleted(s: State, id: nat, shadowed: bool) returns (s': State)
    requires id in s.calls && s.calls[id].pc == CleanLock(shadowed)
    ensures s' == Run(s, [Advance(id, OK_INPUT), Advance(id, OK_INPUT)]) && s.calls[id].key !in s'.idem
    ensures BindsAcknowledged(s, [Advance(id, OK_INPUT), Advance(id, OK_INPUT)])
  {
    var clean := Advance(id, OK_INPUT);
    Play2(s, clean, clean);
    var s1 := Next(s, clean);
    assert s1.calls[id] == s.calls[id].(pc := CleanKey(shadowed, false));
    s' := Next(s1, clean);
    assert [clean, clean][1..] == [clean] && [clean][1..] == [];
    assert BindsAcknowledged(s1, [clean]);
  }

  // ---- the same from the empty store ----

  /** A Submit whose first four calls work, alone with what it claims. */
  lemma UpToCreation(s: State, id: nat, key: Key, lock: Lock, job: JobId)
    requires id !in s.calls && key !in s.idem && lock !in s.locks && job !in s.jobs
    ensures var ok := Advance(id, Input(Works, true, job, Queued));
            Run(s, [Arrive(id, key, lock), ok, ok, ok, ok]) ==
            State(s.idem[key := Record(InFlight, None)], s.reverse, s.locks + {lock}, s.jobs + {job},
                  s.calls[id := Call(key, lock, Made(job))])
  {
    var ok := Advance(id, Input(Works, true, job, Queued));
    var s1 := Next(s, Arrive(id, key, lock));
    var s2 := Next(s1, ok);
    assert s2.calls == s.calls[id := Call(key, lock, Claimed)];
    var s3 := Next(s2, ok);
    assert s3.calls == s.calls[id := Call(key, lock, Coalesced)];
    var s4 := Next(s3, ok);
    assert s4.calls == s.calls[id := Call(key, lock, Admitted)];
    var s5 := Next(s4, ok);
    assert s5.calls == s.calls[id := Call(key, lock, Made(job))];
    Play5(s, Arrive(id, key, lock), ok, ok, ok, ok);
  }

  lemma Play5(s: State, a: Event, b: Event, c: Event, d: Event, e: Event)
    ensures Run(s, [a, b, c, d, e]) == Next(Next(Next(Next(Next(s, a), b), c), d), e)
  {
    var s1 := Next(s, a);
    var s2 := Next(s1, b);
    var s3 := Next(s2, c);
    assert [a, b, c, d, e][1..] == [b, c, d, e] && [b, c, d, e][1..] == [c, d, e];
    assert [c, d, e][1..] == [d, e];
    Play2(s3, d, e);
    assert Run(s1, [b, c, d, e]) == Run(s2, [c, d, e]) == Run(s3, [d, e]);
  }

  /** Submit 1 binds without knowing it; its job completes; Submit 2 replays it; Submit 1 cleans up; and Submit 3 has
      another job accepted under the same key.  The replay named a job the key no longer stands for. */
  lemma LostAcknowledgementBreaksReplay(key: Key, lock: Lock, job: JobId, other: JobId) returns (events: seq<Event>)
    requires job != other
    ensures var s := Run(EMPTY, events);
            && 2 in s.calls && s.calls[2] == Call(key, lock, Returned(Replayed(Some(job))))
            && 3 in s.calls && s.calls[3] == Call(key, lock, Returned(Accepted(other)))
            && !ReplaysAgree(s)
  {
    var ok1, ok3 := Advance(1, Input(Works, true, job, Queued)), Advance(3, Input(Works, true, other, Queued));
    var unknown := Advance(1, Input(Unacknowledged, true, job, Queued));
    var ok2 := Advance(2, OK_INPUT);
    var a := [Arrive(1, key, lock), ok1, ok1, ok1, ok1];
    var b := [unknown, Transition(job, true), Arrive(2, key, lock), ok2, ok1];
    var c := [ok1];
    var d := [Arrive(3, key, lock), ok3, ok3, ok3, ok3];
    var e := [ok3, ok3];
    UpToCreation(EMPTY, 1, key, lock, job);
    var s1 := Run(EMPTY, a);
    var s2 := ReplayedMeanwhile(s1, key, lock, job);
    assert c[1..] == [] && Run(s2, c) == Next(s2, ok1);
    var s3 := Next(s2, ok1);
    assert key !in s3.idem && s3.calls[2] == Call(key, lock, Returned(Replayed(Some(job))));
    UpToCreation(s3, 3, key, lock, other);
    var s5 := AcceptedAnyway(Run(s3, d), key, lock, job, other);
    events := a + b + c + d + e;
    RunConcat(EMPTY, a + b + c + d, e);
    RunConcat(EMPTY, a + b + c, d);
    RunConcat(EMPTY, a + b, c);
    RunConcat(EMPTY, a, b);
  }

  lemma AcceptedAnyway(s: State, key: Key, lock: Lock, job: JobId, other: JobId) returns (s': State)
    requires job != other && key in s.idem
    requires 2 in s.calls && s.calls[2] == Call(key, lock, Returned(Replayed(Some(job))))
    requires 3 in s.calls && s.calls[3] == Call(key, lock, Made(other))
    ensures var ok := Advance(3, Input(Works, true, other, Queued));
            s' == Run(s, [ok, ok])
    ensures 2 in s'.calls && s'.calls[2] == s.calls[2]
    ensures 3 in s'.calls && s'.calls[3] == Call(key, lock, Returned(Accepted(other)))
    ensures !ReplaysAgree(s')
  {
    var ok := Advance(3, Input(Works, true, other, Queued));
    var s1 := Next(s, ok);
    assert s1.calls[3] == Call(key, lock, Bound(other));
    s' := Next(s1, ok);
    Play2(s, ok, ok);
    assert HasBound(s'.calls[3].pc) && BoundJob(s'.calls[3].pc) == other;
  }

  lemma CompletedUnawares(s: State, key: Key, lock: Lock, job: JobId) returns (s': State)
    requires s.calls == map[1 := Call(key, lock, Made(job))] && s.idem == map[key := Record(InFlight, None)]
    ensures s' == Next(Next(s, Advance(1, Input(Unacknowledged, true, job, Queued))), Transition(job, true))
    ensures s'.calls == map[1 := Call(key, lock, CleanLock(true))] && s'.idem == map[key := Record(Done, Some(job))]
    ensures s'.locks == s.locks && s'.jobs == s.jobs
  {
    var s1 := Next(s, Advance(1, Input(Unacknowledged, true, job, Queued)));
    assert s1.calls == map[1 := Call(key, lock, CleanLock(true))];
    assert s1.idem == map[key := Record(InFlight, Some(job))] && s1.reverse[job] == key;
    s' := Next(s1, Transition(job, true));
  }

  lemma ReplayedMeanwhile(s: State, key: Key, lock: Lock, job: JobId) returns (s': State)
    requires s.calls == map[1 := Call(key, lock, Made(job))] && s.idem == map[key := Record(InFlight, None)]
    requires s.locks == {lock} && s.jobs == {job}
    ensures s' == Run(s, [Advance(1, Input(Unacknowledged, true, job, Queued)), Transition(job, true),
                          Arrive(2, key, lock), Advance(2, OK_INPUT), Advance(1, Input(Works, true, job, Queued))])
    ensures s'.calls == map[1 := Call(key, lock, CleanKey(true, false)),
                            2 := Call(key, lock, Returned(Replayed(Some(job))))]
    ensures s'.locks == {} && s'.jobs == {job}
  {
    var unknown := Advance(1, Input(Unacknowledged, true, job, Queued));
    var ok1 := Advance(1, Input(Works, true, job, Queued));
    var s2 := CompletedUnawares(s, key, lock, job);
    var s3 := Next(Next(s2, Arrive(2, key, lock)), Advance(2, OK_INPUT));
    assert s3.calls[2] == Call(key, lock, Returned(Replayed(Some(job)))) && s3.locks == {lock};
    s' := Next(s3, ok1);
    Play5(s, unknown, Transition(job, true), Arrive(2, key, lock), Advance(2, OK_INPUT), ok1);
  }

  /** The compensation that follows a failing step, as the two deletes and the return. */
  function Compensate(s: State, id: nat, failing: Input, lockInput: Input, keyInput: Input): State {
    Next(Next(Next(s, Advance(id, failing)), Advance(id, lockInput)), Advance(id, keyInput))
  }

  /** Exactly when a compensated Submit reports no error although it accepted nothing: when it was creation or
      binding that failed, and both deletes worked.  A refused admission is always reported. */
  lemma SilentIffCleanupWorked(s: State, id: nat, failing: Input, lockInput: Input, keyInput: Input)
    requires id in s.calls && (s.calls[id].pc in {Coalesced, Admitted} || s.calls[id].pc.Made?)
    requires Next(s, Advance(id, failing)).calls[id].pc.CleanLock?
    ensures Compensate(s, id, failing, lockInput, keyInput).calls[id].pc == Returned(Nothing) <==>
            s.calls[id].pc != Coalesced && lockInput.fate == Works && keyInput.fate == Works
    ensures Compensate(s, id, failing, lockInput, keyInput).calls[id].pc in {Returned(Nothing), Returned(Refused)}
  {}

  /** A Submit that reaches job creation, fails there and cleans up returns no error and no job id. */
  lemma FailedCreationIsSilent(key: Key, lock: Lock, job: JobId)
    ensures var ok, lost := Input(Works, true, job, Queued), Input(Lost, true, job, Queued);
            var s := Run(EMPTY, [Arrive(1, key, lock)] + Advances(1, [ok, ok, ok, lost, ok, ok]));
            1 in s.calls && s.calls[1].pc == Returned(Nothing)
  {
    var ok, lost := Input(Works, true, job, Queued), Input(Lost, true, job, Queued);
    var inputs := [ok, ok, ok, lost, ok, ok];
    RunConcat(EMPTY, [Arrive(1, key, lock)], Advances(1, inputs));
    var s0 := Next(EMPTY, Arrive(1, key, lock));
    assert Run(EMPTY, [Arrive(1, key, lock)]) == s0;
    DriveIsRun(s0, 1, inputs);
    var s3 := Drive3(s0, 1, inputs);
    assert s3.calls[1].pc == Admitted;
    var s6 := Drive3(s3, 1, inputs[3..]);
    assert s6.calls[1].pc == Returned(Nothing);
    assert inputs[3..][3..] == [];
  }

  lemma Drive3(s: State, id: nat, inputs: seq<Input>) returns (s': State)
    requires |inputs| >= 3
    ensures s' == Next(Next(Next(s, Advance(id, inputs[0])), Advance(id, inputs[1])), Advance(id, inputs[2]))
    ensures Drive(s, id, inputs) == Drive(s', id, inputs[3..])
  {
    var s1 := Next(s, Advance(id, inputs[0]));
    var s2 := Next(s1, Advance(id, inputs[1]));
    s' := Next(s2, Advance(id, inputs[2]));
    assert inputs[1..][1..] == inputs[2..] && inputs[2..][1..] == inputs[3..];
    assert Drive(s1, id, inputs[1..]) == Drive(s2, id, inputs[2..]);
    assert Drive(s2, id, inputs[2..]) == Drive(s', id, inputs[3..]);
  }
}

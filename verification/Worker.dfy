/** One run of a worker: claim, payload fetch, inference with retries, terminal cleanup; and the heartbeat
    that renews the lease beside it. */
module Worker {
  import Retry

  // ---- the heartbeat ----

  /** How one renewal ended: renewed, refused because the lease is gone, or failed in transit. */
  datatype Renewal = Renewed | NotHeld | Unreachable

  /** The number of consecutive failures in transit that end at a position. */
  function FailureRun(renewals: seq<Renewal>, i: nat): nat
    requires i < |renewals|
  {
    if !renewals[i].Unreachable? then 0 else if i == 0 then 1 else 1 + FailureRun(renewals, i - 1)
  }

  /** The heartbeat gives the job up at a renewal: the lease is gone, or failures reached the limit. */
  predicate GivesUpAt(renewals: seq<Renewal>, limit: int, i: nat)
    requires i < |renewals|
  {
    renewals[i].NotHeld? || (renewals[i].Unreachable? && FailureRun(renewals, i) >= limit)
  }

  /** The first renewal at which the job is given up, or the end if none does. */
  ghost predicate FirstGivenUp(renewals: seq<Renewal>, limit: int, at: nat) {
    && at <= |renewals| && (at < |renewals| ==> GivesUpAt(renewals, limit, at))
    && forall i | 0 <= i < at :: !GivesUpAt(renewals, limit, i)
  }

  /** Renews until told to stop, and reports the renewal at which the job was given up, if any. */
  method Heartbeat(renewals: seq<Renewal>, maxRenewalFailures: int) returns (lost: bool, at: nat)
    ensures FirstGivenUp(renewals, maxRenewalFailures, at) && (lost <==> at < |renewals|)
  {
    var consecutiveFailures := 0;
    lost, at := false, 0;
    while at < |renewals|
      invariant 0 <= at <= |renewals|
      invariant consecutiveFailures == if at == 0 then 0 else FailureRun(renewals, at - 1)
      invariant forall i | 0 <= i < at :: !GivesUpAt(renewals, maxRenewalFailures, i)
    {
      match renewals[at] {
        case Renewed =>
          consecutiveFailures := 0;
        case NotHeld =>
          lost := true;
          return;
        case Unreachable =>
          consecutiveFailures := consecutiveFailures + 1;
          if consecutiveFailures >= maxRenewalFailures {
            lost := true;
            return;
          }
      }
      at := at + 1;
    }
  }

  /** A renewal fails in transit, and every renewal before it succeeded. */
  ghost predicate FailsFirst(renewals: seq<Renewal>) {
    exists i :: 0 <= i < |renewals| && renewals[i].Unreachable? && forall k | 0 <= k < i :: renewals[k].Renewed?
  }

  /** The pool validates the configured limit but never stores it, so its heartbeats run with limit 0 and one
      failure in transit gives the job up.  That is what the configured limit asks for exactly when the limit
      is 1, or the first renewal that does not succeed is not a failure in transit. */
  lemma UnstoredLimitIsHonouredIff(renewals: seq<Renewal>, configured: int, actual: nat, intended: nat)
    requires configured > 0
    requires FirstGivenUp(renewals, 0, actual) && FirstGivenUp(renewals, configured, intended)
    ensures actual == intended <==> configured == 1 || !FailsFirst(renewals)
  {
    forall i | 0 <= i < actual ensures renewals[i].Renewed? && !GivesUpAt(renewals, configured, i) {
      assert !GivesUpAt(renewals, 0, i);
    }
    if actual < |renewals| && renewals[actual].Unreachable? {
      assert FailsFirst(renewals);
      assert FailureRun(renewals, actual) == 1;
      assert GivesUpAt(renewals, configured, actual) <==> configured == 1;
    } else if actual < |renewals| {
      assert GivesUpAt(renewals, configured, actual);
    }
  }

  /** Whether a heartbeat with this limit has given the job up after its first `n` renewals. */
  ghost predicate GivenUpBy(renewals: seq<Renewal>, limit: int, n: nat) {
    exists i :: 0 <= i < n && i < |renewals| && GivesUpAt(renewals, limit, i)
  }

  /** The lease counts as lost at a look exactly if the heartbeat has given the job up by then; `beats` says how many
      renewals each look comes after.  Then the loss starts with the renewal that `Heartbeat` reports, and it lasts. */
  lemma LossIsHeartbeatGivingUp(lost: nat -> bool, renewals: seq<Renewal>, limit: int, beats: nat -> nat, at: nat)
    requires forall n :: lost(n) <==> GivenUpBy(renewals, limit, beats(n))
    requires forall m, n | m <= n :: beats(m) <= beats(n)
    requires FirstGivenUp(renewals, limit, at)
    ensures forall n :: lost(n) <==> at < |renewals| && at < beats(n)
    ensures Retry.StaysCancelled(lost)
  {
    forall n ensures lost(n) <==> at < |renewals| && at < beats(n) {
      if GivenUpBy(renewals, limit, beats(n)) {
        var i :| 0 <= i < beats(n) && i < |renewals| && GivesUpAt(renewals, limit, i);
        assert at <= i;
      }
    }
  }

  // ---- one run ----

  /** The calls a run makes on the outside world, in order. */
  datatype Call =
    | FetchPayload
    | Generate
    | PublishChunk
    | PublishRetrying(attempt: nat)
    | PublishTerminal(completed: bool)
    | MarkFailed(count: int)
    | MarkCompleted(count: int)
    | MarkExecution
    | TransitionIdempotency(completed: bool)
    | Release

  datatype Claim = ClaimFailed | NoJob | Claimed

  /** Everything a run meets: the claim, the retry policy (if it can be read), how each fetch and each
      generation ends, the chunks each generation emits, whether the lease turns out to be lost at the n-th
      look, and whether recording the completion succeeds. */
  datatype World = World(
    claim: Claim, policy: Retry.Policy, policyFound: bool, defaultPolicy: Retry.Policy,
    fetch: nat -> Retry.Outcome, engine: nat -> Retry.Outcome, chunks: nat -> nat,
    lost: nat -> bool, markSucceeds: bool)

  datatype Ending = NotClaimed | LeaseLost | PayloadFailed | InferenceFailed | Finished

  function Policy(w: World): Retry.Policy {
    if w.policyFound then w.policy else w.defaultPolicy
  }

  function Repeat(call: Call, n: nat): seq<Call> {
    if n == 0 then [] else [call] + Repeat(call, n - 1)
  }

  /** The calls behind one action of the inference retry loop. */
  function Rendered1(w: World, streaming: bool, action: Retry.Action): seq<Call> {
    match action
    case Call(i) => [Generate] + if streaming then Repeat(PublishChunk, w.chunks(i)) else []
    case Failed(i, willRetry, _) => if willRetry && streaming then [PublishRetrying(i)] else []
    case Sleep(_) => []
  }

  function Rendered(w: World, streaming: bool, actions: seq<Retry.Action>): seq<Call> {
    if actions == [] then [] else Rendered1(w, streaming, actions[0]) + Rendered(w, streaming, actions[1..])
  }

  function Terminal(streaming: bool, completed: bool): seq<Call> {
    if streaming then [PublishTerminal(completed)] else []
  }

  function Count(calls: seq<Call>, p: Call -> bool): nat {
    if calls == [] then 0 else (if p(calls[0]) then 1 else 0) + Count(calls[1..], p)
  }

  lemma {:induction false} CountConcat(a: seq<Call>, b: seq<Call>, p: Call -> bool)
    ensures Count(a + b, p) == Count(a, p) + Count(b, p)
  {
    if a == [] {
      assert a + b == b;
    } else {
      assert (a + b)[1..] == a[1..] + b;
      CountConcat(a[1..], b, p);
    }
  }

  predicate IsMark(c: Call) { c.MarkFailed? || c.MarkCompleted? }
  predicate IsRelease(c: Call) { c.Release? }
  predicate IsMarker(c: Call) { c.MarkExecution? }
  predicate IsTransition(c: Call) { c.TransitionIdempotency? }
  predicate IsTerminalEvent(c: Call) { c.PublishTerminal? }
  predicate IsGenerate(c: Call) { c.Generate? }
  predicate IsChunk(c: Call) { c.PublishChunk? }
  predicate IsFetch(c: Call) { c.FetchPayload? }
  predicate IsEvent(c: Call) { c.PublishChunk? || c.PublishRetrying? || c.PublishTerminal? }
  predicate IsWork(c: Call) {
    c.FetchPayload? || c.Generate? || c.PublishChunk? || c.PublishRetrying?
  }

  /** The attempts announced as being retried, in order. */
  function Announced(calls: seq<Call>): seq<nat> {
    if calls == [] then []
    else (if calls[0].PublishRetrying? then [calls[0].attempt] else []) + Announced(calls[1..])
  }

  function UpTo(n: nat): seq<nat> {
    if n == 0 then [] else UpTo(n - 1) + [n]
  }

  /** Only fetching, generating and non-terminal events. */
  predicate OnlyWork(calls: seq<Call>) {
    forall i | 0 <= i < |calls| :: IsWork(calls[i])
  }

  lemma {:induction false} AnnouncedConcat(a: seq<Call>, b: seq<Call>)
    ensures Announced(a + b) == Announced(a) + Announced(b)
  {
    if a == [] {
      assert a + b == b;
    } else {
      var first := if a[0].PublishRetrying? then [a[0].attempt] else [];
      assert (a + b)[1..] == a[1..] + b;
      AnnouncedConcat(a[1..], b);
      assert first + (Announced(a[1..]) + Announced(b)) == (first + Announced(a[1..])) + Announced(b);
    }
  }

  lemma {:induction false} RepeatIsWork(call: Call, n: nat)
    requires call.FetchPayload? || call.PublishChunk?
    ensures OnlyWork(Repeat(call, n)) && Announced(Repeat(call, n)) == [] && Count(Repeat(call, n), IsGenerate) == 0
    ensures Count(Repeat(call, n), IsChunk) == if call.PublishChunk? then n else 0
    ensures |Repeat(call, n)| == n && forall i | 0 <= i < n :: Repeat(call, n)[i] == call
  {
    if n > 0 {
      RepeatIsWork(call, n - 1);
      assert Repeat(call, n)[1..] == Repeat(call, n - 1);
    }
  }

  /** The chunks of the first `n` generations. */
  function ChunksOf(w: World, n: nat): nat {
    if n == 0 then 0 else ChunksOf(w, n - 1) + w.chunks(n)
  }

  function ChunksDue(w: World, streaming: bool, n: nat): nat {
    if streaming then ChunksOf(w, n) else 0
  }

  /** After so many generations and chunks: a generation starts when all chunks of those before are out; a retry is
      announced then too, and names the last of them; a chunk belongs to the last of them. */
  predicate OnTime(w: World, streaming: bool, call: Call, generated: nat, chunks: nat) {
    && (call.Generate? ==> chunks == ChunksDue(w, streaming, generated))
    && (call.PublishRetrying? ==> call.attempt == generated && chunks == ChunksDue(w, streaming, generated))
    && (call.PublishChunk? ==>
          generated > 0 && ChunksDue(w, streaming, generated - 1) <= chunks < ChunksDue(w, streaming, generated))
  }

  /** Every call comes when it is due, with so many generations and chunks before. */
  predicate Timed(w: World, streaming: bool, calls: seq<Call>, generated: nat, chunks: nat) {
    calls == [] || (
      && OnTime(w, streaming, calls[0], generated, chunks)
      && Timed(w, streaming, calls[1..], generated + (if IsGenerate(calls[0]) then 1 else 0),
               chunks + (if IsChunk(calls[0]) then 1 else 0)))
  }

  lemma {:induction false} TimedConcat(w: World, streaming: bool, a: seq<Call>, b: seq<Call>,
                                       generated: nat, chunks: nat)
    requires Timed(w, streaming, a, generated, chunks)
    requires Timed(w, streaming, b, generated + Count(a, IsGenerate), chunks + Count(a, IsChunk))
    ensures Timed(w, streaming, a + b, generated, chunks)
  {
    if a == [] {
      assert a + b == b;
    } else {
      assert (a + b)[1..] == a[1..] + b;
      TimedConcat(w, streaming, a[1..], b, generated + (if IsGenerate(a[0]) then 1 else 0),
                  chunks + (if IsChunk(a[0]) then 1 else 0));
    }
  }

  lemma {:induction false} ChunksTimed(w: World, streaming: bool, n: nat, generated: nat, chunks: nat)
    requires generated > 0 && ChunksDue(w, streaming, generated - 1) <= chunks
    requires chunks + n <= ChunksDue(w, streaming, generated)
    ensures Timed(w, streaming, Repeat(PublishChunk, n), generated, chunks)
  {
    if n > 0 {
      ChunksTimed(w, streaming, n - 1, generated, chunks + 1);
      assert Repeat(PublishChunk, n)[1..] == Repeat(PublishChunk, n - 1);
    }
  }

  lemma {:induction false} UntimedIsTimed(w: World, streaming: bool, calls: seq<Call>, generated: nat, chunks: nat)
    requires forall i | 0 <= i < |calls| :: !IsWork(calls[i]) || IsFetch(calls[i])
    ensures Timed(w, streaming, calls, generated, chunks)
  {
    if calls != [] { UntimedIsTimed(w, streaming, calls[1..], generated, chunks); }
  }

  lemma {:induction false} RenderedConcat(w: World, streaming: bool, a: seq<Retry.Action>, b: seq<Retry.Action>)
    ensures Rendered(w, streaming, a + b) == Rendered(w, streaming, a) + Rendered(w, streaming, b)
  {
    if a == [] {
      assert a + b == b;
    } else {
      assert (a + b)[1..] == a[1..] + b;
      RenderedConcat(w, streaming, a[1..], b);
    }
  }

  ghost predicate NoneOf(calls: seq<Call>, p: Call -> bool) {
    forall i | 0 <= i < |calls| :: !p(calls[i])
  }

  /** What the retry loop's actions look like from outside: one generation per call, each followed by its own chunks,
      and each retry announced once, in order and in time. */
  ghost predicate LooksLike(w: World, calls: seq<Call>, generated: nat, announced: nat, streaming: bool) {
    && OnlyWork(calls) && NoneOf(calls, IsFetch) && Timed(w, streaming, calls, 0, 0)
    && Count(calls, IsGenerate) == generated
    && Count(calls, IsChunk) == ChunksDue(w, streaming, generated)
    && Announced(calls) == if streaming then UpTo(announced) else []
  }

  /** What attempt `k` alone looks like. */
  ghost predicate AttemptLooks(w: World, calls: seq<Call>, k: nat, retried: bool, streaming: bool)
    requires k > 0
  {
    && OnlyWork(calls) && NoneOf(calls, IsFetch) && Timed(w, streaming, calls, k - 1, ChunksDue(w, streaming, k - 1))
    && Count(calls, IsGenerate) == 1
    && Count(calls, IsChunk) == (if streaming then w.chunks(k) else 0)
    && Announced(calls) == if streaming && retried then [k] else []
  }

  lemma NextAttempt(w: World, before: seq<Call>, calls: seq<Call>, k: nat, retried: bool, streaming: bool)
    requires k > 0 && LooksLike(w, before, k - 1, k - 1, streaming) && AttemptLooks(w, calls, k, retried, streaming)
    ensures LooksLike(w, before + calls, k, if retried then k else k - 1, streaming)
  {
    JoinWork(before, calls);
    TimedConcat(w, streaming, before, calls, 0, 0);
  }

  lemma JoinWork(a: seq<Call>, b: seq<Call>)
    requires OnlyWork(a) && OnlyWork(b)
    ensures OnlyWork(a + b)
    ensures Count(a + b, IsGenerate) == Count(a, IsGenerate) + Count(b, IsGenerate)
    ensures Count(a + b, IsChunk) == Count(a, IsChunk) + Count(b, IsChunk)
    ensures Announced(a + b) == Announced(a) + Announced(b)
  {
    CountConcat(a, b, IsGenerate);
    CountConcat(a, b, IsChunk);
    AnnouncedConcat(a, b);
  }

  lemma CallRendered(w: World, streaming: bool, k: nat)
    requires k > 0
    ensures AttemptLooks(w, Rendered1(w, streaming, Retry.Call(k)), k, false, streaming)
  {
    var c := if streaming then w.chunks(k) else 0;
    var chunks := Repeat(PublishChunk, c);
    RepeatIsWork(PublishChunk, c);
    ChunksTimed(w, streaming, c, k, ChunksDue(w, streaming, k - 1));
    assert Rendered1(w, streaming, Retry.Call(k)) == [Generate] + chunks;
    assert ([Generate] + chunks)[1..] == chunks;
  }

  lemma OneMoreRetry(w: World, streaming: bool, before: seq<Retry.Action>, n: nat, d: Retry.int64)
    requires n > 0 && LooksLike(w, Rendered(w, streaming, before), n - 1, n - 1, streaming)
    ensures var block := [Retry.Call(n), Retry.Failed(n, true, d), Retry.Sleep(d)];
            LooksLike(w, Rendered(w, streaming, before + block), n, n, streaming)
  {
    var block := [Retry.Call(n), Retry.Failed(n, true, d), Retry.Sleep(d)];
    RenderedConcat(w, streaming, before, block);
    BlockRendered(w, streaming, n, d);
    NextAttempt(w, Rendered(w, streaming, before), Rendered(w, streaming, block), n, true, streaming);
  }

  lemma {:induction false} RetriesRendered(w: World, streaming: bool, policy: Retry.Policy, n: nat)
    ensures LooksLike(w, Rendered(w, streaming, Retry.RetriedAttempts(policy, n)), n, n, streaming)
  {
    if n > 0 {
      RetriesRendered(w, streaming, policy, n - 1);
      OneMoreRetry(w, streaming, Retry.RetriedAttempts(policy, n - 1), n,
                   Retry.RetryDelay(policy.baseDelay, policy.maxDelay, n));
    }
  }

  lemma BlockRendered(w: World, streaming: bool, n: nat, d: Retry.int64)
    requires n > 0
    ensures var block := [Retry.Call(n), Retry.Failed(n, true, d), Retry.Sleep(d)];
            AttemptLooks(w, Rendered(w, streaming, block), n, true, streaming)
  {
    var block := [Retry.Call(n), Retry.Failed(n, true, d), Retry.Sleep(d)];
    var announce := Rendered1(w, streaming, Retry.Failed(n, true, d));
    assert block[1..] == [Retry.Failed(n, true, d), Retry.Sleep(d)] && block[1..][1..] == [Retry.Sleep(d)];
    assert Rendered(w, streaming, [Retry.Sleep(d)]) == [];
    assert Rendered(w, streaming, block[1..]) == announce;
    assert announce == [] || announce[1..] == [];
    CallRendered(w, streaming, n);
    var call := Rendered1(w, streaming, Retry.Call(n));
    JoinWork(call, announce);
    assert Timed(w, streaming, announce, n, ChunksDue(w, streaming, n));
    TimedConcat(w, streaming, call, announce, n - 1, ChunksDue(w, streaming, n - 1));
  }

  /** Retried attempts and then one last call, whose failure is not announced. */
  lemma LastAttemptRendered(w: World, streaming: bool, policy: Retry.Policy, k: nat, last: seq<Retry.Action>)
    requires k > 0 && last in {[Retry.Call(k)], [Retry.Call(k), Retry.Failed(k, false, 0)]}
    ensures LooksLike(w, Rendered(w, streaming, Retry.RetriedAttempts(policy, k - 1) + last), k, k - 1, streaming)
  {
    var before, call := Retry.RetriedAttempts(policy, k - 1), Rendered1(w, streaming, Retry.Call(k));
    RetriesRendered(w, streaming, policy, k - 1);
    CallRendered(w, streaming, k);
    RenderedConcat(w, streaming, before, last);
    LastRendered(w, streaming, k, last);
    NextAttempt(w, Rendered(w, streaming, before), call, k, false, streaming);
  }

  lemma LastRendered(w: World, streaming: bool, k: nat, last: seq<Retry.Action>)
    requires last in {[Retry.Call(k)], [Retry.Call(k), Retry.Failed(k, false, 0)]}
    ensures Rendered(w, streaming, last) == Rendered1(w, streaming, Retry.Call(k))
  {
    assert last[1..] == [] || last[1..] == [Retry.Failed(k, false, 0)];
    assert Rendered(w, streaming, last[1..]) == [];
  }

  /** However the retry loop ends after `k` attempts, it made `k` generations and announced k - 1 retries,
      or k when it was cut off while waiting for one more. */
  lemma LoopRendered(w: World, streaming: bool, world: Retry.World, k: nat,
                     actions: seq<Retry.Action>, result: Retry.Result) returns (announced: nat)
    requires Retry.EndsAt(Policy(w), world, k, actions, result)
    ensures LooksLike(w, Rendered(w, streaming, actions), k, announced, streaming)
    ensures announced == k - 1 || (announced == k < Policy(w).maxAttempts && result == Retry.Cancelled)
  {
    if actions == Retry.RetriedAttempts(Policy(w), k) && result == Retry.Cancelled && k < Policy(w).maxAttempts {
      announced := k;
      RetriesRendered(w, streaming, Policy(w), k);
    } else {
      announced := k - 1;
      var last := if result == Retry.GaveUp then [Retry.Call(k), Retry.Failed(k, false, 0)] else [Retry.Call(k)];
      LastAttemptRendered(w, streaming, Policy(w), k, last);
    }
  }

  ghost predicate ExactlyOne(calls: seq<Call>, p: Call -> bool) {
    exists i :: 0 <= i < |calls| && p(calls[i]) && forall k | 0 <= k < |calls| && k != i :: !p(calls[k])
  }

  /** A run's cleanup calls are exactly one terminal mark, one release and, when streaming, one terminal
      event; the mark comes before the release, and no event follows the terminal one. */
  ghost predicate CleansUpOnce(calls: seq<Call>, streaming: bool) {
    && ExactlyOne(calls, IsMark) && ExactlyOne(calls, IsRelease)
    && (if streaming then ExactlyOne(calls, IsTerminalEvent) else NoneOf(calls, IsTerminalEvent))
    && (forall i, k | 0 <= i < |calls| && 0 <= k < |calls| && IsRelease(calls[i]) && IsMark(calls[k]) :: k < i)
    && (forall i, k | 0 <= i < k < |calls| && IsTerminalEvent(calls[i]) :: !IsEvent(calls[k]))
  }

  lemma OneAfterWork(work: seq<Call>, cleanup: seq<Call>, p: Call -> bool)
    requires NoneOf(work, p) && ExactlyOne(cleanup, p)
    ensures ExactlyOne(work + cleanup, p)
  {
    var i :| 0 <= i < |cleanup| && p(cleanup[i]) && forall k | 0 <= k < |cleanup| && k != i :: !p(cleanup[k]);
    var calls, at := work + cleanup, |work| + i;
    assert calls[at] == cleanup[i];
    forall k | 0 <= k < |calls| && k != at ensures !p(calls[k]) {
      assert calls[k] == if k < |work| then work[k] else cleanup[k - |work|];
    }
  }

  lemma CleanupAfterWork(work: seq<Call>, cleanup: seq<Call>, streaming: bool)
    requires OnlyWork(work) && CleansUpOnce(cleanup, streaming)
    ensures CleansUpOnce(work + cleanup, streaming)
  {
    var calls := work + cleanup;
    OneAfterWork(work, cleanup, IsMark);
    OneAfterWork(work, cleanup, IsRelease);
    if streaming { OneAfterWork(work, cleanup, IsTerminalEvent); }
    forall i, k | 0 <= i < |calls| && 0 <= k < |calls| && IsRelease(calls[i]) && IsMark(calls[k])
      ensures k < i
    {
      assert calls[i] == cleanup[i - |work|] && calls[k] == cleanup[k - |work|];
    }
    forall i, k | 0 <= i < k < |calls| && IsTerminalEvent(calls[i]) ensures !IsEvent(calls[k]) {
      assert calls[i] == cleanup[i - |work|] && calls[k] == cleanup[k - |work|];
    }
  }

  function OnFailure(streaming: bool, count: int): seq<Call> {
    [MarkFailed(count), TransitionIdempotency(false), Release] + Terminal(streaming, false)
  }

  function OnSuccess(streaming: bool, count: int): seq<Call> {
    [MarkExecution, MarkCompleted(count), TransitionIdempotency(true)] + Terminal(streaming, true) + [Release]
  }

  function OnUnrecorded(streaming: bool, count: int): seq<Call> {
    [MarkExecution, MarkCompleted(count)] + Terminal(streaming, true) + [Release]
  }

  lemma CleanupIsClean(calls: seq<Call>, streaming: bool, mark: nat, release: nat, event: nat)
    requires mark < release < |calls| && IsMark(calls[mark]) && IsRelease(calls[release])
    requires streaming ==> event < |calls| && IsTerminalEvent(calls[event])
    requires forall k | 0 <= k < |calls| && k != mark :: !IsMark(calls[k])
    requires forall k | 0 <= k < |calls| && k != release :: !IsRelease(calls[k])
    requires forall k | 0 <= k < |calls| && (streaming ==> k != event) :: !IsEvent(calls[k])
    ensures CleansUpOnce(calls, streaming)
  {}

  lemma FailureIsClean(streaming: bool, count: int)
    ensures CleansUpOnce(OnFailure(streaming, count), streaming)
  {
    CleanupIsClean(OnFailure(streaming, count), streaming, 0, 2, 3);
  }

  lemma SuccessIsClean(streaming: bool, count: int)
    ensures CleansUpOnce(OnSuccess(streaming, count), streaming)
    ensures CleansUpOnce(OnUnrecorded(streaming, count), streaming)
  {
    CleanupIsClean(OnSuccess(streaming, count), streaming, 1, if streaming then 4 else 3, 3);
    CleanupIsClean(OnUnrecorded(streaming, count), streaming, 1, if streaming then 3 else 2, 2);
  }

  lemma CleanupLeavesWork(work: seq<Call>, cleanup: seq<Call>)
    requires forall i | 0 <= i < |cleanup| :: !IsWork(cleanup[i])
    ensures Count(work + cleanup, IsGenerate) == Count(work, IsGenerate)
    ensures Count(work + cleanup, IsChunk) == Count(work, IsChunk)
    ensures Announced(work + cleanup) == Announced(work)
  {
    CountConcat(work, cleanup, IsGenerate);
    CountConcat(work, cleanup, IsChunk);
    AnnouncedConcat(work, cleanup);
    NoWork(cleanup);
  }

  lemma {:induction false} NoWork(calls: seq<Call>)
    requires forall i | 0 <= i < |calls| :: !IsWork(calls[i])
    ensures Count(calls, IsGenerate) == 0 && Count(calls, IsChunk) == 0 && Announced(calls) == []
  {
    if calls != [] { NoWork(calls[1..]); }
  }

  /** A cleanup call says what really happened. */
  ghost predicate RightArguments(w: World, call: Call, ending: Ending, generated: nat) {
    match call
    case MarkFailed(count) =>
      || (ending == InferenceFailed && count == generated)
      || (ending == PayloadFailed && count == Policy(w).maxAttempts)
    case MarkCompleted(count) => ending == Finished && count == generated
    case PublishTerminal(completed) => completed == (ending == Finished)
    case TransitionIdempotency(completed) => completed == (ending == Finished)
    case _ => true
  }

  /** The shape of every run's calls. */
  ghost predicate RunShape(w: World, streaming: bool, calls: seq<Call>, ending: Ending) {
    var generated := Count(calls, IsGenerate);
    && (ending == NotClaimed ==> calls == [])
    && (ending == LeaseLost ==> OnlyWork(calls))
    && (ending in {PayloadFailed, InferenceFailed, Finished} ==> CleansUpOnce(calls, streaming))
    && (forall i | 0 <= i < |calls| :: RightArguments(w, calls[i], ending, generated))
    && (generated > 0 ==> generated <= Policy(w).maxAttempts) && (ending == PayloadFailed ==> generated == 0)
    && MarkerFirst(calls, ending) && Transitioned(w, calls, ending) && InTurn(calls, ending)
    && GenerationShape(w, streaming, calls)
  }

  /** A failing run tells the idempotency record once; so does a finished one whose completion was recorded; no other
      run does. */
  ghost predicate Transitioned(w: World, calls: seq<Call>, ending: Ending) {
    if ending in {PayloadFailed, InferenceFailed} || (ending == Finished && w.markSucceeds)
    then ExactlyOne(calls, IsTransition) else NoneOf(calls, IsTransition)
  }

  /** The turn of a call in a run that ends so.  After the work, a failing run marks the job, tells the idempotency
      record, releases and publishes; a finished one leaves its marker, marks, tells, publishes and releases. */
  function Turn(ending: Ending, call: Call): nat {
    match call
    case MarkExecution => 1
    case MarkFailed(_) => 2
    case MarkCompleted(_) => 2
    case TransitionIdempotency(_) => 3
    case Release => if ending == Finished then 5 else 4
    case PublishTerminal(_) => if ending == Finished then 4 else 5
    case _ => 0
  }

  ghost predicate InTurn(calls: seq<Call>, ending: Ending) {
    forall i, k | 0 <= i < k < |calls| :: Turn(ending, calls[i]) <= Turn(ending, calls[k])
  }

  /** A finished run leaves its completion marker exactly once and before the completed mark; no other run does. */
  ghost predicate MarkerFirst(calls: seq<Call>, ending: Ending) {
    if ending != Finished then NoneOf(calls, IsMarker)
    else
      && ExactlyOne(calls, IsMarker)
      && forall i, k | 0 <= i < |calls| && 0 <= k < |calls| && IsMarker(calls[i]) && IsMark(calls[k]) :: i < k
  }

  /** Every generation's chunks are published, and every retry is announced, in order and in time. */
  ghost predicate GenerationShape(w: World, streaming: bool, calls: seq<Call>) {
    var generated := Count(calls, IsGenerate);
    && Timed(w, streaming, calls, 0, 0) && Count(calls, IsChunk) == ChunksDue(w, streaming, generated)
    && exists m: nat :: Announced(calls) == UpTo(m) && m <= generated && (streaming ==> m >= generated - 1)
  }

  /** What the work before the cleanup looks like: fetches, then `generated` generations. */
  ghost predicate WorkShape(w: World, streaming: bool, work: seq<Call>, generated: nat) {
    && OnlyWork(work) && Count(work, IsGenerate) == generated
    && (generated > 0 ==> generated <= Policy(w).maxAttempts)
    && GenerationShape(w, streaming, work)
  }

  /** The run's first `n` calls fetch the payload, and no other does. */
  ghost predicate FetchesFirst(calls: seq<Call>, n: nat) {
    && n <= |calls|
    && (forall i | 0 <= i < n :: IsFetch(calls[i]))
    && (forall i | n <= i < |calls| :: !IsFetch(calls[i]))
  }

  /** `k` attempts, of which all but the last failed for the moment, and the last one succeeded, or failed for good
      or as the last one allowed. */
  ghost predicate Exhausts(outcome: nat -> Retry.Outcome, k: nat, maxAttempts: int, succeeded: bool) {
    && 0 < k <= maxAttempts && (forall i | 1 <= i < k :: outcome(i) == Retry.Err(true))
    && if succeeded then outcome(k) == Retry.Ok
       else outcome(k).Err? && (outcome(k).retryable ==> k == maxAttempts)
  }

  /** How the fetches and generations ended decides how the run ends. */
  ghost predicate EndingFits(w: World, ending: Ending, fetches: nat, generated: nat) {
    var maxAttempts := Policy(w).maxAttempts;
    match ending
    case NotClaimed => w.claim != Claimed
    case PayloadFailed =>
      w.claim == Claimed && ((maxAttempts <= 0 && fetches == 0) || Exhausts(w.fetch, fetches, maxAttempts, false))
    case InferenceFailed =>
      && w.claim == Claimed && Exhausts(w.fetch, fetches, maxAttempts, true)
      && Exhausts(w.engine, generated, maxAttempts, false)
    case Finished =>
      && w.claim == Claimed && Exhausts(w.fetch, fetches, maxAttempts, true)
      && Exhausts(w.engine, generated, maxAttempts, true)
    case LeaseLost =>
      && w.claim == Claimed && (fetches == 0 ==> maxAttempts <= 0)
      && (generated > 0 ==> Exhausts(w.fetch, fetches, maxAttempts, true))
  }

  /** The looks at the lease before the look that follows the last of `k` attempts. */
  function LooksBefore(w: World, k: nat): nat {
    if k == 0 then 0 else Retry.RetryLooks(Policy(w), k - 1)
  }

  /** The lease is held at every one of the first `n` looks. */
  ghost predicate HeldThrough(w: World, n: nat) {
    forall m | 0 <= m < n :: !w.lost(m)
  }

  /** Losing the lease ends `k` attempts, with so many looks before the one after the last: every attempt failed, all
      but the last for the moment, and the lease was held until then.  It is lost at the look after the last attempt,
      or at the next one, which comes in the wait for a retry if there is one, and otherwise when the loop is over. */
  ghost predicate CutShort(w: World, outcome: nat -> Retry.Outcome, k: nat, before: nat) {
    var policy := Policy(w);
    && 0 < k <= policy.maxAttempts && (forall i | 1 <= i < k :: outcome(i) == Retry.Err(true)) && outcome(k).Err?
    && HeldThrough(w, before)
    && (|| w.lost(before)
        || (&& w.lost(before + 1)
            && (outcome(k).retryable && k < policy.maxAttempts ==>
                  Retry.RetryDelay(policy.baseDelay, policy.maxDelay, k) > 0)))
  }

  /** What the looks at the lease find, and how that decides the ending.  The loops go on only while the lease is held.
      When one fails, the look after it decides: held, and the run cleans up; lost, and it does not. */
  ghost predicate DecidedBy(w: World, ending: Ending, fetches: nat, generated: nat) {
    var fetching, inferring := LooksBefore(w, fetches), LooksBefore(w, fetches) + LooksBefore(w, generated);
    match ending
    case NotClaimed => true
    case PayloadFailed => HeldThrough(w, if fetches == 0 then 1 else fetching + 2)
    case InferenceFailed => HeldThrough(w, inferring + 2)
    case Finished => HeldThrough(w, inferring)
    case LeaseLost =>
      if fetches == 0 then w.lost(0)
      else if generated == 0 then CutShort(w, w.fetch, fetches, fetching)
      else CutShort(w, w.engine, generated, inferring)
  }

  // ---- the ending is determined ----

  datatype How = Succeeds | Fails | Loses

  /** A retry loop that starts after `base` looks ends after `k` attempts in this way. */
  ghost predicate LoopEnds(w: World, outcome: nat -> Retry.Outcome, base: nat, k: nat, how: How) {
    match how
    case Succeeds => Exhausts(outcome, k, Policy(w).maxAttempts, true) && HeldThrough(w, base + LooksBefore(w, k))
    case Fails => Exhausts(outcome, k, Policy(w).maxAttempts, false) && HeldThrough(w, base + LooksBefore(w, k) + 2)
    case Loses => CutShort(w, outcome, k, base + LooksBefore(w, k))
  }

  lemma {:induction false} LooksGrow(policy: Retry.Policy, j: nat, k: nat)
    requires j <= k
    ensures Retry.RetryLooks(policy, j) <= Retry.RetryLooks(policy, k)
    decreases k
  {
    if j < k { LooksGrow(policy, j, k - 1); }
  }

  lemma LaterEndIsImpossible(w: World, outcome: nat -> Retry.Outcome, base: nat, j: nat, how: How, k: nat, other: How)
    requires LoopEnds(w, outcome, base, j, how) && LoopEnds(w, outcome, base, k, other)
    ensures j >= k
  {
    if j < k {
      assert outcome(j) == Retry.Err(true);
      LooksGrow(Policy(w), j, k - 1);
    }
  }

  /** What the attempts and the looks come to leaves a retry loop only one way to end. */
  lemma LoopEndsOneWay(w: World, outcome: nat -> Retry.Outcome, base: nat, j: nat, how: How, k: nat, other: How)
    requires LoopEnds(w, outcome, base, j, how) && LoopEnds(w, outcome, base, k, other)
    ensures j == k && how == other
  {
    LaterEndIsImpossible(w, outcome, base, j, how, k, other);
    LaterEndIsImpossible(w, outcome, base, k, other, j, how);
  }

  /** How fetching ended in a run that ended so. */
  function FetchEnd(ending: Ending, generated: nat): How {
    match ending
    case PayloadFailed => Fails
    case LeaseLost => if generated == 0 then Loses else Succeeds
    case _ => Succeeds
  }

  function InferenceEnd(ending: Ending): How {
    match ending
    case Finished => Succeeds
    case LeaseLost => Loses
    case _ => Fails
  }

  /** Everything `ProcessJob` promises of its ending, its fetches and its generations. */
  ghost predicate EndsWith(w: World, ending: Ending, fetches: nat, generated: nat) {
    && EndingFits(w, ending, fetches, generated) && DecidedBy(w, ending, fetches, generated)
    && (ending == NotClaimed ==> fetches == generated == 0) && (ending == PayloadFailed ==> generated == 0)
    && (fetches == 0 ==> generated == 0)
  }

  lemma FetchingEnded(w: World, ending: Ending, fetches: nat, generated: nat)
    requires EndsWith(w, ending, fetches, generated) && ending != NotClaimed && fetches > 0
    ensures LoopEnds(w, w.fetch, 0, fetches, FetchEnd(ending, generated))
    ensures generated > 0 ==> LoopEnds(w, w.engine, LooksBefore(w, fetches), generated, InferenceEnd(ending))
  {}

  /** A world leaves a run only one ending, with one number of fetches and of generations. */
  lemma EndingIsDetermined(w: World, ending: Ending, fetches: nat, generated: nat,
                           ending': Ending, fetches': nat, generated': nat)
    requires EndsWith(w, ending, fetches, generated) && EndsWith(w, ending', fetches', generated')
    ensures ending == ending' && fetches == fetches' && generated == generated'
  {
    if w.claim == Claimed && Policy(w).maxAttempts > 0 {
      FetchingEnded(w, ending, fetches, generated);
      FetchingEnded(w, ending', fetches', generated');
      LoopEndsOneWay(w, w.fetch, 0, fetches, FetchEnd(ending, generated), fetches', FetchEnd(ending', generated'));
      if generated > 0 && generated' > 0 {
        LoopEndsOneWay(w, w.engine, LooksBefore(w, fetches), generated, InferenceEnd(ending),
                       generated', InferenceEnd(ending'));
      }
    }
  }

  /** The cleanup an ending calls for. */
  ghost predicate CleanupFor(w: World, streaming: bool, cleanup: seq<Call>, ending: Ending, generated: nat) {
    match ending
    case PayloadFailed => generated == 0 && cleanup == OnFailure(streaming, Policy(w).maxAttempts)
    case InferenceFailed => cleanup == OnFailure(streaming, generated)
    case Finished =>
      cleanup == if w.markSucceeds then OnSuccess(streaming, generated) else OnUnrecorded(streaming, generated)
    case _ => false
  }

  lemma CleanupForIsClean(w: World, streaming: bool, cleanup: seq<Call>, ending: Ending, generated: nat)
    requires CleanupFor(w, streaming, cleanup, ending, generated)
    ensures CleansUpOnce(cleanup, streaming)
  {
    var count := if ending == PayloadFailed then Policy(w).maxAttempts else generated;
    FailureIsClean(streaming, count);
    SuccessIsClean(streaming, count);
  }

  lemma CleanupForSaysRight(w: World, streaming: bool, cleanup: seq<Call>, ending: Ending, generated: nat)
    requires CleanupFor(w, streaming, cleanup, ending, generated)
    ensures forall i | 0 <= i < |cleanup| ::
              !IsWork(cleanup[i]) && RightArguments(w, cleanup[i], ending, generated)
  {}

  /** Work followed by the cleanup its ending calls for has the shape of a run. */
  lemma CleanedUpShape(w: World, streaming: bool, work: seq<Call>, cleanup: seq<Call>, ending: Ending, generated: nat)
    requires WorkShape(w, streaming, work, generated) && CleanupFor(w, streaming, cleanup, ending, generated)
    ensures RunShape(w, streaming, work + cleanup, ending) && Count(work + cleanup, IsGenerate) == generated
  {
    CleanupForIsClean(w, streaming, cleanup, ending, generated);
    CleanupForSaysRight(w, streaming, cleanup, ending, generated);
    CleanupAfterWork(work, cleanup, streaming);
    CleanupKeepsShape(w, streaming, work, cleanup);
    CleanupForMarksFirst(w, streaming, cleanup, ending, generated);
    MarkerAfterWork(work, cleanup, ending);
    CleanupForTells(w, streaming, cleanup, ending, generated);
    CleanupForInTurn(w, streaming, cleanup, ending, generated);
    TurnsAfterWork(w, work, cleanup, ending);
    var calls := work + cleanup;
    forall i | 0 <= i < |calls| ensures RightArguments(w, calls[i], ending, generated) {
      if i < |work| { assert IsWork(work[i]); } else { assert calls[i] == cleanup[i - |work|]; }
    }
  }

  lemma OnlyAt(calls: seq<Call>, p: Call -> bool, at: nat)
    requires at < |calls| && p(calls[at]) && forall k | 0 <= k < |calls| && k != at :: !p(calls[k])
    ensures ExactlyOne(calls, p)
  {}

  lemma CleanupForTells(w: World, streaming: bool, cleanup: seq<Call>, ending: Ending, generated: nat)
    requires CleanupFor(w, streaming, cleanup, ending, generated)
    ensures Transitioned(w, cleanup, ending)
  {
    if ending != Finished {
      OnlyAt(cleanup, IsTransition, 1);
    } else if w.markSucceeds {
      OnlyAt(cleanup, IsTransition, 2);
    } else {
      assert NoneOf(cleanup, IsTransition);
    }
  }

  lemma CleanupForInTurn(w: World, streaming: bool, cleanup: seq<Call>, ending: Ending, generated: nat)
    requires CleanupFor(w, streaming, cleanup, ending, generated)
    ensures InTurn(cleanup, ending)
  {}

  lemma TurnsAfterWork(w: World, work: seq<Call>, cleanup: seq<Call>, ending: Ending)
    requires OnlyWork(work) && Transitioned(w, cleanup, ending) && InTurn(cleanup, ending)
    ensures Transitioned(w, work + cleanup, ending) && InTurn(work + cleanup, ending)
  {
    var calls := work + cleanup;
    assert NoneOf(work, IsTransition) by { assert forall i | 0 <= i < |work| :: IsWork(work[i]); }
    if ExactlyOne(cleanup, IsTransition) { OneAfterWork(work, cleanup, IsTransition); }
    forall i, k | 0 <= i < k < |calls| ensures Turn(ending, calls[i]) <= Turn(ending, calls[k]) {
      if i < |work| {
        assert IsWork(work[i]);
      } else {
        assert calls[i] == cleanup[i - |work|] && calls[k] == cleanup[k - |work|];
      }
    }
  }

  lemma MarkerIsFirst(calls: seq<Call>)
    requires calls != [] && IsMarker(calls[0]) && forall k | 0 < k < |calls| :: !IsMarker(calls[k])
    ensures MarkerFirst(calls, Finished)
  {}

  lemma SuccessMarksFirst(streaming: bool, count: int)
    ensures MarkerFirst(OnSuccess(streaming, count), Finished) && MarkerFirst(OnUnrecorded(streaming, count), Finished)
  {
    MarkerIsFirst(OnSuccess(streaming, count));
    MarkerIsFirst(OnUnrecorded(streaming, count));
  }

  lemma CleanupForMarksFirst(w: World, streaming: bool, cleanup: seq<Call>, ending: Ending, generated: nat)
    requires CleanupFor(w, streaming, cleanup, ending, generated)
    ensures MarkerFirst(cleanup, ending)
  {
    if ending == Finished {
      SuccessMarksFirst(streaming, generated);
    } else {
      assert NoneOf(cleanup, IsMarker);
    }
  }

  lemma MarkerAfterWork(work: seq<Call>, cleanup: seq<Call>, ending: Ending)
    requires OnlyWork(work) && MarkerFirst(cleanup, ending)
    ensures MarkerFirst(work + cleanup, ending)
  {
    var calls := work + cleanup;
    assert forall i | 0 <= i < |work| :: IsWork(calls[i]);
    if ending == Finished {
      OneAfterWork(work, cleanup, IsMarker);
      forall i, k | 0 <= i < |calls| && 0 <= k < |calls| && IsMarker(calls[i]) && IsMark(calls[k]) ensures i < k {
        assert calls[i] == cleanup[i - |work|] && calls[k] == cleanup[k - |work|];
      }
    } else {
      forall i | 0 <= i < |calls| ensures !IsMarker(calls[i]) {
        if i >= |work| { assert calls[i] == cleanup[i - |work|]; }
      }
    }
  }

  lemma CleanupKeepsShape(w: World, streaming: bool, work: seq<Call>, cleanup: seq<Call>)
    requires GenerationShape(w, streaming, work) && forall i | 0 <= i < |cleanup| :: !IsWork(cleanup[i])
    ensures GenerationShape(w, streaming, work + cleanup)
    ensures Count(work + cleanup, IsGenerate) == Count(work, IsGenerate)
  {
    CleanupLeavesWork(work, cleanup);
    UntimedIsTimed(w, streaming, cleanup, Count(work, IsGenerate), Count(work, IsChunk));
    TimedConcat(w, streaming, work, cleanup, 0, 0);
  }

  lemma CleanupFetchesNothing(w: World, streaming: bool, work: seq<Call>, cleanup: seq<Call>, ending: Ending,
                              generated: nat, n: nat)
    requires FetchesFirst(work, n) && CleanupFor(w, streaming, cleanup, ending, generated)
    ensures FetchesFirst(work + cleanup, n)
  {}

  /** A loop that did not succeed is cut short exactly if the lease is lost at the look after it. */
  lemma LossDecides(w: World, world: Retry.World, start: nat, k: nat, actions: seq<Retry.Action>, result: Retry.Result,
                    clock: nat)
    requires Retry.StaysCancelled(w.lost) && world.cancelled == w.lost && HeldThrough(w, start)
    requires Retry.LooksFit(Policy(w), world, start, k, result, clock)
    requires result != Retry.BadPolicy ==> Retry.EndsAt(Policy(w), world, k, actions, result)
    ensures result == Retry.Succeeded ==> HeldThrough(w, start + LooksBefore(w, k))
    ensures result in {Retry.GaveUp, Retry.Cancelled} && !w.lost(clock) ==>
              HeldThrough(w, start + LooksBefore(w, k) + 2)
    ensures result in {Retry.GaveUp, Retry.Cancelled} && w.lost(clock) ==>
              CutShort(w, world.outcome, k, start + LooksBefore(w, k))
  {
    if result == Retry.Cancelled { assert w.lost(clock); }
  }

  /** The payload fetch: its calls, and how it ended. */
  method FetchWithRetry(w: World, streaming: bool) returns (calls: seq<Call>, fetched: bool, clock: nat)
    requires Retry.StaysCancelled(w.lost)
    ensures WorkShape(w, streaming, calls, 0) && FetchesFirst(calls, |calls|)
    ensures fetched ==> Exhausts(w.fetch, |calls|, Policy(w).maxAttempts, true)
    ensures fetched ==> clock == LooksBefore(w, |calls|) && HeldThrough(w, clock)
    ensures !fetched && !w.lost(clock) ==>
              (Policy(w).maxAttempts <= 0 && calls == []) || Exhausts(w.fetch, |calls|, Policy(w).maxAttempts, false)
    ensures !fetched ==> (calls == [] ==> Policy(w).maxAttempts <= 0)
    ensures !fetched ==> DecidedBy(w, if w.lost(clock) then LeaseLost else PayloadFailed, |calls|, 0)
  {
    var policy := if w.policyFound then w.policy else w.defaultPolicy;
    var actions, result, fetches, end := Retry.DoWithRetry(policy, Retry.World(w.fetch, w.lost), 0);
    calls, fetched, clock := Repeat(FetchPayload, fetches), result == Retry.Succeeded, end;
    RepeatIsWork(FetchPayload, fetches);
    LossDecides(w, Retry.World(w.fetch, w.lost), 0, fetches, actions, result, end);
    UntimedIsTimed(w, streaming, calls, 0, 0);
    assert Announced(calls) == UpTo(0);
  }

  /** Inference with retries: its calls and how its last generation ended. */
  method InferWithRetry(w: World, streaming: bool, start: nat)
    returns (calls: seq<Call>, succeeded: bool, attempts: nat, clock: nat)
    requires Policy(w).maxAttempts > 0 && Retry.StaysCancelled(w.lost) && HeldThrough(w, start)
    ensures attempts > 0 && WorkShape(w, streaming, calls, attempts) && NoneOf(calls, IsFetch)
    ensures succeeded || !w.lost(clock) ==> Exhausts(w.engine, attempts, Policy(w).maxAttempts, succeeded)
    ensures succeeded ==> HeldThrough(w, start + LooksBefore(w, attempts))
    ensures !succeeded && !w.lost(clock) ==> HeldThrough(w, start + LooksBefore(w, attempts) + 2)
    ensures !succeeded && w.lost(clock) ==> CutShort(w, w.engine, attempts, start + LooksBefore(w, attempts))
  {
    var policy := if w.policyFound then w.policy else w.defaultPolicy;
    var world := Retry.World(w.engine, w.lost);
    var actions, result;
    actions, result, attempts, clock := Retry.DoWithRetry(policy, world, start);
    succeeded := result == Retry.Succeeded;
    calls := Rendered(w, streaming, actions);
    LossDecides(w, world, start, attempts, actions, result, clock);
    ghost var announced := LoopRendered(w, streaming, world, attempts, actions, result);
    assert Announced(calls) == UpTo(if streaming then announced else 0);
  }

  lemma JoinShapes(w: World, streaming: bool, fetching: seq<Call>, inferring: seq<Call>, generated: nat)
    requires WorkShape(w, streaming, fetching, 0) && WorkShape(w, streaming, inferring, generated)
    requires FetchesFirst(fetching, |fetching|) && NoneOf(inferring, IsFetch)
    ensures WorkShape(w, streaming, fetching + inferring, generated)
    ensures FetchesFirst(fetching + inferring, |fetching|)
  {
    JoinWork(fetching, inferring);
    TimedConcat(w, streaming, fetching, inferring, 0, 0);
    var m: nat :| Announced(fetching) == UpTo(m) && m <= 0;
    assert UpTo(0) == [];
    assert Announced(fetching + inferring) == Announced(inferring);
  }

  /** One run of a worker, for every claim, policy, sequence of failures and moment of losing the lease:
      a run whose fetching or inference failed makes no terminal call at all if the lease is lost at the look that
      follows; every other run that claimed a job makes exactly one terminal mark, one release and one terminal event.
      How the fetches, the generations and the looks at the lease came out decides which, and leaves no choice.  The
      mark's count is the number of generations made, which the policy bounds, every generation's chunks are published
      before the next, retries are announced once each, in order and in time, and a finished run leaves its completion
      marker before it marks the job. */
  method ProcessJob(w: World, streaming: bool) returns (calls: seq<Call>, ending: Ending, ok: bool, fetches: nat)
    requires Retry.StaysCancelled(w.lost)
    ensures RunShape(w, streaming, calls, ending) && FetchesFirst(calls, fetches)
    ensures EndsWith(w, ending, fetches, Count(calls, IsGenerate))
    ensures Count(calls, IsGenerate) > 0 ==>
              Count(calls, IsGenerate) <= (if w.policyFound then w.policy else w.defaultPolicy).maxAttempts
    ensures ending == Finished ==> (TransitionIdempotency(true) in calls <==> w.markSucceeds)
    ensures ok <==> (ending == Finished && w.markSucceeds) || (ending == PayloadFailed && w.policyFound)
  {
    calls, ok, fetches := [], false, 0;
    if w.claim != Claimed {
      assert Announced(calls) == UpTo(0);
      ending := NotClaimed;
      return;
    }
    var maxAttempts := Policy(w).maxAttempts;
    var fetched, clock;
    calls, fetched, clock := FetchWithRetry(w, streaming);
    fetches := |calls|;
    if fetched {
      calls, ending, ok := GenerateAndFinish(w, streaming, calls, clock);
    } else if w.lost(clock) {
      ending := LeaseLost;
    } else {
      ghost var work := calls;
      calls := FailureCleanup(calls, maxAttempts, streaming);
      ending := PayloadFailed;
      ok := w.policyFound;
      CleanedUpShape(w, streaming, work, OnFailure(streaming, maxAttempts), ending, 0);
      CleanupFetchesNothing(w, streaming, work, OnFailure(streaming, maxAttempts), ending, 0, fetches);
    }
  }

  /** The run from its fetched payload on. */
  method GenerateAndFinish(w: World, streaming: bool, fetching: seq<Call>, clock: nat)
    returns (calls: seq<Call>, ending: Ending, ok: bool)
    requires Retry.StaysCancelled(w.lost) && w.claim == Claimed
    requires WorkShape(w, streaming, fetching, 0) && FetchesFirst(fetching, |fetching|)
    requires Exhausts(w.fetch, |fetching|, Policy(w).maxAttempts, true) && clock == LooksBefore(w, |fetching|)
    requires HeldThrough(w, clock)
    ensures ending in {LeaseLost, InferenceFailed, Finished}
    ensures RunShape(w, streaming, calls, ending) && FetchesFirst(calls, |fetching|)
    ensures EndingFits(w, ending, |fetching|, Count(calls, IsGenerate))
    ensures DecidedBy(w, ending, |fetching|, Count(calls, IsGenerate))
    ensures ending == Finished ==> (TransitionIdempotency(true) in calls <==> w.markSucceeds)
    ensures ok <==> ending == Finished && w.markSucceeds
  {
    var inferring, succeeded, attempts, look := InferWithRetry(w, streaming, clock);
    calls, ok := fetching + inferring, false;
    JoinShapes(w, streaming, fetching, inferring, attempts);
    ghost var work := calls;
    if succeeded {
      ending, ok := Finished, w.markSucceeds;
      calls := SuccessCleanup(calls, attempts, streaming, w.markSucceeds);
      CleanedUpShape(w, streaming, work, calls[|work|..], ending, attempts);
      CleanupFetchesNothing(w, streaming, work, calls[|work|..], ending, attempts, |fetching|);
      RecordedIff(work, calls[|work|..], attempts, streaming, w.markSucceeds);
    } else if w.lost(look) {
      ending := LeaseLost;
    } else {
      calls := FailureCleanup(calls, attempts, streaming);
      ending := InferenceFailed;
      CleanedUpShape(w, streaming, work, OnFailure(streaming, attempts), ending, attempts);
      CleanupFetchesNothing(w, streaming, work, OnFailure(streaming, attempts), ending, attempts, |fetching|);
    }
  }

  lemma RecordedIff(work: seq<Call>, cleanup: seq<Call>, count: int, streaming: bool, recorded: bool)
    requires OnlyWork(work)
    requires cleanup == if recorded then OnSuccess(streaming, count) else OnUnrecorded(streaming, count)
    ensures TransitionIdempotency(true) in work + cleanup <==> recorded
  {
    if recorded { assert (work + cleanup)[|work| + 2] == TransitionIdempotency(true); }
    forall i | 0 <= i < |work + cleanup| && !recorded ensures (work + cleanup)[i] != TransitionIdempotency(true) {
      if i < |work| { assert IsWork(work[i]); } else { assert (work + cleanup)[i] == cleanup[i - |work|]; }
    }
  }

  method FailureCleanup(work: seq<Call>, count: int, streaming: bool) returns (calls: seq<Call>)
    ensures calls == work + OnFailure(streaming, count)
  {
    calls := work + [MarkFailed(count)];
    calls := calls + [TransitionIdempotency(false)];
    calls := calls + [Release];
    if streaming {
      calls := calls + [PublishTerminal(false)];
    }
  }

  /** When the completion cannot be recorded the idempotency record is left for recovery to settle. */
  method SuccessCleanup(work: seq<Call>, count: int, streaming: bool, markSucceeds: bool) returns (calls: seq<Call>)
    ensures calls == work + if markSucceeds then OnSuccess(streaming, count) else OnUnrecorded(streaming, count)
  {
    calls := work + [MarkExecution];
    calls := calls + [MarkCompleted(count)];
    if markSucceeds {
      calls := calls + [TransitionIdempotency(true)];
    }
    if streaming {
      calls := calls + [PublishTerminal(true)];
    }
    calls := calls + [Release];
  }
}

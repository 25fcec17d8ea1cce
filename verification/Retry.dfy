/** The retry loop and its backoff, on 64-bit durations. */
module Retry {

  const TWO_63: int := 0x8000_0000_0000_0000
  const TWO_64: int := 0x1_0000_0000_0000_0000

  newtype int64 = x: int | -0x8000_0000_0000_0000 <= x < 0x8000_0000_0000_0000

  function Pow2(k: nat): (p: nat)
    ensures p >= 1
  {
    if k == 0 then 1 else 2 * Pow2(k - 1)
  }

  /** Two's complement wrap-around of an integer into 64 bits. */
  function Wrap(x: int): int64 {
    ((x + TWO_63) % TWO_64 - TWO_63) as int64
  }

  /** `base << k` on a signed 64-bit integer; all bits are gone once k reaches 64. */
  function ShiftLeft(base: int64, k: nat): int64 {
    Wrap(base as int * Pow2(k))
  }

  function RetryDelay(baseDelay: int64, maxDelay: int64, attempt: int): int64 {
    if baseDelay <= 0 || attempt <= 0 then 0
    else
      var delay := ShiftLeft(baseDelay, attempt - 1);
      if maxDelay > 0 && delay > maxDelay then maxDelay else delay
  }

  /** The exponential delay fits in 64 bits. */
  predicate NoOverflow(baseDelay: int64, attempt: int) {
    attempt > 0 && baseDelay as int * Pow2(attempt - 1) < TWO_63
  }

  /** The documented backoff: base * 2^(attempt - 1), capped when the cap is positive. */
  function CappedExponential(baseDelay: int64, maxDelay: int64, attempt: int): int
    requires attempt > 0
  {
    var full := baseDelay as int * Pow2(attempt - 1);
    if maxDelay > 0 && full > maxDelay as int then maxDelay as int else full
  }

  /** Without overflow the delay is exactly the capped exponential. */
  lemma DelayIsCappedExponential(baseDelay: int64, maxDelay: int64, attempt: int)
    requires baseDelay > 0 && NoOverflow(baseDelay, attempt)
    ensures RetryDelay(baseDelay, maxDelay, attempt) as int == CappedExponential(baseDelay, maxDelay, attempt)
  {
    var full := baseDelay as int * Pow2(attempt - 1);
    assert full >= 0;
    assert (full + TWO_63) % TWO_64 == full + TWO_63;
  }

  /** On every input, the delay is the capped exponential exactly when the shift does not overflow or wraps to
      something at or above the cap. */
  lemma DelayIsCappedExponentialIff(baseDelay: int64, maxDelay: int64, attempt: int)
    requires baseDelay > 0 && attempt > 0
    ensures RetryDelay(baseDelay, maxDelay, attempt) as int == CappedExponential(baseDelay, maxDelay, attempt)
            <==> NoOverflow(baseDelay, attempt) || (maxDelay > 0 && ShiftLeft(baseDelay, attempt - 1) >= maxDelay)
  {
    if NoOverflow(baseDelay, attempt) { DelayIsCappedExponential(baseDelay, maxDelay, attempt); }
  }

  lemma {:induction false} Pow2Grows(j: nat, k: nat)
    requires j <= k
    ensures Pow2(j) <= Pow2(k)
    decreases k - j
  {
    if j < k { Pow2Grows(j + 1, k); }
  }

  /** Without overflow a later attempt never waits less. */
  lemma DelayIsMonotone(baseDelay: int64, maxDelay: int64, earlier: int, later: int)
    requires baseDelay > 0 && 0 < earlier <= later && NoOverflow(baseDelay, later)
    ensures NoOverflow(baseDelay, earlier)
    ensures RetryDelay(baseDelay, maxDelay, earlier) <= RetryDelay(baseDelay, maxDelay, later)
  {
    Pow2Grows(earlier - 1, later - 1);
    assert baseDelay as int * Pow2(earlier - 1) <= baseDelay as int * Pow2(later - 1);
    DelayIsCappedExponential(baseDelay, maxDelay, earlier);
    DelayIsCappedExponential(baseDelay, maxDelay, later);
  }

  /** With overflow it can: the shift wraps to a negative delay, and the loop then does not wait at all. */
  lemma OverflowedDelayDrops()
    ensures RetryDelay(0x4000_0000_0000_0000, 0x7000_0000_0000_0000, 2) < 0
    ensures RetryDelay(0x4000_0000_0000_0000, 0x7000_0000_0000_0000, 1) > 0
  {
    assert Pow2(1) == 2 && Pow2(0) == 1;
  }

  /** For every attempt, wrapped or not, a positive cap is respected. */
  lemma DelayNeverExceedsCap(baseDelay: int64, maxDelay: int64, attempt: int)
    requires maxDelay > 0
    ensures RetryDelay(baseDelay, maxDelay, attempt) <= maxDelay
  {}

  // ---- the loop ----

  datatype Policy = Policy(maxAttempts: int, baseDelay: int64, maxDelay: int64)

  datatype Outcome = Ok | Err(retryable: bool)

  /** What the loop does, in order; `attempt` counts from 1. */
  datatype Action =
    | Call(attempt: nat)
    | Failed(attempt: nat, willRetry: bool, nextDelay: int64)
    | Sleep(delay: int64)

  datatype Result = Succeeded | GaveUp | Cancelled | BadPolicy

  /** What happens around the loop: how each call ends, and whether the context is cancelled at its
      n-th look at it.  A cancelled context stays cancelled. */
  datatype World = World(outcome: nat -> Outcome, cancelled: nat -> bool)

  ghost predicate StaysCancelled(cancelled: nat -> bool) {
    forall m, n | m <= n && cancelled(m) :: cancelled(n)
  }

  /** The actions of `n` failed attempts that were each followed by a retry. */
  function RetriedAttempts(policy: Policy, n: nat): seq<Action> {
    if n == 0 then []
    else var d := RetryDelay(policy.baseDelay, policy.maxDelay, n);
         RetriedAttempts(policy, n - 1) + [Call(n), Failed(n, true, d), Sleep(d)]
  }

  /** The looks at the context during `n` retried attempts: one after each call, and one in each wait. */
  function RetryLooks(policy: Policy, n: nat): nat {
    if n == 0 then 0
    else RetryLooks(policy, n - 1) + if RetryDelay(policy.baseDelay, policy.maxDelay, n) > 0 then 2 else 1
  }

  /** The loop looked from `start` up to `clock`, as often as its attempts call for; it went on past every look but
      the one that cut it short. */
  ghost predicate LooksFit(policy: Policy, world: World, start: nat, k: nat, result: Result, clock: nat) {
    match result
    case BadPolicy => clock == start
    case Succeeded =>
      k > 0 && clock == start + RetryLooks(policy, k - 1) && (forall n | start <= n < clock :: !world.cancelled(n))
    case GaveUp =>
      k > 0 && clock == start + RetryLooks(policy, k - 1) + 1 && (forall n | start <= n < clock :: !world.cancelled(n))
    case Cancelled =>
      && k > 0
      && (|| clock == start + RetryLooks(policy, k - 1) + 1
          || (&& clock == start + RetryLooks(policy, k - 1) + 2
              && world.outcome(k) == Err(true) && k < policy.maxAttempts
              && RetryDelay(policy.baseDelay, policy.maxDelay, k) > 0))
      && world.cancelled(clock - 1) && (forall n | start <= n < clock - 1 :: !world.cancelled(n))
  }

  /** Total time asked of the timer; a delay that is not positive is not waited for. */
  function Slept(actions: seq<Action>): nat {
    if actions == [] then 0
    else (if actions[0].Sleep? && actions[0].delay > 0 then actions[0].delay as nat else 0) + Slept(actions[1..])
  }

  function Calls(actions: seq<Action>): nat {
    if actions == [] then 0 else (if actions[0].Call? then 1 else 0) + Calls(actions[1..])
  }

  lemma {:induction false} SleptConcat(a: seq<Action>, b: seq<Action>)
    ensures Slept(a + b) == Slept(a) + Slept(b) && Calls(a + b) == Calls(a) + Calls(b)
  {
    if a == [] {
      assert a + b == b;
    } else {
      assert (a + b)[1..] == a[1..] + b;
      SleptConcat(a[1..], b);
    }
  }

  lemma OneRetryCost(n: nat, d: int64)
    ensures var block := [Call(n), Failed(n, true, d), Sleep(d)];
            Calls(block) == 1 && Slept(block) == if d > 0 then d as nat else 0
  {
    var block := [Call(n), Failed(n, true, d), Sleep(d)];
    assert block[1..] == [Failed(n, true, d), Sleep(d)] && block[1..][1..] == [Sleep(d)];
    assert Calls([Sleep(d)]) == 0 && Slept([Sleep(d)]) == if d > 0 then d as nat else 0;
    assert Calls(block[1..]) == 0 && Slept(block[1..]) == Slept([Sleep(d)]);
  }

  lemma {:induction false} RetriedAttemptsCost(policy: Policy, n: nat)
    ensures Calls(RetriedAttempts(policy, n)) == n
    ensures policy.maxDelay > 0 ==> Slept(RetriedAttempts(policy, n)) <= n * policy.maxDelay as int
  {
    if n > 0 {
      RetriedAttemptsCost(policy, n - 1);
      var d := RetryDelay(policy.baseDelay, policy.maxDelay, n);
      if policy.maxDelay > 0 { DelayNeverExceedsCap(policy.baseDelay, policy.maxDelay, n); }
      OneRetryCost(n, d);
      SleptConcat(RetriedAttempts(policy, n - 1), [Call(n), Failed(n, true, d), Sleep(d)]);
      Successor(n - 1, policy.maxDelay as int);
    }
  }

  lemma Successor(n: int, c: int)
    ensures (n + 1) * c == n * c + c
  {}

  /** How the final attempt, number `k`, ends the loop. */
  ghost predicate EndsAt(policy: Policy, world: World, k: nat, actions: seq<Action>, result: Result) {
    var d := RetryDelay(policy.baseDelay, policy.maxDelay, k);
    && 1 <= k <= policy.maxAttempts
    && (forall i | 1 <= i < k :: world.outcome(i) == Err(true))
    && match result
       case Succeeded => world.outcome(k) == Ok && actions == RetriedAttempts(policy, k - 1) + [Call(k)]
       case GaveUp =>
         && world.outcome(k).Err? && (world.outcome(k).retryable ==> k == policy.maxAttempts)
         && actions == RetriedAttempts(policy, k - 1) + [Call(k), Failed(k, false, 0)]
       case Cancelled =>
         && world.outcome(k).Err?
         && (|| actions == RetriedAttempts(policy, k - 1) + [Call(k)]
             || (k < policy.maxAttempts && world.outcome(k).retryable && actions == RetriedAttempts(policy, k)))
       case BadPolicy => false
  }

  /** Runs the operation: every attempt but the last failed retryably and was waited for, and the last one
      succeeded, failed for good, used up the policy, or was cut short by cancellation. */
  method DoWithRetry(policy: Policy, world: World, start: nat)
    returns (actions: seq<Action>, result: Result, attempts: nat, clock: nat)
    ensures policy.maxAttempts <= 0 ==> result == BadPolicy && actions == [] && attempts == 0
    ensures policy.maxAttempts > 0 ==> EndsAt(policy, world, attempts, actions, result)
    ensures LooksFit(policy, world, start, attempts, result, clock)
  {
    actions, attempts, clock := [], 0, start;
    if policy.maxAttempts <= 0 {
      result := BadPolicy;
      return;
    }
    var attempt := 1;
    while attempt <= policy.maxAttempts
      invariant 1 <= attempt <= policy.maxAttempts
      invariant actions == RetriedAttempts(policy, attempt - 1)
      invariant forall i | 1 <= i < attempt :: world.outcome(i) == Err(true)
      invariant clock == start + RetryLooks(policy, attempt - 1)
      invariant forall n | start <= n < clock :: !world.cancelled(n)
      decreases policy.maxAttempts - attempt
    {
      attempts := attempt;
      actions := actions + [Call(attempt)];
      var outcome := world.outcome(attempt);
      if outcome.Ok? {
        result := Succeeded;
        return;
      }
      clock := clock + 1;
      if world.cancelled(clock - 1) {
        result := Cancelled;
        return;
      }
      var willRetry := outcome.retryable && attempt < policy.maxAttempts;
      var nextDelay := if willRetry then RetryDelay(policy.baseDelay, policy.maxDelay, attempt) else 0;
      actions := actions + [Failed(attempt, willRetry, nextDelay)];
      if !willRetry {
        assert actions == RetriedAttempts(policy, attempt - 1) + [Call(attempt), Failed(attempt, false, 0)];
        result := GaveUp;
        return;
      }
      actions := actions + [Sleep(nextDelay)];
      assert actions == RetriedAttempts(policy, attempt);
      if nextDelay > 0 {
        clock := clock + 1;
        if world.cancelled(clock - 1) {
          result := Cancelled;
          return;
        }
      }
      attempt := attempt + 1;
    }
  }

  /** In every run the calls made are the attempts reported, at most the policy's, and the total sleep is at
      most one cap per retry. */
  lemma RetryIsBounded(policy: Policy, world: World, k: nat, actions: seq<Action>, result: Result)
    requires EndsAt(policy, world, k, actions, result)
    ensures Calls(actions) == k <= policy.maxAttempts
    ensures policy.maxDelay > 0 ==> Slept(actions) <= (policy.maxAttempts - 1) * policy.maxDelay as int
  {
    RetriedAttemptsCost(policy, k - 1);
    RetriedAttemptsCost(policy, k);
    LastAttemptCost(RetriedAttempts(policy, k - 1), k);
    if policy.maxDelay > 0 {
      MulMonotone(k - 1, policy.maxAttempts - 1, policy.maxDelay as int);
      if k < policy.maxAttempts { MulMonotone(k, policy.maxAttempts - 1, policy.maxDelay as int); }
    }
  }

  lemma LastAttemptCost(actions: seq<Action>, k: nat)
    ensures Calls(actions + [Call(k)]) == Calls(actions) + 1 && Slept(actions + [Call(k)]) == Slept(actions)
    ensures var all := actions + [Call(k), Failed(k, false, 0)];
            Calls(all) == Calls(actions) + 1 && Slept(all) == Slept(actions)
  {
    SleptConcat(actions, [Call(k)]);
    SleptConcat(actions, [Call(k), Failed(k, false, 0)]);
    assert [Call(k), Failed(k, false, 0)][1..] == [Failed(k, false, 0)];
    assert [Call(k)][1..] == [] && [Failed(k, false, 0)][1..] == [];
  }

  /** Every wait among the actions is the one due after as many calls as were made before it. */
  ghost predicate WaitsFit(due: nat -> int64, actions: seq<Action>) {
    forall i | 0 <= i < |actions| && actions[i].Sleep? :: WaitFits(due, Calls(actions[..i]), actions[i].delay)
  }

  ghost predicate WaitFits(due: nat -> int64, calls: nat, delay: int64) {
    calls > 0 && delay == due(calls)
  }

  lemma WaitsGrow(due: nat -> int64, actions: seq<Action>, more: seq<Action>)
    requires WaitsFit(due, actions)
    requires forall i | 0 <= i < |more| && more[i].Sleep? ::
               WaitFits(due, Calls(actions) + Calls(more[..i]), more[i].delay)
    ensures WaitsFit(due, actions + more)
  {
    var all := actions + more;
    forall i | 0 <= i < |all| && all[i].Sleep? ensures WaitFits(due, Calls(all[..i]), all[i].delay) {
      if i < |actions| {
        assert all[..i] == actions[..i];
      } else {
        assert all[..i] == actions + more[..i - |actions|];
        SleptConcat(actions, more[..i - |actions|]);
      }
    }
  }

  lemma OneRetryWaits(due: nat -> int64, actions: seq<Action>, n: nat)
    requires WaitsFit(due, actions) && Calls(actions) + 1 == n
    ensures WaitsFit(due, actions + [Call(n), Failed(n, true, due(n)), Sleep(due(n))])
  {
    var block := [Call(n), Failed(n, true, due(n)), Sleep(due(n))];
    assert block[..2] == [Call(n)] + [Failed(n, true, due(n))];
    SleptConcat([Call(n)], [Failed(n, true, due(n))]);
    assert Calls([Call(n)]) == 1 && Calls([Failed(n, true, due(n))]) == 0;
    WaitsGrow(due, actions, block);
  }

  function Due(policy: Policy): nat -> int64 {
    n => RetryDelay(policy.baseDelay, policy.maxDelay, n)
  }

  lemma {:induction false} RetriedAttemptsWait(policy: Policy, n: nat)
    ensures WaitsFit(Due(policy), RetriedAttempts(policy, n))
  {
    if n > 0 {
      RetriedAttemptsWait(policy, n - 1);
      RetriedAttemptsCost(policy, n - 1);
      OneRetryWaits(Due(policy), RetriedAttempts(policy, n - 1), n);
    }
  }

  lemma RunWaits(policy: Policy, world: World, k: nat, actions: seq<Action>, result: Result)
    requires EndsAt(policy, world, k, actions, result)
    ensures WaitsFit(Due(policy), actions)
  {
    RetriedAttemptsWait(policy, k);
    RetriedAttemptsWait(policy, k - 1);
    if actions == RetriedAttempts(policy, k - 1) + [Call(k)] {
      WaitsGrow(Due(policy), RetriedAttempts(policy, k - 1), [Call(k)]);
    } else if actions == RetriedAttempts(policy, k - 1) + [Call(k), Failed(k, false, 0)] {
      WaitsGrow(Due(policy), RetriedAttempts(policy, k - 1), [Call(k), Failed(k, false, 0)]);
    }
  }

  /** In every run, the wait after the n-th call is the capped exponential of n, unless that overflows. */
  lemma WaitsAreBackoff(policy: Policy, world: World, k: nat, actions: seq<Action>, result: Result, i: nat)
    requires EndsAt(policy, world, k, actions, result) && policy.baseDelay > 0
    requires i < |actions| && actions[i].Sleep? && NoOverflow(policy.baseDelay, Calls(actions[..i]))
    ensures actions[i].delay as int == CappedExponential(policy.baseDelay, policy.maxDelay, Calls(actions[..i]))
  {
    RunWaits(policy, world, k, actions, result);
    assert WaitFits(Due(policy), Calls(actions[..i]), actions[i].delay);
    DelayIsCappedExponential(policy.baseDelay, policy.maxDelay, Calls(actions[..i]));
  }

  lemma MulMonotone(a: int, b: int, c: nat)
    requires a <= b
    ensures a * c <= b * c
  {}
}

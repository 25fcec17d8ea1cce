/** The token-aware rate limiter.  The script refills `elapsedMs / 1000 * fillRate` tokens, so amounts
    are kept here in thousandths of a token, where every operation is exact integer arithmetic. */
module TokenBucket {

  datatype Config = Config(capacity: nat, fillRate: nat, ttlSeconds: nat)

  datatype Bucket = Absent | Stored(tokens: int, last: int)

  datatype Decision = Never | Denied | Allowed

  /** One request at a time in milliseconds; `evicted` says that Redis dropped the key before it. */
  datatype Request = Request(now: int, cost: nat, evicted: bool)

  function Min(a: int, b: int): int {
    if a < b then a else b
  }

  function Elapsed(from: int, to: int): nat {
    if from < to then to - from else 0
  }

  /** The refilled and capped balance at a time. */
  function Level(cfg: Config, b: Bucket, now: int): int {
    if b.Absent? then 1000 * cfg.capacity
    else Min(1000 * cfg.capacity, b.tokens + Elapsed(b.last, now) * cfg.fillRate)
  }

  function Decide(cfg: Config, b: Bucket, req: Request): Decision {
    if req.cost > cfg.capacity then Never
    else if Level(cfg, b, req.now) >= 1000 * req.cost then Allowed else Denied
  }

  function Charge(cfg: Config, b: Bucket, req: Request): Bucket {
    match Decide(cfg, b, req)
    case Never => b
    case Denied => Stored(Level(cfg, b, req.now), req.now)
    case Allowed => Stored(Level(cfg, b, req.now) - 1000 * req.cost, req.now)
  }

  /** The decisions on a run of requests when the key is never dropped. */
  function Decisions(cfg: Config, b: Bucket, reqs: seq<Request>): (ds: seq<Decision>)
    ensures |ds| == |reqs|
    decreases |reqs|
  {
    if reqs == [] then [] else [Decide(cfg, b, reqs[0])] + Decisions(cfg, Charge(cfg, b, reqs[0]), reqs[1..])
  }

  function AtArrival(b: Bucket, req: Request): Bucket {
    if req.evicted then Absent else b
  }

  /** The decisions when the key is dropped before each request that says so. */
  function ExpiringDecisions(cfg: Config, b: Bucket, reqs: seq<Request>): (ds: seq<Decision>)
    ensures |ds| == |reqs|
    decreases |reqs|
  {
    if reqs == [] then []
    else var b0 := AtArrival(b, reqs[0]);
         [Decide(cfg, b0, reqs[0])] + ExpiringDecisions(cfg, Charge(cfg, b0, reqs[0]), reqs[1..])
  }

  /** The key is dropped only after its TTL, which every stored update restarts. */
  predicate TtlRespected(cfg: Config, b: Bucket, reqs: seq<Request>)
    decreases |reqs|
  {
    reqs == [] || (
      && (reqs[0].evicted && b.Stored? ==> reqs[0].now - b.last >= 1000 * cfg.ttlSeconds)
      && TtlRespected(cfg, Charge(cfg, AtArrival(b, reqs[0]), reqs[0]), reqs[1..]))
  }

  predicate WithinCapacity(cfg: Config, b: Bucket) {
    b.Stored? ==> 0 <= b.tokens <= 1000 * cfg.capacity
  }

  lemma Scale(a: int, b: int, c: nat)
    requires a <= b
    ensures a * c <= b * c
  {}

  lemma Distribute(a: int, b: int, c: int)
    ensures (a + b) * c == a * c + b * c
  {}

  /** The balance stays in [0, capacity] whatever the clock does. */
  lemma BalanceStaysInRange(cfg: Config, b: Bucket, req: Request)
    requires WithinCapacity(cfg, b)
    ensures WithinCapacity(cfg, Charge(cfg, b, req))
    ensures 0 <= Level(cfg, b, req.now) <= 1000 * cfg.capacity
  {
    if b.Stored? { Scale(0, Elapsed(b.last, req.now), cfg.fillRate); }
  }

  /** A request that exceeds the capacity is never admitted; any other exactly when the balance and the refill since
      the last request cover it, and always by a bucket that is not there yet. */
  lemma AdmittedIffCovered(cfg: Config, b: Bucket, req: Request)
    requires WithinCapacity(cfg, b)
    ensures Decide(cfg, b, req) == Never <==> req.cost > cfg.capacity
    ensures Decide(cfg, b, req) == Allowed <==>
            && req.cost <= cfg.capacity
            && (b.Stored? ==> 1000 * req.cost <= b.tokens + Elapsed(b.last, req.now) * cfg.fillRate)
  {}

  // ---- buckets that cannot be told apart ----

  predicate Monotone(start: int, reqs: seq<Request>)
    decreases |reqs|
  {
    reqs == [] || (start <= reqs[0].now && Monotone(reqs[0].now, reqs[1..]))
  }

  /** The two buckets hold the same balance at a time neither has passed. */
  predicate Agree(cfg: Config, b: Bucket, e: Bucket, now: int) {
    && WithinCapacity(cfg, b) && WithinCapacity(cfg, e)
    && (b.Stored? ==> b.last <= now) && (e.Stored? ==> e.last <= now)
    && Level(cfg, b, now) == Level(cfg, e, now)
  }

  /** Capped refill is additive: refilling over two adjacent intervals is refilling over their union. */
  lemma RefillIsAdditive(cfg: Config, b: Bucket, mid: int, now: int)
    requires mid <= now && (b.Stored? ==> b.last <= mid)
    ensures Level(cfg, b, now) == Min(1000 * cfg.capacity, Level(cfg, b, mid) + Elapsed(mid, now) * cfg.fillRate)
  {
    Scale(0, Elapsed(mid, now), cfg.fillRate);
    if b.Stored? {
      assert Elapsed(b.last, now) == Elapsed(b.last, mid) + Elapsed(mid, now);
      assert Elapsed(b.last, now) * cfg.fillRate
          == Elapsed(b.last, mid) * cfg.fillRate + Elapsed(mid, now) * cfg.fillRate;
    }
  }

  /** Buckets that agree answer a later request alike and agree afterwards. */
  lemma AgreeStep(cfg: Config, b: Bucket, e: Bucket, start: int, req: Request)
    requires Agree(cfg, b, e, start) && start <= req.now
    ensures Decide(cfg, b, req) == Decide(cfg, e, req)
    ensures Agree(cfg, Charge(cfg, b, req), Charge(cfg, e, req), req.now)
  {
    RefillIsAdditive(cfg, b, start, req.now);
    RefillIsAdditive(cfg, e, start, req.now);
    BalanceStaysInRange(cfg, b, req);
    BalanceStaysInRange(cfg, e, req);
  }

  // ---- expiry ----

  lemma FullAfterTtl(cfg: Config, b: Bucket, now: int)
    requires WithinCapacity(cfg, b) && cfg.ttlSeconds * cfg.fillRate >= cfg.capacity
    requires b.Stored? ==> now - b.last >= 1000 * cfg.ttlSeconds
    ensures Level(cfg, b, now) == 1000 * cfg.capacity
  {
    if b.Stored? {
      Scale(1000 * cfg.ttlSeconds, Elapsed(b.last, now), cfg.fillRate);
      assert 1000 * cfg.ttlSeconds * cfg.fillRate == 1000 * (cfg.ttlSeconds * cfg.fillRate);
    }
  }

  lemma {:induction false} ExpiryIsInvisible(cfg: Config, b: Bucket, e: Bucket, start: int, reqs: seq<Request>)
    requires Agree(cfg, b, e, start) && Monotone(start, reqs) && TtlRespected(cfg, e, reqs)
    requires cfg.ttlSeconds * cfg.fillRate >= cfg.capacity
    ensures ExpiringDecisions(cfg, e, reqs) == Decisions(cfg, b, reqs)
    decreases |reqs|
  {
    if reqs != [] {
      var req, e0 := reqs[0], AtArrival(e, reqs[0]);
      if req.evicted {
        FullAfterTtl(cfg, e, req.now);
        RefillIsAdditive(cfg, b, start, req.now);
        RefillIsAdditive(cfg, e, start, req.now);
        AgreeStep(cfg, b, e0, req.now, req);
      } else {
        AgreeStep(cfg, b, e, start, req);
      }
      ExpiryIsInvisible(cfg, Charge(cfg, b, req), Charge(cfg, e0, req), req.now, reqs[1..]);
    }
  }

  /** No run on a clock that does not go back can tell a bucket dropped after its TTL from one never dropped. */
  ghost predicate ExpiryNeverShows(cfg: Config) {
    forall start, reqs | Monotone(start, reqs) && TtlRespected(cfg, Absent, reqs) ::
      ExpiringDecisions(cfg, Absent, reqs) == Decisions(cfg, Absent, reqs)
  }

  /** Dropping idle buckets is a pure optimisation exactly when a bucket refills within its TTL. */
  lemma ExpiryRefinesNeverExpiring(cfg: Config)
    ensures ExpiryNeverShows(cfg) <==> cfg.ttlSeconds * cfg.fillRate >= cfg.capacity
  {
    if cfg.ttlSeconds * cfg.fillRate >= cfg.capacity {
      forall start, reqs | Monotone(start, reqs) && TtlRespected(cfg, Absent, reqs)
        ensures ExpiringDecisions(cfg, Absent, reqs) == Decisions(cfg, Absent, reqs)
      {
        ExpiryIsInvisible(cfg, Absent, Absent, start, reqs);
      }
    } else {
      ShortTtlShows(cfg);
    }
  }

  /** With a shorter TTL: drain the bucket, wait for the TTL, and ask for the full capacity again. */
  lemma ShortTtlShows(cfg: Config)
    requires cfg.ttlSeconds * cfg.fillRate < cfg.capacity
    ensures !ExpiryNeverShows(cfg)
  {
    var drain, again := Request(0, cfg.capacity, false), Request(1000 * cfg.ttlSeconds, cfg.capacity, true);
    var reqs := [drain, again];
    assert reqs[1..] == [again];
    assert Monotone(0, reqs);
    var b := Charge(cfg, Absent, drain);
    assert b == Stored(0, 0);
    assert TtlRespected(cfg, b, [again]);
    assert 1000 * cfg.ttlSeconds * cfg.fillRate == 1000 * (cfg.ttlSeconds * cfg.fillRate);
    assert Decide(cfg, b, again) == Denied;
    assert ExpiringDecisions(cfg, Absent, reqs)[1] == Allowed;
    assert Decisions(cfg, Absent, reqs)[1] == Denied;
  }

  // ---- denied requests ----

  function Keep<T>(xs: seq<T>, mask: seq<bool>): seq<T>
    requires |xs| == |mask|
  {
    if xs == [] then [] else (if mask[0] then [xs[0]] else []) + Keep(xs[1..], mask[1..])
  }

  /** Every request the mask drops was turned away. */
  predicate DropsOnlyDenied(cfg: Config, b: Bucket, reqs: seq<Request>, mask: seq<bool>)
    requires |reqs| == |mask|
    decreases |reqs|
  {
    reqs == [] || (
      && (mask[0] || Decide(cfg, b, reqs[0]) != Allowed)
      && DropsOnlyDenied(cfg, Charge(cfg, b, reqs[0]), reqs[1..], mask[1..]))
  }

  lemma {:induction false} DeniedAreInvisibleFrom(
    cfg: Config, b: Bucket, e: Bucket, start: int, reqs: seq<Request>, mask: seq<bool>)
    requires |reqs| == |mask| && Agree(cfg, b, e, start) && Monotone(start, reqs)
    requires DropsOnlyDenied(cfg, b, reqs, mask)
    ensures Decisions(cfg, e, Keep(reqs, mask)) == Keep(Decisions(cfg, b, reqs), mask)
    decreases |reqs|
  {
    if reqs != [] {
      var req, b' := reqs[0], Charge(cfg, b, reqs[0]);
      AgreeStep(cfg, b, e, start, req);
      var ds := Decisions(cfg, b, reqs);
      assert ds[1..] == Decisions(cfg, b', reqs[1..]);
      if mask[0] {
        DeniedAreInvisibleFrom(cfg, b', Charge(cfg, e, req), req.now, reqs[1..], mask[1..]);
        assert Keep(reqs, mask)[1..] == Keep(reqs[1..], mask[1..]);
      } else {
        RefillIsAdditive(cfg, b, start, req.now);
        RefillIsAdditive(cfg, e, start, req.now);
        BalanceStaysInRange(cfg, b, req);
        DeniedAreInvisibleFrom(cfg, b', e, req.now, reqs[1..], mask[1..]);
        assert Keep(reqs, mask) == Keep(reqs[1..], mask[1..]);
      }
    }
  }

  /** Deleting any set of turned-away requests from a run leaves every other decision as it was. */
  lemma DeniedAreInvisible(cfg: Config, b: Bucket, start: int, reqs: seq<Request>, mask: seq<bool>)
    requires |reqs| == |mask| && WithinCapacity(cfg, b) && (b.Stored? ==> b.last <= start)
    requires Monotone(start, reqs) && DropsOnlyDenied(cfg, b, reqs, mask)
    ensures Decisions(cfg, b, Keep(reqs, mask)) == Keep(Decisions(cfg, b, reqs), mask)
  {
    DeniedAreInvisibleFrom(cfg, b, b, start, reqs, mask);
  }

  // ---- conservation ----

  /** The total cost admitted on a run. */
  function Spent(cfg: Config, b: Bucket, reqs: seq<Request>): nat
    decreases |reqs|
  {
    if reqs == [] then 0
    else (if Decide(cfg, b, reqs[0]).Allowed? then reqs[0].cost else 0)
         + Spent(cfg, Charge(cfg, b, reqs[0]), reqs[1..])
  }

  /** How far the clock moved forward over a run, counting each forward move. */
  function Forward(from: int, reqs: seq<Request>): nat
    decreases |reqs|
  {
    if reqs == [] then 0 else Elapsed(from, reqs[0].now) + Forward(reqs[0].now, reqs[1..])
  }

  /** What is admitted plus what is left never exceeds what was there plus what time refilled. */
  lemma {:induction false} SpentIsFunded(cfg: Config, b: Bucket, from: int, reqs: seq<Request>)
    requires WithinCapacity(cfg, b)
    ensures 1000 * Spent(cfg, b, reqs) <= Level(cfg, b, from) + Forward(from, reqs) * cfg.fillRate
    decreases |reqs|
  {
    BalanceStaysInRange(cfg, b, Request(from, 0, false));
    if reqs != [] {
      var req := reqs[0];
      var later := Forward(req.now, reqs[1..]);
      LevelGrowth(cfg, b, from, req.now);
      BalanceStaysInRange(cfg, b, req);
      SpentIsFunded(cfg, Charge(cfg, b, req), req.now, reqs[1..]);
      LevelAfterCharge(cfg, b, req);
      Distribute(Elapsed(from, req.now), later, cfg.fillRate);
    } else {
      Scale(0, Forward(from, reqs), cfg.fillRate);
    }
  }

  lemma LevelGrowth(cfg: Config, b: Bucket, from: int, to: int)
    ensures Level(cfg, b, to) <= Level(cfg, b, from) + Elapsed(from, to) * cfg.fillRate
  {
    Scale(0, Elapsed(from, to), cfg.fillRate);
    if b.Stored? {
      Scale(Elapsed(b.last, to), Elapsed(b.last, from) + Elapsed(from, to), cfg.fillRate);
    }
  }

  lemma LevelAfterCharge(cfg: Config, b: Bucket, req: Request)
    requires WithinCapacity(cfg, b)
    ensures Level(cfg, Charge(cfg, b, req), req.now) ==
            Level(cfg, b, req.now) - if Decide(cfg, b, req).Allowed? then 1000 * req.cost else 0
  {
    BalanceStaysInRange(cfg, b, req);
  }

  lemma {:induction false} MonotoneForward(from: int, reqs: seq<Request>)
    requires reqs != [] && Monotone(from, reqs)
    ensures Forward(from, reqs) == reqs[|reqs| - 1].now - from
    decreases |reqs|
  {
    if |reqs| > 1 { MonotoneForward(reqs[0].now, reqs[1..]); }
  }

  /** Token conservation: from any stored balance, the cost admitted by a run is at most the capacity plus
      the refill over the time the run spans; on any clock, the span counts each forward move. */
  lemma TokenConservation(cfg: Config, b: Bucket, reqs: seq<Request>)
    requires WithinCapacity(cfg, b) && reqs != []
    ensures 1000 * Spent(cfg, b, reqs) <= 1000 * cfg.capacity + Forward(reqs[0].now, reqs) * cfg.fillRate
    ensures Monotone(reqs[0].now, reqs) ==>
              1000 * Spent(cfg, b, reqs) <=
              1000 * cfg.capacity + (reqs[|reqs| - 1].now - reqs[0].now) * cfg.fillRate
  {
    SpentIsFunded(cfg, b, reqs[0].now, reqs);
    if Monotone(reqs[0].now, reqs) { MonotoneForward(reqs[0].now, reqs); }
  }

  // ---- exactly which requests are denied ----

  /** The bucket a run leaves. */
  function After(cfg: Config, b: Bucket, reqs: seq<Request>): Bucket
    decreases |reqs|
  {
    if reqs == [] then b else After(cfg, Charge(cfg, b, reqs[0]), reqs[1..])
  }

  lemma {:induction false} AfterStaysInRange(cfg: Config, b: Bucket, reqs: seq<Request>)
    requires WithinCapacity(cfg, b)
    ensures WithinCapacity(cfg, After(cfg, b, reqs))
    decreases |reqs|
  {
    if reqs != [] {
      BalanceStaysInRange(cfg, b, reqs[0]);
      AfterStaysInRange(cfg, Charge(cfg, b, reqs[0]), reqs[1..]);
    }
  }

  lemma {:induction false} RunSplits(cfg: Config, b: Bucket, reqs: seq<Request>, j: nat)
    requires j <= |reqs|
    ensures After(cfg, b, reqs) == After(cfg, After(cfg, b, reqs[..j]), reqs[j..])
    ensures Spent(cfg, b, reqs) == Spent(cfg, b, reqs[..j]) + Spent(cfg, After(cfg, b, reqs[..j]), reqs[j..])
    decreases j
  {
    if j == 0 {
      assert reqs[..0] == [] && reqs[0..] == reqs;
    } else {
      assert reqs[..j][0] == reqs[0] && reqs[..j][1..] == reqs[1..][..j - 1] && reqs[1..][j - 1..] == reqs[j..];
      RunSplits(cfg, Charge(cfg, b, reqs[0]), reqs[1..], j - 1);
    }
  }

  /** The clock does not go back from `start` over the run to `now`. */
  predicate Ordered(start: int, reqs: seq<Request>, now: int)
    decreases |reqs|
  {
    if reqs == [] then start <= now else start <= reqs[0].now && Ordered(reqs[0].now, reqs[1..], now)
  }

  /** The time of request `j` of the run, or of the one that follows it. */
  function TimeOf(reqs: seq<Request>, now: int, j: nat): int {
    if j < |reqs| then reqs[j].now else now
  }

  /** What was admitted from request `j` on. */
  function SpentFrom(cfg: Config, b: Bucket, reqs: seq<Request>, j: nat): nat
    requires j <= |reqs|
  {
    Spent(cfg, After(cfg, b, reqs[..j]), reqs[j..])
  }

  /** The balance is at most what was there, plus the refill since, less what was admitted since. */
  lemma {:induction false} LevelIsAtMost(cfg: Config, b: Bucket, start: int, reqs: seq<Request>, now: int)
    requires WithinCapacity(cfg, b) && Ordered(start, reqs, now)
    ensures start <= now
    ensures Level(cfg, After(cfg, b, reqs), now)
            <= Level(cfg, b, start) + (now - start) * cfg.fillRate - 1000 * Spent(cfg, b, reqs)
    decreases |reqs|
  {
    if reqs == [] {
      LevelGrowth(cfg, b, start, now);
    } else {
      var req := reqs[0];
      LevelGrowth(cfg, b, start, req.now);
      LevelAfterCharge(cfg, b, req);
      BalanceStaysInRange(cfg, b, req);
      LevelIsAtMost(cfg, Charge(cfg, b, req), req.now, reqs[1..], now);
      Distribute(req.now - start, now - req.now, cfg.fillRate);
    }
  }

  lemma {:induction false} OrderedFrom(start: int, reqs: seq<Request>, now: int, j: nat)
    requires Ordered(start, reqs, now) && j <= |reqs|
    ensures Ordered(TimeOf(reqs, now, j), reqs[j..], now)
    decreases |reqs|
  {
    if j == 0 {
      assert reqs[0..] == reqs;
    } else {
      OrderedFrom(reqs[0].now, reqs[1..], now, j - 1);
      assert reqs[1..][j - 1..] == reqs[j..];
    }
  }

  lemma LevelWithinWindow(cfg: Config, b: Bucket, start: int, reqs: seq<Request>, now: int, j: nat)
    requires WithinCapacity(cfg, b) && Ordered(start, reqs, now) && j <= |reqs|
    ensures Level(cfg, After(cfg, b, reqs), now)
            <= 1000 * cfg.capacity + (now - TimeOf(reqs, now, j)) * cfg.fillRate - 1000 * SpentFrom(cfg, b, reqs, j)
  {
    var mid := After(cfg, b, reqs[..j]);
    RunSplits(cfg, b, reqs, j);
    OrderedFrom(start, reqs, now, j);
    AfterStaysInRange(cfg, b, reqs[..j]);
    LevelFromFull(cfg, mid, TimeOf(reqs, now, j), reqs[j..], now);
  }

  lemma LevelFromFull(cfg: Config, b: Bucket, start: int, reqs: seq<Request>, now: int)
    requires WithinCapacity(cfg, b) && Ordered(start, reqs, now)
    ensures Level(cfg, After(cfg, b, reqs), now)
            <= 1000 * cfg.capacity + (now - start) * cfg.fillRate - 1000 * Spent(cfg, b, reqs)
  {
    LevelIsAtMost(cfg, b, start, reqs, now);
    BalanceStaysInRange(cfg, b, Request(start, 0, false));
  }

  /** The window that starts at request `j` has used up what the balance now lacks. */
  ghost predicate BindingWindow(cfg: Config, b: Bucket, reqs: seq<Request>, now: int, j: nat)
    requires j <= |reqs|
  {
    Level(cfg, After(cfg, b, reqs), now) ==
    1000 * cfg.capacity + (now - TimeOf(reqs, now, j)) * cfg.fillRate - 1000 * SpentFrom(cfg, b, reqs, j)
  }

  ghost predicate BindingStart(cfg: Config, b: Bucket, start: int, reqs: seq<Request>, now: int) {
    Level(cfg, After(cfg, b, reqs), now) ==
    Level(cfg, b, start) + (now - start) * cfg.fillRate - 1000 * Spent(cfg, b, reqs)
  }

  lemma WindowShifts(cfg: Config, b: Bucket, reqs: seq<Request>, now: int, j: nat)
    requires reqs != [] && j < |reqs| && BindingWindow(cfg, Charge(cfg, b, reqs[0]), reqs[1..], now, j)
    ensures BindingWindow(cfg, b, reqs, now, j + 1)
  {
    assert reqs[..j + 1][0] == reqs[0] && reqs[..j + 1][1..] == reqs[1..][..j] && reqs[1..][j..] == reqs[j + 1..];
  }

  /** Seen from before the first request, the start still binds, unless the bucket was full at that request. */
  lemma StartShifts(cfg: Config, b: Bucket, start: int, reqs: seq<Request>, now: int)
    requires WithinCapacity(cfg, b) && reqs != [] && start <= reqs[0].now && (b.Stored? ==> b.last <= start)
    requires BindingStart(cfg, Charge(cfg, b, reqs[0]), reqs[0].now, reqs[1..], now)
    ensures if Level(cfg, b, reqs[0].now) < 1000 * cfg.capacity then BindingStart(cfg, b, start, reqs, now)
            else BindingWindow(cfg, b, reqs, now, 0)
  {
    var req := reqs[0];
    LevelAfterCharge(cfg, b, req);
    assert reqs[..0] == [] && reqs[0..] == reqs;
    if Level(cfg, b, req.now) < 1000 * cfg.capacity {
      RefillIsAdditive(cfg, b, start, req.now);
      Distribute(req.now - start, now - req.now, cfg.fillRate);
    } else {
      BalanceStaysInRange(cfg, b, req);
    }
  }

  /** One of those bounds is always met exactly. */
  lemma {:induction false} SomeBoundIsMet(cfg: Config, b: Bucket, start: int, reqs: seq<Request>, now: int)
    returns (fromStart: bool, j: nat)
    requires WithinCapacity(cfg, b) && Ordered(start, reqs, now) && (b.Stored? ==> b.last <= start)
    ensures j <= |reqs|
    ensures if fromStart then BindingStart(cfg, b, start, reqs, now) else BindingWindow(cfg, b, reqs, now, j)
    decreases |reqs|
  {
    fromStart, j := true, 0;
    if reqs == [] {
      RefillIsAdditive(cfg, b, start, now);
      fromStart := Level(cfg, b, now) < 1000 * cfg.capacity;
      assert reqs[..0] == [] && reqs[0..] == [];
    } else {
      BalanceStaysInRange(cfg, b, reqs[0]);
      fromStart, j := SomeBoundIsMet(cfg, Charge(cfg, b, reqs[0]), reqs[0].now, reqs[1..], now);
      if fromStart {
        StartShifts(cfg, b, start, reqs, now);
        fromStart, j := Level(cfg, b, reqs[0].now) < 1000 * cfg.capacity, 0;
      } else {
        WindowShifts(cfg, b, reqs, now, j);
        j := j + 1;
      }
    }
  }

  /** Some stretch of the run, up to and with this request, asks for more than the capacity and its refill. */
  ghost predicate WindowOverdrawn(cfg: Config, b: Bucket, reqs: seq<Request>, req: Request) {
    exists j :: 0 <= j <= |reqs| &&
      1000 * (SpentFrom(cfg, b, reqs, j) + req.cost)
      > 1000 * cfg.capacity + (req.now - TimeOf(reqs, req.now, j)) * cfg.fillRate
  }

  /** Or the whole of it asks for more than was there at the start and the refill since. */
  ghost predicate StartOverdrawn(cfg: Config, b: Bucket, start: int, reqs: seq<Request>, req: Request) {
    1000 * (Spent(cfg, b, reqs) + req.cost) > Level(cfg, b, start) + (req.now - start) * cfg.fillRate
  }

  /** Conservation is tight: on a clock that never goes back, a request the bucket could hold is denied exactly when
      some stretch of admitted requests that ends with it overdraws the bucket. */
  lemma DeniedIffOverdrawn(cfg: Config, b: Bucket, start: int, reqs: seq<Request>, req: Request)
    requires WithinCapacity(cfg, b) && Ordered(start, reqs, req.now) && (b.Stored? ==> b.last <= start)
    ensures Decide(cfg, After(cfg, b, reqs), req) == Denied <==>
            && req.cost <= cfg.capacity
            && (WindowOverdrawn(cfg, b, reqs, req) || StartOverdrawn(cfg, b, start, reqs, req))
  {
    var level := Level(cfg, After(cfg, b, reqs), req.now);
    if level < 1000 * req.cost {
      var fromStart, j := SomeBoundIsMet(cfg, b, start, reqs, req.now);
    } else {
      LevelIsAtMost(cfg, b, start, reqs, req.now);
      forall j | 0 <= j <= |reqs|
        ensures 1000 * (SpentFrom(cfg, b, reqs, j) + req.cost)
                <= 1000 * cfg.capacity + (req.now - TimeOf(reqs, req.now, j)) * cfg.fillRate
      {
        LevelWithinWindow(cfg, b, start, reqs, req.now, j);
      }
    }
  }

  // ---- clocks that go back ----

  /** The requests a clock and a list of costs make. */
  function Requests(times: seq<int>, costs: seq<nat>): (reqs: seq<Request>)
    requires |times| == |costs|
    ensures |reqs| == |times| && forall i | 0 <= i < |reqs| :: reqs[i] == Request(times[i], costs[i], false)
  {
    seq(|times|, i requires 0 <= i < |times| => Request(times[i], costs[i], false))
  }

  predicate NeverBack(times: seq<int>) {
    forall i | 0 < i < |times| :: times[i - 1] <= times[i]
  }

  /** The total forward movement of a clock. */
  function ForwardTime(from: int, times: seq<int>): nat
    decreases |times|
  {
    if times == [] then 0 else Elapsed(from, times[0]) + ForwardTime(times[0], times[1..])
  }

  lemma {:induction false} ForwardExceeds(from: int, times: seq<int>)
    requires times != []
    ensures ForwardTime(from, times) >= times[|times| - 1] - from
    ensures ForwardTime(from, times) == times[|times| - 1] - from <==> NeverBack([from] + times)
    decreases |times|
  {
    var all := [from] + times;
    if |times| == 1 {
      assert ForwardTime(times[0], times[1..]) == 0;
      assert NeverBack(all) <==> all[0] <= all[1];
    } else {
      ForwardExceeds(times[0], times[1..]);
      var rest := [times[0]] + times[1..];
      assert rest == times;
      assert NeverBack(all) <==> from <= times[0] && NeverBack(times) by {
        assert forall i | 0 < i < |times| :: all[i] == times[i - 1] && all[i + 1] == times[i];
        if NeverBack(all) {
          assert all[0] <= all[1];
          forall i | 0 < i < |times| ensures times[i - 1] <= times[i] { assert all[i + 1 - 1] <= all[i + 1]; }
        }
      }
    }
  }

  /** Asks, at each time, for exactly what was refilled since the time before. */
  function RefillCosts(from: int, times: seq<int>): (costs: seq<nat>)
    ensures |costs| == |times|
    decreases |times|
  {
    if times == [] then [] else [Elapsed(from, times[0])] + RefillCosts(times[0], times[1..])
  }

  /** From an empty bucket that refills one token a millisecond and can hold all of it, every such request is
      admitted. */
  lemma {:induction false} RefillsAreAdmitted(cfg: Config, from: int, times: seq<int>)
    requires cfg.fillRate == 1000 && cfg.capacity >= ForwardTime(from, times)
    ensures Spent(cfg, Stored(0, from), Requests(times, RefillCosts(from, times))) == ForwardTime(from, times)
    decreases |times|
  {
    if times != [] {
      var costs := RefillCosts(from, times);
      var reqs := Requests(times, costs);
      assert costs[1..] == RefillCosts(times[0], times[1..]);
      assert reqs[1..] == Requests(times[1..], costs[1..]);
      assert Charge(cfg, Stored(0, from), reqs[0]) == Stored(0, times[0]);
      RefillsAreAdmitted(cfg, times[0], times[1..]);
    }
  }

  /** Whatever the configuration, balance and costs, what is admitted at these times is at most the capacity and the
      refill of the time that passed from the first to the last. */
  ghost predicate ElapsedTimeBounds(times: seq<int>)
    requires times != []
  {
    forall cfg, b, costs: seq<nat> | WithinCapacity(cfg, b) && |costs| == |times| ::
      1000 * Spent(cfg, b, Requests(times, costs))
      <= 1000 * cfg.capacity + (times[|times| - 1] - times[0]) * cfg.fillRate
  }

  lemma {:induction false} NeverBackIsMonotone(from: int, times: seq<int>, costs: seq<nat>)
    requires |times| == |costs| && NeverBack([from] + times)
    ensures Monotone(from, Requests(times, costs))
    decreases |times|
  {
    if times != [] {
      var all, reqs := [from] + times, Requests(times, costs);
      assert all[0] <= all[1];
      assert reqs[1..] == Requests(times[1..], costs[1..]);
      assert [times[0]] + times[1..] == times;
      forall i | 0 < i < |times| ensures times[i - 1] <= times[i] { assert all[i + 1 - 1] <= all[i + 1]; }
      NeverBackIsMonotone(times[0], times[1..], costs[1..]);
    }
  }

  /** Drains a bucket that holds the clock's whole forward movement, then asks for each refill. */
  lemma DrainThenRefill(times: seq<int>) returns (cfg: Config, costs: seq<nat>)
    requires times != []
    ensures |costs| == |times| && cfg.fillRate == 1000 && cfg.capacity == ForwardTime(times[0], times[1..])
    ensures Spent(cfg, Absent, Requests(times, costs)) == cfg.capacity + cfg.capacity
  {
    var rest := times[1..];
    var forwards := ForwardTime(times[0], rest);
    cfg := Config(forwards, 1000, 60);
    costs := [forwards] + RefillCosts(times[0], rest);
    var reqs := Requests(times, costs);
    assert costs[1..] == RefillCosts(times[0], rest);
    assert reqs[1..] == Requests(rest, costs[1..]);
    assert Charge(cfg, Absent, reqs[0]) == Stored(0, times[0]);
    RefillsAreAdmitted(cfg, times[0], rest);
  }

  /** On a clock that goes back somewhere, time is refilled twice: drain the bucket, then ask for each refill. */
  lemma BackwardClockOverspends(times: seq<int>) returns (cfg: Config, costs: seq<nat>)
    requires times != [] && !NeverBack(times)
    ensures |costs| == |times|
    ensures 1000 * Spent(cfg, Absent, Requests(times, costs)) >
            1000 * cfg.capacity + (times[|times| - 1] - times[0]) * cfg.fillRate
  {
    var rest := times[1..];
    assert rest != [] && [times[0]] + rest == times && rest[|rest| - 1] == times[|times| - 1];
    ForwardExceeds(times[0], rest);
    cfg, costs := DrainThenRefill(times);
  }

  /** Elapsed time bounds what is admitted, for every configuration and every cost, exactly on the clocks that never
      go back. */
  lemma ElapsedTimeBoundsIffNeverBack(times: seq<int>)
    requires times != []
    ensures ElapsedTimeBounds(times) <==> NeverBack(times)
  {
    if NeverBack(times) {
      forall cfg, b, costs: seq<nat> | WithinCapacity(cfg, b) && |costs| == |times|
        ensures 1000 * Spent(cfg, b, Requests(times, costs))
                <= 1000 * cfg.capacity + (times[|times| - 1] - times[0]) * cfg.fillRate
      {
        NeverBackFromFirst(times);
        NeverBackIsMonotone(times[0], times, costs);
        TokenConservation(cfg, b, Requests(times, costs));
      }
    } else {
      var cfg, costs := BackwardClockOverspends(times);
      assert WithinCapacity(cfg, Absent);
    }
  }

  lemma NeverBackFromFirst(times: seq<int>)
    requires times != [] && NeverBack(times)
    ensures NeverBack([times[0]] + times)
  {
    var all := [times[0]] + times;
    forall i | 0 < i < |all| ensures all[i - 1] <= all[i] {
      if i > 1 { assert all[i] == times[i - 1] && all[i - 1] == times[i - 2]; }
    }
  }

  // ---- the limiter ----

  datatype Key = Key(user: string, tier: string)

  datatype AllowError = NoTierConfig | CostExceedsCapacity | RateLimited

  datatype AllowResult = Admitted | Rejected(error: AllowError)

  class RedisRateLimiter {
    const tiers: map<string, Config>
    var buckets: map<Key, Bucket>

    ghost function BucketOf(key: Key): Bucket
      reads this
    {
      if key in buckets then buckets[key] else Absent
    }

    /** A tier without a configuration falls back to the free tier's. */
    ghost predicate Configured(tier: string, cfg: Config) {
      if tier in tiers then cfg == tiers[tier] else "free" in tiers && cfg == tiers["free"]
    }

    constructor (tiers: map<string, Config>)
      ensures this.tiers == tiers && forall key :: BucketOf(key) == Absent
    {
      this.tiers := tiers;
      buckets := map[];
    }

    /** One admission: the user's bucket moves by one charge, and no other bucket moves. */
    method Allow(user: string, tier: string, inputTokens: nat, maxOutputTokens: nat, now: int)
      returns (r: AllowResult)
      modifies this
      ensures r == Rejected(NoTierConfig) <==> tier !in tiers && "free" !in tiers
      ensures r == Rejected(NoTierConfig) ==> buckets == old(buckets)
      ensures forall cfg | Configured(tier, cfg) ::
                var b, req := old(BucketOf(Key(user, tier))), Request(now, inputTokens + maxOutputTokens, false);
                && BucketOf(Key(user, tier)) == Charge(cfg, b, req)
                && (r == Admitted <==> Decide(cfg, b, req) == Allowed)
                && (r == Rejected(CostExceedsCapacity) <==> Decide(cfg, b, req) == Never)
      ensures forall cfg | Configured(tier, cfg) && WithinCapacity(cfg, old(BucketOf(Key(user, tier)))) ::
                var b, cost := old(BucketOf(Key(user, tier))), inputTokens + maxOutputTokens;
                r == Admitted <==>
                && cost <= cfg.capacity
                && (b.Stored? ==> 1000 * cost <= b.tokens + Elapsed(b.last, now) * cfg.fillRate)
      ensures forall key | key != Key(user, tier) :: BucketOf(key) == old(BucketOf(key))
    {
      if tier !in tiers && "free" !in tiers {
        return Rejected(NoTierConfig);
      }
      var cfg := if tier in tiers then tiers[tier] else tiers["free"];
      var key, cost := Key(user, tier), inputTokens + maxOutputTokens;
      if cost > cfg.capacity {
        return Rejected(CostExceedsCapacity);
      }
      var tokens := 1000 * cfg.capacity;
      if key in buckets && buckets[key].Stored? {
        var elapsed := if now - buckets[key].last > 0 then now - buckets[key].last else 0;
        tokens := Min(1000 * cfg.capacity, buckets[key].tokens + elapsed * cfg.fillRate);
      }
      if tokens >= 1000 * cost {
        tokens := tokens - 1000 * cost;
        r := Admitted;
      } else {
        r := Rejected(RateLimited);
      }
      buckets := buckets[key := Stored(tokens, now)];
    }
  }
}

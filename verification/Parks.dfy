/** Parks: only time ends them, and strikes lengthen them. */
module Parks {
  import opened Prelude
  import opened RateLimit
  import opened KeySpec
  import opened PoolSpec
  import opened Selection
  import opened KeyRuns
  import opened Tallies

  /** Digesting an outcome may replace a park but never ends one. */
  lemma DigestNeverUnparks(k: Key, now: Time, o: Outcome)
    requires k.health != Ok
    ensures Digest(k, now, o).health != Ok
  {
  }

  /** The expiry of the park in force after each outcome that left the key parked. */
  function ParkLog(k: Key, window: nat, acts: seq<Act>): seq<Time> {
    if acts == [] then [] else
      var log := ParkLog(k, window, Init(acts));
      var after := After(k, window, acts);
      if Last(acts).Digested? && after.health != Ok then log + [after.health.until] else log
  }

  /** A parked key follows its latest park; an unparked key has outlived it. */
  predicate FollowsPark(k: Key, parks: seq<Time>, clock: Time) {
    if k.health == Ok then parks == [] || Last(parks) <= clock
    else parks != [] && Last(parks) == k.health.until
  }

  lemma {:induction false} ParkInvariant(k: Key, window: nat, acts: seq<Act>)
    requires k.health == Ok && Legal(k, window, acts)
    ensures FollowsPark(After(k, window, acts), ParkLog(k, window, acts), Clock(acts))
  {
    if acts != [] {
      ParkInvariant(k, window, Init(acts));
      var before := After(k, window, Init(acts));
      match Last(acts)
      case Wake(_, _) =>
      case Lease(_) =>
      case Digested(now, o) =>
        if before.health != Ok {
          DigestNeverUnparks(before, now, o);
        }
    }
  }

  /** In every run a lease comes no earlier than the expiry of the latest park installed on its key. */
  lemma LeaseOutlivesPark(ks: Keys, window: nat, es: seq<Event>, now: Time, exclude: seq<nat>, i: nat)
    requires i < |ks| && ks[i].health == Ok && Timely(es) && EndOf(es) <= now
    requires TryAcquire(Run(ks, window, es), now, window, exclude).1 == Leased(i)
    ensures var parks := ParkLog(ks[i], window, Acts(ks, window, es, i));
            parks == [] || Last(parks) <= now
  {
    var acts := Acts(ks, window, es, i);
    RunActsOnKey(ks, window, es, i);
    ParkInvariant(ks[i], window, acts);
    ReplyIsEntitled(Run(ks, window, es), now, window, exclude);
  }

  // ----- how long a strike parks -------------------------------------------------------------------

  function Pow2(n: nat): nat {
    if n == 0 then 1 else 2 * Pow2(n - 1)
  }

  lemma {:induction false} DoubledIsPow2(base: nat, n: nat)
    ensures Doubled(base, n) == base * Pow2(n)
  {
    if n > 0 {
      DoubledIsPow2(base, n - 1);
    }
  }

  lemma {:induction false} DoubledGrows(base: nat, n: nat, m: nat)
    requires n <= m
    ensures Doubled(base, n) <= Doubled(base, m)
    decreases m
  {
    if n < m {
      DoubledGrows(base, n, m - 1);
    }
  }

  /** For every backoff the pool uses, doubling saturates nowhere: strike n parks for min(base * 2^min(n-1,16), max). */
  lemma ParkTimeNeverOverflows(strike: nat, base: nat, max: nat)
    requires strike >= 1 && base <= AUTH_BACKOFF_MAX
    ensures ParkTime(strike, base, max) == Min(base * Pow2(Min(strike - 1, 16)), max)
    ensures base * Pow2(Min(strike - 1, 16)) <= DURATION_MAX
  {
    var n := Min(strike - 1, 16);
    DoubledIsPow2(base, n);
    DoubledGrows(base, n, 16);
    Doubled16(base);
  }

  lemma FourMore(base: nat, n: nat)
    ensures Doubled(base, n + 1) == 2 * Doubled(base, n)
    ensures Doubled(base, n + 2) == 4 * Doubled(base, n)
    ensures Doubled(base, n + 3) == 8 * Doubled(base, n)
    ensures Doubled(base, n + 4) == 16 * Doubled(base, n)
  {
    assert Doubled(base, n + 2) == 2 * Doubled(base, n + 1);
    assert Doubled(base, n + 3) == 2 * Doubled(base, n + 2);
  }

  lemma Doubled16(base: nat)
    ensures Doubled(base, 16) == 65536 * base
  {
    FourMore(base, 0);
    FourMore(base, 4);
    FourMore(base, 8);
    FourMore(base, 12);
  }

  /** Repeated failures park for 30, 60, 120, 240 and 480 seconds, then for ten minutes each. */
  lemma FailureBackoff(strike: nat)
    requires strike >= 1
    ensures ParkTime(strike, FAIL_BACKOFF_BASE, FAIL_BACKOFF_MAX) ==
            if strike <= 5 then 15 * Pow2(strike) * SECOND else 600 * SECOND
  {
    FourMore(FAIL_BACKOFF_BASE, 0);
    FourMore(FAIL_BACKOFF_BASE, 1);
    var n := Min(strike - 1, 16);
    if strike <= 5 {
      DoubledIsPow2(FAIL_BACKOFF_BASE, n);
      assert Pow2(strike) == 2 * Pow2(n);
      assert Pow2(n) <= 16 by { SmallPowers(); }
    } else {
      DoubledGrows(FAIL_BACKOFF_BASE, 5, n);
      DoubledGrows(FAIL_BACKOFF_BASE, n, 16);
      Doubled16(FAIL_BACKOFF_BASE);
    }
  }

  lemma SmallPowers()
    ensures Pow2(0) == 1 && Pow2(1) == 2 && Pow2(2) == 4 && Pow2(3) == 8 && Pow2(4) == 16
  {
    assert Pow2(1) == 2 && Pow2(2) == 4;
    assert Pow2(3) == 8;
  }

  // ----- what may replace a park -----------------------------------------------------------------------

  /** The outcome tells that the month is spent, or uses up the self-imposed cap. */
  predicate SpendsMonth(k: Key, o: Outcome) {
    o.Response? && (Succeeded(o) || Throttled(o)) &&
    ((o.rl.Some? && o.rl.value.MonthExhausted()) || (Succeeded(o) && k.cap.Some? && k.stats.ok + 1 >= k.cap.value))
  }

  /** How long a monthly park lasts: until the reported reset, or a fallback. */
  function MonthPark(o: Outcome): nat
    requires o.Response?
  {
    var reported := if o.rl.Some? then o.rl.value.MonthReset() else None;
    reported.GetOr(if o.rl.Some? && o.rl.value.MonthExhausted() then EXHAUSTED_FALLBACK else OVERRIDE_CAP_FALLBACK)
  }

  /** How long a disabling outcome parks a key that has been disabled `strikes` times before. */
  function BackoffPark(o: Outcome, strikes: nat): nat {
    var n := Min(strikes + 1, U32_MAX);
    if Failed(o) then ParkTime(n, FAIL_BACKOFF_BASE, FAIL_BACKOFF_MAX)
    else if Throttled(o) then ParkTime(n, UNEXPLAINED_429_BACKOFF, UNEXPLAINED_429_BACKOFF)
    else ParkTime(n, AUTH_BACKOFF_BASE, AUTH_BACKOFF_MAX)
  }

  predicate Disabling(k: Key, o: Outcome) {
    !Succeeded(o) && DisablesAfter(o, k.consecutiveFailures, k.consecutive429)
  }

  lemma SuccessPark(k: Key, now: Time, status: nat, rl: Option<RateLimitInfo>)
    requires 200 <= status <= 299
    ensures var (after, o) := (OnSuccess(k, now, rl), Response(status, rl));
            if SpendsMonth(k, o)
            then after.health == Exhausted(now + MonthPark(o)) && after.monthRemaining == Some(0) &&
                 after.monthResetAt == Some(now + MonthPark(o))
            else after.health == k.health && after.monthRemaining == k.monthRemaining && after.monthResetAt == k.monthResetAt
  {
    assert Credit(k, now).OverrideCapExhausted() == (k.cap.Some? && k.stats.ok + 1 >= k.cap.value);
  }

  lemma ThrottlePark(k: Key, now: Time, rl: Option<RateLimitInfo>)
    ensures var (after, o) := (On429(k, now, rl), Response(429, rl));
            if SpendsMonth(k, o)
            then after.health == Exhausted(now + MonthPark(o)) && after.monthRemaining == Some(0) &&
                 after.monthResetAt == Some(now + MonthPark(o))
            else after.monthRemaining == k.monthRemaining && after.monthResetAt == k.monthResetAt &&
                 after.health == if Disabling(k, o) then Disabled(now + BackoffPark(o, k.disableStrikes)) else k.health
  {
  }

  lemma StatusPark(k: Key, now: Time, status: nat, rl: Option<RateLimitInfo>)
    ensures OnStatus(k, now, status, rl).health ==
            (var o := Response(status, rl);
             if SpendsMonth(k, o) then Exhausted(now + MonthPark(o))
             else if Disabling(k, o) then Disabled(now + BackoffPark(o, k.disableStrikes))
             else k.health)
  {
    if 200 <= status <= 299 {
      SuccessPark(k, now, status, rl);
    } else if status == 429 {
      ThrottlePark(k, now, rl);
    }
  }

  /** Which park, if any, an outcome installs. */
  lemma DigestPark(k: Key, now: Time, o: Outcome)
    ensures Digest(k, now, o).health ==
            if SpendsMonth(k, o) then Exhausted(now + MonthPark(o))
            else if Disabling(k, o) then Disabled(now + BackoffPark(o, k.disableStrikes))
            else k.health
  {
    match o
    case Transport =>
    case Response(status, rl) =>
      if rl.Some? {
        var learned := Learn(k, now, rl.value);
        assert SpendsMonth(learned, o) == SpendsMonth(k, o) && Disabling(learned, o) == Disabling(k, o);
        assert learned.health == k.health && learned.disableStrikes == k.disableStrikes;
        StatusPark(learned, now, status, rl);
      } else {
        StatusPark(k, now, status, rl);
      }
  }

  predicate ReportsRemaining(o: Outcome) {
    o.Response? && o.rl.Some? && o.rl.value.remaining.month.Some?
  }

  predicate ReportsReset(o: Outcome) {
    o.Response? && o.rl.Some? && o.rl.value.reset.month.Some?
  }

  function RemainingAfter(k: Key, o: Outcome): Option<U64> {
    if SpendsMonth(k, o) then Some(0)
    else if ReportsRemaining(o) then o.rl.value.remaining.month else k.monthRemaining
  }

  function ResetAfter(k: Key, now: Time, o: Outcome): Option<Time> {
    if SpendsMonth(k, o) then Some(now + MonthPark(o))
    else if ReportsReset(o) then Some(now + o.rl.value.MonthReset().value) else k.monthResetAt
  }

  lemma StatusMonth(k: Key, now: Time, status: nat, rl: Option<RateLimitInfo>)
    ensures var (after, o) := (OnStatus(k, now, status, rl), Response(status, rl));
            && after.monthRemaining == (if SpendsMonth(k, o) then Some(0) else k.monthRemaining)
            && after.monthResetAt == (if SpendsMonth(k, o) then Some(now + MonthPark(o)) else k.monthResetAt)
  {
    if 200 <= status <= 299 {
      SuccessPark(k, now, status, rl);
    } else if status == 429 {
      ThrottlePark(k, now, rl);
    }
  }

  /** What an outcome leaves known about the monthly quota. */
  lemma DigestMonth(k: Key, now: Time, o: Outcome)
    ensures Digest(k, now, o).monthRemaining == RemainingAfter(k, o)
    ensures Digest(k, now, o).monthResetAt == ResetAfter(k, now, o)
  {
    if o.Response? {
      var learned := if o.rl.Some? then Learn(k, now, o.rl.value) else k;
      assert learned.stats == k.stats && learned.cap == k.cap;
      assert SpendsMonth(learned, o) == SpendsMonth(k, o);
      StatusMonth(learned, now, o.status, o.rl);
    }
  }

  /** When a key may be used again, as far as its health goes. */
  function ParkEnd(h: Health): Time {
    if h == Ok then 0 else h.until
  }

  /**
   A spent key is meant to stay parked until the reset it was told. With several requests in
   flight it does so past a late outcome exactly when that outcome neither spends the month again
   nor disables the key with an earlier end.
   */
  lemma MonthlyParkIsKeptIff(k: Key, now: Time, o: Outcome)
    requires k.health.Exhausted?
    ensures k.health.until <= ParkEnd(Digest(k, now, o).health) <==>
            ((SpendsMonth(k, o) ==> k.health.until <= now + MonthPark(o)) &&
             (!SpendsMonth(k, o) && Disabling(k, o) ==> k.health.until <= now + BackoffPark(o, k.disableStrikes)))
  {
    DigestPark(k, now, o);
  }

  // ----- plans without a monthly limit ---------------------------------------------------------------------

  /** A success or a 429 of key `i` that reports nothing remaining and no unlimited plan. */
  predicate TellsSpent(e: Event, i: nat) {
    e.Report? && e.idx == i && (Succeeded(e.outcome) || Throttled(e.outcome)) &&
    e.outcome.rl.Some? && e.outcome.rl.value.MonthExhausted()
  }

  ghost predicate EverTold(es: seq<Event>, i: nat) {
    es != [] && (EverTold(Init(es), i) || TellsSpent(Last(es), i))
  }

  ghost predicate EverExhausted(ks: Keys, window: nat, es: seq<Event>, i: nat)
    requires i < |ks|
  {
    Run(ks, window, es)[i].health.Exhausted? || (es != [] && EverExhausted(ks, window, Init(es), i))
  }

  lemma StepExhausts(ks: Keys, window: nat, e: Event, i: nat)
    requires i < |ks| && ks[i].cap.None?
    ensures var after := Step(ks, window, e)[i];
            && after.cap.None?
            && (TellsSpent(e, i) ==> after.health.Exhausted?)
            && (after.health.Exhausted? ==> ks[i].health.Exhausted? || TellsSpent(e, i))
  {
    WakeCounts(ks[i], e.now, window);
    match e
    case Acquire(now, exclude) =>
      KeyAfterAcquire(ks, now, window, exclude, i);
    case Report(now, idx, o) =>
      DigestPark(ks[i], now, o);
      DigestCounts(ks[i], now, o);
    case Snapshot(now) =>
  }

  lemma {:induction false} CapStaysUnset(ks: Keys, window: nat, es: seq<Event>, i: nat)
    requires i < |ks| && ks[i].cap.None?
    ensures Run(ks, window, es)[i].cap.None?
  {
    if es != [] {
      CapStaysUnset(ks, window, Init(es), i);
      StepExhausts(Run(ks, window, Init(es)), window, Last(es), i);
    }
  }

  /**
   A key without self-imposed cap is parked as exhausted in a run exactly when some success or 429 of
   it reports nothing remaining without reporting a limit of 0 alongside. What was learned of the plan
   before does not matter.
   */
  lemma {:induction false} ExhaustedIffTold(ks: Keys, window: nat, es: seq<Event>, i: nat)
    requires i < |ks| && ks[i].cap.None? && !ks[i].health.Exhausted?
    ensures EverExhausted(ks, window, es, i) <==> EverTold(es, i)
  {
    if es != [] {
      ExhaustedIffTold(ks, window, Init(es), i);
      CapStaysUnset(ks, window, Init(es), i);
      StepExhausts(Run(ks, window, Init(es)), window, Last(es), i);
    }
  }
}

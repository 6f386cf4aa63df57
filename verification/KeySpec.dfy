/** The bookkeeping of one API key as a value, and what every operation makes of it. */
module KeySpec {
  import opened Prelude
  import opened RateLimit

  const WINDOW: nat := SECOND
  const FAIL_THRESHOLD: nat := 3
  const FAIL_BACKOFF_BASE: nat := 30 * SECOND
  const FAIL_BACKOFF_MAX: nat := 600 * SECOND
  const AUTH_BACKOFF_BASE: nat := 300 * SECOND
  const AUTH_BACKOFF_MAX: nat := 3600 * SECOND
  const UNEXPLAINED_429_THRESHOLD: nat := 5
  const UNEXPLAINED_429_BACKOFF: nat := 300 * SECOND
  const EXHAUSTED_FALLBACK: nat := 21600 * SECOND
  const OVERRIDE_CAP_FALLBACK: nat := 2592000 * SECOND
  const MAX_LEARNED_RPS: nat := 1000
  /** The longest duration the source's duration type can hold. */
  const DURATION_MAX: nat := U64_MAX * SECOND + (SECOND - 1)

  datatype Health = Ok | Disabled(until: Time) | Exhausted(until: Time)

  datatype Stats = Stats(
    requests: nat,
    ok: nat,
    upstream429: nat,
    client4xx: nat,
    server5xx: nat,
    transportErrors: nat)
  {
    function Plus(o: Stats): Stats {
      Stats(requests + o.requests, ok + o.ok, upstream429 + o.upstream429,
            client4xx + o.client4xx, server5xx + o.server5xx, transportErrors + o.transportErrors)
    }
  }

  const NO_STATS := Stats(0, 0, 0, 0, 0, 0)

  datatype Key = Key(
    health: Health,
    secLimit: U32,
    limitsLearned: bool,
    monthLimit: Option<U64>,
    monthRemaining: Option<U64>,
    monthResetAt: Option<Time>,
    holdUntil: Option<Time>,
    sends: seq<Time>,
    lastUsed: Option<Time>,
    lastOk: Option<Time>,
    consecutiveFailures: nat,
    consecutive429: U32,
    disableStrikes: U32,
    disabledSince: Option<Time>,
    stats: Stats,
    cap: Option<U64>)
  {
    /** Requests this key may send within one window. */
    function Limit(): (r: U32) {
      Max(secLimit, 1)
    }

    function FreeSlots(): nat {
      if health != Ok || holdUntil.Some? then 0 else SatSub(Limit(), AsU32(|sends|))
    }

    predicate MonthUnlimited() {
      cap.None? && monthLimit == Some(0)
    }

    function EffectiveMonthUsed(): nat {
      if cap.Some? then stats.ok
      else if monthLimit.Some? && monthRemaining.Some? then SatSub(monthLimit.value, monthRemaining.value)
      else 0
    }

    /** What ranking takes for the quota left: a cap counts down, and without any number it is the largest one. */
    function MonthRemainingForRanking(): nat {
      if cap.Some? then SatSub(cap.value, EffectiveMonthUsed())
      else if MonthUnlimited() then U64_MAX
      else monthRemaining.GetOr(U64_MAX)
    }

    predicate OverrideCapExhausted() {
      cap.Some? && EffectiveMonthUsed() >= cap.value
    }
  }

  /** A key as the pool creates it. */
  function NewKey(defaultRps: U32, cap: Option<U64>): Key {
    Key(Ok, Max(defaultRps, 1), false, None, None, None, None, [], None, None, 0, 0, 0, None, NO_STATS, cap)
  }

  // ----- waiting: health, hold and window ------------------------------------------------

  /** Ends a park whose time is over. */
  function Refresh(k: Key, now: Time): Key {
    match k.health
    case Ok => k
    case Disabled(until) => if until <= now then k.(health := Ok) else k
    case Exhausted(until) =>
      if until <= now then k.(health := Ok, monthRemaining := None, monthResetAt := None) else k
  }

  /** Drops from the front the sends that have left the window. */
  function Prune(sends: seq<Time>, now: Time, window: nat): seq<Time> {
    if sends != [] && SatSub(now, sends[0]) >= window then Prune(sends[1..], now, window) else sends
  }

  datatype Avail = Free | Busy(at: Time)

  function Availability(k: Key, now: Time, window: nat): Avail {
    match k.health
    case Disabled(until) => Busy(until)
    case Exhausted(until) => Busy(until)
    case Ok =>
      if k.holdUntil.Some? && k.holdUntil.value > now then Busy(k.holdUntil.value)
      else
        var sends := Prune(k.sends, now, window);
        if AsU32(|sends|) >= k.Limit() && sends != [] then Busy(sends[0] + window) else Free
  }

  /** What asking for availability leaves behind: an elapsed hold and elapsed sends are dropped. */
  function Settle(k: Key, now: Time, window: nat): Key {
    if k.health != Ok || (k.holdUntil.Some? && k.holdUntil.value > now) then k
    else k.(holdUntil := None, sends := Prune(k.sends, now, window))
  }

  /** Reserves a slot. */
  function Reserve(k: Key, now: Time): Key {
    k.(sends := k.sends + [now], lastUsed := Some(now), stats := k.stats.(requests := k.stats.requests + 1))
  }

  // ----- digesting an outcome ------------------------------------------------------------

  function Learn(k: Key, now: Time, rl: RateLimitInfo): Key {
    k.(secLimit := if rl.limit.second.Some? && rl.limit.second.value > 0
                   then Min(rl.limit.second.value, MAX_LEARNED_RPS) else k.secLimit,
       monthLimit := if rl.limit.month.Some? then rl.limit.month else k.monthLimit,
       monthRemaining := if rl.remaining.month.Some? then rl.remaining.month else k.monthRemaining,
       monthResetAt := if rl.MonthReset().Some? then Some(now + rl.MonthReset().value) else k.monthResetAt,
       limitsLearned := k.limitsLearned || rl.limit.second.Some? || rl.limit.month.Some?)
  }

  /** `base` doubled `n` times. */
  function Doubled(base: nat, n: nat): nat {
    if n == 0 then base else 2 * Doubled(base, n - 1)
  }

  /** How long the given strike parks a key. */
  function ParkTime(strike: nat, base: nat, max: nat): nat
    requires strike >= 1
  {
    Min(Min(Doubled(base, Min(strike - 1, 16)), DURATION_MAX), max)
  }

  function Disable(k: Key, now: Time, base: nat, max: nat): Key {
    var strikes := Min(k.disableStrikes + 1, U32_MAX);
    k.(disableStrikes := strikes,
       disabledSince := Some(k.disabledSince.GetOr(now)),
       consecutiveFailures := 0,
       consecutive429 := 0,
       health := Disabled(now + ParkTime(strikes, base, max)))
  }

  function Exhaust(k: Key, now: Time, resetIn: Option<nat>): Key {
    var until := now + resetIn.GetOr(EXHAUSTED_FALLBACK);
    k.(monthRemaining := Some(0), monthResetAt := Some(until), health := Exhausted(until))
  }

  function Fail(k: Key, now: Time): Key {
    var k1 := k.(consecutiveFailures := k.consecutiveFailures + 1);
    if k1.consecutiveFailures >= FAIL_THRESHOLD then Disable(k1, now, FAIL_BACKOFF_BASE, FAIL_BACKOFF_MAX) else k1
  }

  datatype Outcome = Response(status: nat, rl: Option<RateLimitInfo>) | Transport

  datatype Verdict = Success | RetryOtherKey | ReturnToClient

  function OnTransport(k: Key, now: Time): Key {
    Fail(k.(stats := k.stats.(transportErrors := k.stats.transportErrors + 1)), now)
  }

  /** Counts a success and forgets the failures before it. */
  function Credit(k: Key, now: Time): Key {
    k.(stats := k.stats.(ok := k.stats.ok + 1),
       lastOk := Some(now), consecutiveFailures := 0, consecutive429 := 0,
       disableStrikes := 0,
       disabledSince := if k.disableStrikes > 0 then None else k.disabledSince)
  }

  function OnSuccess(k: Key, now: Time, rl: Option<RateLimitInfo>): Key {
    var k1 := Credit(k, now);
    var resetIn := if rl.Some? then rl.value.MonthReset() else None;
    if rl.Some? && rl.value.MonthExhausted() then Exhaust(k1, now, resetIn)
    else if k1.OverrideCapExhausted() then Exhaust(k1, now, Some(resetIn.GetOr(OVERRIDE_CAP_FALLBACK)))
    else k1
  }

  /** Counts a 429; the run of 429s is a 32-bit counter that wraps. */
  function CountThrottle(k: Key): Key {
    k.(stats := k.stats.(upstream429 := k.stats.upstream429 + 1),
       consecutive429 := AsU32(k.consecutive429 + 1))
  }

  function On429(k: Key, now: Time, rl: Option<RateLimitInfo>): Key {
    var k1 := CountThrottle(k);
    match rl
    case Some(r) =>
      if r.MonthExhausted() then Exhaust(k1, now, r.MonthReset())
      else k1.(holdUntil := Some(now + r.SecondWait()))
    case None =>
      var k2 := k1.(holdUntil := Some(now + 2 * WINDOW));
      if k2.consecutive429 >= UNEXPLAINED_429_THRESHOLD
      then Disable(k2, now, UNEXPLAINED_429_BACKOFF, UNEXPLAINED_429_BACKOFF) else k2
  }

  function OnRejected(k: Key): Key {
    k.(stats := k.stats.(client4xx := k.stats.client4xx + 1))
  }

  function OnServerError(k: Key, now: Time): Key {
    Fail(k.(stats := k.stats.(server5xx := k.stats.server5xx + 1)), now)
  }

  function OnStatus(k: Key, now: Time, status: nat, rl: Option<RateLimitInfo>): Key {
    if 200 <= status <= 299 then OnSuccess(k, now, rl)
    else if status == 429 then On429(k, now, rl)
    else if status == 401 || status == 403 then Disable(OnRejected(k), now, AUTH_BACKOFF_BASE, AUTH_BACKOFF_MAX)
    else if 400 <= status <= 499 then OnRejected(k)
    else if 500 <= status <= 599 then OnServerError(k, now)
    else k
  }

  /** What an outcome makes of its key. */
  function Digest(k: Key, now: Time, o: Outcome): Key {
    match o
    case Transport => OnTransport(k, now)
    case Response(status, rl) =>
      OnStatus(if rl.Some? then Learn(k, now, rl.value) else k, now, status, rl)
  }

  function VerdictOf(o: Outcome): Verdict {
    match o
    case Transport => RetryOtherKey
    case Response(status, _) =>
      if 200 <= status <= 299 then Success
      else if status == 429 || status == 401 || status == 403 then RetryOtherKey
      else if 500 <= status <= 599 then RetryOtherKey
      else ReturnToClient
  }
}

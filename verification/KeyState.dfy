/** The mutable record the pool keeps per key; every method is proved against KeySpec. */
module KeyStates {
  import opened Prelude
  import opened RateLimit
  import opened KeySpec

  class KeyState {
    const token: string
    const cap: Option<U64>
    var health: Health
    var secLimit: U32
    var limitsLearned: bool
    var monthLimit: Option<U64>
    var monthRemaining: Option<U64>
    var monthResetAt: Option<Time>
    var holdUntil: Option<Time>
    var sends: seq<Time>
    var lastUsed: Option<Time>
    var lastOk: Option<Time>
    var consecutiveFailures: nat
    var consecutive429: U32
    var disableStrikes: U32
    var disabledSince: Option<Time>
    var stats: Stats

    function View(): Key
      reads this
    {
      Key(health, secLimit, limitsLearned, monthLimit, monthRemaining, monthResetAt, holdUntil, sends, lastUsed,
          lastOk, consecutiveFailures, consecutive429, disableStrikes, disabledSince, stats, cap)
    }

    constructor (token: string, defaultRps: U32, cap: Option<U64>)
      ensures View() == NewKey(defaultRps, cap)
      ensures this.token == token
    {
      this.token := token;
      this.cap := cap;
      health := Ok;
      secLimit := Max(defaultRps, 1);
      limitsLearned := false;
      monthLimit, monthRemaining, monthResetAt := None, None, None;
      holdUntil := None;
      sends := [];
      lastUsed, lastOk := None, None;
      consecutiveFailures, consecutive429, disableStrikes := 0, 0, 0;
      disabledSince := None;
      stats := NO_STATS;
    }

    /** Ends the park, if it is over. */
    method Refresh(now: Time)
      modifies this
      ensures View() == KeySpec.Refresh(old(View()), now)
    {
      match health
      case Ok =>
      case Disabled(until) =>
        if until <= now {
          health := Ok;
        }
      case Exhausted(until) =>
        if until <= now {
          monthRemaining := None;
          monthResetAt := None;
          health := Ok;
        }
    }

    method PruneWindow(now: Time, window: nat)
      modifies this`sends
      ensures sends == Prune(old(sends), now, window)
    {
      while sends != [] && SatSub(now, sends[0]) >= window
        invariant Prune(sends, now, window) == Prune(old(sends), now, window)
        decreases |sends|
      {
        sends := sends[1..];
      }
    }

    /** Whether the key can be leased, and if not, from when on it may be. */
    method Availability(now: Time, window: nat) returns (a: Avail)
      modifies this
      ensures a == KeySpec.Availability(old(View()), now, window)
      ensures View() == Settle(old(View()), now, window)
    {
      if health.Disabled? || health.Exhausted? {
        return Busy(health.until);
      }
      if holdUntil.Some? {
        if holdUntil.value > now {
          return Busy(holdUntil.value);
        }
        holdUntil := None;
      }
      PruneWindow(now, window);
      if AsU32(|sends|) >= Max(secLimit, 1) && sends != [] {
        return Busy(sends[0] + window);
      }
      return Free;
    }

    method LearnLimits(now: Time, rl: RateLimitInfo)
      modifies this
      ensures View() == Learn(old(View()), now, rl)
    {
      if rl.limit.second.Some? && rl.limit.second.value > 0 {
        secLimit := Min(rl.limit.second.value, MAX_LEARNED_RPS);
      }
      if rl.limit.month.Some? {
        monthLimit := rl.limit.month;
      }
      if rl.remaining.month.Some? {
        monthRemaining := rl.remaining.month;
      }
      var reset := rl.MonthReset();
      if reset.Some? {
        monthResetAt := Some(now + reset.value);
      }
      if !limitsLearned && (rl.limit.second.Some? || rl.limit.month.Some?) {
        limitsLearned := true;
      }
    }

    /** Parks the key with exponential backoff. */
    method Disable(now: Time, base: nat, max: nat)
      modifies this
      ensures View() == KeySpec.Disable(old(View()), now, base, max)
    {
      disableStrikes := Min(disableStrikes + 1, U32_MAX);
      var until := now + ParkTime(disableStrikes, base, max);
      if disabledSince.None? {
        disabledSince := Some(now);
      }
      consecutiveFailures := 0;
      consecutive429 := 0;
      health := Disabled(until);
    }

    /** Parks the key until its monthly quota resets. */
    method Exhaust(now: Time, resetIn: Option<nat>)
      modifies this
      ensures View() == KeySpec.Exhaust(old(View()), now, resetIn)
    {
      var until := now + resetIn.GetOr(EXHAUSTED_FALLBACK);
      monthRemaining := Some(0);
      monthResetAt := Some(until);
      health := Exhausted(until);
    }

    method Fail(now: Time)
      modifies this
      ensures View() == KeySpec.Fail(old(View()), now)
    {
      consecutiveFailures := consecutiveFailures + 1;
      if consecutiveFailures >= FAIL_THRESHOLD {
        Disable(now, FAIL_BACKOFF_BASE, FAIL_BACKOFF_MAX);
      }
    }

    /** Learns from an outcome, counts it, and parks or holds the key as it demands. */
    method Digest(now: Time, o: Outcome) returns (v: Verdict)
      modifies this
      ensures View() == KeySpec.Digest(old(View()), now, o)
      ensures v == VerdictOf(o)
    {
      if o.Transport? {
        stats := stats.(transportErrors := stats.transportErrors + 1);
        Fail(now);
        return RetryOtherKey;
      }
      var status, rl := o.status, o.rl;
      if rl.Some? {
        LearnLimits(now, rl.value);
      }
      if 200 <= status <= 299 {
        DigestSuccess(now, rl);
        return Success;
      } else if status == 429 {
        Digest429(now, rl);
        return RetryOtherKey;
      } else if status == 401 || status == 403 {
        stats := stats.(client4xx := stats.client4xx + 1);
        Disable(now, AUTH_BACKOFF_BASE, AUTH_BACKOFF_MAX);
        return RetryOtherKey;
      } else if 400 <= status <= 499 {
        stats := stats.(client4xx := stats.client4xx + 1);
        return ReturnToClient;
      } else if 500 <= status <= 599 {
        stats := stats.(server5xx := stats.server5xx + 1);
        Fail(now);
        return RetryOtherKey;
      } else {
        return ReturnToClient;
      }
    }

    method DigestSuccess(now: Time, rl: Option<RateLimitInfo>)
      modifies this
      ensures View() == OnSuccess(old(View()), now, rl)
    {
      stats := stats.(ok := stats.ok + 1);
      lastOk := Some(now);
      consecutiveFailures := 0;
      consecutive429 := 0;
      if disableStrikes > 0 {
        disableStrikes := 0;
        disabledSince := None;
      }
      assert View() == Credit(old(View()), now);
      var resetIn := if rl.Some? then rl.value.MonthReset() else None;
      if rl.Some? && rl.value.MonthExhausted() {
        Exhaust(now, resetIn);
      } else if View().OverrideCapExhausted() {
        Exhaust(now, Some(resetIn.GetOr(OVERRIDE_CAP_FALLBACK)));
      }
    }

    method Digest429(now: Time, rl: Option<RateLimitInfo>)
      modifies this
      ensures View() == On429(old(View()), now, rl)
    {
      stats := stats.(upstream429 := stats.upstream429 + 1);
      consecutive429 := AsU32(consecutive429 + 1);
      assert View() == CountThrottle(old(View()));
      match rl
      case Some(r) =>
        if r.MonthExhausted() {
          Exhaust(now, r.MonthReset());
        } else {
          holdUntil := Some(now + r.SecondWait());
        }
      case None =>
        holdUntil := Some(now + 2 * WINDOW);
        if consecutive429 >= UNEXPLAINED_429_THRESHOLD {
          Disable(now, UNEXPLAINED_429_BACKOFF, UNEXPLAINED_429_BACKOFF);
        }
    }

    /** Reserves a slot for a request sent now. */
    method Reserve(now: Time)
      modifies this
      ensures View() == KeySpec.Reserve(old(View()), now)
    {
      sends := sends + [now];
      lastUsed := Some(now);
      stats := stats.(requests := stats.requests + 1);
    }
  }
}

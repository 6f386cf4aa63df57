/** The counting half of a key, split off from its timing half. */
module Tallies {
  import opened Prelude
  import opened RateLimit
  import opened KeySpec

  /** What a key counts. */
  datatype Tally = Tally(failures: nat, throttles: U32, strikes: U32, since: Option<Time>, stats: Stats)

  function TallyOf(k: Key): Tally {
    Tally(k.consecutiveFailures, k.consecutive429, k.disableStrikes, k.disabledSince, k.stats)
  }

  predicate Succeeded(o: Outcome) {
    o.Response? && 200 <= o.status <= 299
  }

  /** A transport error or a 5xx response. */
  predicate Failed(o: Outcome) {
    o.Transport? || 500 <= o.status <= 599
  }

  predicate Throttled(o: Outcome) {
    o.Response? && o.status == 429
  }

  predicate Rejected(o: Outcome) {
    o.Response? && (o.status == 401 || o.status == 403)
  }

  /** An outcome that another key may do better with. */
  predicate AsksForAnother(o: Outcome) {
    o.Transport? || o.status in {401, 403, 429} || 500 <= o.status <= 599
  }

  /** Another key is tried exactly after an outcome that asks for it, and a 2xx is the only success. */
  lemma VerdictIff(o: Outcome)
    ensures VerdictOf(o) == RetryOtherKey <==> AsksForAnother(o)
    ensures VerdictOf(o) == Success <==> o.Response? && 200 <= o.status <= 299
  {
  }

  /** An outcome no statistic counts: a status outside 200-299 and 400-599. */
  predicate Unclassified(o: Outcome) {
    o.Response? && !(200 <= o.status <= 299) && !(400 <= o.status <= 599)
  }

  /** The outcome parks the key with backoff, given the failures and 429s counted before it. */
  predicate DisablesAfter(o: Outcome, failures: nat, throttles: nat) {
    if Failed(o) then failures + 1 >= FAIL_THRESHOLD
    else if Throttled(o) then o.rl.None? && AsU32(throttles + 1) >= UNEXPLAINED_429_THRESHOLD
    else Rejected(o)
  }

  function CountStats(s: Stats, o: Outcome): Stats {
    if o.Transport? then s.(transportErrors := s.transportErrors + 1)
    else if Succeeded(o) then s.(ok := s.ok + 1)
    else if Throttled(o) then s.(upstream429 := s.upstream429 + 1)
    else if 400 <= o.status <= 499 then s.(client4xx := s.client4xx + 1)
    else if Failed(o) then s.(server5xx := s.server5xx + 1)
    else s
  }

  function Count(t: Tally, now: Time, o: Outcome): Tally {
    var stats := CountStats(t.stats, o);
    if Succeeded(o) then Tally(0, 0, 0, if t.strikes > 0 then None else t.since, stats)
    else if DisablesAfter(o, t.failures, t.throttles)
    then Tally(0, 0, Min(t.strikes + 1, U32_MAX), Some(t.since.GetOr(now)), stats)
    else Tally(if Failed(o) then t.failures + 1 else t.failures,
               if Throttled(o) then AsU32(t.throttles + 1) else t.throttles,
               t.strikes, t.since, stats)
  }

  lemma DisableCounts(k: Key, now: Time, base: nat, max: nat)
    ensures TallyOf(Disable(k, now, base, max)) ==
            Tally(0, 0, Min(k.disableStrikes + 1, U32_MAX), Some(k.disabledSince.GetOr(now)), k.stats)
    ensures Disable(k, now, base, max).cap == k.cap
  {
  }

  lemma ExhaustCounts(k: Key, now: Time, resetIn: Option<nat>)
    ensures TallyOf(Exhaust(k, now, resetIn)) == TallyOf(k)
    ensures Exhaust(k, now, resetIn).cap == k.cap
  {
  }

  lemma SuccessCounts(k: Key, now: Time, status: nat, rl: Option<RateLimitInfo>)
    requires 200 <= status <= 299
    ensures TallyOf(OnSuccess(k, now, rl)) == Count(TallyOf(k), now, Response(status, rl))
    ensures OnSuccess(k, now, rl).cap == k.cap
  {
    var credited := Credit(k, now);
    var resetIn := if rl.Some? then rl.value.MonthReset() else None;
    ExhaustCounts(credited, now, resetIn);
    ExhaustCounts(credited, now, Some(resetIn.GetOr(OVERRIDE_CAP_FALLBACK)));
  }

  lemma ThrottleCounts(k: Key, now: Time, rl: Option<RateLimitInfo>)
    ensures TallyOf(On429(k, now, rl)) == Count(TallyOf(k), now, Response(429, rl))
    ensures On429(k, now, rl).cap == k.cap
  {
    var counted := CountThrottle(k);
    if rl.Some? {
      ExhaustCounts(counted, now, rl.value.MonthReset());
    } else {
      DisableCounts(counted.(holdUntil := Some(now + 2 * WINDOW)), now, UNEXPLAINED_429_BACKOFF, UNEXPLAINED_429_BACKOFF);
    }
  }

  lemma FailCounts(k: Key, now: Time, stats: Stats)
    ensures var t := TallyOf(Fail(k.(stats := stats), now));
            t == if k.consecutiveFailures + 1 >= FAIL_THRESHOLD
                 then Tally(0, 0, Min(k.disableStrikes + 1, U32_MAX), Some(k.disabledSince.GetOr(now)), stats)
                 else Tally(k.consecutiveFailures + 1, k.consecutive429, k.disableStrikes, k.disabledSince, stats)
    ensures Fail(k.(stats := stats), now).cap == k.cap
  {
    DisableCounts(k.(stats := stats, consecutiveFailures := k.consecutiveFailures + 1), now, FAIL_BACKOFF_BASE, FAIL_BACKOFF_MAX);
  }

  lemma StatusCounts(k: Key, now: Time, status: nat, rl: Option<RateLimitInfo>)
    ensures TallyOf(OnStatus(k, now, status, rl)) == Count(TallyOf(k), now, Response(status, rl))
    ensures OnStatus(k, now, status, rl).cap == k.cap
  {
    if 200 <= status <= 299 {
      SuccessCounts(k, now, status, rl);
    } else if status == 429 {
      ThrottleCounts(k, now, rl);
    } else if 400 <= status <= 499 {
      DisableCounts(OnRejected(k), now, AUTH_BACKOFF_BASE, AUTH_BACKOFF_MAX);
    } else if 500 <= status <= 599 {
      FailCounts(k, now, k.stats.(server5xx := k.stats.server5xx + 1));
    }
  }

  /** Counting depends on what was counted and on the outcome, on nothing else. */
  lemma DigestCounts(k: Key, now: Time, o: Outcome)
    ensures TallyOf(Digest(k, now, o)) == Count(TallyOf(k), now, o)
    ensures Digest(k, now, o).cap == k.cap
  {
    match o
    case Transport =>
      FailCounts(k, now, k.stats.(transportErrors := k.stats.transportErrors + 1));
    case Response(status, rl) =>
      if rl.Some? {
        var learned := Learn(k, now, rl.value);
        assert TallyOf(learned) == TallyOf(k) && learned.cap == k.cap;
        StatusCounts(learned, now, status, rl);
      } else {
        StatusCounts(k, now, status, rl);
      }
  }

  /** Waking counts nothing; a lease counts one request. */
  lemma WakeCounts(k: Key, now: Time, window: nat)
    ensures TallyOf(Refresh(k, now)) == TallyOf(k) && Refresh(k, now).cap == k.cap
    ensures var s := Settle(Refresh(k, now), now, window); TallyOf(s) == TallyOf(k) && s.cap == k.cap
    ensures var l := Reserve(Settle(Refresh(k, now), now, window), now);
            TallyOf(l) == TallyOf(k).(stats := k.stats.(requests := k.stats.requests + 1)) && l.cap == k.cap
  {
  }
}

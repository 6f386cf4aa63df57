/**
 What a key knows, as functions of what it has been told: every field that an outcome teaches is
 determined by the acts before, without reference to the operations that set it.
 */
module Known {
  import opened Prelude
  import opened RateLimit
  import opened KeySpec
  import opened PoolSpec
  import opened Selection
  import opened KeyRuns
  import opened Tallies
  import opened Parks
  import opened Accounts

  /** The monthly limit a response reports. */
  function LimitIn(o: Outcome): Option<U64> {
    if o.Response? && o.rl.Some? then o.rl.value.limit.month else None
  }

  /** The requests per second a response reports; zero counts as no report. */
  function RateIn(o: Outcome): Option<U64> {
    if o.Response? && o.rl.Some? && o.rl.value.limit.second != Some(0) then o.rl.value.limit.second else None
  }

  /** The response reports some limit, zero included. */
  predicate ReportsLimit(o: Outcome) {
    o.Response? && o.rl.Some? && (o.rl.value.limit.second.Some? || o.rl.value.limit.month.Some?)
  }

  // ----- one outcome -------------------------------------------------------------------------------------

  lemma StatusKeepsLimits(k: Key, now: Time, status: nat, rl: Option<RateLimitInfo>)
    ensures var after := OnStatus(k, now, status, rl);
            && after.monthLimit == k.monthLimit && after.secLimit == k.secLimit && after.limitsLearned == k.limitsLearned
            && after.lastUsed == k.lastUsed
            && after.lastOk == (if 200 <= status <= 299 then Some(now) else k.lastOk)
  {
  }

  /** What an outcome teaches about the plan, and when the key last answered. */
  lemma DigestLimits(k: Key, now: Time, o: Outcome)
    ensures var after := Digest(k, now, o);
            && after.monthLimit == (if LimitIn(o).Some? then LimitIn(o) else k.monthLimit)
            && after.secLimit == (if RateIn(o).Some? then Min(RateIn(o).value, 1000) else k.secLimit)
            && after.limitsLearned == (k.limitsLearned || ReportsLimit(o))
            && after.lastUsed == k.lastUsed
            && after.lastOk == (if Succeeded(o) then Some(now) else k.lastOk)
  {
    if o.Response? {
      StatusKeepsLimits(if o.rl.Some? then Learn(k, now, o.rl.value) else k, now, o.status, o.rl);
    }
  }

  // ----- whole histories ---------------------------------------------------------------------------------

  /** The monthly limit reported last. */
  function LimitTold(acts: seq<Act>): Option<U64> {
    if acts == [] then None
    else if Last(acts).Digested? && LimitIn(Last(acts).outcome).Some? then LimitIn(Last(acts).outcome)
    else LimitTold(Init(acts))
  }

  /** The rate reported last, at most a thousand; before any report the configured one, at least one. */
  function RateTold(configured: U32, acts: seq<Act>): U32 {
    if acts == [] then (if configured == 0 then 1 else configured)
    else if Last(acts).Digested? && RateIn(Last(acts).outcome).Some? then Min(RateIn(Last(acts).outcome).value, 1000)
    else RateTold(configured, Init(acts))
  }

  /** Some response reported a limit. */
  predicate LimitsTold(acts: seq<Act>) {
    acts != [] && (LimitsTold(Init(acts)) || (Last(acts).Digested? && ReportsLimit(Last(acts).outcome)))
  }

  /** When the key was last leased. */
  function LeasedAt(acts: seq<Act>): Option<Time> {
    if acts == [] then None else if Last(acts).Lease? then Some(Last(acts).now) else LeasedAt(Init(acts))
  }

  /** When a success of the key was last recorded. */
  function AnsweredAt(acts: seq<Act>): Option<Time> {
    if acts == [] then None
    else if Last(acts).Digested? && Succeeded(Last(acts).outcome) then Some(Last(acts).now)
    else AnsweredAt(Init(acts))
  }

  /** A success or 429 that reports nothing remaining, unless it reports a limit of 0 alongside. */
  predicate SaysSpent(o: Outcome) {
    (Succeeded(o) || Throttled(o)) && o.rl.Some? &&
    o.rl.value.remaining.month == Some(0) && o.rl.value.limit.month != Some(0)
  }

  /** A success that uses up the self-imposed cap, after the given number of earlier ones. */
  predicate FillsCap(cap: Option<U64>, earlier: nat, o: Outcome) {
    Succeeded(o) && cap.Some? && earlier + 1 >= cap.value
  }

  /** The seconds to the monthly reset that a response reports. */
  function ResetIn(o: Outcome): Option<U64> {
    if o.Response? && o.rl.Some? then o.rl.value.reset.month else None
  }

  /** The quota left as told last: none is left once it is spent, and nothing is known once that park has ended. */
  function RemainingTold(k: Key, window: nat, acts: seq<Act>): Option<U64> {
    if acts == [] then None
    else
      var before := RemainingTold(k, window, Init(acts));
      match Last(acts)
      case Digested(_, o) =>
        if SaysSpent(o) || FillsCap(k.cap, SuccessesIn(Init(acts)), o) then Some(0)
        else if o.Response? && o.rl.Some? && o.rl.value.remaining.month.Some? then o.rl.value.remaining.month
        else before
      case _ => if Expires(After(k, window, Init(acts)), Last(acts)) then None else before
  }

  /** When the month resets as told last, or is taken to reset if it is spent and no reset was told. */
  function ResetTold(k: Key, window: nat, acts: seq<Act>): Option<Time> {
    if acts == [] then None
    else
      var before := ResetTold(k, window, Init(acts));
      match Last(acts)
      case Digested(now, o) =>
        if ResetIn(o).Some? then Some(now + Seconds(ResetIn(o).value))
        else if SaysSpent(o) then Some(now + Seconds(6 * 3600))
        else if FillsCap(k.cap, SuccessesIn(Init(acts)), o) then Some(now + Seconds(30 * 24 * 3600))
        else before
      case _ => if Expires(After(k, window, Init(acts)), Last(acts)) then None else before
  }

  /** The key knows about its plan and its use what its acts told it. */
  predicate KnowsPlan(k: Key, configured: U32, acts: seq<Act>) {
    && k.monthLimit == LimitTold(acts)
    && k.secLimit == RateTold(configured, acts)
    && k.limitsLearned == LimitsTold(acts)
    && k.lastUsed == LeasedAt(acts)
    && k.lastOk == AnsweredAt(acts)
  }

  lemma WakeKeepsPlan(k: Key, window: nat, now: Time)
    ensures var woken := Settle(Refresh(k, now), now, window);
            && Refresh(k, now).monthLimit == k.monthLimit && woken.monthLimit == k.monthLimit
            && Refresh(k, now).secLimit == k.secLimit && woken.secLimit == k.secLimit
            && Refresh(k, now).limitsLearned == k.limitsLearned && woken.limitsLearned == k.limitsLearned
            && Refresh(k, now).lastUsed == k.lastUsed && woken.lastUsed == k.lastUsed
            && Refresh(k, now).lastOk == k.lastOk && woken.lastOk == k.lastOk
  {
  }

  lemma {:induction false} PlanIsKnown(configured: U32, cap: Option<U64>, window: nat, acts: seq<Act>)
    ensures KnowsPlan(After(NewKey(configured, cap), window, acts), configured, acts)
  {
    if acts != [] {
      PlanIsKnown(configured, cap, window, Init(acts));
      var before := After(NewKey(configured, cap), window, Init(acts));
      WakeKeepsPlan(before, window, Last(acts).now);
      if Last(acts).Digested? {
        DigestLimits(before, Last(acts).now, Last(acts).outcome);
      }
    }
  }

  /** The key knows about its month what its acts told it. */
  predicate KnowsMonth(after: Key, k: Key, window: nat, acts: seq<Act>) {
    after.monthRemaining == RemainingTold(k, window, acts) && after.monthResetAt == ResetTold(k, window, acts)
  }

  lemma WakeKeepsMonth(k: Key, window: nat, a: Act)
    requires !a.Digested?
    ensures var after := Do(k, window, a);
            && after.monthRemaining == (if Expires(k, a) then None else k.monthRemaining)
            && after.monthResetAt == (if Expires(k, a) then None else k.monthResetAt)
  {
  }

  lemma OutcomeTellsMonth(k: Key, now: Time, o: Outcome, successes: nat)
    requires k.stats.ok == successes
    ensures var after := Digest(k, now, o);
            var spent := SaysSpent(o) || FillsCap(k.cap, successes, o);
            && after.monthRemaining == (if spent then Some(0)
                                        else if ReportsRemaining(o) then o.rl.value.remaining.month else k.monthRemaining)
            && after.monthResetAt == (if ResetIn(o).Some? then Some(now + Seconds(ResetIn(o).value))
                                      else if SaysSpent(o) then Some(now + Seconds(21600))
                                      else if spent then Some(now + Seconds(2592000)) else k.monthResetAt)
  {
    DigestMonth(k, now, o);
    assert SpendsMonth(k, o) == (SaysSpent(o) || FillsCap(k.cap, successes, o));
  }

  lemma {:induction false} MonthIsKnown(configured: U32, cap: Option<U64>, window: nat, acts: seq<Act>)
    ensures var k := NewKey(configured, cap); KnowsMonth(After(k, window, acts), k, window, acts)
  {
    if acts != [] {
      var k := NewKey(configured, cap);
      MonthIsKnown(configured, cap, window, Init(acts));
      StatsOfKey(k, window, Init(acts));
      BalanceHolds(Init(acts));
      var before := After(k, window, Init(acts));
      if Last(acts).Digested? {
        OutcomeTellsMonth(before, Last(acts).now, Last(acts).outcome, SuccessesIn(Init(acts)));
      } else {
        WakeKeepsMonth(before, window, Last(acts));
      }
    }
  }

  /** In every run each key knows exactly what the responses to its requests have told it. */
  lemma KeysKnowWhatTheyWereTold(configured: U32, caps: seq<Option<U64>>, window: nat, es: seq<Event>, i: nat)
    requires i < |caps| && Timely(es)
    ensures var ks := NewPool(configured, caps);
            var (acts, k) := (Acts(ks, window, es, i), Run(ks, window, es)[i]);
            KnowsPlan(k, configured, acts) && KnowsMonth(k, ks[i], window, acts)
  {
    var ks := NewPool(configured, caps);
    RunActsOnKey(ks, window, es, i);
    PlanIsKnown(configured, caps[i], window, Acts(ks, window, es, i));
    MonthIsKnown(configured, caps[i], window, Acts(ks, window, es, i));
  }
}

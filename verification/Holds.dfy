/**
 Holds: how long a per-second 429 keeps its key from being leased, whatever else is recorded for the
 key while it lasts.
 */
module Holds {
  import opened Prelude
  import Text
  import opened RateLimit
  import opened KeySpec
  import opened PoolSpec
  import opened Selection
  import opened KeyRuns
  import opened Tallies
  import opened Parks
  import opened Transparency

  /** A 429 that does not tell that the month is spent. */
  predicate SetsHold(o: Outcome) {
    Throttled(o) && !(o.rl.Some? && o.rl.value.MonthExhausted())
  }

  /** How long such a 429 holds its key. */
  function HoldTime(o: Outcome): nat
    requires o.Response?
  {
    if o.rl.Some? then o.rl.value.SecondWait() else 2 * WINDOW
  }

  lemma StatusHold(k: Key, now: Time, status: nat, rl: Option<RateLimitInfo>)
    ensures OnStatus(k, now, status, rl).holdUntil ==
            if SetsHold(Response(status, rl)) then Some(now + HoldTime(Response(status, rl))) else k.holdUntil
  {
  }

  /** A hold is replaced by the next per-second 429 and touched by no other outcome. */
  lemma DigestHold(k: Key, now: Time, o: Outcome)
    ensures Digest(k, now, o).holdUntil == if SetsHold(o) then Some(now + HoldTime(o)) else k.holdUntil
  {
    if o.Response? {
      StatusHold(if o.rl.Some? then Learn(k, now, o.rl.value) else k, now, o.status, o.rl);
    }
  }

  // ----- no lease before the hold is over ------------------------------------------------------------------

  /** When the holds set by the outcomes of a key were to end. */
  function HoldLog(acts: seq<Act>): seq<Time> {
    if acts == [] then [] else
      var log := HoldLog(Init(acts));
      if Last(acts).Digested? && SetsHold(Last(acts).outcome) then log + [Last(acts).now + HoldTime(Last(acts).outcome)]
      else log
  }

  /** A held key follows its latest hold; an unheld key has outlived it. */
  predicate FollowsHold(k: Key, holds: seq<Time>, clock: Time) {
    match k.holdUntil
    case None => holds == [] || Last(holds) <= clock
    case Some(until) => holds != [] && Last(holds) == until
  }

  lemma {:induction false} HoldInvariant(k: Key, window: nat, acts: seq<Act>)
    requires k.holdUntil == None && Legal(k, window, acts)
    ensures FollowsHold(After(k, window, acts), HoldLog(acts), Clock(acts))
  {
    if acts != [] {
      HoldInvariant(k, window, Init(acts));
      if Last(acts).Digested? {
        DigestHold(After(k, window, Init(acts)), Last(acts).now, Last(acts).outcome);
      }
    }
  }

  lemma FreeOutlivesHold(k: Key, holds: seq<Time>, clock: Time, now: Time, window: nat)
    requires FollowsHold(k, holds, clock) && clock <= now && FreeAt(k, now, window)
    ensures holds == [] || Last(holds) <= now
  {
  }

  /** In every run a lease comes no earlier than the end of the hold of its key's latest per-second 429. */
  lemma LeaseOutlivesHold(ks: Keys, window: nat, es: seq<Event>, now: Time, exclude: seq<nat>, i: nat)
    requires i < |ks| && ks[i].holdUntil == None && Timely(es) && EndOf(es) <= now
    requires TryAcquire(Run(ks, window, es), now, window, exclude).1 == Leased(i)
    ensures var holds := HoldLog(Acts(ks, window, es, i)); holds == [] || Last(holds) <= now
  {
    RunActsOnKey(ks, window, es, i);
    HoldInvariant(ks[i], window, Acts(ks, window, es, i));
    ReplyIsEntitled(Run(ks, window, es), now, window, exclude);
    FreeOutlivesHold(Run(ks, window, es)[i], HoldLog(Acts(ks, window, es, i)), EndOf(es), now, window);
  }

  // ----- the time a 429 gives ------------------------------------------------------------------------------

  /** Some X-RateLimit header is there. */
  predicate Reports(h: Headers) {
    h.limit.Some? || h.remaining.Some? || h.reset.Some? || h.policy.Some?
  }

  function AfterSeconds(h: Headers): Option<U64> {
    if h.retryAfter.Some? then Text.ParseU64(Text.Trim(h.retryAfter.value)) else None
  }

  /** The larger of two numbers of seconds when either may be missing. */
  function Longer(a: Option<nat>, b: Option<nat>): Option<nat> {
    match (a, b)
    case (None, _) => b
    case (_, None) => a
    case (Some(x), Some(y)) => Some(Max(x, y))
  }

  /** The seconds a response gives in its reset or retry header, the longer if it gives both. */
  function Given(h: Headers): Option<nat> {
    Longer(WindowsOf(h.reset).second, AfterSeconds(h))
  }

  /** The outcome recorded for a 429 with the given headers. */
  function Heard429(h: Headers): Outcome {
    Response(429, FromHeaders(h))
  }

  lemma ParsedWait(h: Headers)
    ensures FromHeaders(h).Some? <==> Reports(h)
    ensures Reports(h) ==> FromHeaders(h).value.reset.second == WindowsOf(h.reset).second
    ensures Reports(h) ==> FromHeaders(h).value.retryAfter == AfterSeconds(h)
  {
  }

  /** `given` seconds are within what the code honours: up to sixty, but only two without X-RateLimit header. */
  predicate Honoured(reports: bool, given: nat) {
    if reports then given <= 60 else given <= 2
  }

  lemma WaitOf(reset: Option<U64>, after: Option<U64>, rl: RateLimitInfo)
    requires rl.reset.second == reset && rl.retryAfter == after && Longer(reset, after).Some?
    ensures var given := Longer(reset, after).value;
            && (rl.SecondWait() == Seconds(given) <==> 1 <= given <= 60)
            && (Seconds(given) <= rl.SecondWait() <==> given <= 60)
  {
  }

  /**
   A per-second 429 sets a hold of exactly the time it gives if and only if it carries some X-RateLimit
   header and gives one to sixty seconds, or carries none and gives two.
   */
  lemma HoldIsGivenIff(h: Headers)
    requires Given(h).Some?
    ensures HoldTime(Heard429(h)) == Seconds(Given(h).value) <==>
            if Reports(h) then 1 <= Given(h).value <= 60 else Given(h).value == 2
    ensures Seconds(Given(h).value) <= HoldTime(Heard429(h)) <==> Honoured(Reports(h), Given(h).value)
  {
    ParsedWait(h);
    if Reports(h) {
      WaitOf(WindowsOf(h.reset).second, AfterSeconds(h), FromHeaders(h).value);
    }
  }

  // ----- kept from being leased ----------------------------------------------------------------------------

  /** Parked or held at `t`. */
  predicate Barred(k: Key, t: Time) {
    !Up(k, t) || PendingHold(k, t).Some?
  }

  /** When park and hold are both over. */
  function BarEnd(k: Key): Time {
    Max(ParkEnd(k.health), k.holdUntil.GetOr(0))
  }

  lemma BarredIff(k: Key, t: Time)
    ensures Barred(k, t) <==> t < BarEnd(k)
  {
  }

  /** What an outcome makes of the bar: a park as it installs one, a hold as it sets one. */
  lemma BarAfterOutcome(k: Key, now: Time, o: Outcome)
    ensures BarEnd(Digest(k, now, o)) ==
            Max(if SpendsMonth(k, o) then now + MonthPark(o)
                else if Disabling(k, o) then now + BackoffPark(o, k.disableStrikes) else ParkEnd(k.health),
                if SetsHold(o) then now + HoldTime(o) else k.holdUntil.GetOr(0))
  {
    DigestPark(k, now, o);
    DigestHold(k, now, o);
  }

  /** A hold that reaches `to` is cut short only by a later per-second 429 that neither holds nor parks as long. */
  lemma OnlyThrottlesCut(k: Key, now: Time, o: Outcome, to: Time)
    requires k.holdUntil.Some? && to <= k.holdUntil.value
    ensures to <= BarEnd(Digest(k, now, o)) <==>
            !SetsHold(o) || to <= now + HoldTime(o) || to <= ParkEnd(Digest(k, now, o).health)
  {
    DigestHold(k, now, o);
  }

  predicate Concerns(e: Event, i: nat) {
    e.Report? && e.idx == i
  }

  lemma LookKeepsBar(k: Key, now: Time, t: Time, window: nat)
    requires now <= t
    ensures Barred(Refresh(k, now), t) == Barred(k, t)
    ensures Barred(Settle(Refresh(k, now), now, window), t) == Barred(k, t)
    ensures Barred(Reserve(Settle(Refresh(k, now), now, window), now), t) == Barred(k, t)
  {
  }

  /** Only an outcome of the key itself makes a difference to when it is barred. */
  lemma StepKeepsBar(ks: Keys, window: nat, e: Event, i: nat, t: Time)
    requires i < |ks| && !Concerns(e, i) && e.now <= t
    ensures Barred(Step(ks, window, e)[i], t) == Barred(ks[i], t)
  {
    LookKeepsBar(ks[i], e.now, t, window);
    if e.Acquire? {
      KeyAfterAcquire(ks, e.now, window, e.exclude, i);
      ReplyIsEntitled(ks, e.now, window, e.exclude);
    }
  }

  /** After `n` steps of a run that starts at `from` it may be `t` o'clock. */
  predicate InForce(es: seq<Event>, from: Time, n: nat, t: Time) {
    n <= |es| && (if n == 0 then from else es[n - 1].now) <= t && (n < |es| ==> t <= es[n].now)
  }

  /** The key would be barred at every moment from `from` to `to`, were nothing more recorded. */
  ghost predicate BarredUntil(k: Key, from: Time, to: Time) {
    forall t: Time :: from <= t < to ==> Barred(k, t)
  }

  lemma BarredUntilIff(k: Key, from: Time, to: Time)
    ensures BarredUntil(k, from, to) <==> to <= from || to <= BarEnd(k)
  {
    forall t: Time | from <= t < to ensures Barred(k, t) <==> t < BarEnd(k) {
      BarredIff(k, t);
    }
    if from < to && BarEnd(k) < to {
      assert from <= Max(from, BarEnd(k)) < to;
      assert !Barred(k, Max(from, BarEnd(k)));
    }
  }

  // ----- whole runs ----------------------------------------------------------------------------------------

  /** Steps that come one after the other, none before `from`. */
  ghost predicate Onwards(es: seq<Event>, from: Time) {
    Timely(es) && forall n :: 0 <= n < |es| ==> from <= es[n].now
  }

  /** When the state after `n` steps began. */
  function Since(es: seq<Event>, from: Time, n: nat): Time
    requires n <= |es|
  {
    if n == 0 then from else es[n - 1].now
  }

  lemma BeginsInForce(es: seq<Event>, from: Time, n: nat)
    requires Onwards(es, from) && n <= |es|
    ensures InForce(es, from, n, Since(es, from, n)) && from <= Since(es, from, n)
  {
  }

  /** Through steps that do not concern the key it is barred as long as before. */
  lemma {:induction false} QuietStretch(ks: Keys, window: nat, es: seq<Event>, i: nat, b: nat, n: nat, t: Time)
    requires i < |ks| && b <= n <= |es| && forall m :: b <= m < n ==> !Concerns(es[m], i) && es[m].now <= t
    ensures Barred(Run(ks, window, es[..n])[i], t) == Barred(Run(ks, window, es[..b])[i], t)
    decreases n
  {
    if b < n {
      QuietStretch(ks, window, es, i, b, n - 1, t);
      assert es[..n] == es[..n - 1] + [es[n - 1]];
      RunStep(ks, window, es[..n - 1], es[n - 1]);
      StepKeepsBar(Run(ks, window, es[..n - 1]), window, es[n - 1], i, t);
    }
  }

  /** At every moment before `to` the key is barred until then. */
  ghost predicate StaysHeld(ks: Keys, window: nat, es: seq<Event>, i: nat, from: Time, to: Time)
    requires i < |ks|
  {
    forall n: nat, t: Time :: InForce(es, from, n, t) && t < to ==> BarredUntil(Run(ks, window, es[..n])[i], t, to)
  }

  /** Every outcome of the key recorded before `to` leaves it barred until then. */
  ghost predicate OutcomesReach(ks: Keys, window: nat, es: seq<Event>, i: nat, to: Time)
    requires i < |ks|
  {
    forall n :: 0 <= n < |es| && Concerns(es[n], i) && es[n].now < to ==> to <= BarEnd(Run(ks, window, es[..n + 1])[i])
  }

  lemma {:induction false} HeldAfter(ks: Keys, window: nat, es: seq<Event>, i: nat, from: Time, to: Time, n: nat)
    requires i < |ks| && Onwards(es, from) && n <= |es|
    requires BarredUntil(ks[i], from, to) && OutcomesReach(ks, window, es, i, to)
    ensures BarredUntil(Run(ks, window, es[..n])[i], Since(es, from, n), to)
    decreases n
  {
    if n == 0 {
      assert es[..0] == [];
    } else {
      HeldAfter(ks, window, es, i, from, to, n - 1);
      var e := es[n - 1];
      if Concerns(e, i) {
        BarredUntilIff(Run(ks, window, es[..n])[i], e.now, to);
      } else {
        HeldThrough(ks, window, es, i, from, to, n - 1);
      }
    }
  }

  lemma HeldThrough(ks: Keys, window: nat, es: seq<Event>, i: nat, from: Time, to: Time, n: nat)
    requires i < |ks| && Onwards(es, from) && n < |es| && !Concerns(es[n], i)
    requires BarredUntil(Run(ks, window, es[..n])[i], Since(es, from, n), to)
    ensures BarredUntil(Run(ks, window, es[..n + 1])[i], es[n].now, to)
  {
    assert Since(es, from, n) <= es[n].now;
    var after := Run(ks, window, es[..n + 1])[i];
    forall t: Time | es[n].now <= t < to ensures Barred(after, t) {
      QuietStretch(ks, window, es, i, n, n + 1, t);
    }
  }

  lemma HeldMeansReached(ks: Keys, window: nat, es: seq<Event>, i: nat, from: Time, to: Time)
    requires i < |ks| && Onwards(es, from) && StaysHeld(ks, window, es, i, from, to)
    ensures BarredUntil(ks[i], from, to) && OutcomesReach(ks, window, es, i, to)
  {
    BeginsInForce(es, from, 0);
    assert es[..0] == [];
    forall n | 0 <= n < |es| && Concerns(es[n], i) && es[n].now < to
      ensures to <= BarEnd(Run(ks, window, es[..n + 1])[i])
    {
      BeginsInForce(es, from, n + 1);
      assert Since(es, from, n + 1) == es[n].now;
      BarredUntilIff(Run(ks, window, es[..n + 1])[i], es[n].now, to);
    }
  }

  /**
   A key stays held until `to` if and only if it is barred until then at first, and every outcome of it
   recorded meanwhile leaves it so. Leases, snapshots and other keys make no difference.
   */
  lemma StaysHeldIff(ks: Keys, window: nat, es: seq<Event>, i: nat, from: Time, to: Time)
    requires i < |ks| && Onwards(es, from)
    ensures StaysHeld(ks, window, es, i, from, to) <==>
            BarredUntil(ks[i], from, to) && OutcomesReach(ks, window, es, i, to)
  {
    if StaysHeld(ks, window, es, i, from, to) {
      HeldMeansReached(ks, window, es, i, from, to);
    }
    if BarredUntil(ks[i], from, to) && OutcomesReach(ks, window, es, i, to) {
      forall n: nat, t: Time | InForce(es, from, n, t) && t < to
        ensures BarredUntil(Run(ks, window, es[..n])[i], t, to)
      {
        HeldAfter(ks, window, es, i, from, to, n);
      }
    }
  }

  /**
   The documented hold, over runs: a 429 recorded at `s` for key `i` gives `given` seconds, and anything
   may follow. The key stays held for that time if and only if the code honours the time given, or parks
   the key as long, and every outcome of the key recorded before it is over leaves it barred until then.
   */
  lemma HeldAsGivenIff(ks: Keys, window: nat, s: Time, i: nat, h: Headers, es: seq<Event>, given: nat)
    requires i < |ks| && Given(h) == Some(given) && SetsHold(Heard429(h)) && Onwards(es, s)
    ensures var ks1 := Step(ks, window, Report(s, i, Heard429(h)));
            var to := s + Seconds(given);
            StaysHeld(ks1, window, es, i, s, to) <==>
            (Honoured(Reports(h), given) || to <= ParkEnd(ks1[i].health)) && OutcomesReach(ks1, window, es, i, to)
  {
    var ks1 := Step(ks, window, Report(s, i, Heard429(h)));
    HoldIsGivenIff(h);
    HoldOnRecord(ks[i], s, Heard429(h), Seconds(given));
    StaysHeldIff(ks1, window, es, i, s, s + Seconds(given));
  }

  lemma HoldOnRecord(k: Key, s: Time, o: Outcome, length: nat)
    requires SetsHold(o)
    ensures var k1 := Digest(k, s, o);
            BarredUntil(k1, s, s + length) <==> length <= HoldTime(o) || s + length <= ParkEnd(k1.health)
  {
    DigestHold(k, s, o);
    BarredUntilIff(Digest(k, s, o), s, s + length);
  }

  // ----- barred at every moment, by whatever bar ----------------------------------------------------------

  /** At no moment before `to` is the key free of park and hold. */
  ghost predicate StaysBarred(ks: Keys, window: nat, es: seq<Event>, i: nat, from: Time, to: Time)
    requires i < |ks|
  {
    forall n: nat, t: Time :: InForce(es, from, n, t) && t < to ==> Barred(Run(ks, window, es[..n])[i], t)
  }

  /** The state after `n` steps is the first one or was brought about by an outcome of the key. */
  predicate Sets(es: seq<Event>, i: nat, n: nat) {
    n <= |es| && (n == 0 || Concerns(es[n - 1], i))
  }

  /** Some outcome of the key after the first `n` steps is recorded before `end`. */
  ghost predicate RenewedBefore(es: seq<Event>, i: nat, n: nat, end: Time) {
    exists m :: n <= m < |es| && Concerns(es[m], i) && es[m].now < end
  }

  /** No bar runs out before `to` without another outcome of the key having come first. */
  ghost predicate NoGap(ks: Keys, window: nat, es: seq<Event>, i: nat, from: Time, to: Time)
    requires i < |ks|
  {
    forall n: nat :: Sets(es, i, n) && Since(es, from, n) < to ==>
      var end := BarEnd(Run(ks, window, es[..n])[i]);
      to <= end || RenewedBefore(es, i, n, end)
  }

  /** The last step up to `n` that concerned the key. */
  lemma LastSet(es: seq<Event>, i: nat, n: nat) returns (b: nat)
    requires n <= |es|
    ensures b <= n && Sets(es, i, b) && forall m :: b <= m < n ==> !Concerns(es[m], i)
  {
    b := n;
    while b > 0 && !Concerns(es[b - 1], i)
      invariant b <= n && forall m :: b <= m < n ==> !Concerns(es[m], i)
    {
      b := b - 1;
    }
  }

  /** The state in force at `t` when nothing concerns the key between step `n` and then. */
  lemma FirstAfter(es: seq<Event>, i: nat, n: nat, t: Time) returns (p: nat)
    requires n <= |es|
    ensures n <= p <= |es| && (p < |es| ==> Concerns(es[p], i) || t < es[p].now)
    ensures forall m :: n <= m < p ==> !Concerns(es[m], i) && es[m].now <= t
  {
    p := n;
    while p < |es| && !Concerns(es[p], i) && es[p].now <= t
      invariant n <= p <= |es| && forall m :: n <= m < p ==> !Concerns(es[m], i) && es[m].now <= t
    {
      p := p + 1;
    }
  }

  lemma NoGapBars(ks: Keys, window: nat, es: seq<Event>, i: nat, from: Time, to: Time, n: nat, t: Time)
    requires i < |ks| && Onwards(es, from) && NoGap(ks, window, es, i, from, to)
    requires InForce(es, from, n, t) && t < to
    ensures Barred(Run(ks, window, es[..n])[i], t)
  {
    var b := LastSet(es, i, n);
    var end := BarEnd(Run(ks, window, es[..b])[i]);
    BeginsInForce(es, from, b);
    assert forall m :: b <= m < n ==> es[m].now <= es[n - 1].now;
    assert Since(es, from, b) <= t;
    QuietStretch(ks, window, es, i, b, n, t);
    BarredIff(Run(ks, window, es[..b])[i], t);
    if end < to {
      var m :| b <= m < |es| && Concerns(es[m], i) && es[m].now < end;
      assert n <= m;
    }
  }

  lemma BarredHasNoGap(ks: Keys, window: nat, es: seq<Event>, i: nat, from: Time, to: Time, n: nat)
    requires i < |ks| && Onwards(es, from) && StaysBarred(ks, window, es, i, from, to)
    requires Sets(es, i, n) && Since(es, from, n) < to
    ensures var end := BarEnd(Run(ks, window, es[..n])[i]); to <= end || RenewedBefore(es, i, n, end)
  {
    var end := BarEnd(Run(ks, window, es[..n])[i]);
    if end < to && !RenewedBefore(es, i, n, end) {
      var t := Max(Since(es, from, n), end);
      var p := FirstAfter(es, i, n, t);
      BeginsInForce(es, from, n);
      assert p < |es| ==> t <= es[p].now;
      assert InForce(es, from, p, t);
      QuietStretch(ks, window, es, i, n, p, t);
      BarredIff(Run(ks, window, es[..n])[i], t);
      assert false;
    }
  }

  /** A key is barred at every moment before `to` if and only if no bar of it runs out with none to follow. */
  lemma StaysBarredIff(ks: Keys, window: nat, es: seq<Event>, i: nat, from: Time, to: Time)
    requires i < |ks| && Onwards(es, from)
    ensures StaysBarred(ks, window, es, i, from, to) <==> NoGap(ks, window, es, i, from, to)
  {
    if StaysBarred(ks, window, es, i, from, to) {
      forall n: nat | Sets(es, i, n) && Since(es, from, n) < to
        ensures var end := BarEnd(Run(ks, window, es[..n])[i]); to <= end || RenewedBefore(es, i, n, end)
      {
        BarredHasNoGap(ks, window, es, i, from, to, n);
      }
    }
    if NoGap(ks, window, es, i, from, to) {
      forall n: nat, t: Time | InForce(es, from, n, t) && t < to ensures Barred(Run(ks, window, es[..n])[i], t) {
        NoGapBars(ks, window, es, i, from, to, n, t);
      }
    }
  }
}

/**
 Runs from a new pool on which the code and its documentation part ways. All of them use the
 default window of one second plus a tenth.
 */
module Scenarios {
  import opened Prelude
  import opened RateLimit
  import opened KeySpec
  import opened PoolSpec
  import opened Selection
  import opened KeyRuns
  import opened Parks
  import opened Text
  import opened HeaderText
  import opened Holds

  function Millis(n: nat): Time {
    n * 1_000_000
  }

  const CLIENT_WINDOW: nat := Millis(1100)

  const UNKNOWN := Windows(None, None)

  /** Rate-limit information that tells about the month only. */
  function MonthNews(limit: Option<U64>, remaining: Option<U64>, reset: Option<U64>): Option<RateLimitInfo> {
    Some(RateLimitInfo(Windows(None, limit), Windows(None, remaining), Windows(None, reset), UNKNOWN, None))
  }

  // ----- runs of a pool of one key -----------------------------------------------------------------------

  /** What a step makes of the only key, if it is free when asked for. */
  function SoleStep(k: Key, e: Event): Key {
    match e
    case Acquire(now, _) => Reserve(Settle(Refresh(k, now), now, CLIENT_WINDOW), now)
    case Report(now, _, o) => Digest(k, now, o)
    case Snapshot(now) => Settle(Refresh(k, now), now, CLIENT_WINDOW)
  }

  lemma SoleLease(k: Key, now: Time, window: nat)
    requires FreeAt(k, now, window)
    ensures TryAcquire([k], now, window, []) == ([Reserve(Settle(Refresh(k, now), now, window), now)], Leased(0))
  {
    assert InPlay([k], now, [], 0);
    ReplyIffEntitled([k], now, window, [], Leased(0));
    KeyAfterAcquire([k], now, window, [], 0);
    var after := TryAcquire([k], now, window, []).0;
    assert after == [after[0]];
  }

  /** The step can be taken on the only key: it is free when it is asked for. */
  predicate Ready(k: Key, e: Event) {
    && (e.Acquire? ==> e.exclude == [] && FreeAt(k, e.now, CLIENT_WINDOW))
    && (e.Report? ==> e.idx == 0)
  }

  /** A run of a pool of one key, one step further. */
  lemma SoleRun(k: Key, es: seq<Event>, before: Key, e: Event)
    requires Run([k], CLIENT_WINDOW, es) == [before] && Ready(before, e)
    ensures Run([k], CLIENT_WINDOW, es + [e]) == [SoleStep(before, e)]
    ensures e.Acquire? ==> TryAcquire([before], e.now, CLIENT_WINDOW, []).1 == Leased(0)
  {
    RunStep([k], CLIENT_WINDOW, es, e);
    if e.Acquire? {
      SoleLease(before, e.now, CLIENT_WINDOW);
    }
  }

  /** A run of a pool of one key, two steps further. */
  lemma SoleRun2(k: Key, es: seq<Event>, before: Key, between: Key, e: Event, f: Event)
    requires Run([k], CLIENT_WINDOW, es) == [before] && Ready(before, e)
    requires between == SoleStep(before, e) && Ready(between, f)
    ensures Run([k], CLIENT_WINDOW, es + [e, f]) == [SoleStep(between, f)]
  {
    SoleRun(k, es, before, e);
    SoleRun(k, es + [e], between, f);
    assert es + [e] + [f] == es + [e, f];
  }

  /** The first two steps. */
  lemma SoleStart(k: Key, between: Key, e: Event, f: Event)
    requires Ready(k, e) && between == SoleStep(k, e) && Ready(between, f)
    ensures Run([k], CLIENT_WINDOW, [e, f]) == [SoleStep(between, f)]
  {
    SoleRun2(k, [], k, between, e, f);
    assert [] + [e, f] == [e, f];
  }

  lemma NewSole(defaultRps: U32, cap: Option<U64>)
    ensures NewPool(defaultRps, [cap]) == [NewKey(defaultRps, cap)]
  {
  }

  // ----- a monthly park is cut short ---------------------------------------------------------------------

  /** A success that reports the quota spent for an hour. */
  const LAST_SUCCESS: Outcome := Response(200, MonthNews(None, Some(0), Some(3600)))

  const SPENT_RUN := [Acquire(0, []), Acquire(0, []), Report(Seconds(1), 0, LAST_SUCCESS)]

  lemma LeasedTwice(k: Key)
    requires k == NewKey(2, None)
    ensures Ready(k, Acquire(0, [])) && SoleStep(k, Acquire(0, [])) == Reserve(k, 0)
    ensures Ready(Reserve(k, 0), Acquire(0, [])) && SoleStep(Reserve(k, 0), Acquire(0, [])) == Reserve(Reserve(k, 0), 0)
  {
    assert Prune([0], 0, CLIENT_WINDOW) == [0];
  }

  lemma SpentParks(k: Key)
    requires k == NewKey(2, None)
    ensures var spent := Digest(Reserve(Reserve(k, 0), 0), Seconds(1), LAST_SUCCESS);
            spent.health == Exhausted(Seconds(3601)) && spent.disableStrikes == 0
  {
    DigestPark(Reserve(Reserve(k, 0), 0), Seconds(1), LAST_SUCCESS);
  }

  lemma SpentRun(k: Key, spent: Key)
    requires k == NewKey(2, None)
    requires spent == Digest(Reserve(Reserve(k, 0), 0), Seconds(1), LAST_SUCCESS)
    ensures Run([k], CLIENT_WINDOW, SPENT_RUN) == [spent]
  {
    LeasedTwice(k);
    var lease, answer := Acquire(0, []), Report(Seconds(1), 0, LAST_SUCCESS);
    SoleStart(k, Reserve(k, 0), lease, lease);
    SoleRun(k, [lease, lease], Reserve(Reserve(k, 0), 0), answer);
    assert SPENT_RUN == [lease, lease] + [answer];
  }

  /**
   A key leased twice whose first answer spends the month for an hour is parked for that hour. A 401
   to its second request turns the park into one of five minutes.
   */
  lemma LateRejectionCutsPark()
    ensures var pool := NewPool(2, [None]);
            var late := Report(Seconds(2), 0, Response(401, None));
            && Run(pool, CLIENT_WINDOW, SPENT_RUN)[0].health == Exhausted(Seconds(3601))
            && Run(pool, CLIENT_WINDOW, SPENT_RUN + [late])[0].health == Disabled(Seconds(302))
  {
    var k := NewKey(2, None);
    NewSole(2, None);
    var spent := Digest(Reserve(Reserve(k, 0), 0), Seconds(1), LAST_SUCCESS);
    SpentRun(k, spent);
    SpentParks(k);
    SoleRun(k, SPENT_RUN, spent, Report(Seconds(2), 0, Response(401, None)));
    DigestPark(spent, Seconds(2), Response(401, None));
    assert Doubled(AUTH_BACKOFF_BASE, 0) == Seconds(300);
  }

  // ----- two live probes -----------------------------------------------------------------------------------

  const REJECTED_RUN := [Acquire(0, []), Report(Millis(300), 0, Response(401, None))]

  predicate AboutToProbe(k: Key, sends: seq<Time>, until: Time) {
    k.health == Disabled(until) && k.holdUntil == None && k.sends == sends && k.Limit() == 1
  }

  lemma RejectedRun(k: Key) returns (parked: Key)
    requires k == NewKey(1, None)
    ensures Run([k], CLIENT_WINDOW, REJECTED_RUN) == [parked] && AboutToProbe(parked, [0], Millis(300300))
  {
    var lease, answer := Acquire(0, []), Report(Millis(300), 0, Response(401, None));
    assert SoleStep(k, lease) == Reserve(k, 0);
    SoleStart(k, Reserve(k, 0), lease, answer);
    assert Doubled(AUTH_BACKOFF_BASE, 0) == Seconds(300);
    parked := SoleStep(Reserve(k, 0), answer);
  }

  lemma ProbedTwice(k: Key, t: Time, u: Time)
    requires AboutToProbe(k, [0], t) && CLIENT_WINDOW <= t && t + CLIENT_WINDOW <= u
    ensures FreeAt(k, t, CLIENT_WINDOW) && FreeAt(SoleStep(k, Acquire(t, [])), u, CLIENT_WINDOW)
  {
    assert Prune([0], t, CLIENT_WINDOW) == [];
    assert SoleStep(k, Acquire(t, [])).sends == [t];
    assert Prune([t], u, CLIENT_WINDOW) == [];
  }

  /**
   A key with a limit of one is rejected, parked for five minutes and probed. One window later it is
   probed again, although nothing has been heard of the first probe.
   */
  lemma TwoLiveProbes()
    ensures var pool := NewPool(1, [None]);
            var probe := Acquire(Millis(300300), []);
            && TryAcquire(Run(pool, CLIENT_WINDOW, REJECTED_RUN), probe.now, CLIENT_WINDOW, []).1 == Leased(0)
            && TryAcquire(Run(pool, CLIENT_WINDOW, REJECTED_RUN + [probe]), Millis(301400), CLIENT_WINDOW, []).1 == Leased(0)
  {
    var k := NewKey(1, None);
    NewSole(1, None);
    var parked := RejectedRun(k);
    var probe := Acquire(Millis(300300), []);
    ProbedTwice(parked, Millis(300300), Millis(301400));
    SoleRun(k, REJECTED_RUN, parked, probe);
    SoleLease(SoleStep(parked, probe), Millis(301400), CLIENT_WINDOW);
  }

  const LATE_SUCCESS: Outcome :=
    Response(200, Some(RateLimitInfo(Windows(Some(20), None), UNKNOWN, UNKNOWN, UNKNOWN, None)))

  const REJECTED_LATER := [Acquire(0, []), Acquire(Seconds(2), []), Report(Seconds(3), 0, Response(401, None))]

  lemma TwoTurns(k: Key) returns (once: Key, twice: Key)
    requires k == NewKey(1, None)
    ensures once == SoleStep(k, Acquire(0, [])) && Ready(k, Acquire(0, []))
    ensures twice == SoleStep(once, Acquire(Seconds(2), [])) && Ready(once, Acquire(Seconds(2), []))
    ensures twice == k.(sends := [Seconds(2)], lastUsed := Some(Seconds(2)), stats := NO_STATS.(requests := 2))
  {
    once := SoleStep(k, Acquire(0, []));
    assert once == Reserve(k, 0) && once.sends == [0];
    assert [0][1..] == [] && Prune([], Seconds(2), CLIENT_WINDOW) == [];
    assert Prune([0], Seconds(2), CLIENT_WINDOW) == [];
    twice := SoleStep(once, Acquire(Seconds(2), []));
  }

  lemma RejectedLater(k: Key) returns (parked: Key)
    requires k == NewKey(1, None)
    ensures Run([k], CLIENT_WINDOW, REJECTED_LATER) == [parked]
    ensures AboutToProbe(parked, [Seconds(2)], Seconds(303)) && parked.cap == None
  {
    var first, second, answer := Acquire(0, []), Acquire(Seconds(2), []), Report(Seconds(3), 0, Response(401, None));
    var once, twice := TwoTurns(k);
    SoleStart(k, once, first, second);
    SoleRun(k, [first, second], twice, answer);
    assert REJECTED_LATER == [first, second] + [answer];
    parked := SoleStep(twice, answer);
    assert Doubled(AUTH_BACKOFF_BASE, 0) == Seconds(300);
  }

  lemma Probed(k: Key, t: Time)
    requires AboutToProbe(k, [Seconds(2)], t) && k.cap == None && Seconds(2) + CLIENT_WINDOW <= t
    ensures FreeAt(k, t, CLIENT_WINDOW)
    ensures var probed := SoleStep(k, Acquire(t, []));
            probed.health == Ok && probed.sends == [t] && probed.holdUntil == None && probed.cap == None
  {
    assert Prune([Seconds(2)], t, CLIENT_WINDOW) == [];
  }

  lemma LateSuccessTeaches(k: Key, u: Time)
    requires k.health == Ok && k.holdUntil == None && k.cap == None
    ensures var taught := Digest(k, u, LATE_SUCCESS);
            taught.health == Ok && taught.holdUntil == None && taught.sends == k.sends && taught.Limit() == 20
  {
  }

  lemma LateSuccessMakesRoom(k: Key, t: Time, u: Time)
    requires AboutToProbe(k, [Seconds(2)], t) && k.cap == None && Seconds(2) + CLIENT_WINDOW <= t <= u
    ensures FreeAt(k, t, CLIENT_WINDOW)
    ensures FreeAt(Digest(SoleStep(k, Acquire(t, [])), u, LATE_SUCCESS), u, CLIENT_WINDOW)
  {
    Probed(k, t);
    LateSuccessTeaches(SoleStep(k, Acquire(t, [])), u);
    assert [t][1..] == [] && Prune([], u, CLIENT_WINDOW) == [];
    assert |Prune([t], u, CLIENT_WINDOW)| <= 1;
  }

  /**
   A key with a limit of one is probed after a rejection while an older request of it is still open.
   Its late answer reports a larger rate, and the key is leased again at once, the probe unanswered.
   */
  lemma LateAnswerRaisesLimit()
    ensures var pool := NewPool(1, [None]);
            var probe, late := Acquire(Seconds(303), []), Report(Millis(303100), 0, LATE_SUCCESS);
            && TryAcquire(Run(pool, CLIENT_WINDOW, REJECTED_LATER), Seconds(303), CLIENT_WINDOW, []).1 == Leased(0)
            && TryAcquire(Run(pool, CLIENT_WINDOW, REJECTED_LATER + [probe, late]), Millis(303100), CLIENT_WINDOW, []).1 ==
               Leased(0)
  {
    var k := NewKey(1, None);
    NewSole(1, None);
    var probe, late := Acquire(Seconds(303), []), Report(Millis(303100), 0, LATE_SUCCESS);
    var parked := RejectedLater(k);
    LateSuccessMakesRoom(parked, Seconds(303), Millis(303100));
    SoleRun(k, REJECTED_LATER, parked, probe);
    var probed := SoleStep(parked, probe);
    SoleRun2(k, REJECTED_LATER, parked, probed, probe, late);
    SoleLease(SoleStep(probed, late), Millis(303100), CLIENT_WINDOW);
  }

  // ----- a cap of two ----------------------------------------------------------------------------------------

  const PLAIN_SUCCESS: Outcome := Response(200, None)

  const CAP_RUN := [Acquire(0, []), Report(0, 0, PLAIN_SUCCESS), Acquire(Seconds(2), []), Report(Seconds(2), 0, PLAIN_SUCCESS)]

  const CAP_EXPIRY: Time := Seconds(2592002)

  /** The parts of a key that decide about the cap. */
  predicate Capped(k: Key, ok: nat, until: Time) {
    && k.health == Exhausted(until) && k.holdUntil == None && k.stats.ok == ok
    && |k.sends| == 1 && k.sends[0] + CLIENT_WINDOW <= until && k.cap == Some(2) && k.Limit() == 1
  }

  /** The parts of a key that has answered once. */
  predicate Once(k: Key) {
    k.health == Ok && k.holdUntil == None && k.stats.ok == 1 && k.sends == [0] && k.cap == Some(2) && k.Limit() == 1
  }

  lemma FirstSuccess(k: Key) returns (once: Key)
    requires k == NewKey(1, Some(2))
    ensures Run([k], CLIENT_WINDOW, [Acquire(0, []), Report(0, 0, PLAIN_SUCCESS)]) == [once] && Once(once)
  {
    var lease, answer := Acquire(0, []), Report(0, 0, PLAIN_SUCCESS);
    SoleStart(k, SoleStep(k, lease), lease, answer);
    once := SoleStep(SoleStep(k, lease), answer);
  }

  lemma SecondSuccess(once: Key)
    requires Once(once)
    ensures Ready(once, Acquire(Seconds(2), []))
    ensures Capped(Digest(SoleStep(once, Acquire(Seconds(2), [])), Seconds(2), PLAIN_SUCCESS), 2, CAP_EXPIRY)
  {
    assert Prune([0], Seconds(2), CLIENT_WINDOW) == [];
    var leased := SoleStep(once, Acquire(Seconds(2), []));
    assert leased.sends == [Seconds(2)];
    DigestPark(leased, Seconds(2), PLAIN_SUCCESS);
  }

  lemma CapRun(k: Key) returns (spent: Key)
    requires k == NewKey(1, Some(2))
    ensures Run([k], CLIENT_WINDOW, CAP_RUN) == [spent] && Capped(spent, 2, CAP_EXPIRY)
  {
    var es := [Acquire(0, []), Report(0, 0, PLAIN_SUCCESS)];
    var lease, answer := Acquire(Seconds(2), []), Report(Seconds(2), 0, PLAIN_SUCCESS);
    var once := FirstSuccess(k);
    SecondSuccess(once);
    SoleRun2(k, es, once, SoleStep(once, lease), lease, answer);
    spent := SoleStep(SoleStep(once, lease), answer);
    assert CAP_RUN == es + [lease, answer];
  }

  /** A capped key answers once and is parked again. */
  lemma OneMoreSuccess(k: Key, t: Time) returns (after: Key)
    requires Capped(k, 2, t)
    ensures FreeAt(k, t, CLIENT_WINDOW)
    ensures after == SoleStep(SoleStep(k, Acquire(t, [])), Report(t, 0, PLAIN_SUCCESS))
    ensures after.health == Exhausted(t + OVERRIDE_CAP_FALLBACK) && after.stats.ok == 3
  {
    assert Prune(k.sends, t, CLIENT_WINDOW) == [];
    var leased := SoleStep(k, Acquire(t, []));
    DigestPark(leased, t, PLAIN_SUCCESS);
    after := Digest(leased, t, PLAIN_SUCCESS);
  }

  /** A key capped at two successes a month gets two in its first month and one in its second. */
  lemma SecondMonthHoldsOne()
    ensures var pool := NewPool(1, [Some(2)]);
            var more := [Acquire(CAP_EXPIRY, []), Report(CAP_EXPIRY, 0, PLAIN_SUCCESS)];
            && Run(pool, CLIENT_WINDOW, CAP_RUN)[0].health == Exhausted(CAP_EXPIRY)
            && TryAcquire(Run(pool, CLIENT_WINDOW, CAP_RUN), CAP_EXPIRY, CLIENT_WINDOW, []).1 == Leased(0)
            && Run(pool, CLIENT_WINDOW, CAP_RUN + more)[0].health == Exhausted(CAP_EXPIRY + Seconds(2592000))
  {
    var k := NewKey(1, Some(2));
    NewSole(1, Some(2));
    var spent := CapRun(k);
    var after := OneMoreSuccess(spent, CAP_EXPIRY);
    var lease, answer := Acquire(CAP_EXPIRY, []), Report(CAP_EXPIRY, 0, PLAIN_SUCCESS);
    SoleRun(k, CAP_RUN, spent, lease);
    SoleRun2(k, CAP_RUN, spent, SoleStep(spent, lease), lease, answer);
  }

  // ----- a long reset --------------------------------------------------------------------------------------

  /** A 429 that asks for an hour. */
  const SLOW_DOWN: Outcome := Response(429, Some(RateLimitInfo(UNKNOWN, UNKNOWN, Windows(Some(3600), None), UNKNOWN, None)))

  /** A key told to wait for an hour is leased again after a minute. */
  lemma LongResetIsCut()
    ensures var held := Run(NewPool(1, [None]), CLIENT_WINDOW, [Acquire(0, []), Report(Millis(300), 0, SLOW_DOWN)]);
            TryAcquire(held, Millis(60300), CLIENT_WINDOW, []).1 == Leased(0)
  {
    var k := NewKey(1, None);
    NewSole(1, None);
    var lease, answer := Acquire(0, []), Report(Millis(300), 0, SLOW_DOWN);
    var leased := SoleStep(k, lease);
    SoleStart(k, leased, lease, answer);
    var held := SoleStep(leased, answer);
    assert held.health == Ok && held.holdUntil == Some(Millis(60300)) && held.sends == [0];
    assert Prune([0], Millis(60300), CLIENT_WINDOW) == [];
    SoleLease(held, Millis(60300), CLIENT_WINDOW);
  }

  /** A 429 that asks for the given number of seconds. */
  function Asks(seconds: U64): Outcome {
    Response(429, Some(RateLimitInfo(UNKNOWN, UNKNOWN, Windows(Some(seconds), None), UNKNOWN, None)))
  }

  lemma HeldTwice(k: Key) returns (held: Key, cut: Key)
    requires k == NewKey(2, None)
    ensures held == Digest(Reserve(Reserve(k, 0), 0), Millis(300), Asks(60)) && held.holdUntil == Some(Millis(60300))
    ensures cut == Digest(held, Millis(500), Asks(1)) && FreeAt(cut, Millis(1500), CLIENT_WINDOW)
  {
    held := Digest(Reserve(Reserve(k, 0), 0), Millis(300), Asks(60));
    cut := Digest(held, Millis(500), Asks(1));
    assert cut.health == Ok && cut.holdUntil == Some(Millis(1500)) && cut.sends == [0, 0];
    assert [0, 0][1..] == [0] && [0][1..] == [];
  }

  /**
   A key leased twice is told to wait for a minute, and a moment later, by the answer to its other
   request, for a second. It is leased again after that second.
   */
  lemma LaterThrottleCutsHold()
    ensures var pool := NewPool(2, [None]);
            var es := [Acquire(0, []), Acquire(0, []), Report(Millis(300), 0, Asks(60))];
            var later := Report(Millis(500), 0, Asks(1));
            && Run(pool, CLIENT_WINDOW, es)[0].holdUntil == Some(Millis(60300))
            && TryAcquire(Run(pool, CLIENT_WINDOW, es + [later]), Millis(1500), CLIENT_WINDOW, []).1 == Leased(0)
  {
    var k := NewKey(2, None);
    NewSole(2, None);
    LeasedTwice(k);
    var lease, first, later := Acquire(0, []), Report(Millis(300), 0, Asks(60)), Report(Millis(500), 0, Asks(1));
    var held, cut := HeldTwice(k);
    SoleStart(k, Reserve(k, 0), lease, lease);
    SoleRun(k, [lease, lease], Reserve(Reserve(k, 0), 0), first);
    assert [lease, lease] + [first] == [lease, lease, first];
    SoleRun(k, [lease, lease, first], held, later);
    SoleLease(cut, Millis(1500), CLIENT_WINDOW);
  }

  /** The headers of a 429 that carries a retry time and nothing else. */
  const RETRY_AFTER_30 := Headers(None, None, None, None, Some(Decimal(30)))

  lemma RetryAfterIsGiven()
    ensures Given(RETRY_AFTER_30) == Some(30) && FromHeaders(RETRY_AFTER_30) == None
  {
    ParseDecimal(30);
    DecimalIsPlain(30);
    assert "" + Decimal(30) + "" == Decimal(30);
    TrimWord("", Decimal(30), "");
  }

  /** A key told by nothing but a retry header to wait for thirty seconds is leased again after two. */
  lemma RetryAfterAloneIsIgnored()
    ensures Given(RETRY_AFTER_30) == Some(30)
    ensures var answer := Report(Millis(300), 0, Heard429(RETRY_AFTER_30));
            var held := Run(NewPool(1, [None]), CLIENT_WINDOW, [Acquire(0, []), answer]);
            TryAcquire(held, Millis(2300), CLIENT_WINDOW, []).1 == Leased(0)
  {
    RetryAfterIsGiven();
    var k := NewKey(1, None);
    NewSole(1, None);
    var held := BriefHold(k);
    SoleLease(held, Millis(2300), CLIENT_WINDOW);
  }

  lemma BriefHold(k: Key) returns (held: Key)
    requires k == NewKey(1, None)
    ensures Run([k], CLIENT_WINDOW, [Acquire(0, []), Report(Millis(300), 0, Response(429, None))]) == [held]
    ensures FreeAt(held, Millis(2300), CLIENT_WINDOW)
  {
    var lease, answer := Acquire(0, []), Report(Millis(300), 0, Response(429, None));
    SoleStart(k, SoleStep(k, lease), lease, answer);
    held := SoleStep(SoleStep(k, lease), answer);
    assert held.health == Ok && held.holdUntil == Some(Millis(2300)) && held.sends == [0];
    assert Prune([0], Millis(2300), CLIENT_WINDOW) == [];
  }

  // ----- failures with something in between ---------------------------------------------------------------

  /** One request: leased at `t`, answered a second later. */
  function Exchange(t: Time, status: nat): seq<Event> {
    [Acquire(t, []), Report(t + Seconds(1), 0, Response(status, None))]
  }

  /** A key that may be leased again from `free` on, with what it counts; its last send was made at `last`. */
  predicate Failing(k: Key, failures: nat, strikes: nat, last: Time, free: Time) {
    && !k.health.Exhausted? && ParkEnd(k.health) <= free && k.holdUntil == None && k.sends == [last] && k.Limit() == 1
    && k.consecutiveFailures == failures && k.disableStrikes == strikes
  }

  /** How long the next disable by failures parks a key that was disabled `strikes` times before. */
  function FailurePark(strikes: nat): nat {
    ParkTime(strikes + 1, FAIL_BACKOFF_BASE, FAIL_BACKOFF_MAX)
  }

  /** A free key after one request. */
  function AfterExchange(k: Key, t: Time, status: nat): Key {
    Digest(SoleStep(k, Acquire(t, [])), t + Seconds(1), Response(status, None))
  }

  lemma FailingStep(before: Key, failures: nat, strikes: nat, last: Time, t: Time, status: nat)
    requires Failing(before, failures, strikes, last, t) && failures <= 2 && strikes < U32_MAX
    requires last + CLIENT_WINDOW <= t && (status == 500 || status == 404)
    ensures FreeAt(before, t, CLIENT_WINDOW)
    ensures var after := AfterExchange(before, t, status);
            if status == 500 && failures == 2 then after.health == Disabled(t + Seconds(1) + FailurePark(strikes))
            else Failing(after, if status == 500 then failures + 1 else failures, strikes, t, t)
  {
    assert Prune(before.sends, t, CLIENT_WINDOW) == [];
    assert SoleStep(before, Acquire(t, [])).sends == [t];
  }

  lemma ExchangeRun(k: Key, es: seq<Event>, before: Key, t: Time, status: nat)
    requires Run([k], CLIENT_WINDOW, es) == [before] && FreeAt(before, t, CLIENT_WINDOW)
    ensures Run([k], CLIENT_WINDOW, es + Exchange(t, status)) == [AfterExchange(before, t, status)]
  {
    var lease, answer := Acquire(t, []), Report(t + Seconds(1), 0, Response(status, None));
    SoleRun2(k, es, before, SoleStep(before, lease), lease, answer);
  }

  lemma FirstExchange(k: Key, status: nat) returns (after: Key)
    requires k == NewKey(1, None) && (status == 500 || status == 401)
    ensures Run([k], CLIENT_WINDOW, Exchange(0, status)) == [after]
    ensures if status == 500 then Failing(after, 1, 0, 0, 0) else Failing(after, 0, 1, 0, Seconds(301))
  {
    var lease, answer := Acquire(0, []), Report(Seconds(1), 0, Response(status, None));
    SoleStart(k, SoleStep(k, lease), lease, answer);
    after := AfterExchange(k, 0, status);
    assert Doubled(AUTH_BACKOFF_BASE, 0) == Seconds(300);
  }

  lemma FailingLater(k: Key, failures: nat, strikes: nat, last: Time, free: Time, later: Time)
    requires Failing(k, failures, strikes, last, free) && free <= later
    ensures Failing(k, failures, strikes, last, later)
  {
  }

  lemma FailureParks()
    ensures FailurePark(0) == Seconds(30) && FailurePark(1) == Seconds(60)
  {
    assert Doubled(FAIL_BACKOFF_BASE, 0) == Seconds(30);
    assert Doubled(FAIL_BACKOFF_BASE, 1) == Seconds(60);
  }

  /** One more request of a failing key. */
  lemma FailingRun(k: Key, es: seq<Event>, before: Key, failures: nat, strikes: nat, last: Time, free: Time, t: Time,
                   status: nat) returns (after: Key)
    requires Run([k], CLIENT_WINDOW, es) == [before] && Failing(before, failures, strikes, last, free)
    requires failures <= 2 && strikes < U32_MAX && free <= t
    requires last + CLIENT_WINDOW <= t && (status == 500 || status == 404)
    ensures Run([k], CLIENT_WINDOW, es + Exchange(t, status)) == [after]
    ensures if status == 500 && failures == 2 then after.health == Disabled(t + Seconds(1) + FailurePark(strikes))
            else Failing(after, if status == 500 then failures + 1 else failures, strikes, t, t)
  {
    after := AfterExchange(before, t, status);
    FailingLater(before, failures, strikes, last, free, t);
    FailingStep(before, failures, strikes, last, t, status);
    ExchangeRun(k, es, before, t, status);
  }

  const INTERRUPTED := Exchange(0, 500) + Exchange(Seconds(2), 404) + Exchange(Seconds(4), 500) + Exchange(Seconds(6), 500)

  lemma InterruptedHalf(k: Key) returns (second: Key)
    requires k == NewKey(1, None)
    ensures Run([k], CLIENT_WINDOW, Exchange(0, 500) + Exchange(Seconds(2), 404)) == [second]
    ensures Failing(second, 1, 0, Seconds(2), Seconds(2))
  {
    var first := FirstExchange(k, 500);
    second := FailingRun(k, Exchange(0, 500), first, 1, 0, 0, 0, Seconds(2), 404);
  }

  /** The answers 500, 404, 500, 500 disable a key, although only two failures come in a row. */
  lemma InterruptedFailuresDisable()
    ensures Run(NewPool(1, [None]), CLIENT_WINDOW, INTERRUPTED)[0].health == Disabled(Seconds(37))
  {
    var k := NewKey(1, None);
    NewSole(1, None);
    FailureParks();
    var second := InterruptedHalf(k);
    LastFailures(k, Exchange(0, 500) + Exchange(Seconds(2), 404), second, 0, Seconds(2), Seconds(4), Seconds(6));
  }

  /** Two more failures after the first one disable the key. */
  lemma LastFailures(k: Key, es: seq<Event>, before: Key, strikes: nat, last: Time, t: Time, u: Time)
    requires Run([k], CLIENT_WINDOW, es) == [before] && Failing(before, 1, strikes, last, last) && strikes < U32_MAX
    requires last + CLIENT_WINDOW <= t && t + CLIENT_WINDOW <= u
    ensures var after := Run([k], CLIENT_WINDOW, es + Exchange(t, 500) + Exchange(u, 500));
            |after| == 1 && after[0].health == Disabled(u + Seconds(1) + FailurePark(strikes))
  {
    var third := FailingRun(k, es, before, 1, strikes, last, last, t, 500);
    var fourth := FailingRun(k, es + Exchange(t, 500), third, 2, strikes, t, t, u, 500);
  }

  const REJECTED_FIRST := Exchange(0, 401) + Exchange(Seconds(301), 500) + Exchange(Seconds(303), 500) + Exchange(Seconds(305), 500)

  /** After a 401 the first three failures park a key for a minute, not for half of one. */
  lemma RejectionDoublesFailurePark()
    ensures Run(NewPool(1, [None]), CLIENT_WINDOW, REJECTED_FIRST)[0].health == Disabled(Seconds(306 + 60))
  {
    var k := NewKey(1, None);
    NewSole(1, None);
    FailureParks();
    var first := FirstExchange(k, 401);
    var second := FailingRun(k, Exchange(0, 401), first, 0, 1, 0, Seconds(301), Seconds(301), 500);
    LastFailures(k, Exchange(0, 401) + Exchange(Seconds(301), 500), second, 1, Seconds(301), Seconds(303), Seconds(305));
  }

  // ----- an unlimited plan -----------------------------------------------------------------------------------

  const UNLIMITED: Outcome := Response(200, MonthNews(Some(0), Some(0), None))
  const LIMIT_MISSING: Outcome := Response(200, MonthNews(None, Some(0), None))

  lemma UnlimitedKey(k: Key) returns (learned: Key)
    requires k == NewKey(1, None)
    ensures Run([k], CLIENT_WINDOW, [Acquire(0, []), Report(Seconds(1), 0, UNLIMITED)]) == [learned]
    ensures learned.health == Ok && learned.holdUntil == None && learned.cap == None && learned.MonthUnlimited()
    ensures learned.sends == [0]
  {
    var lease, first := Acquire(0, []), Report(Seconds(1), 0, UNLIMITED);
    SoleStart(k, SoleStep(k, lease), lease, first);
    learned := SoleStep(SoleStep(k, lease), first);
  }

  lemma UnlimitedStep(k: Key, t: Time, u: Time)
    requires k.health == Ok && k.holdUntil == None && k.cap == None && k.MonthUnlimited()
    requires k.sends == [0] && CLIENT_WINDOW <= t
    ensures FreeAt(k, t, CLIENT_WINDOW)
    ensures var leased := SoleStep(k, Acquire(t, []));
            leased.MonthUnlimited() && Digest(leased, u, LIMIT_MISSING).MonthUnlimited() &&
            Digest(leased, u, LIMIT_MISSING).health == Exhausted(u + EXHAUSTED_FALLBACK)
  {
    assert Prune([0], t, CLIENT_WINDOW) == [];
    DigestPark(SoleStep(k, Acquire(t, [])), u, LIMIT_MISSING);
  }

  /**
   A key whose plan is known to have no monthly cap is parked for six hours by an answer that leaves
   out the limit and reports nothing remaining.
   */
  lemma UnlimitedIsExhausted()
    ensures var pool := NewPool(1, [None]);
            var es := [Acquire(0, []), Report(Seconds(1), 0, UNLIMITED), Acquire(Seconds(2), [])];
            var k := Run(pool, CLIENT_WINDOW, es)[0];
            var k1 := Run(pool, CLIENT_WINDOW, es + [Report(Seconds(3), 0, LIMIT_MISSING)])[0];
            k.MonthUnlimited() && k1.MonthUnlimited() && k1.health == Exhausted(Seconds(3 + 6 * 3600))
  {
    var k := NewKey(1, None);
    NewSole(1, None);
    var es := [Acquire(0, []), Report(Seconds(1), 0, UNLIMITED)];
    var learned := UnlimitedKey(k);
    UnlimitedStep(learned, Seconds(2), Seconds(3));
    SoleRun(k, es, learned, Acquire(Seconds(2), []));
    SoleRun(k, es + [Acquire(Seconds(2), [])], SoleStep(learned, Acquire(Seconds(2), [])), Report(Seconds(3), 0, LIMIT_MISSING));
    assert es + [Acquire(Seconds(2), [])] == [Acquire(0, []), Report(Seconds(1), 0, UNLIMITED), Acquire(Seconds(2), [])];
  }

  // ----- a snapshot that is noticed --------------------------------------------------------------------------

  function Look(k: Key, now: Time): Key {
    Settle(Refresh(k, now), now, CLIENT_WINDOW)
  }

  /** Of two free keys, key `i` is the one to be leased. */
  predicate Wins(a: Key, b: Key, now: Time, i: nat) {
    FreeAt(a, now, CLIENT_WINDOW) && FreeAt(b, now, CLIENT_WINDOW) &&
    if i == 0 then RanksBefore(Refresh(a, now), 0, Refresh(b, now), 1)
    else RanksBefore(Refresh(b, now), 1, Refresh(a, now), 0)
  }

  /** What a step makes of a pool of two keys, if key `winner` is to be leased when asked for. */
  function PairStep(a: Key, b: Key, e: Event, winner: nat): Keys {
    match e
    case Acquire(now, _) =>
      [if winner == 0 then Reserve(Look(a, now), now) else Look(a, now),
       if winner == 1 then Reserve(Look(b, now), now) else Look(b, now)]
    case Report(now, idx, o) => if idx == 0 then [Digest(a, now, o), b] else [a, Digest(b, now, o)]
    case Snapshot(now) => [Look(a, now), Look(b, now)]
  }

  lemma PairLease(a: Key, b: Key, now: Time, i: nat)
    requires i < 2 && Wins(a, b, now, i)
    ensures TryAcquire([a, b], now, CLIENT_WINDOW, []).1 == Leased(i)
    ensures TryAcquire([a, b], now, CLIENT_WINDOW, []).0 == PairStep(a, b, Acquire(now, []), i)
  {
    var ks := [a, b];
    assert InPlay(ks, now, [], 0) && InPlay(ks, now, [], 1);
    ReplyIffEntitled(ks, now, CLIENT_WINDOW, [], Leased(i));
    KeyAfterAcquire(ks, now, CLIENT_WINDOW, [], 0);
    KeyAfterAcquire(ks, now, CLIENT_WINDOW, [], 1);
    var after := TryAcquire(ks, now, CLIENT_WINDOW, []).0;
    assert after == [after[0], after[1]];
  }

  lemma PairRun(start: Keys, es: seq<Event>, a: Key, b: Key, e: Event, winner: nat)
    requires Run(start, CLIENT_WINDOW, es) == [a, b]
    requires e.Acquire? ==> e.exclude == [] && winner < 2 && Wins(a, b, e.now, winner)
    requires e.Report? ==> e.idx < 2
    ensures Run(start, CLIENT_WINDOW, es + [e]) == PairStep(a, b, e, winner)
  {
    RunStep(start, CLIENT_WINDOW, es, e);
    match e
    case Acquire(now, _) => PairLease(a, b, now, winner);
    case Report(now, idx, o) => assert [a, b][idx := Digest([a, b][idx], now, o)] == PairStep(a, b, e, winner);
    case Snapshot(now) => assert Observe([a, b], now, CLIENT_WINDOW) == PairStep(a, b, e, winner);
  }

  /** An unheld key of a limited plan, used at 0. */
  predicate Used(k: Key, health: Health, remaining: Option<U64>, sends: seq<Time>) {
    && k.health == health && k.monthRemaining == remaining && k.sends == sends
    && k.lastUsed == Some(0) && k.holdUntil == None && k.cap == None && k.monthLimit != Some(0) && k.Limit() == 2
    && k.consecutiveFailures == 0
  }

  const SPENT_BRIEFLY: Outcome := Response(200, MonthNews(None, Some(0), Some(5)))
  const TEN_LEFT: Outcome := Response(200, MonthNews(Some(100), Some(10), None))
  const NINE_LEFT: Outcome := Response(404, MonthNews(None, Some(9), None))

  const LEASES := [Acquire(0, [])] + [Acquire(0, [])] + [Acquire(0, [])]
  const EARLY := LEASES + [Report(Seconds(1), 0, SPENT_BRIEFLY), Report(Seconds(1), 1, TEN_LEFT)]

  lemma FirstTurns(k: Key, once: Key)
    requires k == NewKey(2, None) && once == Reserve(k, 0)
    ensures Wins(k, k, 0, 0) && PairStep(k, k, Acquire(0, []), 0) == [once, k]
    ensures Wins(once, k, 0, 1) && PairStep(once, k, Acquire(0, []), 1) == [once, once]
    ensures Wins(once, once, 0, 0) && PairStep(once, once, Acquire(0, []), 0) == [Reserve(once, 0), once]
  {
    assert Prune([0], 0, CLIENT_WINDOW) == [0];
  }

  lemma ThirdTurn(start: Keys, k: Key, once: Key)
    requires k == NewKey(2, None) && once == Reserve(k, 0)
    requires Run(start, CLIENT_WINDOW, [Acquire(0, [])]) == [once, k]
    ensures Run(start, CLIENT_WINDOW, [Acquire(0, [])] + [Acquire(0, [])] + [Acquire(0, [])]) == [Reserve(once, 0), once]
  {
    FirstTurns(k, once);
    PairRun(start, [Acquire(0, [])], once, k, Acquire(0, []), 1);
    PairRun(start, [Acquire(0, [])] + [Acquire(0, [])], once, once, Acquire(0, []), 0);
  }

  lemma FirstTurn(k: Key)
    requires k == NewKey(2, None)
    ensures Run([k, k], CLIENT_WINDOW, [Acquire(0, [])]) == [Reserve(k, 0), k]
  {
    FirstTurns(k, Reserve(k, 0));
    PairRun([k, k], [], k, k, Acquire(0, []), 0);
    assert [] + [Acquire(0, [])] == [Acquire(0, [])];
  }

  lemma UsedAtZero(k: Key)
    requires k == NewKey(2, None)
    ensures Used(Reserve(k, 0), Ok, None, [0]) && Used(Reserve(Reserve(k, 0), 0), Ok, None, [0, 0])
  {
  }

  lemma LeasedPair(start: Keys, k: Key)
    requires k == NewKey(2, None) && start == [k, k]
    ensures Run(start, CLIENT_WINDOW, LEASES) == [Reserve(Reserve(k, 0), 0), Reserve(k, 0)]
  {
    FirstTurn(k);
    ThirdTurn(start, k, Reserve(k, 0));
  }

  lemma SpentAndLearned(a: Key, b: Key)
    requires Used(a, Ok, None, [0, 0]) && Used(b, Ok, None, [0])
    ensures Used(Digest(a, Seconds(1), SPENT_BRIEFLY), Exhausted(Seconds(6)), Some(0), [0, 0])
    ensures Used(Digest(b, Seconds(1), TEN_LEFT), Ok, Some(10), [0])
  {
  }

  lemma EarlyPair(start: Keys) returns (a: Key, b: Key)
    requires start == NewPool(2, [None, None])
    ensures Run(start, CLIENT_WINDOW, EARLY) == [a, b]
    ensures Used(a, Exhausted(Seconds(6)), Some(0), [0, 0]) && Used(b, Ok, Some(10), [0])
  {
    var k := NewKey(2, None);
    assert start == [k, k];
    LeasedPair(start, k);
    UsedAtZero(k);
    var a0, b0 := Reserve(Reserve(k, 0), 0), Reserve(k, 0);
    var first, second := Report(Seconds(1), 0, SPENT_BRIEFLY), Report(Seconds(1), 1, TEN_LEFT);
    SpentAndLearned(a0, b0);
    PairRun(start, LEASES, a0, b0, first, 0);
    PairRun(start, LEASES + [first], Digest(a0, Seconds(1), SPENT_BRIEFLY), b0, second, 0);
    a, b := Digest(a0, Seconds(1), SPENT_BRIEFLY), Digest(b0, Seconds(1), TEN_LEFT);
    assert EARLY == LEASES + [first] + [second];
  }

  lemma AllElapsed()
    ensures Prune([0, 0], Seconds(7), CLIENT_WINDOW) == [] && Prune([0, 0], Seconds(9), CLIENT_WINDOW) == []
    ensures Prune([0], Seconds(7), CLIENT_WINDOW) == [] && Prune([0], Seconds(9), CLIENT_WINDOW) == []
    ensures Prune([], Seconds(9), CLIENT_WINDOW) == []
  {
    assert [0, 0][1..] == [0] && [0][1..] == [];
  }

  /** Seen after its expiry, the park takes the spent quota with it before the late answer comes. */
  lemma LookedFirst(a: Key, b: Key)
    requires Used(a, Exhausted(Seconds(6)), Some(0), [0, 0]) && Used(b, Ok, Some(10), [0])
    ensures Used(Look(a, Seconds(7)), Ok, None, []) && Used(Look(b, Seconds(7)), Ok, Some(10), [])
  {
    AllElapsed();
  }

  lemma LateAnswerCounts(a: Key, b: Key)
    requires Used(a, Ok, None, []) && Used(b, Ok, Some(10), [])
    ensures Wins(Digest(a, Seconds(8), NINE_LEFT), b, Seconds(9), 1)
  {
    assert Used(Digest(a, Seconds(8), NINE_LEFT), Ok, Some(9), []);
  }

  /** Not seen, it takes with it what the late answer reported. */
  lemma NotLooked(a: Key, b: Key)
    requires Used(a, Exhausted(Seconds(6)), Some(0), [0, 0]) && Used(b, Ok, Some(10), [0])
    ensures Wins(Digest(a, Seconds(8), NINE_LEFT), b, Seconds(9), 0)
  {
    AllElapsed();
    var a1 := Digest(a, Seconds(8), NINE_LEFT);
    assert Used(a1, Exhausted(Seconds(6)), Some(9), [0, 0]);
  }

  const LOOK := Snapshot(Seconds(7))
  const LATE := Report(Seconds(8), 0, NINE_LEFT)

  lemma SeenPair(pool: Keys) returns (a: Key, b: Key)
    requires pool == NewPool(2, [None, None])
    ensures Run(pool, CLIENT_WINDOW, EARLY + [LOOK]) == [a, b]
    ensures Used(a, Ok, None, []) && Used(b, Ok, Some(10), [])
  {
    var a0, b0 := EarlyPair(pool);
    PairRun(pool, EARLY, a0, b0, LOOK, 0);
    LookedFirst(a0, b0);
    a, b := Look(a0, Seconds(7)), Look(b0, Seconds(7));
  }

  lemma SeenRun(pool: Keys)
    requires pool == NewPool(2, [None, None])
    ensures TryAcquire(Run(pool, CLIENT_WINDOW, EARLY + [LOOK, LATE]), Seconds(9), CLIENT_WINDOW, []).1 == Leased(1)
  {
    var a, b := SeenPair(pool);
    LateAnswerCounts(a, b);
    PairRun(pool, EARLY + [LOOK], a, b, LATE, 0);
    PairLease(Digest(a, Seconds(8), NINE_LEFT), b, Seconds(9), 1);
    assert EARLY + [LOOK] + [LATE] == EARLY + [LOOK, LATE];
  }

  lemma UnseenRun(pool: Keys)
    requires pool == NewPool(2, [None, None])
    ensures TryAcquire(Run(pool, CLIENT_WINDOW, EARLY + [LATE]), Seconds(9), CLIENT_WINDOW, []).1 == Leased(0)
  {
    var a, b := EarlyPair(pool);
    NotLooked(a, b);
    PairRun(pool, EARLY, a, b, LATE, 0);
    PairLease(Digest(a, Seconds(8), NINE_LEFT), b, Seconds(9), 0);
  }

  /** A run in which the next lease goes to another key because a snapshot was taken. */
  lemma LateResponseSeesSnapshot()
    ensures var pool := NewPool(2, [None, None]);
            TryAcquire(Run(pool, CLIENT_WINDOW, EARLY + [LOOK, LATE]), Seconds(9), CLIENT_WINDOW, []).1 == Leased(1) &&
            TryAcquire(Run(pool, CLIENT_WINDOW, EARLY + [LATE]), Seconds(9), CLIENT_WINDOW, []).1 == Leased(0)
  {
    SeenRun(NewPool(2, [None, None]));
    UnseenRun(NewPool(2, [None, None]));
  }

  // ----- caps decide ties --------------------------------------------------------------------------------

  /** Of two new keys with caps of ten and a thousand the second is leased first: it has more left. */
  lemma LargerCapGoesFirst()
    ensures TryAcquire(NewPool(1, [Some(10), Some(1000)]), 0, CLIENT_WINDOW, []).1 == Leased(1)
  {
    var a, b := NewKey(1, Some(10)), NewKey(1, Some(1000));
    assert NewPool(1, [Some(10), Some(1000)]) == [a, b];
    PairLease(a, b, 0, 1);
  }

  // ----- unexplained 429s ----------------------------------------------------------------------------------

  const UNEXPLAINED: Outcome := Response(429, None)

  /** A key with some 429s without headers behind it, free again from the given time on. */
  predicate Throttled429(k: Key, throttles: nat, free: Time) {
    && k.health == Ok && k.consecutive429 == throttles && k.disableStrikes == 0 && k.Limit() == 1
    && (k.holdUntil.Some? ==> k.holdUntil.value <= free) && Prune(k.sends, free, CLIENT_WINDOW) == []
  }

  /** One request: leased at `t`, answered a second later by a 429 without headers. */
  function ThrottledExchange(t: Time): seq<Event> {
    [Acquire(t, []), Report(t + Seconds(1), 0, UNEXPLAINED)]
  }

  const TWO_THROTTLED := ThrottledExchange(0) + ThrottledExchange(Seconds(4))
  const FOUR_THROTTLED := TWO_THROTTLED + ThrottledExchange(Seconds(8)) + ThrottledExchange(Seconds(12))

  lemma LeasedThrottled(k: Key, throttles: nat, t: Time)
    requires Throttled429(k, throttles, t)
    ensures FreeAt(k, t, CLIENT_WINDOW)
    ensures var leased := SoleStep(k, Acquire(t, []));
            && leased.health == Ok && leased.consecutive429 == throttles && leased.disableStrikes == 0
            && leased.Limit() == 1 && leased.sends == [t]
  {
  }

  lemma AnotherThrottle(k: Key, throttles: nat, t: Time, u: Time)
    requires k.health == Ok && k.consecutive429 == throttles && k.disableStrikes == 0 && k.Limit() == 1 && k.sends == [t]
    requires throttles < 5 && t <= u
    ensures var after := Digest(k, u, UNEXPLAINED);
            if throttles == 4 then after.health == Disabled(u + Seconds(300))
            else Throttled429(after, throttles + 1, u + Seconds(3))
  {
    assert Doubled(UNEXPLAINED_429_BACKOFF, 0) == Seconds(300);
    assert [t][1..] == [] && Prune([], u + Seconds(3), CLIENT_WINDOW) == [];
    assert Prune([t], u + Seconds(3), CLIENT_WINDOW) == [];
  }

  lemma ThrottledNext(k: Key, es: seq<Event>, before: Key, throttles: nat, t: Time) returns (after: Key)
    requires Run([k], CLIENT_WINDOW, es) == [before] && Throttled429(before, throttles, t) && throttles < 5
    ensures Run([k], CLIENT_WINDOW, es + ThrottledExchange(t)) == [after]
    ensures if throttles == 4 then after.health == Disabled(t + Seconds(301))
            else Throttled429(after, throttles + 1, t + Seconds(4))
  {
    var lease, answer := Acquire(t, []), Report(t + Seconds(1), 0, UNEXPLAINED);
    LeasedThrottled(before, throttles, t);
    var leased := SoleStep(before, lease);
    AnotherThrottle(leased, throttles, t, t + Seconds(1));
    SoleRun2(k, es, before, leased, lease, answer);
    after := SoleStep(leased, answer);
  }

  lemma Unthrottled(k: Key)
    requires k == NewKey(1, None)
    ensures Run([k], CLIENT_WINDOW, []) == [k] && Throttled429(k, 0, 0)
  {
  }

  lemma ThrottledTwice(k: Key, es: seq<Event>, before: Key, throttles: nat, t: Time) returns (after: Key)
    requires Run([k], CLIENT_WINDOW, es) == [before] && Throttled429(before, throttles, t) && throttles < 3
    ensures Run([k], CLIENT_WINDOW, es + ThrottledExchange(t) + ThrottledExchange(t + Seconds(4))) == [after]
    ensures Throttled429(after, throttles + 2, t + Seconds(8))
  {
    var next := ThrottledNext(k, es, before, throttles, t);
    after := ThrottledNext(k, es + ThrottledExchange(t), next, throttles + 1, t + Seconds(4));
  }

  lemma FourThrottled(k: Key) returns (after: Key)
    requires k == NewKey(1, None)
    ensures Run([k], CLIENT_WINDOW, FOUR_THROTTLED) == [after] && Throttled429(after, 4, Seconds(16))
  {
    Unthrottled(k);
    var second := ThrottledTwice(k, [], k, 0, 0);
    assert [] + ThrottledExchange(0) == ThrottledExchange(0);
    after := ThrottledTwice(k, TWO_THROTTLED, second, 2, Seconds(8));
  }

  /** Four 429s without rate-limit headers leave a key unparked, the fifth parks it for five minutes. */
  lemma FifthUnexplainedDisables()
    ensures var pool := NewPool(1, [None]);
            && Run(pool, CLIENT_WINDOW, FOUR_THROTTLED)[0].health == Ok
            && Run(pool, CLIENT_WINDOW, FOUR_THROTTLED + ThrottledExchange(Seconds(16)))[0].health == Disabled(Seconds(317))
  {
    var k := NewKey(1, None);
    NewSole(1, None);
    var fourth := FourThrottled(k);
    var fifth := ThrottledNext(k, FOUR_THROTTLED, fourth, 4, Seconds(16));
  }
}

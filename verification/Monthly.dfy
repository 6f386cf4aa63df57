/**
 The monthly quota, kept jointly by the pool and the simulator: with all answers delivered and one
 request of the key outstanding at a time, the key is parked on its last allowed success.
 */
module Monthly {
  import opened Prelude
  import opened RateLimit
  import opened KeySpec
  import opened Selection
  import opened KeyRuns
  import opened Parks
  import opened Mock

  /** Where the key's one request is. */
  datatype Phase = Idle | OnTheWay | Answered(answer: Answer)

  datatype Joint = Joint(key: Key, record: Record, phase: Phase, clock: Time)

  datatype JointStep =
    | Look(now: Time, settled: bool)
    | Send(now: Time)
    | Arrive(now: Time)
    | Deliver(now: Time)

  /** The outcome the proxy records for an answer: what it parses from the printed headers. */
  function Heard(s: Setup, a: Answer): Outcome {
    Response(a.status, FromHeaders(HeadersOf(s, a)))
  }

  lemma HeardIsMeant(s: Setup, a: Answer)
    requires Fits(s, a)
    ensures Heard(s, a) == Response(a.status, InfoOf(s, a))
  {
    AnswerIsUnderstood(s, a);
  }

  predicate Possible(j: Joint, window: nat, st: JointStep) {
    j.clock <= st.now &&
    match st
    case Look(_, _) => true
    case Send(now) => j.phase.Idle? && FreeAt(j.key, now, window)
    case Arrive(_) => j.phase.OnTheWay?
    case Deliver(_) => j.phase.Answered?
  }

  function Next(s: Setup, token: string, j: Joint, window: nat, st: JointStep): Joint
    requires Possible(j, window, st)
  {
    match st
    case Look(now, settled) => j.(key := Do(j.key, window, Wake(now, settled)), clock := now)
    case Send(now) => j.(key := Do(j.key, window, Lease(now)), phase := OnTheWay, clock := now)
    case Arrive(now) =>
      var (record, answer) := Serve(s, j.record, token, now);
      j.(record := record, phase := Answered(answer), clock := now)
    case Deliver(now) =>
      j.(key := Digest(j.key, now, Heard(s, j.phase.answer)), phase := Idle, clock := now)
  }

  ghost predicate Course(s: Setup, token: string, j: Joint, window: nat, sts: seq<JointStep>)
    decreases |sts|
  {
    sts == [] || (Possible(j, window, sts[0]) && Course(s, token, Next(s, token, j, window, sts[0]), window, sts[1..]))
  }

  function Reached(s: Setup, token: string, j: Joint, window: nat, sts: seq<JointStep>): Joint
    requires Course(s, token, j, window, sts)
    decreases |sts|
  {
    if sts == [] then j else Reached(s, token, Next(s, token, j, window, sts[0]), window, sts[1..])
  }

  /** Neither rejected nor flaky. */
  predicate Ordinary(token: string) {
    !BadKey(token) && !("flaky" <= token)
  }

  /** Less than one second to go, or past, to the monthly reset. */
  predicate ResetIsNear(s: Setup, t: Time) {
    s.monthResetAt < t + SECOND
  }

  /** The answer tells that the quota is spent and when it resets. */
  predicate TellsSpent(s: Setup, a: Answer, at: Time) {
    Fits(s, a) && a.status == 200 && a.report.Some? && a.report.value.monthLeft == 0 &&
    a.report.value.monthReset == WholeSeconds(s.monthResetAt - at)
  }

  /** Once the quota is spent, the key hears of it, is parked until the reset, or the reset is near. */
  ghost predicate Guarded(s: Setup, j: Joint) {
    && j.record.used <= s.month
    && (j.record.used == s.month && !ResetIsNear(s, j.clock) ==>
          match j.phase
          case Idle => j.key.health.Exhausted? && ResetIsNear(s, j.key.health.until)
          case OnTheWay => false
          case Answered(a) => exists at: Time :: at <= j.clock && TellsSpent(s, a, at))
  }

  lemma ParkedUntilReset(s: Setup, at: Time, now: Time)
    requires at <= now && s.monthResetAt / SECOND <= U64_MAX && !ResetIsNear(s, now)
    ensures var secs := WholeSeconds(s.monthResetAt - at);
            0 <= secs <= U64_MAX && ResetIsNear(s, now + secs * SECOND)
  {
  }

  lemma SpentInfo(s: Setup, a: Answer, at: Time)
    requires s.month > 0 && TellsSpent(s, a, at) && 0 <= WholeSeconds(s.monthResetAt - at) <= U64_MAX
    ensures var rl := InfoOf(s, a);
            rl.Some? && rl.value.MonthExhausted() &&
            rl.value.MonthReset() == Some(WholeSeconds(s.monthResetAt - at) * SECOND)
  {
  }

  lemma SpentParks(k: Key, now: Time, o: Outcome, left: nat)
    requires o.Response? && o.status == 200 && o.rl.Some?
    requires o.rl.value.MonthExhausted() && o.rl.value.MonthReset() == Some(left)
    ensures Digest(k, now, o).health == Exhausted(now + left)
  {
    DigestPark(k, now, o);
  }

  /** When the quota resets according to an answer given at `at` and heard at `now`. */
  function ToldReset(s: Setup, at: Time, now: Time): int {
    now + WholeSeconds(s.monthResetAt - at) * SECOND
  }

  predicate ExhaustedUntil(k: Key, until: int) {
    k.health.Exhausted? && k.health.until == until
  }

  lemma MeantParks(s: Setup, k: Key, a: Answer, at: Time, now: Time)
    requires s.month > 0 && TellsSpent(s, a, at) && 0 <= WholeSeconds(s.monthResetAt - at) <= U64_MAX
    ensures ExhaustedUntil(Digest(k, now, Response(a.status, InfoOf(s, a))), ToldReset(s, at, now))
  {
    SpentInfo(s, a, at);
    SpentParks(k, now, Response(a.status, InfoOf(s, a)), WholeSeconds(s.monthResetAt - at) * SECOND);
  }

  lemma SpentAnswerParks(s: Setup, k: Key, a: Answer, at: Time, now: Time)
    requires s.month > 0 && TellsSpent(s, a, at) && 0 <= WholeSeconds(s.monthResetAt - at) <= U64_MAX
    ensures ExhaustedUntil(Digest(k, now, Heard(s, a)), ToldReset(s, at, now))
  {
    HeardIsMeant(s, a);
    MeantParks(s, k, a, at, now);
  }

  /** Digesting the last allowed success parks the key until less than a second before the reset. */
  lemma LastSuccessParks(s: Setup, k: Key, a: Answer, at: Time, now: Time)
    requires s.month > 0 && s.monthResetAt / SECOND <= U64_MAX
    requires TellsSpent(s, a, at) && at <= now && !ResetIsNear(s, now)
    ensures var d := Digest(k, now, Heard(s, a)); d.health.Exhausted? && ResetIsNear(s, d.health.until)
  {
    ParkedUntilReset(s, at, now);
    SpentAnswerParks(s, k, a, at, now);
  }

  lemma LookKeepsGuard(s: Setup, j: Joint, window: nat, now: Time, settled: bool)
    requires Guarded(s, j) && j.clock <= now
    ensures Guarded(s, j.(key := Do(j.key, window, Wake(now, settled)), clock := now))
  {
  }

  lemma SendKeepsGuard(s: Setup, j: Joint, window: nat, now: Time)
    requires Guarded(s, j) && Possible(j, window, Send(now))
    ensures Guarded(s, j.(key := Do(j.key, window, Lease(now)), phase := OnTheWay, clock := now))
  {
  }

  lemma ArriveKeepsGuard(s: Setup, token: string, j: Joint, window: nat, now: Time)
    requires Guarded(s, j) && Possible(j, window, Arrive(now)) && Ordinary(token)
    requires s.rps <= U64_MAX && 0 < s.month <= U64_MAX
    ensures Guarded(s, Next(s, token, j, window, Arrive(now)))
    ensures HitsMonthLimit(s, j.record, token, now) ==> ResetIsNear(s, now)
  {
    var (record, answer) := Serve(s, j.record, token, now);
    ServedFits(s, j.record, token, now);
    if record.used == s.month && !ResetIsNear(s, now) {
      assert TellsSpent(s, answer, now);
    }
  }

  lemma DeliverKeepsGuard(s: Setup, token: string, j: Joint, window: nat, now: Time)
    requires s.rps <= U64_MAX && 0 < s.month <= U64_MAX && s.monthResetAt / SECOND <= U64_MAX
    requires Guarded(s, j) && Possible(j, window, Deliver(now))
    ensures Guarded(s, Next(s, token, j, window, Deliver(now)))
  {
    if j.record.used == s.month && !ResetIsNear(s, now) {
      var at: Time :| at <= j.clock && TellsSpent(s, j.phase.answer, at);
      LastSuccessParks(s, j.key, j.phase.answer, at, now);
    }
  }

  lemma NextKeepsGuard(s: Setup, token: string, j: Joint, window: nat, st: JointStep)
    requires s.rps <= U64_MAX && 0 < s.month <= U64_MAX && s.monthResetAt / SECOND <= U64_MAX && Ordinary(token)
    requires Guarded(s, j) && Possible(j, window, st)
    ensures Guarded(s, Next(s, token, j, window, st))
  {
    match st
    case Look(now, settled) => LookKeepsGuard(s, j, window, now, settled);
    case Send(now) => SendKeepsGuard(s, j, window, now);
    case Arrive(now) => ArriveKeepsGuard(s, token, j, window, now);
    case Deliver(now) => DeliverKeepsGuard(s, token, j, window, now);
  }

  lemma {:induction false} GuardHolds(s: Setup, token: string, j: Joint, window: nat, sts: seq<JointStep>)
    requires s.rps <= U64_MAX && 0 < s.month <= U64_MAX && s.monthResetAt / SECOND <= U64_MAX && Ordinary(token)
    requires Guarded(s, j) && Course(s, token, j, window, sts)
    ensures Guarded(s, Reached(s, token, j, window, sts))
    decreases |sts|
  {
    if sts != [] {
      NextKeepsGuard(s, token, j, window, sts[0]);
      GuardHolds(s, token, Next(s, token, j, window, sts[0]), window, sts[1..]);
    }
  }

  /**
   The monthly quota is never overrun: in every joint course of an ordinary key that starts with
   quota left, a request meets the monthly 429 only less than one second before the reset, or after it.
   */
  lemma NoMonthlyLimitBeforeReset(s: Setup, token: string, j: Joint, window: nat, sts: seq<JointStep>, now: Time)
    requires s.rps <= U64_MAX && 0 < s.month <= U64_MAX && s.monthResetAt / SECOND <= U64_MAX && Ordinary(token)
    requires j.phase.Idle? && j.record.used < s.month && Course(s, token, j, window, sts)
    requires Possible(Reached(s, token, j, window, sts), window, Arrive(now))
    requires HitsMonthLimit(s, Reached(s, token, j, window, sts).record, token, now)
    ensures s.monthResetAt < now + SECOND
  {
    GuardHolds(s, token, j, window, sts);
    ArriveKeepsGuard(s, token, Reached(s, token, j, window, sts), window, now);
  }

  predicate IsSpent(k: Key) {
    k.health.Exhausted?
  }

  predicate ParksPast(k: Key, t: Time) {
    k.health.Exhausted? && t <= k.health.until
  }

  /** The fraction of a second that a reset printed at `at` leaves out has passed by `now`. */
  predicate FractionPassed(s: Setup, at: Time, now: Time)
    requires at <= s.monthResetAt
  {
    at + (s.monthResetAt - at) % SECOND <= now
  }

  lemma ParksPastIff(s: Setup, k: Key, at: Time, now: Time)
    requires at <= now && at <= s.monthResetAt && ExhaustedUntil(k, ToldReset(s, at, now))
    ensures IsSpent(k)
    ensures ParksPast(k, s.monthResetAt) <==> FractionPassed(s, at, now)
  {
    WholeAndFraction(s.monthResetAt - at);
  }

  /**
   The park reaches the reset itself exactly when the answer was under way for at least the
   fraction of a second that the printed reset leaves out.
   */
  lemma ParkReachesResetIff(s: Setup, k: Key, a: Answer, at: Time, now: Time)
    requires s.month > 0 && s.monthResetAt / SECOND <= U64_MAX
    requires TellsSpent(s, a, at) && at <= now && at <= s.monthResetAt
    ensures IsSpent(Digest(k, now, Heard(s, a)))
    ensures ParksPast(Digest(k, now, Heard(s, a)), s.monthResetAt) <==> FractionPassed(s, at, now)
  {
    WholeSecondsFit(s.monthResetAt, at);
    SpentAnswerParks(s, k, a, at, now);
    ParksPastIff(s, Digest(k, now, Heard(s, a)), at, now);
  }

  lemma WholeSecondsFit(end: Time, at: Time)
    requires at <= end && end / SECOND <= U64_MAX
    ensures 0 <= WholeSeconds(end - at) <= U64_MAX
  {
  }

  lemma WholeAndFraction(d: nat)
    ensures 0 <= WholeSeconds(d) <= d && d == WholeSeconds(d) * SECOND + d % SECOND
  {
  }
}

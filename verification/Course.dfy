/** The course of one request through the retry protocol, taken step by step. */
module Course {
  import opened Prelude
  import opened KeySpec
  import opened PoolSpec
  import opened KeyRuns
  import opened Waiting
  import opened Pools
  import opened Retry

  /** A new request, alone with the pool. */
  function Alone(ks: Keys): System {
    System(ks, [NEW_REQUEST], Zeros(|ks|), Zeros(|ks|))
  }

  /** The pool a request finds and the time it has. */
  datatype Terms = Terms(pool: Keys, window: nat, started: Time, deadline: Time)

  function TimeOf(m: Move): Time {
    match m
    case Attempt(_, now, _) => now
    case Answer(_, now, _) => now
    case Look(now) => now
    case _ => 0
  }

  /** When the latest move was made. */
  function Until(t: Terms, ms: seq<Move>): Time {
    if ms == [] then t.started else TimeOf(Last(ms))
  }

  /** Attempts under the one deadline and answers, one after the other. */
  predicate InTime(t: Terms, ms: seq<Move>) {
    ms == [] ||
    (InTime(t, Init(ms)) && Until(t, Init(ms)) <= TimeOf(Last(ms)) &&
     (Last(ms).Answer? || (Last(ms).Attempt? && Last(ms).deadline == t.deadline)))
  }

  /** The outcomes of the answers, in order. */
  function Heard(ms: seq<Move>): seq<Outcome> {
    if ms == [] then [] else Heard(Init(ms)) + if Last(ms).Answer? then [Last(ms).outcome] else []
  }

  lemma AnotherMove(t: Terms, ms: seq<Move>, m: Move)
    requires InTime(t, ms) && Until(t, ms) <= TimeOf(m) && (m.Answer? || (m.Attempt? && m.deadline == t.deadline))
    ensures InTime(t, ms + [m]) && Until(t, ms + [m]) == TimeOf(m)
    ensures Heard(ms + [m]) == Heard(ms) + if m.Answer? then [m.outcome] else []
  {
    assert Init(ms + [m]) == ms;
  }

  /** The given moves take a new request to `q` and the pool to `ks`. */
  ghost predicate Leads(t: Terms, ms: seq<Move>, ks: Keys, q: Request) {
    Playable(Alone(t.pool), t.window, ms) && InTime(t, ms) &&
    Play(Alone(t.pool), t.window, ms).pool == ks && Play(Alone(t.pool), t.window, ms).requests == [q]
  }

  /** They do so by `now`. */
  ghost predicate LeadsBy(t: Terms, ms: seq<Move>, ks: Keys, q: Request, now: Time) {
    Leads(t, ms, ks, q) && Until(t, ms) == now
  }

  lemma NothingDone(t: Terms)
    ensures LeadsBy(t, [], t.pool, NEW_REQUEST, t.started)
  {
  }

  lemma OneAttempt(t: Terms, ms: seq<Move>, ks: Keys, q: Request, now: Time)
    requires Leads(t, ms, ks, q) && q.stage.Acquiring? && Until(t, ms) <= now
    ensures var (after, reply) := TryAcquire(ks, now, t.window, q.tried);
            Leads(t, ms + [Attempt(0, now, t.deadline)], after,
                  Attempted(q, reply, now, t.deadline, MomentOf(ks, now, q.tried)))
  {
    PlayMore(Alone(t.pool), t.window, ms, Attempt(0, now, t.deadline));
    AnotherMove(t, ms, Attempt(0, now, t.deadline));
  }

  lemma OneAnswer(t: Terms, ms: seq<Move>, ks: Keys, q: Request, now: Time, o: Outcome)
    requires Leads(t, ms, ks, q) && q.stage.InFlight? && q.stage.idx < |ks| && Until(t, ms) <= now
    ensures Leads(t, ms + [Answer(0, now, o)], Record(ks, now, q.stage.idx, o).0, Answered(q, |ks|, o))
  {
    PlayMore(Alone(t.pool), t.window, ms, Answer(0, now, o));
    AnotherMove(t, ms, Answer(0, now, o));
  }

  /** The attempts of a wait come one after the other. */
  lemma TriesAreInTime(ks: Keys, window: nat, tries: seq<Event>, from: Time, deadline: Time, exclude: seq<nat>, n: nat)
    requires window > 0 && Patient(ks, window, tries, from, deadline, exclude) && 0 < n < |tries|
    ensures tries[n - 1].now <= tries[n].now
  {
    var r := ReplyTo(ks, window, tries, n - 1);
    assert r.At? && r.at <= tries[n - 1 + 1].now;
    WaitIsPositive(Run(ks, window, tries[..n - 1]), tries[n - 1].now, window, exclude);
  }

  /** The failed attempts of a wait leave the request as it is. */
  lemma {:induction false} FailedAttempts(t: Terms, ms: seq<Move>, ks: Keys, q: Request, tries: seq<Event>, n: nat)
    returns (more: seq<Move>)
    requires t.window > 0 && Leads(t, ms, ks, q) && q.stage.Acquiring?
    requires Patient(ks, t.window, tries, Until(t, ms), t.deadline, q.tried) && n < |tries|
    ensures Leads(t, more, Run(ks, t.window, tries[..n]), q)
    ensures Until(t, more) <= tries[n].now && Heard(more) == Heard(ms)
    decreases n
  {
    if n == 0 {
      more := ms;
    } else {
      var before := FailedAttempts(t, ms, ks, q, tries, n - 1);
      var try := tries[n - 1];
      OneFailedAttempt(t, before, ks, q, tries, Until(t, ms), n - 1);
      TriesAreInTime(ks, t.window, tries, Until(t, ms), t.deadline, q.tried, n);
      AnotherMove(t, before, Attempt(0, try.now, t.deadline));
      more := before + [Attempt(0, try.now, t.deadline)];
    }
  }

  lemma OneFailedAttempt(t: Terms, ms: seq<Move>, ks: Keys, q: Request, tries: seq<Event>, from: Time, n: nat)
    requires Patient(ks, t.window, tries, from, t.deadline, q.tried) && n < |tries| - 1
    requires q.stage.Acquiring? && Leads(t, ms, Run(ks, t.window, tries[..n]), q) && Until(t, ms) <= tries[n].now
    ensures Leads(t, ms + [Attempt(0, tries[n].now, t.deadline)], Run(ks, t.window, tries[..n + 1]), q)
  {
    var r := ReplyTo(ks, t.window, tries, n);
    assert r.At? && r.at <= t.deadline;
    OneAttempt(t, ms, Run(ks, t.window, tries[..n]), q, tries[n].now);
    assert tries[..n + 1] == tries[..n] + [tries[n]];
    RunStep(ks, t.window, tries[..n], tries[n]);
  }

  /** What the result of a wait makes of the request. */
  predicate Results(q: Request, q1: Request, r: AcquireResult) {
    match r
    case Granted(i) => q1.tried == q.tried + [i] && q1.lastResponse == q.lastResponse && q1.stage == InFlight(i)
    case Saturated(wait) => q1 == q.(stage := Done(RotatorSaturated(WholeMillis(wait))))
    case NoneUsable(wait) => q1 == q.(stage := Done(NoUsableKey(SomeMillis(wait))))
  }

  /** A whole wait is a stretch of the protocol's attempts. */
  lemma WholeWait(t: Terms, ms: seq<Move>, ks: Keys, after: Keys, q: Request, tries: seq<Event>, r: AcquireResult)
    returns (more: seq<Move>, q1: Request)
    requires t.window > 0 && Leads(t, ms, ks, q) && q.stage.Acquiring?
    requires Waited(ks, after, t.window, tries, Until(t, ms), t.deadline, q.tried, r)
    ensures Leads(t, more, after, q1) && Results(q, q1, r)
    ensures Until(t, more) == Last(tries).now && Heard(more) == Heard(ms)
  {
    var n := |tries| - 1;
    var before := FailedAttempts(t, ms, ks, q, tries, n);
    var last, ks1 := tries[n], Run(ks, t.window, tries[..n]);
    OneAttempt(t, before, ks1, q, last.now);
    AnotherMove(t, before, Attempt(0, last.now, t.deadline));
    more := before + [Attempt(0, last.now, t.deadline)];
    q1 := Attempted(q, TryAcquire(ks1, last.now, t.window, q.tried).1, last.now, t.deadline, MomentOf(ks1, last.now, q.tried));
  }

  /** Whatever the course, the request keeps to its attempts and to the right keys. */
  lemma WellLed(t: Terms, ms: seq<Move>, ks: Keys, q: Request)
    requires Leads(t, ms, ks, q)
    ensures |ks| == |t.pool| && WellBehaved(q, |ks|) && WellLeased(q, |ks|)
  {
    PlaysWell(Alone(t.pool), t.window, ms);
    assert Play(Alone(t.pool), t.window, ms).requests[0] == q;
  }

  /** Whatever the course, the pool has counted one more success if the request ended in one, and none otherwise. */
  lemma OneSuccess(t: Terms, ms: seq<Move>, ks: Keys, q: Request)
    requires Leads(t, ms, ks, q)
    ensures TotalOk(ks) == TotalOk(t.pool) + if Succeeds(q) then 1 else 0
  {
    SuccessesPlayTogether(Alone(t.pool), t.window, ms);
    assert Init([q]) == [] && Init([NEW_REQUEST]) == [];
    assert Count([q], Successful()) == Count([], Successful()) + if Succeeds(q) then 1 else 0;
    assert Count([NEW_REQUEST], Successful()) == Count([], Successful());
  }
}

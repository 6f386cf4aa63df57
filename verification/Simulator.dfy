/**
 The simulator by what it has answered: which status a call gets, and what the answer tells, follow from
 the answers given before, without reference to the queue and the counts it keeps.
 */
module Simulator {
  import opened Prelude
  import opened RateLimit
  import opened KeySpec
  import opened PoolSpec
  import opened KeyRuns
  import opened Pruning
  import opened Window
  import opened Mock
  import opened Pacing

  /** One call and how it was answered. */
  datatype Call = Call(at: Time, answer: Answer)

  /** The simulator's record of a key that called at the given times. */
  function RecordOf(s: Setup, key: string, times: seq<Time>): Record {
    if times == [] then Record([], 0, 0) else Serve(s, RecordOf(s, key, Init(times)), key, Last(times)).0
  }

  /** The answer to the last of the calls. */
  function AnswerTo(s: Setup, key: string, times: seq<Time>): Answer
    requires times != []
  {
    Serve(s, RecordOf(s, key, Init(times)), key, Last(times)).1
  }

  function Calls(s: Setup, key: string, times: seq<Time>): (calls: seq<Call>)
    ensures |calls| == |times|
  {
    if times == [] then [] else Calls(s, key, Init(times)) + [Call(Last(times), AnswerTo(s, key, times))]
  }

  /** When the calls answered 200 were made. */
  function Granted(calls: seq<Call>): seq<Time> {
    if calls == [] then []
    else Granted(Init(calls)) + if Last(calls).answer.status == 200 then [Last(calls).at] else []
  }

  /** How many of the times lie less than a second before `t`. */
  function Recent(times: seq<Time>, t: Time): nat {
    if times == [] then 0 else Recent(Init(times), t) + if t < Last(times) + Seconds(1) then 1 else 0
  }

  /** How many of the times lie in the second from `from` on. */
  function InSecond(times: seq<Time>, from: Time): nat {
    if times == [] then 0 else InSecond(Init(times), from) + if from <= Last(times) < from + Seconds(1) then 1 else 0
  }

  predicate Ascending(times: seq<Time>) {
    forall i, j :: 0 <= i <= j < |times| ==> times[i] <= times[j]
  }

  /** The status of a call at `t`, by the calls answered before. */
  function StatusDue(s: Setup, key: string, calls: seq<Call>, t: Time): nat {
    if key == "" || "bad" <= key then 401
    else if "flaky" <= key && |calls| % 2 == 1 then 500
    else if s.month != 0 && |Granted(calls)| >= s.month then 429
    else if Recent(Granted(calls), t) >= s.rps then 429
    else 200
  }

  // ----- the record stands for the answers -------------------------------------------------------------------

  /** The queue is what may still be recent of the times granted. */
  predicate Queues(sends: seq<Time>, granted: seq<Time>, clock: Time) {
    var gone := |granted| - |sends|;
    && 0 <= gone && sends == granted[gone..]
    && (forall j :: 0 <= j < gone ==> granted[j] + WINDOW <= clock)
    && (forall j :: 0 <= j < |granted| ==> granted[j] <= clock)
  }

  lemma {:induction false} RecentAfter(times: seq<Time>, t: Time, first: nat)
    requires first <= |times|
    requires forall j :: 0 <= j < first ==> times[j] + Seconds(1) <= t
    requires forall j :: first <= j < |times| ==> t < times[j] + Seconds(1)
    ensures Recent(times, t) == |times| - first
  {
    if first < |times| {
      RecentAfter(Init(times), t, first);
    } else if times != [] {
      RecentAfter(Init(times), t, first - 1);
    }
  }

  /** What pruning leaves of the queue are the recent times. */
  lemma PrunedAreRecent(sends: seq<Time>, granted: seq<Time>, clock: Time, t: Time)
    requires Queues(sends, granted, clock) && Ascending(granted) && clock <= t
    ensures Queues(Prune(sends, t, WINDOW), granted, t)
    ensures |Prune(sends, t, WINDOW)| == Recent(granted, t)
  {
    var kept := Prune(sends, t, WINDOW);
    PruneKeepsSuffix(sends, t, WINDOW);
    var gone := |granted| - |kept|;
    assert kept == granted[gone..];
    forall j | 0 <= j < gone ensures granted[j] + WINDOW <= t {
      if j >= |granted| - |sends| {
        assert granted[j] == sends[j - (|granted| - |sends|)];
      }
    }
    forall j | gone <= j < |granted| ensures t < granted[j] + WINDOW {
      assert granted[gone] == kept[0];
    }
    RecentAfter(granted, t, gone);
  }

  /** The record of a key that is not rejected. */
  predicate Records(r: Record, calls: seq<Call>, clock: Time) {
    r.calls == |calls| && r.used == |Granted(calls)| && Queues(r.sends, Granted(calls), clock) && Ascending(Granted(calls))
  }

  lemma GrantedNext(calls: seq<Call>, c: Call)
    ensures Granted(calls + [c]) == Granted(calls) + if c.answer.status == 200 then [c.at] else []
  {
    assert Init(calls + [c]) == calls;
  }

  lemma QueuesNext(sends: seq<Time>, granted: seq<Time>, t: Time)
    requires Queues(sends, granted, t) && Ascending(granted)
    ensures Queues(sends + [t], granted + [t], t) && Ascending(granted + [t])
  {
    var gone := |granted| - |sends|;
    assert (granted + [t])[gone..] == granted[gone..] + [t];
  }

  /** The two limit checks, by the answers before. */
  function LimitDue(s: Setup, calls: seq<Call>, t: Time): nat {
    if (s.month != 0 && |Granted(calls)| >= s.month) || Recent(Granted(calls), t) >= s.rps then 429 else 200
  }

  lemma AdmittedAsDue(s: Setup, looked: Record, calls: seq<Call>, t: Time)
    requires looked.used == |Granted(calls)| && |looked.sends| == Recent(Granted(calls), t)
    requires looked.calls == |calls| + 1 && Queues(looked.sends, Granted(calls), t) && Ascending(Granted(calls))
    ensures var (after, answer) := Admit(s, looked, t);
            answer.status == LimitDue(s, calls, t) && Records(after, calls + [Call(t, answer)], t)
  {
    var answer := Admit(s, looked, t).1;
    GrantedNext(calls, Call(t, answer));
    QueuesNext(looked.sends, Granted(calls), t);
  }

  lemma ServeTakes(s: Setup, r: Record, key: string, t: Time)
    requires !BadKey(key)
    ensures var called := r.(calls := r.calls + 1);
            Serve(s, r, key, t) == if Stumbles(key, called) then (called, Answer(500, None)) else Admit(s, Looked(called, t), t)
  {
  }

  lemma StumblesEverySecond(key: string, r: Record)
    ensures Stumbles(key, r.(calls := r.calls + 1)) <==> "flaky" <= key && r.calls % 2 == 1
  {
  }

  lemma QueuesLater(sends: seq<Time>, granted: seq<Time>, clock: Time, t: Time)
    requires Queues(sends, granted, clock) && clock <= t
    ensures Queues(sends, granted, t)
  {
  }

  lemma StumbledAsDue(r: Record, calls: seq<Call>, clock: Time, t: Time)
    requires Records(r, calls, clock) && clock <= t
    ensures Records(r.(calls := r.calls + 1), calls + [Call(t, Answer(500, None))], t)
  {
    GrantedNext(calls, Call(t, Answer(500, None)));
    assert Granted(calls) + [] == Granted(calls);
    QueuesLater(r.sends, Granted(calls), clock, t);
  }

  lemma ServedAsDue(s: Setup, r: Record, key: string, calls: seq<Call>, clock: Time, t: Time)
    requires !BadKey(key) && Records(r, calls, clock) && clock <= t
    ensures var (after, answer) := Serve(s, r, key, t);
            answer.status == StatusDue(s, key, calls, t) && Records(after, calls + [Call(t, answer)], t)
  {
    var called := r.(calls := r.calls + 1);
    ServeTakes(s, r, key, t);
    StumblesEverySecond(key, r);
    StumbledAsDue(r, calls, clock, t);
    if !Stumbles(key, called) {
      PrunedAreRecent(r.sends, Granted(calls), clock, t);
      AdmittedAsDue(s, Looked(called, t), calls, t);
    }
  }

  function EndOfCalls(times: seq<Time>): Time {
    if times == [] then 0 else Last(times)
  }

  lemma {:induction false} RecordsCalls(s: Setup, key: string, times: seq<Time>)
    requires !BadKey(key) && Ascending(times)
    ensures Records(RecordOf(s, key, times), Calls(s, key, times), EndOfCalls(times))
  {
    if times != [] {
      assert Ascending(Init(times)) && EndOfCalls(Init(times)) <= Last(times);
      RecordsCalls(s, key, Init(times));
      ServedAsDue(s, RecordOf(s, key, Init(times)), key, Calls(s, key, Init(times)), EndOfCalls(Init(times)), Last(times));
    }
  }

  /**
   Every call is answered as the answers before it demand: 401 for a rejected token, 500 for every second
   call of a flaky one, 429 once the month is used up or when the last second holds as many 200s as
   allowed, and 200 otherwise.
   */
  lemma StatusIsDue(s: Setup, key: string, times: seq<Time>)
    requires times != [] && Ascending(times)
    ensures AnswerTo(s, key, times).status == StatusDue(s, key, Calls(s, key, Init(times)), Last(times))
  {
    if !BadKey(key) {
      assert Ascending(Init(times)) && EndOfCalls(Init(times)) <= Last(times);
      RecordsCalls(s, key, Init(times));
      ServedAsDue(s, RecordOf(s, key, Init(times)), key, Calls(s, key, Init(times)), EndOfCalls(Init(times)), Last(times));
    }
  }

  /** The use counted for a key is the number of its calls answered 200. */
  lemma UsedIsGranted(s: Setup, key: string, times: seq<Time>)
    requires !BadKey(key) && Ascending(times)
    ensures RecordOf(s, key, times).used == |Granted(Calls(s, key, times))|
  {
    RecordsCalls(s, key, times);
  }

  // ----- no second too full ----------------------------------------------------------------------------------

  lemma {:induction false} SecondIsRecent(times: seq<Time>, from: Time, t: Time)
    requires from <= t < from + Seconds(1)
    ensures InSecond(times, from) <= Recent(times, t)
  {
    if times != [] {
      SecondIsRecent(Init(times), from, t);
    }
  }

  lemma OneMoreInSecond(granted: seq<Time>, t: Time, from: Time, rps: nat)
    requires InSecond(granted, from) <= rps && Recent(granted, t) < rps
    ensures InSecond(granted + [t], from) <= rps
  {
    assert Init(granted + [t]) == granted;
    if from <= t < from + Seconds(1) {
      SecondIsRecent(granted, from, t);
    }
  }

  lemma GrantedOfCalls(s: Setup, key: string, times: seq<Time>)
    requires times != []
    ensures Granted(Calls(s, key, times)) ==
            Granted(Calls(s, key, Init(times))) + if AnswerTo(s, key, times).status == 200 then [Last(times)] else []
  {
    GrantedNext(Calls(s, key, Init(times)), Call(Last(times), AnswerTo(s, key, times)));
  }

  lemma GrantedHasRoom(s: Setup, key: string, times: seq<Time>)
    requires times != [] && Ascending(times) && AnswerTo(s, key, times).status == 200
    ensures Recent(Granted(Calls(s, key, Init(times))), Last(times)) < s.rps
  {
    StatusIsDue(s, key, times);
  }

  /** No half-open second holds more answers 200 than the rate allows. */
  lemma {:induction false} SecondsAreLimited(s: Setup, key: string, times: seq<Time>, from: Time)
    requires Ascending(times)
    ensures InSecond(Granted(Calls(s, key, times)), from) <= s.rps
  {
    if times != [] {
      SecondsAreLimited(s, key, Init(times), from);
      GrantedOfCalls(s, key, times);
      if AnswerTo(s, key, times).status == 200 {
        GrantedHasRoom(s, key, times);
        OneMoreInSecond(Granted(Calls(s, key, Init(times))), Last(times), from, s.rps);
      } else {
        assert Granted(Calls(s, key, times)) == Granted(Calls(s, key, Init(times)));
      }
    }
  }

  // ----- what the answers tell -------------------------------------------------------------------------------

  /** The report of an answer given at `t`, by the answers up to and with it. */
  predicate ReportsDue(r: Report, s: Setup, calls: seq<Call>, t: Time) {
    && r.secondsLeft == SatSub(s.rps, Recent(Granted(calls), t))
    && r.monthLeft == (if s.month == 0 then 0 else SatSub(s.month, |Granted(calls)|))
    && r.secondReset == 1
    && CutTowardsZero(r.monthReset, s.monthResetAt - t)
  }

  /** Whole seconds of a duration that may be negative, the fraction dropped. */
  predicate CutTowardsZero(seconds: int, d: int) {
    if d >= 0 then seconds * 1_000_000_000 <= d < (seconds + 1) * 1_000_000_000
    else (seconds - 1) * 1_000_000_000 < d <= seconds * 1_000_000_000
  }

  lemma WholeSecondsCut(d: int)
    ensures CutTowardsZero(WholeSeconds(d), d)
  {
  }

  /** The queue that is checked against the limits holds just the recent times. */
  predicate Fresh(sends: seq<Time>, t: Time) {
    sends != [] ==> sends[0] <= t < sends[0] + WINDOW
  }

  lemma QueueReports(s: Setup, r: Record, calls: seq<Call>, t: Time)
    requires Records(r, calls, t) && |r.sends| == Recent(Granted(calls), t)
    requires Fresh(r.sends, t)
    ensures ReportsDue(Mock.ReportOn(s, r, t), s, calls, t)
  {
    WholeSecondsCut(s.monthResetAt - t);
  }

  lemma RecentNext(times: seq<Time>, t: Time)
    ensures Recent(times + [t], t) == Recent(times, t) + 1
  {
    assert Init(times + [t]) == times;
  }

  lemma QueuedRecent(sends: seq<Time>, calls: seq<Call>, c: Call)
    requires |sends| == Recent(Granted(calls), c.at) && Fresh(sends, c.at)
    ensures var after := sends + if c.answer.status == 200 then [c.at] else [];
            |after| == Recent(Granted(calls + [c]), c.at) && Fresh(after, c.at)
  {
    GrantedNext(calls, c);
    RecentNext(Granted(calls), c.at);
    assert Granted(calls) + [] == Granted(calls);
  }

  lemma AdmitQueues(s: Setup, looked: Record, t: Time)
    ensures var (after, answer) := Admit(s, looked, t);
            after.sends == looked.sends + (if answer.status == 200 then [t] else []) &&
            answer.report == Some(Mock.ReportOn(s, after, t))
  {
  }

  lemma AdmittedReports(s: Setup, looked: Record, calls: seq<Call>, t: Time)
    requires looked.used == |Granted(calls)| && |looked.sends| == Recent(Granted(calls), t)
    requires looked.calls == |calls| + 1 && Queues(looked.sends, Granted(calls), t) && Ascending(Granted(calls))
    requires Fresh(looked.sends, t)
    ensures var answer := Admit(s, looked, t).1;
            answer.report.Some? && ReportsDue(answer.report.value, s, calls + [Call(t, answer)], t)
  {
    var (after, answer) := Admit(s, looked, t);
    AdmittedAsDue(s, looked, calls, t);
    AdmitQueues(s, looked, t);
    QueuedRecent(looked.sends, calls, Call(t, answer));
    QueueReports(s, after, calls + [Call(t, answer)], t);
  }

  /** What the proxy hears in the answer to a call that got as far as the limits, by all answers so far. */
  predicate HearsDue(rl: RateLimitInfo, s: Setup, calls: seq<Call>, t: Time) {
    && rl.limit.second == Some(s.rps) && rl.limit.month == Some(s.month)
    && rl.remaining.second == Some(SatSub(s.rps, Recent(Granted(calls), t)))
    && rl.remaining.month == Some(if s.month == 0 then 0 else SatSub(s.month, |Granted(calls)|))
    && rl.reset.second == Some(1)
    && (rl.reset.month.Some? ==> CutTowardsZero(rl.reset.month.value, s.monthResetAt - t))
    && (rl.reset.month.None? ==> s.monthResetAt + Seconds(1) <= t || U64_MAX < s.monthResetAt / 1_000_000_000)
    && rl.window == Windows(Some(1), Some(30 * 24 * 3600)) && rl.retryAfter == None
  }

  lemma InfoIsDue(s: Setup, a: Answer, calls: seq<Call>, t: Time)
    requires Fits(s, a) && a.report.Some? && ReportsDue(a.report.value, s, calls, t)
    ensures InfoOf(s, a).Some? && HearsDue(InfoOf(s, a).value, s, calls, t)
  {
  }

  lemma AnswerReports(s: Setup, key: string, times: seq<Time>)
    requires times != [] && Ascending(times)
    ensures var a := AnswerTo(s, key, times);
            if a.status == 401 || a.status == 500 then a.report.None?
            else a.report.Some? && ReportsDue(a.report.value, s, Calls(s, key, times), Last(times))
  {
    var r, t := RecordOf(s, key, Init(times)), Last(times);
    if !BadKey(key) {
      assert Ascending(Init(times)) && EndOfCalls(Init(times)) <= t;
      RecordsCalls(s, key, Init(times));
      ServeTakes(s, r, key, t);
      var calls := Calls(s, key, Init(times));
      var called := r.(calls := r.calls + 1);
      if !Stumbles(key, called) {
        PrunedAreRecent(r.sends, Granted(calls), EndOfCalls(Init(times)), t);
        PruneHead(r.sends, t, WINDOW);
        AdmittedReports(s, Looked(called, t), calls, t);
      }
    }
  }

  lemma HeadersTell(s: Setup, a: Answer, calls: seq<Call>, t: Time)
    requires Fits(s, a) && a.report.Some? && ReportsDue(a.report.value, s, calls, t)
    ensures var heard := FromHeaders(HeadersOf(s, a)); heard.Some? && HearsDue(heard.value, s, calls, t)
  {
    AnswerIsUnderstood(s, a);
    InfoIsDue(s, a, calls, t);
  }

  /** The proxy hears from the printed headers of an answer what the answers given so far amount to. */
  lemma AnswersTellHistory(s: Setup, key: string, times: seq<Time>)
    requires times != [] && Ascending(times) && s.rps <= U64_MAX && s.month <= U64_MAX
    ensures var a := AnswerTo(s, key, times);
            var heard := FromHeaders(HeadersOf(s, a));
            if a.status == 401 || a.status == 500 then heard.None?
            else heard.Some? && HearsDue(heard.value, s, Calls(s, key, times), Last(times))
  {
    var a := AnswerTo(s, key, times);
    ServedFits(s, RecordOf(s, key, Init(times)), key, Last(times));
    AnswerReports(s, key, times);
    if a.report.Some? {
      HeadersTell(s, a, Calls(s, key, times), Last(times));
    }
  }

  // ----- pacing by the answers -------------------------------------------------------------------------------

  /** When the first `n` arrivals came in. */
  function Times(arrivals: seq<Arrival>, n: nat): seq<Time>
    requires n <= |arrivals|
  {
    if n == 0 then [] else Times(arrivals, n - 1) + [arrivals[n - 1].at]
  }

  lemma {:induction false} ServedIsRecord(s: Setup, key: string, arrivals: seq<Arrival>, n: nat)
    requires n <= |arrivals|
    ensures Served(s, key, arrivals, n) == RecordOf(s, key, Times(arrivals, n))
  {
    if n > 0 {
      ServedIsRecord(s, key, arrivals, n - 1);
      assert Init(Times(arrivals, n)) == Times(arrivals, n - 1);
    }
  }

  lemma {:induction false} TimesAscend(arrivals: seq<Arrival>, n: nat)
    requires n <= |arrivals| && forall i, j :: 0 <= i <= j < |arrivals| ==> arrivals[i].at <= arrivals[j].at
    ensures |Times(arrivals, n)| == n && Ascending(Times(arrivals, n))
    ensures forall i :: 0 <= i < n ==> Times(arrivals, n)[i] == arrivals[i].at
  {
    if n > 0 {
      TimesAscend(arrivals, n - 1);
    }
  }

  lemma ThrottledBy(s: Setup, r: Record, key: string, t: Time)
    requires Serve(s, r, key, t).1.status == 429 && !HitsSecondLimit(s, r, key, t)
    ensures s.month != 0 && r.used >= s.month && !BadKey(key)
  {
  }

  /**
   End-to-end pacing by the status answered: requests delivered in time from a key within the simulator's
   rate are answered 429 only once as many of them as the month allows have been answered 200.
   */
  lemma NoSecondLimitAnswered(ks: Keys, es: seq<Event>, i: nat, margin: nat, s: Setup, key: string,
                              arrivals: seq<Arrival>, delay: nat, n: nat)
    requires i < |ks| && Unused(ks) && Timely(es) && n < |arrivals|
    requires LimitsAtMost(SendsOf(ks, WINDOW + margin, es, i), s.rps)
    requires Delivered(SendsOf(ks, WINDOW + margin, es, i), arrivals, delay, margin)
    ensures AnswerTo(s, key, Times(arrivals, n + 1)).status == 429 ==>
              s.month != 0 && |Granted(Calls(s, key, Times(arrivals, n)))| >= s.month
  {
    NoSecondLimitEver(ks, es, i, margin, s, key, arrivals, delay, n);
    ServedIsRecord(s, key, arrivals, n);
    TimesAscend(arrivals, n);
    assert Init(Times(arrivals, n + 1)) == Times(arrivals, n);
    if AnswerTo(s, key, Times(arrivals, n + 1)).status == 429 {
      ThrottledBy(s, Served(s, key, arrivals, n), key, arrivals[n].at);
      UsedIsGranted(s, key, Times(arrivals, n));
    }
  }
}

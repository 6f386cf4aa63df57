/** The Brave simulator: a sliding window and a monthly quota per key, on the server's side. */
module Mock {
  import opened Prelude
  import opened Text
  import opened RateLimit
  import opened HeaderText
  import opened KeySpec

  const MONTH_WINDOW: nat := 2592000

  /** How the simulator is set up; a month of 0 means no monthly quota. */
  datatype Setup = Setup(rps: nat, month: nat, monthResetAt: Time)

  /** What the simulator remembers about one key. */
  datatype Record = Record(sends: seq<Time>, used: nat, calls: nat)

  /** The numbers an answer reports about its key; the resets are whole seconds from now. */
  datatype Report = Report(secondsLeft: nat, monthLeft: nat, secondReset: int, monthReset: int)

  datatype Answer = Answer(status: nat, report: Option<Report>)

  /** Whole seconds, cut off towards zero. */
  function WholeSeconds(d: int): int {
    if d >= 0 then d / SECOND else -(-d / SECOND)
  }

  /** Seconds rounded up. */
  function CeilSeconds(d: int): int {
    -(-d / SECOND)
  }

  function SecondReset(r: Record, now: Time): int {
    if r.sends == [] then 1
    else
      var secs := CeilSeconds(SECOND - (now - r.sends[0]));
      if secs > 1 then secs else 1
  }

  function ReportOn(s: Setup, r: Record, now: Time): Report {
    Report(SatSub(s.rps, |r.sends|), if s.month == 0 then 0 else SatSub(s.month, r.used),
           SecondReset(r, now), WholeSeconds(s.monthResetAt - now))
  }

  /** The headers of an answer: none for rejected tokens and stumbles. */
  function HeadersOf(s: Setup, a: Answer): Headers {
    match a.report
    case None => Headers(None, None, None, None, None)
    case Some(r) =>
      Headers(
        Some(Pair(Decimal(s.rps), Decimal(s.month))),
        Some(Pair(Decimal(r.secondsLeft), Decimal(r.monthLeft))),
        Some(Pair(DecimalInt(r.secondReset), DecimalInt(r.monthReset))),
        Some(Policy(s.rps, 1, s.month, MONTH_WINDOW)),
        None)
  }

  predicate BadKey(key: string) {
    key == "" || "bad" <= key
  }

  /** The flaky key fails on every second call. */
  predicate Stumbles(key: string, r: Record) {
    "flaky" <= key && r.calls % 2 == 0
  }

  predicate MonthSpent(s: Setup, r: Record) {
    s.month != 0 && r.used >= s.month
  }

  predicate WindowFull(s: Setup, r: Record) {
    |r.sends| >= s.rps
  }

  /** The record once the call is counted and elapsed sends are dropped. */
  function Looked(r: Record, now: Time): Record {
    r.(sends := Prune(r.sends, now, WINDOW))
  }

  function Serve(s: Setup, r: Record, key: string, now: Time): (Record, Answer) {
    if BadKey(key) then (r, Answer(401, None))
    else
      var called := r.(calls := r.calls + 1);
      if Stumbles(key, called) then (called, Answer(500, None))
      else
        Admit(s, Looked(called, now), now)
  }

  /** The two limit checks, on a record whose elapsed sends are gone. */
  function Admit(s: Setup, r: Record, now: Time): (Record, Answer) {
    if MonthSpent(s, r) || WindowFull(s, r) then (r, Answer(429, Some(ReportOn(s, r, now))))
    else
      var served := r.(sends := r.sends + [now], used := r.used + 1);
      (served, Answer(200, Some(ReportOn(s, served, now))))
  }

  /** The request reaches the per-second check and fails it. */
  predicate HitsSecondLimit(s: Setup, r: Record, key: string, now: Time) {
    var looked := Looked(r.(calls := r.calls + 1), now);
    !BadKey(key) && !Stumbles(key, looked) && !MonthSpent(s, looked) && WindowFull(s, looked)
  }

  /** The request reaches the monthly check and fails it. */
  predicate HitsMonthLimit(s: Setup, r: Record, key: string, now: Time) {
    var looked := Looked(r.(calls := r.calls + 1), now);
    !BadKey(key) && !Stumbles(key, looked) && MonthSpent(s, looked)
  }

  class Server {
    const setup: Setup
    var sends: map<string, seq<Time>>
    var used: map<string, nat>
    var calls: map<string, nat>

    constructor (setup: Setup)
      ensures this.setup == setup
      ensures forall key :: Of(key) == Record([], 0, 0)
    {
      this.setup := setup;
      sends, used, calls := map[], map[], map[];
    }

    /** Keys never seen before start empty. */
    function Of(key: string): Record
      reads this
    {
      Record(if key in sends then sends[key] else [],
             if key in used then used[key] else 0,
             if key in calls then calls[key] else 0)
    }

    method Handle(key: string, now: Time) returns (a: Answer)
      modifies this
      ensures (Of(key), a) == Serve(setup, old(Of(key)), key, now)
      ensures forall other :: other != key ==> Of(other) == old(Of(other))
    {
      if key == "" || "bad" <= key {
        return Answer(401, None);
      }
      calls := calls[key := Of(key).calls + 1];
      if "flaky" <= key && calls[key] % 2 == 0 {
        return Answer(500, None);
      }
      PopElapsed(key, now);
      a := CheckLimits(key, now);
    }

    method PopElapsed(key: string, now: Time)
      modifies this`sends
      ensures Of(key) == Looked(old(Of(key)), now)
      ensures forall other :: other != key ==> Of(other) == old(Of(other))
    {
      var q := Of(key).sends;
      while q != [] && now - q[0] >= WINDOW
        invariant Prune(q, now, WINDOW) == Prune(old(Of(key).sends), now, WINDOW)
        decreases |q|
      {
        q := q[1..];
      }
      sends := sends[key := q];
    }

    method CheckLimits(key: string, now: Time) returns (a: Answer)
      modifies this`sends, this`used
      ensures (Of(key), a) == Admit(setup, old(Of(key)), now)
      ensures forall other :: other != key ==> Of(other) == old(Of(other))
    {
      if setup.month != 0 && Of(key).used >= setup.month {
        return Answer(429, Some(ReportOn(setup, Of(key), now)));
      }
      if |Of(key).sends| >= setup.rps {
        return Answer(429, Some(ReportOn(setup, Of(key), now)));
      }
      sends := sends[key := Of(key).sends + [now]];
      used := used[key := Of(key).used + 1];
      return Answer(200, Some(ReportOn(setup, Of(key), now)));
    }
  }

  // ----- what the proxy reads from an answer ---------------------------------------------------------------

  lemma IntIsPlain(i: int)
    ensures Plain(DecimalInt(i))
    ensures ParseU64(DecimalInt(i)) == AsU64(i)
  {
    if i < 0 {
      DecimalIsPlain(-i);
      ParseNegative(-i);
    } else {
      DecimalIsPlain(i);
      ParseDecimal(i);
    }
  }

  function AsU64(i: int): Option<U64> {
    if 0 <= i <= U64_MAX then Some(i) else None
  }

  lemma IntsRoundTrip(a: int, b: int)
    ensures ParseWindows(Pair(DecimalInt(a), DecimalInt(b))) == Windows(AsU64(a), AsU64(b))
  {
    IntIsPlain(a);
    IntIsPlain(b);
    PairRoundTrip(DecimalInt(a), DecimalInt(b));
  }

  /** What the numbers of an answer mean to the proxy; a reset in the past means none. */
  function InfoOf(s: Setup, a: Answer): Option<RateLimitInfo>
    requires Fits(s, a)
  {
    match a.report
    case None => None
    case Some(r) =>
      Some(RateLimitInfo(Windows(Some(s.rps), Some(s.month)),
                         Windows(Some(r.secondsLeft), Some(r.monthLeft)),
                         Windows(AsU64(r.secondReset), AsU64(r.monthReset)),
                         Windows(Some(1), Some(MONTH_WINDOW)),
                         None))
  }

  /** The numbers fit into 64 bits. */
  predicate Fits(s: Setup, a: Answer) {
    s.rps <= U64_MAX && s.month <= U64_MAX &&
    (a.report.Some? ==> a.report.value.secondsLeft <= U64_MAX && a.report.value.monthLeft <= U64_MAX)
  }

  /** The proxy parses from the printed headers exactly what the simulator meant. */
  lemma AnswerIsUnderstood(s: Setup, a: Answer)
    requires Fits(s, a)
    ensures FromHeaders(HeadersOf(s, a)) == InfoOf(s, a)
  {
    if a.report.Some? {
      var r := a.report.value;
      NumbersRoundTrip(s.rps, s.month);
      NumbersRoundTrip(r.secondsLeft, r.monthLeft);
      IntsRoundTrip(r.secondReset, r.monthReset);
      PolicyRoundTrip(s.rps, 1, s.month, MONTH_WINDOW);
    }
  }

  lemma ServedFits(s: Setup, r: Record, key: string, now: Time)
    requires s.rps <= U64_MAX && s.month <= U64_MAX
    ensures Fits(s, Serve(s, r, key, now).1)
  {
  }
}

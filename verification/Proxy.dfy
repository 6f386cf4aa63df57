/** One client request: the attempt loop over the pool, and the pool-wide headers of its response. */
module Proxy {
  import opened Prelude
  import opened Text
  import opened RateLimit
  import opened HeaderText
  import opened KeySpec
  import opened PoolSpec
  import opened KeyRuns
  import opened KeyStates
  import opened Pools
  import opened Tallies
  import opened Retry
  import opened Course

  /** A refusal tells the result it comes from, with the wait it gives cut to whole milliseconds. */
  predicate RefusedBy(reply: ClientReply, last: AcquireResult) {
    match reply
    case RotatorSaturated(ms) => last.Saturated? && CutToMillis(ms, last.retryAfter)
    case NoUsableKey(ms) =>
      last.NoneUsable? && (ms.Some? <==> last.nextProbe.Some?) && (ms.Some? ==> CutToMillis(ms.value, last.nextProbe.value))
    case _ => last.Granted?
  }

  predicate CutToMillis(ms: nat, wait: nat) {
    ms * 1_000_000 <= wait < (ms + 1) * 1_000_000
  }

  /** Acquires a key for a request that `ms` has led to `q`. */
  method AcquireFor(pool: Pool, start: Time, deadline: Time, tried: seq<nat>,
                    ghost t: Terms, ghost ms: seq<Move>, ghost q: Request)
    returns (r: AcquireResult, idx: nat, now: Time, ghost more: seq<Move>, ghost q1: Request)
    requires pool.Valid() && q.stage.Acquiring? && q.tried == tried
    requires t.window == pool.Window() && t.deadline == deadline
    requires LeadsBy(t, ms, pool.View(), q, start)
    modifies pool.keys
    ensures r.Granted? ==> r.idx == idx < |pool.keys|
    ensures LeadsBy(t, more, pool.View(), q1, now) && Results(q, q1, r) && Heard(more) == Heard(ms)
  {
    ghost var before := pool.View();
    ghost var tries;
    r, now, tries := pool.Acquire(start, deadline, tried);
    idx := if r.Granted? then r.idx else 0;
    more, q1 := WholeWait(t, ms, before, pool.View(), q, tries, r);
  }

  method RecordFor(pool: Pool, now: Time, idx: nat, o: Outcome, ghost t: Terms, ghost ms: seq<Move>, ghost q: Request)
    returns (v: Verdict)
    requires pool.Valid() && idx < |pool.keys| && q.stage == InFlight(idx)
    requires Leads(t, ms, pool.View(), q) && Until(t, ms) <= now
    modifies pool.keys
    ensures v == VerdictOf(o)
    ensures Leads(t, ms + [Answer(0, now, o)], pool.View(), Answered(q, |pool.keys|, o))
  {
    OneAnswer(t, ms, pool.View(), q, now, o);
    v := pool.Record(now, idx, o);
  }

  /** `q1` is `q` after one more attempt, which ended with the given result and, if granted, outcome. */
  predicate Continues(q: Request, q1: Request, keys: nat, r: AcquireResult, o: Outcome) {
    match r
    case Granted(i) =>
      var retry := AsksForAnother(o);
      && q1.tried == q.tried + [i]
      && q1.lastResponse == (if retry && o.Response? then Some((o.status, i)) else q.lastResponse)
      && q1.stage == (if !retry then Done(FromUpstream(o.status, i, |q1.tried|))
                      else if |q1.tried| < MaxAttempts(keys) then Acquiring
                      else Done(GiveUp(q1.lastResponse, |q1.tried|)))
    case _ => Results(q, q1, r)
  }

  lemma AnswerContinues(q: Request, q1: Request, keys: nat, r: AcquireResult, o: Outcome)
    requires r.Granted? && Results(q, q1, r)
    ensures Continues(q, Answered(q1, keys, o), keys, r, o)
  {
    VerdictIff(o);
  }

  /** What the client is told when no key is to be had. */
  function Refusal(r: AcquireResult): ClientReply
    requires !r.Granted?
  {
    match r
    case Saturated(wait) => RotatorSaturated(WholeMillis(wait))
    case NoneUsable(wait) => NoUsableKey(SomeMillis(wait))
  }

  /** All attempts so far asked for another key, and the request stands accordingly. */
  predicate Retrying(q: Request, heard: seq<Outcome>, tried: seq<nat>, outcomes: seq<Outcome>, keys: nat) {
    && |tried| <= MaxAttempts(keys) <= |outcomes|
    && heard == outcomes[..|tried|] && AllRetried(outcomes, |tried|)
    && q.tried == tried && q.lastResponse == LastResponse(tried, outcomes)
    && q.stage == if |tried| < MaxAttempts(keys) then Acquiring else Done(GiveUp(q.lastResponse, |tried|))
  }

  /** The request is over with `reply`, and rightly so. */
  predicate Over(reply: ClientReply, q: Request, heard: seq<Outcome>, tried: seq<nat>, outcomes: seq<Outcome>,
                 keys: nat, last: AcquireResult)
  {
    && |tried| <= MaxAttempts(keys) <= |outcomes|
    && heard == outcomes[..|tried|] && q.tried == tried && q.stage == Done(reply)
    && RightReply(reply, tried, outcomes, keys) && RefusedBy(reply, last)
  }

  /** What one more attempt leads to: a refusal, another attempt, or the reply. */
  predicate Follows(q: Request, heard: seq<Outcome>, tried: seq<nat>, outcomes: seq<Outcome>, keys: nat,
                    r: AcquireResult, o: Outcome)
  {
    match r
    case Granted(i) =>
      if AsksForAnother(o) then Retrying(q, heard, tried + [i], outcomes, keys)
      else Over(FromUpstream(o.status, i, |tried| + 1), q, heard, tried + [i], outcomes, keys, r)
    case _ => Over(Refusal(r), q, heard, tried, outcomes, keys, r)
  }

  lemma AttemptFollows(q: Request, q1: Request, heard: seq<Outcome>, heard1: seq<Outcome>, tried: seq<nat>,
                       outcomes: seq<Outcome>, keys: nat, r: AcquireResult, o: Outcome)
    requires Retrying(q, heard, tried, outcomes, keys) && |tried| < MaxAttempts(keys) && o == outcomes[|tried|]
    requires Continues(q, q1, keys, r, o) && heard1 == heard + if r.Granted? then [o] else []
    ensures Follows(q1, heard1, tried, outcomes, keys, r, o)
  {
    if r.Granted? {
      var more := tried + [r.idx];
      assert Init(more) == tried && Last(more) == r.idx;
      assert outcomes[..|more|] == outcomes[..|tried|] + [o];
    }
  }

  /** Acquires a key, sends, and records what came back, if a key was to be had. */
  method AttemptOnce(pool: Pool, start: Time, deadline: Time, tried: seq<nat>, outcomes: seq<Outcome>,
                     ghost t: Terms, ghost ms: seq<Move>, ghost q: Request)
    returns (r: AcquireResult, verdict: Verdict, now: Time, ghost more: seq<Move>, ghost q1: Request)
    requires pool.Valid() && |tried| < MaxAttempts(|pool.keys|) && Retrying(q, Heard(ms), tried, outcomes, |pool.keys|)
    requires t.window == pool.Window() && t.deadline == deadline
    requires LeadsBy(t, ms, pool.View(), q, start)
    modifies pool.keys
    ensures verdict == RetryOtherKey <==> AsksForAnother(outcomes[|tried|])
    ensures LeadsBy(t, more, pool.View(), q1, now)
    ensures Follows(q1, Heard(more), tried, outcomes, |pool.keys|, r, outcomes[|tried|])
  {
    var o := outcomes[|tried|];
    verdict := VerdictOf(o);
    VerdictIff(o);
    var idx;
    r, idx, now, more, q1 := AcquireFor(pool, start, deadline, tried, t, ms, q);
    if r.Granted? {
      now := NotBefore(now);
      verdict := RecordFor(pool, now, idx, o, t, more, q1);
      AnotherMove(t, more, Answer(0, now, o));
      AnswerContinues(q, q1, |pool.keys|, r, o);
      more, q1 := more + [Answer(0, now, o)], Answered(q1, |pool.keys|, o);
    }
    AttemptFollows(q, q1, Heard(ms), Heard(more), tried, outcomes, |pool.keys|, r, o);
  }

  /**
   The request is rightly over with `reply`: the given moves of the retry protocol, made by a request
   alone with the pool, lead there; it was given the right keys; and the pool has counted one success
   if the client gets one, and none otherwise.
   */
  ghost predicate Served(t: Terms, ms: seq<Move>, ks: Keys, q: Request, reply: ClientReply, tried: seq<nat>,
                         outcomes: seq<Outcome>, last: AcquireResult)
  {
    && Leads(t, ms, ks, q)
    && Over(reply, q, Heard(ms), tried, outcomes, |ks|, last)
    && WellLeased(q, |ks|)
    && TotalOk(ks) == TotalOk(t.pool) + (if IsSuccess(reply) then 1 else 0)
  }

  lemma CourseEnds(t: Terms, ms: seq<Move>, ks: Keys, q: Request, reply: ClientReply, tried: seq<nat>,
                   outcomes: seq<Outcome>, last: AcquireResult)
    requires Leads(t, ms, ks, q) && Over(reply, q, Heard(ms), tried, outcomes, |ks|, last)
    ensures Served(t, ms, ks, q, reply, tried, outcomes, last)
  {
    WellLed(t, ms, ks, q);
    OneSuccess(t, ms, ks, q);
  }

  /** All attempts so far asked for another key, and the loop knows the last response. */
  predicate Underway(q: Request, ms: seq<Move>, tried: seq<nat>, outcomes: seq<Outcome>, keys: nat,
                     lastResponse: Option<(nat, nat)>)
  {
    Retrying(q, Heard(ms), tried, outcomes, keys) && lastResponse == q.lastResponse
  }

  lemma GivingUp(q: Request, ms: seq<Move>, tried: seq<nat>, outcomes: seq<Outcome>, keys: nat,
                 lastResponse: Option<(nat, nat)>, last: AcquireResult)
    requires Underway(q, ms, tried, outcomes, keys, lastResponse) && last.Granted? && |tried| == MaxAttempts(keys)
    ensures Over(GiveUp(lastResponse, |tried|), q, Heard(ms), tried, outcomes, keys, last)
  {
  }

  /** Serves one request; the outcomes of its attempts come from upstream. */
  method Handle(pool: Pool, started: Time, maxQueueWait: nat, outcomes: seq<Outcome>)
    returns (reply: ClientReply, tried: seq<nat>, ghost last: AcquireResult, ghost ms: seq<Move>, ghost q: Request)
    requires pool.Valid() && |outcomes| >= MaxAttempts(|pool.keys|)
    modifies pool.keys
    ensures Served(Terms(old(pool.View()), pool.Window(), started, started + maxQueueWait), ms, pool.View(), q,
                   reply, tried, outcomes, last)
  {
    var deadline := started + maxQueueWait;
    ghost var t := Terms(pool.View(), pool.Window(), started, deadline);
    var maxAttempts := MaxAttempts(|pool.keys|);
    var attempts: nat := 0;
    tried := [];
    var lastResponse: Option<(nat, nat)> := None;
    var acquireError: Option<ClientReply> := None;
    var now := started;
    ms, q, last := [], NEW_REQUEST, Granted(0);
    NothingDone(t);
    while attempts < maxAttempts
      invariant attempts == |tried| && acquireError == None && last.Granted?
      invariant Underway(q, ms, tried, outcomes, |pool.keys|, lastResponse)
      invariant LeadsBy(t, ms, pool.View(), q, now)
    {
      var o := outcomes[attempts];
      var r, verdict;
      r, verdict, now, ms, q := AttemptOnce(pool, now, deadline, tried, outcomes, t, ms, q);
      last := r;
      if !r.Granted? {
        acquireError := Some(Refusal(r));
        break;
      }
      attempts := attempts + 1;
      tried := tried + [r.idx];
      if verdict != RetryOtherKey {
        reply := FromUpstream(o.status, r.idx, attempts);
        CourseEnds(t, ms, pool.View(), q, reply, tried, outcomes, last);
        return;
      }
      if o.Response? {
        lastResponse := Some((o.status, r.idx));
      }
    }
    if acquireError.Some? {
      reply := acquireError.value;
    } else {
      GivingUp(q, ms, tried, outcomes, |pool.keys|, lastResponse, last);
      reply := GiveUp(lastResponse, attempts);
    }
    CourseEnds(t, ms, pool.View(), q, reply, tried, outcomes, last);
  }

  // ----- pool-wide headers ---------------------------------------------------------------------------------

  /** A monthly value of 0 means no monthly cap; an unknown one is printed as a question mark. */
  function MonthText(s: Summary, month: Option<nat>): string {
    if s.unlimitedKeys > 0 then "0" else if month.Some? then Decimal(month.value) else "?"
  }

  function MonthMeant(s: Summary, month: Option<nat>): Option<nat> {
    if s.unlimitedKeys > 0 then Some(0) else month
  }

  /** Headers that concern one connection only (section 7.6.1 of RFC 9110) or that the proxy sets itself. */
  predicate HopByHop(name: string) {
    name in {"connection", "keep-alive", "proxy-authenticate", "proxy-authorization", "te", "trailer",
             "transfer-encoding", "upgrade", "content-length"}
  }

  predicate Stripped(name: string) {
    HopByHop(name) || "x-ratelimit-" <= name
  }

  /** Header fields by name, each with its values in order. */
  type Fields = map<string, seq<string>>

  function ValuesOf(h: Fields, name: string): seq<string> {
    if name in h then h[name] else []
  }

  function Append(h: Fields, name: string, value: string): Fields {
    h[name := ValuesOf(h, name) + [value]]
  }

  /** Replaces the values of a field, unless the new one is no header value. */
  function Set(h: Fields, name: string, value: string, accepts: string -> bool): Fields {
    if accepts(value) then h[name := [value]] else h
  }

  /** The values of `name` in a list of header lines. */
  function ValuesIn(lines: seq<(string, string)>, name: string): seq<string> {
    if lines == [] then [] else ValuesIn(Init(lines), name) + if Last(lines).0 == name then [Last(lines).1] else []
  }

  /** What the proxy itself has to say under a header name. */
  function OwnValue(name: string, s: Summary, keyLabel: string, attempts: nat): Option<string> {
    if name == "x-ratelimit-limit" then Some(Pair(Decimal(s.rpsCapacity), MonthText(s, s.monthLimit)))
    else if name == "x-ratelimit-remaining" then Some(Pair(Decimal(s.slots), MonthText(s, s.monthRemaining)))
    else if name == "x-rotator-key" then Some(keyLabel)
    else if name == "x-rotator-attempts" then Some(Decimal(attempts))
    else None
  }

  /** Upstream's headers without the stripped ones: every other field keeps its values and their order. */
  method Forward(upstream: seq<(string, string)>) returns (h: Fields)
    ensures forall name :: ValuesOf(h, name) == if Stripped(name) then [] else ValuesIn(upstream, name)
  {
    h := map[];
    for n := 0 to |upstream|
      invariant forall name :: ValuesOf(h, name) == if Stripped(name) then [] else ValuesIn(upstream[..n], name)
    {
      assert upstream[..n + 1] == upstream[..n] + [upstream[n]] && Init(upstream[..n + 1]) == upstream[..n];
      if !Stripped(upstream[n].0) {
        h := Append(h, upstream[n].0, upstream[n].1);
      }
    }
    assert upstream[..|upstream|] == upstream;
  }

  /** The headers of a response: the pool's view in place of the key's, the rest as upstream sent it. */
  method BuildHeaders(upstream: seq<(string, string)>, s: Summary, keyLabel: string, attempts: nat, accepts: string -> bool)
    returns (h: Fields)
    ensures forall name ::
              ValuesOf(h, name) ==
              (var own := OwnValue(name, s, keyLabel, attempts);
               if own.Some? && accepts(own.value) then [own.value]
               else if Stripped(name) then [] else ValuesIn(upstream, name))
  {
    h := Forward(upstream);
    h := Set(h, "x-ratelimit-limit", Pair(Decimal(s.rpsCapacity), MonthText(s, s.monthLimit)), accepts);
    h := Set(h, "x-ratelimit-remaining", Pair(Decimal(s.slots), MonthText(s, s.monthRemaining)), accepts);
    h := Set(h, "x-rotator-key", keyLabel, accepts);
    h := Set(h, "x-rotator-attempts", Decimal(attempts), accepts);
  }

  /** A client that parses the printed header as the proxy parses Brave's reads the summary back. */
  lemma PoolHeaderRoundTrip(s: Summary, number: U64, month: Option<nat>)
    requires month.Some? ==> month.value <= U64_MAX
    ensures ParseWindows(Pair(Decimal(number), MonthText(s, month))) == Windows(Some(number), MonthMeant(s, month))
  {
    if s.unlimitedKeys > 0 {
      assert Decimal(0) == "0";
      NumbersRoundTrip(number, 0);
    } else if month.Some? {
      NumbersRoundTrip(number, month.value);
    } else {
      UnknownMonthRoundTrip(number);
    }
  }

  /** Of all rate-limit fields only two can reach the client, both the pool's own. */
  lemma KeyLimitsAreHidden(name: string, s: Summary, keyLabel: string, attempts: nat)
    requires "x-ratelimit-" <= name
    ensures Stripped(name)
    ensures OwnValue(name, s, keyLabel, attempts).Some? <==> name in {"x-ratelimit-limit", "x-ratelimit-remaining"}
  {
    assert name[3] == "x-ratelimit-"[3] == 'a' && "x-rotator-key"[3] == "x-rotator-attempts"[3] == 'o';
  }

  /** Under the limit header a client reads capacity and monthly limit. */
  lemma LimitHeaderMeans(s: Summary, keyLabel: string, attempts: nat)
    requires s.rpsCapacity <= U64_MAX && (s.monthLimit.Some? ==> s.monthLimit.value <= U64_MAX)
    ensures var own := OwnValue("x-ratelimit-limit", s, keyLabel, attempts);
            own.Some? && ParseWindows(own.value) ==
                         Windows(Some(s.rpsCapacity), if s.unlimitedKeys > 0 then Some(0) else s.monthLimit)
  {
    PoolHeaderRoundTrip(s, s.rpsCapacity, s.monthLimit);
  }

  /** Under the remaining header it reads the free slots and what is left of the month. */
  lemma RemainingHeaderMeans(s: Summary, keyLabel: string, attempts: nat)
    requires s.slots <= U64_MAX && (s.monthRemaining.Some? ==> s.monthRemaining.value <= U64_MAX)
    ensures var own := OwnValue("x-ratelimit-remaining", s, keyLabel, attempts);
            own.Some? && ParseWindows(own.value) ==
                         Windows(Some(s.slots), if s.unlimitedKeys > 0 then Some(0) else s.monthRemaining)
  {
    PoolHeaderRoundTrip(s, s.slots, s.monthRemaining);
  }

  /** Under the proxy's own names it reads the key and the attempts made. */
  lemma RotatorHeadersMean(s: Summary, keyLabel: string, attempts: U64)
    ensures OwnValue("x-rotator-key", s, keyLabel, attempts) == Some(keyLabel)
    ensures var own := OwnValue("x-rotator-attempts", s, keyLabel, attempts);
            own.Some? && ParseU64(own.value) == Some(attempts)
  {
    ParseDecimal(attempts);
  }
}

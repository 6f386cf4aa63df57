/** Many requests retrying over one pool: what is conserved however they interleave. */
module Retry {
  import opened Prelude
  import opened KeySpec
  import opened PoolSpec
  import opened Selection
  import opened KeyRuns
  import opened Tallies
  import opened Accounts
  import opened Counting

  /** Leases a request may take: at least 2, at most 5, otherwise one per key. */
  function MaxAttempts(keys: nat): nat {
    Min(Max(keys, 2), 5)
  }

  datatype ClientReply =
    | FromUpstream(status: nat, idx: nat, attempts: nat)
    | RotatorSaturated(retryAfterMs: nat)
    | NoUsableKey(nextProbeMs: Option<nat>)
    | Unreachable

  /** Dropped: the client went away and the request with it. */
  datatype Stage = Acquiring | InFlight(idx: nat) | Done(reply: ClientReply) | Dropped

  /** How the pool stood when a request was given a key: whether all keys it had not tried were parked, or none at all. */
  datatype Moment = Moment(othersParked: bool, noneParked: bool)

  predicate NoneParked(ks: Keys, now: Time) {
    forall j: nat :: j < |ks| ==> Up(ks[j], now)
  }

  function MomentOf(ks: Keys, now: Time, tried: seq<nat>): Moment {
    Moment(OthersParked(ks, now, tried), NoneParked(ks, now))
  }

  /** One request: the keys it tried and when, what it heard, the last response worth returning, and where it is. */
  datatype Request = Request(
    tried: seq<nat>,
    moments: seq<Moment>,
    heard: seq<Outcome>,
    lastResponse: Option<(nat, nat)>,
    stage: Stage)

  const NEW_REQUEST := Request([], [], [], None, Acquiring)

  /** The loop is over without a verdict: the last response, if there was one, is returned. */
  function GiveUp(lastResponse: Option<(nat, nat)>, attempts: nat): ClientReply {
    if lastResponse.Some? then FromUpstream(lastResponse.value.0, lastResponse.value.1, attempts) else Unreachable
  }

  /** A request after the outcome of its attempt. */
  function Answered(r: Request, keys: nat, o: Outcome): Request
    requires r.stage.InFlight?
  {
    var q := r.(heard := r.heard + [o]);
    match VerdictOf(o)
    case RetryOtherKey =>
      var last := if o.Response? then Some((o.status, r.stage.idx)) else r.lastResponse;
      q.(lastResponse := last,
         stage := if |r.tried| < MaxAttempts(keys) then Acquiring else Done(GiveUp(last, |r.tried|)))
    case _ => q.(stage := Done(FromUpstream(o.status, r.stage.idx, |r.tried|)))
  }

  /** `unclassified` and `lost` count, per key, outcomes without a class and leases never recorded. */
  datatype System = System(pool: Keys, requests: seq<Request>, unclassified: seq<nat>, lost: seq<nat>)

  datatype Move =
    | Open
    | Attempt(r: nat, now: Time, deadline: Time)
    | Answer(r: nat, now: Time, outcome: Outcome)
    | Drop(r: nat)
    | Look(now: Time)

  predicate Enabled(s: System, m: Move) {
    match m
    case Open => true
    case Attempt(r, _, _) => r < |s.requests| && s.requests[r].stage.Acquiring?
    case Answer(r, _, _) => r < |s.requests| && s.requests[r].stage.InFlight? && s.requests[r].stage.idx < |s.pool|
    case Drop(r) => r < |s.requests| && !s.requests[r].stage.Done? && !s.requests[r].stage.Dropped?
    case Look(_) => true
  }

  /** A request after one attempt to acquire a key. */
  function Attempted(q: Request, reply: Reply, now: Time, deadline: Time, m: Moment): Request {
    match reply
    case Leased(i) => q.(tried := q.tried + [i], moments := q.moments + [m], stage := InFlight(i))
    case At(at) => if at > deadline then q.(stage := Done(RotatorSaturated(WholeMillis(SatSub(at, now))))) else q
    case Unavailable(earliest) =>
      q.(stage := Done(NoUsableKey(if earliest.Some? then Some(WholeMillis(SatSub(earliest.value, now))) else None)))
  }

  function Bump(counts: seq<nat>, i: nat): seq<nat> {
    if i < |counts| then counts[i := counts[i] + 1] else counts
  }

  function Apply(s: System, window: nat, m: Move): System
    requires Enabled(s, m)
  {
    match m
    case Open => s.(requests := s.requests + [NEW_REQUEST])
    case Attempt(r, now, deadline) =>
      var q := s.requests[r];
      var (pool, reply) := TryAcquire(s.pool, now, window, q.tried);
      s.(pool := pool, requests := s.requests[r := Attempted(q, reply, now, deadline, MomentOf(s.pool, now, q.tried))])
    case Answer(r, now, o) =>
      var i := s.requests[r].stage.idx;
      s.(pool := Record(s.pool, now, i, o).0,
         requests := s.requests[r := Answered(s.requests[r], |s.pool|, o)],
         unclassified := if Unclassified(o) then Bump(s.unclassified, i) else s.unclassified)
    case Drop(r) =>
      var q := s.requests[r];
      s.(requests := s.requests[r := q.(stage := Dropped)],
         lost := if q.stage.InFlight? then Bump(s.lost, q.stage.idx) else s.lost)
    case Look(now) => s.(pool := Observe(s.pool, now, window))
  }

  // ----- each request -------------------------------------------------------------------------------------

  predicate IsSuccess(reply: ClientReply) {
    reply.FromUpstream? && 200 <= reply.status <= 299
  }

  predicate Succeeds(r: Request) {
    r.stage.Done? && IsSuccess(r.stage.reply)
  }

  /** Attempts stay within bounds, and only failed responses are kept for later. */
  predicate WellBehaved(r: Request, keys: nat) {
    && |r.tried| <= MaxAttempts(keys)
    && (r.stage.Acquiring? ==> |r.tried| < MaxAttempts(keys))
    && (forall a :: 0 <= a < |r.tried| ==> r.tried[a] < keys)
    && (r.lastResponse.Some? ==> !(200 <= r.lastResponse.value.0 <= 299))
    && (r.stage.InFlight? ==> r.tried != [] && Last(r.tried) == r.stage.idx)
  }

  ghost predicate AllWellBehaved(s: System) {
    forall r :: 0 <= r < |s.requests| ==> WellBehaved(s.requests[r], |s.pool|)
  }

  lemma AttemptWellBehaved(q: Request, reply: Reply, now: Time, deadline: Time, m: Moment, keys: nat)
    requires WellBehaved(q, keys) && q.stage.Acquiring? && (reply.Leased? ==> reply.idx < keys)
    ensures WellBehaved(Attempted(q, reply, now, deadline, m), keys)
  {
  }

  lemma AnswerWellBehaved(q: Request, keys: nat, o: Outcome)
    requires WellBehaved(q, keys) && q.stage.InFlight?
    ensures WellBehaved(Answered(q, keys, o), keys)
  {
  }

  lemma StaysWellBehaved(s: System, window: nat, m: Move)
    requires AllWellBehaved(s) && Enabled(s, m)
    ensures AllWellBehaved(Apply(s, window, m))
  {
    match m
    case Attempt(r, now, deadline) =>
      var q := s.requests[r];
      AttemptWellBehaved(q, TryAcquire(s.pool, now, window, q.tried).1, now, deadline,
                         MomentOf(s.pool, now, q.tried), |s.pool|);
    case Answer(r, _, o) => AnswerWellBehaved(s.requests[r], |s.pool|, o);
    case _ =>
  }

  // ----- what the client gets -----------------------------------------------------------------------------

  /** The first `n` outcomes all asked for another key. */
  predicate AllRetried(outcomes: seq<Outcome>, n: nat)
    requires n <= |outcomes|
  {
    forall k :: 0 <= k < n ==> AsksForAnother(outcomes[k])
  }

  /** Status and key of the most recent attempt that got a response at all. */
  function LastResponse(tried: seq<nat>, outcomes: seq<Outcome>): Option<(nat, nat)>
    requires |tried| <= |outcomes|
  {
    if tried == [] then None
    else if outcomes[|tried| - 1].Response? then Some((outcomes[|tried| - 1].status, Last(tried)))
    else LastResponse(Init(tried), outcomes)
  }

  /**
   The reply a client gets after `tried`. A response is always the most recent one; it is returned at once
   if it did not ask for another key, otherwise only when all attempts are used. An upstream error needs
   all attempts to have failed in transport. Being refused a key hides any response.
   */
  predicate RightReply(reply: ClientReply, tried: seq<nat>, outcomes: seq<Outcome>, keys: nat)
    requires |tried| <= |outcomes|
  {
    match reply
    case FromUpstream(status, idx, attempts) =>
      attempts == |tried| > 0 && LastResponse(tried, outcomes) == Some((status, idx)) &&
      AllRetried(outcomes, attempts - 1) &&
      (AsksForAnother(outcomes[attempts - 1]) ==> attempts == MaxAttempts(keys))
    case Unreachable =>
      |tried| == MaxAttempts(keys) && LastResponse(tried, outcomes) == None && AllRetried(outcomes, |tried|)
    case _ => |tried| < MaxAttempts(keys) && AllRetried(outcomes, |tried|)
  }

  /** A request has heard about all its attempts but one in flight or lost, and its client gets the right reply. */
  predicate WellAnswered(r: Request, keys: nat) {
    match r.stage
    case Acquiring =>
      |r.heard| == |r.tried| && AllRetried(r.heard, |r.heard|) && r.lastResponse == LastResponse(r.tried, r.heard)
    case InFlight(_) =>
      |r.heard| + 1 == |r.tried| && AllRetried(r.heard, |r.heard|) && r.lastResponse == LastResponse(Init(r.tried), r.heard)
    case Done(reply) => |r.heard| == |r.tried| && RightReply(reply, r.tried, r.heard, keys)
    case Dropped => |r.heard| <= |r.tried| <= |r.heard| + 1 && AllRetried(r.heard, |r.heard|)
  }

  ghost predicate AllWellAnswered(s: System) {
    forall r :: 0 <= r < |s.requests| ==> WellAnswered(s.requests[r], |s.pool|)
  }

  lemma {:induction false} LastResponseStays(tried: seq<nat>, heard: seq<Outcome>, o: Outcome)
    requires |tried| <= |heard|
    ensures LastResponse(tried, heard + [o]) == LastResponse(tried, heard)
  {
    if tried != [] {
      LastResponseStays(Init(tried), heard, o);
    }
  }

  lemma AnswerWellAnswered(q: Request, keys: nat, o: Outcome)
    requires WellAnswered(q, keys) && WellBehaved(q, keys) && q.stage.InFlight?
    ensures WellAnswered(Answered(q, keys, o), keys)
  {
    VerdictIff(o);
    LastResponseStays(Init(q.tried), q.heard, o);
    assert (q.heard + [o])[|q.tried| - 1] == o;
  }

  lemma AttemptWellAnswered(q: Request, reply: Reply, now: Time, deadline: Time, m: Moment, keys: nat)
    requires WellAnswered(q, keys) && WellBehaved(q, keys) && q.stage.Acquiring?
    ensures WellAnswered(Attempted(q, reply, now, deadline, m), keys)
  {
    if reply.Leased? {
      assert Init(q.tried + [reply.idx]) == q.tried;
    }
  }

  lemma StaysWellAnswered(s: System, window: nat, m: Move)
    requires AllWellBehaved(s) && AllWellAnswered(s) && Enabled(s, m)
    ensures AllWellAnswered(Apply(s, window, m))
  {
    match m
    case Attempt(r, now, deadline) =>
      var q := s.requests[r];
      AttemptWellAnswered(q, TryAcquire(s.pool, now, window, q.tried).1, now, deadline,
                          MomentOf(s.pool, now, q.tried), |s.pool|);
    case Answer(r, _, o) => AnswerWellAnswered(s.requests[r], |s.pool|, o);
    case _ =>
  }

  /** A request makes two to five attempts: as many as there are keys, between these bounds. */
  lemma AttemptsAreBounded(keys: nat)
    ensures 2 <= MaxAttempts(keys) <= 5
    ensures 2 <= keys <= 5 ==> MaxAttempts(keys) == keys
    ensures keys < 2 ==> MaxAttempts(keys) == 2
    ensures keys > 5 ==> MaxAttempts(keys) == 5
  {
  }

  // ----- which keys a request gets ------------------------------------------------------------------------

  /** A key given after `earlier` ones: an old one only when the others are parked, which takes a parked key. */
  predicate RightKey(earlier: seq<nat>, i: nat, m: Moment, keys: nat) {
    (i in earlier ==> m.othersParked) && (keys >= 2 && m.noneParked ==> !m.othersParked)
  }

  predicate WellLeased(r: Request, keys: nat) {
    |r.moments| == |r.tried| && forall b :: 0 <= b < |r.tried| ==> RightKey(r.tried[..b], r.tried[b], r.moments[b], keys)
  }

  ghost predicate AllWellLeased(s: System) {
    forall r :: 0 <= r < |s.requests| ==> WellLeased(s.requests[r], |s.pool|)
  }

  /** While a request has attempts left and no key is parked, some key is new to it. */
  lemma SomeKeyIsNew(ks: Keys, now: Time, tried: seq<nat>)
    requires |ks| >= 2 && |tried| < MaxAttempts(|ks|) && NoneParked(ks, now)
    ensures !OthersParked(ks, now, tried)
  {
    if OthersParked(ks, now, tried) {
      forall j: nat | j < |ks| ensures j in SetOf(tried) {
        assert Up(ks[j], now);
      }
      BelowSize(|ks|);
      SetOfSize(tried);
      SubsetSize(Below(|ks|), SetOf(tried));
      assert false;
    }
  }

  lemma AttemptGivesRightKey(ks: Keys, now: Time, window: nat, tried: seq<nat>, i: nat)
    requires |tried| < MaxAttempts(|ks|) && TryAcquire(ks, now, window, tried).1 == Leased(i)
    ensures RightKey(tried, i, MomentOf(ks, now, tried), |ks|)
  {
    ReplyIsEntitled(ks, now, window, tried);
    if |ks| >= 2 && NoneParked(ks, now) {
      SomeKeyIsNew(ks, now, tried);
    }
  }

  lemma AttemptWellLeased(ks: Keys, now: Time, window: nat, q: Request, deadline: Time)
    requires WellLeased(q, |ks|) && |q.tried| < MaxAttempts(|ks|)
    ensures WellLeased(Attempted(q, TryAcquire(ks, now, window, q.tried).1, now, deadline, MomentOf(ks, now, q.tried)), |ks|)
  {
    var reply := TryAcquire(ks, now, window, q.tried).1;
    if reply.Leased? {
      AttemptGivesRightKey(ks, now, window, q.tried, reply.idx);
      OneMoreLeased(q, reply.idx, MomentOf(ks, now, q.tried), |ks|);
    }
  }

  lemma OneMoreLeased(q: Request, i: nat, m: Moment, keys: nat)
    requires WellLeased(q, keys) && RightKey(q.tried, i, m, keys)
    ensures WellLeased(q.(tried := q.tried + [i], moments := q.moments + [m], stage := InFlight(i)), keys)
  {
    var tried, moments := q.tried + [i], q.moments + [m];
    forall b | 0 <= b < |tried| ensures RightKey(tried[..b], tried[b], moments[b], keys) {
      assert tried[..b] == q.tried[..b];
      assert b == |q.tried| ==> q.tried[..b] == q.tried;
    }
  }

  lemma StaysWellLeased(s: System, window: nat, m: Move)
    requires AllWellBehaved(s) && AllWellLeased(s) && Enabled(s, m)
    ensures AllWellLeased(Apply(s, window, m))
  {
    match m
    case Attempt(r, now, deadline) => AttemptWellLeased(s.pool, now, window, s.requests[r], deadline);
    case _ =>
  }

  // ----- counting over all requests ---------------------------------------------------------------------

  function Count(rs: seq<Request>, p: Request -> bool): nat {
    if rs == [] then 0 else Count(Init(rs), p) + if p(Last(rs)) then 1 else 0
  }

  lemma {:induction false} CountUpdate(rs: seq<Request>, r: nat, q: Request, p: Request -> bool)
    requires r < |rs|
    ensures Count(rs[r := q], p) + (if p(rs[r]) then 1 else 0) == Count(rs, p) + (if p(q) then 1 else 0)
  {
    var changed := rs[r := q];
    if r == |rs| - 1 {
      assert Init(changed) == Init(rs);
    } else {
      assert Init(changed) == Init(rs)[r := q];
      CountUpdate(Init(rs), r, q, p);
    }
  }

  lemma CountMore(rs: seq<Request>, q: Request, p: Request -> bool)
    ensures Count(rs + [q], p) == Count(rs, p) + (if p(q) then 1 else 0)
  {
    assert Init(rs + [q]) == rs;
  }

  function OnKey(i: nat): Request -> bool {
    (r: Request) => r.stage == InFlight(i)
  }

  /** Per key: leases are answered in some class, answered without a class, in flight, or lost. */
  ghost predicate KeyBalanced(s: System, i: nat)
    requires i < |s.pool| == |s.unclassified| == |s.lost|
  {
    s.pool[i].stats.requests ==
    Classified(s.pool[i].stats) + s.unclassified[i] + Count(s.requests, OnKey(i)) + s.lost[i]
  }

  ghost predicate Shaped(s: System) {
    |s.pool| == |s.unclassified| == |s.lost|
  }

  lemma AcquireStats(ks: Keys, now: Time, window: nat, exclude: seq<nat>, i: nat)
    requires i < |ks|
    ensures var (after, reply) := TryAcquire(ks, now, window, exclude);
            after[i].stats == if reply == Leased(i) then ks[i].stats.(requests := ks[i].stats.requests + 1) else ks[i].stats
  {
    KeyAfterAcquire(ks, now, window, exclude, i);
    WakeCounts(ks[i], now, window);
  }

  lemma DigestStats(k: Key, now: Time, o: Outcome)
    ensures Digest(k, now, o).stats == CountStats(k.stats, o)
  {
    DigestCounts(k, now, o);
  }

  lemma AttemptKeepsBalance(s: System, window: nat, r: nat, now: Time, deadline: Time, i: nat)
    requires Shaped(s) && i < |s.pool| && Enabled(s, Attempt(r, now, deadline)) && KeyBalanced(s, i)
    ensures KeyBalanced(Apply(s, window, Attempt(r, now, deadline)), i)
  {
    var q := s.requests[r];
    var reply := TryAcquire(s.pool, now, window, q.tried).1;
    AcquireStats(s.pool, now, window, q.tried, i);
    CountUpdate(s.requests, r, Attempted(q, reply, now, deadline, MomentOf(s.pool, now, q.tried)), OnKey(i));
  }

  lemma AnswerKeepsBalance(s: System, window: nat, r: nat, now: Time, o: Outcome, i: nat)
    requires Shaped(s) && i < |s.pool| && Enabled(s, Answer(r, now, o)) && KeyBalanced(s, i)
    ensures KeyBalanced(Apply(s, window, Answer(r, now, o)), i)
  {
    CountUpdate(s.requests, r, Answered(s.requests[r], |s.pool|, o), OnKey(i));
    DigestStats(s.pool[i], now, o);
    StatsAccount(s.pool[i].stats, o);
  }

  /** Nothing is lost: the balance of every key survives every step. */
  lemma BalanceIsKept(s: System, window: nat, m: Move, i: nat)
    requires Shaped(s) && i < |s.pool| && Enabled(s, m) && KeyBalanced(s, i)
    ensures Shaped(Apply(s, window, m)) && KeyBalanced(Apply(s, window, m), i)
  {
    match m
    case Open => CountMore(s.requests, NEW_REQUEST, OnKey(i));
    case Attempt(r, now, deadline) => AttemptKeepsBalance(s, window, r, now, deadline, i);
    case Answer(r, now, o) => AnswerKeepsBalance(s, window, r, now, o, i);
    case Drop(r) =>
      CountUpdate(s.requests, r, s.requests[r].(stage := Dropped), OnKey(i));
    case Look(now) =>
      WakeCounts(s.pool[i], now, window);
  }

  // ----- successes -----------------------------------------------------------------------------------------

  function TotalOk(ks: Keys): nat {
    if ks == [] then 0 else TotalOk(Init(ks)) + Last(ks).stats.ok
  }

  lemma {:induction false} TotalOkChanges(ks: Keys, ls: Keys, i: nat, gain: nat)
    requires |ks| == |ls| && i < |ks|
    requires forall j :: 0 <= j < |ks| ==> ls[j].stats.ok == ks[j].stats.ok + if j == i then gain else 0
    ensures TotalOk(ls) == TotalOk(ks) + gain
  {
    if i == |ks| - 1 {
      TotalOkSame(Init(ks), Init(ls));
    } else {
      TotalOkChanges(Init(ks), Init(ls), i, gain);
    }
  }

  lemma {:induction false} TotalOkSame(ks: Keys, ls: Keys)
    requires |ks| == |ls| && forall j :: 0 <= j < |ks| ==> ls[j].stats.ok == ks[j].stats.ok
    ensures TotalOk(ls) == TotalOk(ks)
  {
    if ks != [] {
      TotalOkSame(Init(ks), Init(ls));
    }
  }

  function Successful(): Request -> bool {
    (r: Request) => Succeeds(r)
  }

  /** Every success counted by a key was handed to exactly one client. */
  ghost predicate SuccessesMatch(s: System) {
    TotalOk(s.pool) == Count(s.requests, Successful())
  }

  lemma AcquireKeepsOk(ks: Keys, now: Time, window: nat, exclude: seq<nat>)
    ensures TotalOk(TryAcquire(ks, now, window, exclude).0) == TotalOk(ks)
  {
    forall j | 0 <= j < |ks| ensures TryAcquire(ks, now, window, exclude).0[j].stats.ok == ks[j].stats.ok {
      AcquireStats(ks, now, window, exclude, j);
    }
    TotalOkSame(ks, TryAcquire(ks, now, window, exclude).0);
  }

  lemma RecordAddsOk(ks: Keys, now: Time, i: nat, o: Outcome)
    requires i < |ks|
    ensures TotalOk(Record(ks, now, i, o).0) == TotalOk(ks) + (if Succeeded(o) then 1 else 0)
  {
    DigestStats(ks[i], now, o);
    StatsAccount(ks[i].stats, o);
    TotalOkChanges(ks, Record(ks, now, i, o).0, i, if Succeeded(o) then 1 else 0);
  }

  lemma ObserveKeepsOk(ks: Keys, now: Time, window: nat)
    ensures TotalOk(Observe(ks, now, window)) == TotalOk(ks)
  {
    forall j | 0 <= j < |ks| ensures Observe(ks, now, window)[j].stats.ok == ks[j].stats.ok {
      WakeCounts(ks[j], now, window);
    }
    TotalOkSame(ks, Observe(ks, now, window));
  }

  lemma AnswerSucceeds(r: Request, keys: nat, o: Outcome)
    requires WellBehaved(r, keys) && r.stage.InFlight?
    ensures Succeeds(Answered(r, keys, o)) == Succeeded(o)
  {
  }

  /** Every move counts as many successes in the pool as it hands to clients. */
  lemma SuccessesMoveTogether(s: System, window: nat, m: Move)
    requires Enabled(s, m) && AllWellBehaved(s)
    ensures TotalOk(Apply(s, window, m).pool) + Count(s.requests, Successful()) ==
            TotalOk(s.pool) + Count(Apply(s, window, m).requests, Successful())
  {
    match m
    case Open => CountMore(s.requests, NEW_REQUEST, Successful());
    case Attempt(r, now, deadline) =>
      var q := s.requests[r];
      var reply := TryAcquire(s.pool, now, window, q.tried).1;
      AcquireKeepsOk(s.pool, now, window, q.tried);
      CountUpdate(s.requests, r, Attempted(q, reply, now, deadline, MomentOf(s.pool, now, q.tried)), Successful());
    case Answer(r, now, o) =>
      CountUpdate(s.requests, r, Answered(s.requests[r], |s.pool|, o), Successful());
      AnswerSucceeds(s.requests[r], |s.pool|, o);
      RecordAddsOk(s.pool, now, s.requests[r].stage.idx, o);
    case Drop(r) =>
      CountUpdate(s.requests, r, s.requests[r].(stage := Dropped), Successful());
    case Look(now) =>
      ObserveKeepsOk(s.pool, now, window);
  }

  // ----- whole runs -----------------------------------------------------------------------------------------

  ghost predicate Playable(s: System, window: nat, ms: seq<Move>)
    decreases |ms|
  {
    ms == [] || (Enabled(s, ms[0]) && Playable(Apply(s, window, ms[0]), window, ms[1..]))
  }

  function Play(s: System, window: nat, ms: seq<Move>): System
    requires Playable(s, window, ms)
    decreases |ms|
  {
    if ms == [] then s else Play(Apply(s, window, ms[0]), window, ms[1..])
  }

  /** A play may be continued. */
  lemma {:induction false} PlayMore(s: System, window: nat, ms: seq<Move>, m: Move)
    requires Playable(s, window, ms) && Enabled(Play(s, window, ms), m)
    ensures Playable(s, window, ms + [m])
    ensures Play(s, window, ms + [m]) == Apply(Play(s, window, ms), window, m)
    decreases |ms|
  {
    var more := ms + [m];
    if ms == [] {
      assert more == [m] && more[1..] == [];
    } else {
      assert more[0] == ms[0] && more[1..] == ms[1..] + [m];
      PlayMore(Apply(s, window, ms[0]), window, ms[1..], m);
    }
  }

  ghost predicate Conserved(s: System) {
    Shaped(s) && AllWellBehaved(s) && SuccessesMatch(s) && forall i :: 0 <= i < |s.pool| ==> KeyBalanced(s, i)
  }

  lemma ConservedStep(s: System, window: nat, m: Move)
    requires Conserved(s) && Enabled(s, m)
    ensures Conserved(Apply(s, window, m))
  {
    StaysWellBehaved(s, window, m);
    SuccessesMoveTogether(s, window, m);
    var t := Apply(s, window, m);
    assert Shaped(t);
    forall i | 0 <= i < |t.pool| ensures KeyBalanced(t, i) {
      BalanceIsKept(s, window, m, i);
    }
  }

  /**
   In every interleaving of requests, late answers, dropped clients and snapshots: attempts stay
   bounded, every lease is accounted for, and summed successes equal the requests answered 2xx.
   */
  lemma {:induction false} RetryConserves(s: System, window: nat, ms: seq<Move>)
    requires Conserved(s) && Playable(s, window, ms)
    ensures Conserved(Play(s, window, ms))
    decreases |ms|
  {
    if ms != [] {
      ConservedStep(s, window, ms[0]);
      RetryConserves(Apply(s, window, ms[0]), window, ms[1..]);
    }
  }

  lemma {:induction false} PlaysWell(s: System, window: nat, ms: seq<Move>)
    requires AllWellBehaved(s) && AllWellLeased(s) && AllWellAnswered(s) && Playable(s, window, ms)
    ensures AllWellBehaved(Play(s, window, ms)) && AllWellLeased(Play(s, window, ms))
    ensures AllWellAnswered(Play(s, window, ms))
    ensures |Play(s, window, ms).pool| == |s.pool|
    decreases |ms|
  {
    if ms != [] {
      StaysWellBehaved(s, window, ms[0]);
      StaysWellLeased(s, window, ms[0]);
      StaysWellAnswered(s, window, ms[0]);
      PlaysWell(Apply(s, window, ms[0]), window, ms[1..]);
    }
  }

  /**
   In every play, whatever else happens: every outcome a request has heard before its last one was a
   transport error, a 401, 403, 429 or 5xx; such a response reaches the client only when all attempts
   are used, and any other response at once.
   */
  lemma ClientsGetTheRightReply(s: System, window: nat, ms: seq<Move>, r: nat)
    requires s.requests == [] && Playable(s, window, ms) && r < |Play(s, window, ms).requests|
    ensures WellAnswered(Play(s, window, ms).requests[r], |s.pool|)
    ensures |Play(s, window, ms).requests[r].tried| <= 5
  {
    PlaysWell(s, window, ms);
    AttemptsAreBounded(|s.pool|);
    assert WellBehaved(Play(s, window, ms).requests[r], |s.pool|);
  }

  /**
   In every play, whatever other requests, late answers and snapshots do: a request is given a key it
   has tried before only at a moment when every key it has not tried is parked.
   */
  lemma ReuseOnlyWhenOthersParked(s: System, window: nat, ms: seq<Move>, r: nat, b: nat)
    requires s.requests == [] && Playable(s, window, ms)
    requires r < |Play(s, window, ms).requests| && b < |Play(s, window, ms).requests[r].tried|
    ensures var q := Play(s, window, ms).requests[r];
            |q.moments| == |q.tried| && (q.tried[b] in q.tried[..b] ==> q.moments[b].othersParked)
  {
    PlaysWell(s, window, ms);
    var q := Play(s, window, ms).requests[r];
    assert WellLeased(q, |s.pool|);
    assert RightKey(q.tried[..b], q.tried[b], q.moments[b], |s.pool|);
  }

  /** With two keys or more, a request that finds no key parked whenever it is given one gets no key twice. */
  lemma FreshKeyWhenNoneParked(s: System, window: nat, ms: seq<Move>, r: nat)
    requires s.requests == [] && Playable(s, window, ms) && |s.pool| >= 2
    requires r < |Play(s, window, ms).requests|
    requires forall m :: m in Play(s, window, ms).requests[r].moments ==> m.noneParked
    ensures var tried := Play(s, window, ms).requests[r].tried;
            forall a, b :: 0 <= a < b < |tried| ==> tried[a] != tried[b]
  {
    PlaysWell(s, window, ms);
    var q := Play(s, window, ms).requests[r];
    assert WellLeased(q, |s.pool|);
    forall a, b | 0 <= a < b < |q.tried| ensures q.tried[a] != q.tried[b] {
      assert RightKey(q.tried[..b], q.tried[b], q.moments[b], |s.pool|);
      assert q.moments[b] in q.moments;
      assert q.tried[..b][a] == q.tried[a];
    }
  }

  lemma {:induction false} SuccessesPlayTogether(s: System, window: nat, ms: seq<Move>)
    requires AllWellBehaved(s) && Playable(s, window, ms)
    ensures TotalOk(Play(s, window, ms).pool) + Count(s.requests, Successful()) ==
            TotalOk(s.pool) + Count(Play(s, window, ms).requests, Successful())
    decreases |ms|
  {
    if ms != [] {
      StaysWellBehaved(s, window, ms[0]);
      SuccessesMoveTogether(s, window, ms[0]);
      SuccessesPlayTogether(Apply(s, window, ms[0]), window, ms[1..]);
    }
  }

  function Zeros(n: nat): (z: seq<nat>)
    ensures |z| == n && forall i :: 0 <= i < n ==> z[i] == 0
  {
    if n == 0 then [] else Zeros(n - 1) + [0]
  }

  lemma {:induction false} NoneOk(ks: Keys)
    requires forall i :: 0 <= i < |ks| ==> ks[i].stats == NO_STATS
    ensures TotalOk(ks) == 0
  {
    if ks != [] {
      NoneOk(Init(ks));
    }
  }

  /** The accounts hold in every run that starts with a new pool and no requests. */
  lemma RetryConservesFromStart(defaultRps: U32, caps: seq<Option<U64>>, window: nat, ms: seq<Move>)
    requires Playable(System(NewPool(defaultRps, caps), [], Zeros(|caps|), Zeros(|caps|)), window, ms)
    ensures Conserved(Play(System(NewPool(defaultRps, caps), [], Zeros(|caps|), Zeros(|caps|)), window, ms))
  {
    var s := System(NewPool(defaultRps, caps), [], Zeros(|caps|), Zeros(|caps|));
    NoneOk(s.pool);
    RetryConserves(s, window, ms);
  }
}

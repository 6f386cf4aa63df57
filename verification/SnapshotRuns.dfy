/**
 Snapshots over whole runs: what one outcome makes of a key does not depend on whether a snapshot
 looked at the key before, under a condition that is exact.
 */
module SnapshotRuns {
  import opened Prelude
  import opened RateLimit
  import opened KeySpec
  import opened PoolSpec
  import opened Selection
  import opened KeyRuns
  import opened Tallies
  import opened Parks
  import opened Transparency

  function WithoutSnapshots(es: seq<Event>): seq<Event> {
    if es == [] then [] else
      WithoutSnapshots(Init(es)) + if Last(es).Snapshot? then [] else [Last(es)]
  }

  /** What the callers of a run are told, in order. */
  function Replies(ks: Keys, window: nat, es: seq<Event>): seq<Reply> {
    if es == [] then [] else
      Replies(ks, window, Init(es)) +
      match Last(es)
      case Acquire(now, exclude) => [TryAcquire(Run(ks, window, Init(es)), now, window, exclude).1]
      case _ => []
  }

  // ----- one outcome -------------------------------------------------------------------------------------

  /** Equal but for health, month, and holds and sends that are over at `t`. */
  predicate Peers(k: Key, l: Key, t: Time, window: nat) {
    && l == k.(health := l.health, monthRemaining := l.monthRemaining, monthResetAt := l.monthResetAt,
               holdUntil := l.holdUntil, sends := l.sends)
    && PendingHold(k, t) == PendingHold(l, t)
    && Prune(k.sends, t, window) == Prune(l.sends, t, window)
  }

  lemma DisablePeers(k: Key, l: Key, t: Time, window: nat, base: nat, max: nat)
    requires Peers(k, l, t, window)
    ensures Peers(Disable(k, t, base, max), Disable(l, t, base, max), t, window)
  {
  }

  lemma ExhaustPeers(k: Key, l: Key, t: Time, window: nat, resetIn: Option<nat>)
    requires Peers(k, l, t, window)
    ensures Peers(Exhaust(k, t, resetIn), Exhaust(l, t, resetIn), t, window)
  {
  }

  lemma SuccessPeers(k: Key, l: Key, t: Time, window: nat, rl: Option<RateLimitInfo>)
    requires Peers(k, l, t, window)
    ensures Peers(OnSuccess(k, t, rl), OnSuccess(l, t, rl), t, window)
  {
    assert Peers(Credit(k, t), Credit(l, t), t, window);
    var resetIn := if rl.Some? then rl.value.MonthReset() else None;
    ExhaustPeers(Credit(k, t), Credit(l, t), t, window, resetIn);
    ExhaustPeers(Credit(k, t), Credit(l, t), t, window, Some(resetIn.GetOr(OVERRIDE_CAP_FALLBACK)));
    assert Credit(k, t).OverrideCapExhausted() == Credit(l, t).OverrideCapExhausted();
  }

  lemma ThrottlePeers(k: Key, l: Key, t: Time, window: nat, rl: Option<RateLimitInfo>)
    requires Peers(k, l, t, window)
    ensures Peers(On429(k, t, rl), On429(l, t, rl), t, window)
  {
    var k1, l1 := CountThrottle(k), CountThrottle(l);
    assert Peers(k1, l1, t, window);
    match rl
    case Some(r) =>
      ExhaustPeers(k1, l1, t, window, r.MonthReset());
    case None =>
      var hold := Some(t + 2 * WINDOW);
      DisablePeers(k1.(holdUntil := hold), l1.(holdUntil := hold), t, window,
                   UNEXPLAINED_429_BACKOFF, UNEXPLAINED_429_BACKOFF);
  }

  lemma FailPeers(k: Key, l: Key, t: Time, window: nat, stats: Stats)
    requires Peers(k, l, t, window)
    ensures Peers(Fail(k.(stats := stats), t), Fail(l.(stats := stats), t), t, window)
  {
    var k1 := k.(stats := stats, consecutiveFailures := k.consecutiveFailures + 1);
    var l1 := l.(stats := stats, consecutiveFailures := l.consecutiveFailures + 1);
    DisablePeers(k1, l1, t, window, FAIL_BACKOFF_BASE, FAIL_BACKOFF_MAX);
  }

  lemma StatusPeers(k: Key, l: Key, t: Time, window: nat, status: nat, rl: Option<RateLimitInfo>)
    requires Peers(k, l, t, window)
    ensures Peers(OnStatus(k, t, status, rl), OnStatus(l, t, status, rl), t, window)
  {
    if 200 <= status <= 299 {
      SuccessPeers(k, l, t, window, rl);
    } else if status == 429 {
      ThrottlePeers(k, l, t, window, rl);
    } else if 400 <= status <= 499 {
      assert Peers(OnRejected(k), OnRejected(l), t, window);
      DisablePeers(OnRejected(k), OnRejected(l), t, window, AUTH_BACKOFF_BASE, AUTH_BACKOFF_MAX);
    } else if 500 <= status <= 599 {
      FailPeers(k, l, t, window, k.stats.(server5xx := k.stats.server5xx + 1));
    }
  }

  /** Peers that digest the same outcome stay peers. */
  lemma DigestPeers(k: Key, l: Key, t: Time, window: nat, o: Outcome)
    requires Peers(k, l, t, window)
    ensures Peers(Digest(k, t, o), Digest(l, t, o), t, window)
  {
    match o
    case Transport =>
      FailPeers(k, l, t, window, k.stats.(transportErrors := k.stats.transportErrors + 1));
    case Response(status, rl) =>
      if rl.Some? {
        assert Peers(Learn(k, t, rl.value), Learn(l, t, rl.value), t, window);
        StatusPeers(Learn(k, t, rl.value), Learn(l, t, rl.value), t, window, status, rl);
      } else {
        StatusPeers(k, l, t, window, status, rl);
      }
  }

  /** Health and month as they stand at `t`, once an elapsed park is noticed. */
  datatype Standing = Standing(health: Health, remaining: Option<U64>, reset: Option<Time>)

  function StandingOf(health: Health, remaining: Option<U64>, reset: Option<Time>, t: Time): Standing {
    match health
    case Ok => Standing(Ok, remaining, reset)
    case Disabled(until) => Standing(if until <= t then Ok else health, remaining, reset)
    case Exhausted(until) => if until <= t then Standing(Ok, None, None) else Standing(health, remaining, reset)
  }

  function StandingAt(k: Key, t: Time): Standing {
    StandingOf(k.health, k.monthRemaining, k.monthResetAt, t)
  }

  /** A key with its standing, hold and sends replaced. */
  function Replace(k: Key, s: Standing, hold: Option<Time>, sends: seq<Time>): Key {
    k.(health := s.health, monthRemaining := s.remaining, monthResetAt := s.reset, holdUntil := hold, sends := sends)
  }

  lemma NormIsStanding(k: Key, t: Time, window: nat)
    ensures Norm(k, t, window) == Replace(k, StandingAt(k, t), PendingHold(k, t), Prune(k.sends, t, window))
  {
  }

  lemma ReplaceIsExact(k: Key, l: Key, s: Standing, u: Standing, hold: Option<Time>, sends: seq<Time>)
    requires l == Replace(k, Standing(l.health, l.monthRemaining, l.monthResetAt), l.holdUntil, l.sends)
    ensures Replace(k, s, hold, sends) == Replace(l, u, hold, sends) <==> s == u
  {
    assert Replace(k, s, hold, sends).health == s.health && Replace(l, u, hold, sends).health == u.health;
  }

  lemma PeersAgreeIff(k: Key, l: Key, t: Time, window: nat)
    requires Peers(k, l, t, window)
    ensures Norm(k, t, window) == Norm(l, t, window) <==> StandingAt(k, t) == StandingAt(l, t)
  {
    NormIsStanding(k, t, window);
    NormIsStanding(l, t, window);
    ReplaceIsExact(k, l, StandingAt(k, t), StandingAt(l, t), PendingHold(k, t), Prune(k.sends, t, window));
  }

  lemma SameArePeers(k: Key, l: Key, t: Time, window: nat)
    requires Norm(k, t, window) == Norm(l, t, window)
    ensures Peers(k, l, t, window)
  {
    NormIsStanding(k, t, window);
    NormIsStanding(l, t, window);
    var n := Norm(k, t, window);
    assert n.holdUntil == PendingHold(k, t) == PendingHold(l, t);
    assert n.sends == Prune(k.sends, t, window) == Prune(l.sends, t, window);
    assert k == Replace(n, Standing(k.health, k.monthRemaining, k.monthResetAt), k.holdUntil, k.sends);
    assert l == Replace(n, Standing(l.health, l.monthRemaining, l.monthResetAt), l.holdUntil, l.sends);
  }

  /** Parked as exhausted, with the expiry passed but not yet noticed. */
  predicate Lapsed(k: Key, t: Time) {
    k.health.Exhausted? && k.health.until <= t
  }

  /** The outcome leaves the same key behind whether or not a snapshot came before it. */
  predicate Harmless(k: Key, t: Time, o: Outcome) {
    || !Lapsed(k, t)
    || SpendsMonth(k, o)
    || (if Disabling(k, o)
        then (k.monthRemaining.Some? ==> ReportsRemaining(o)) && (k.monthResetAt.Some? ==> ReportsReset(o))
        else !ReportsRemaining(o) && !ReportsReset(o))
  }

  /** Where a key stands after an outcome. */
  function StandingAfter(k: Key, t: Time, o: Outcome): Standing {
    var health := if SpendsMonth(k, o) then Exhausted(t + MonthPark(o))
                  else if Disabling(k, o) then Disabled(t + BackoffPark(o, k.disableStrikes))
                  else k.health;
    StandingOf(health, RemainingAfter(k, o), ResetAfter(k, t, o), t)
  }

  lemma DigestStanding(k: Key, t: Time, o: Outcome)
    ensures StandingAt(Digest(k, t, o), t) == StandingAfter(k, t, o)
  {
    DigestPark(k, t, o);
    DigestMonth(k, t, o);
  }

  lemma StandingIff(k: Key, t: Time, window: nat, o: Outcome)
    ensures StandingAfter(Settle(Refresh(k, t), t, window), t, o) == StandingAfter(k, t, o) <==> Harmless(k, t, o)
  {
  }

  /** Looking at a key first makes no difference to an outcome exactly when the outcome is harmless. */
  lemma LookMattersIff(k: Key, t: Time, window: nat, o: Outcome)
    ensures Norm(Digest(Settle(Refresh(k, t), t, window), t, o), t, window) == Norm(Digest(k, t, o), t, window) <==>
            Harmless(k, t, o)
  {
    var looked := Settle(Refresh(k, t), t, window);
    NormLater(k, t, t, window);
    SameArePeers(looked, k, t, window);
    DigestPeers(looked, k, t, window, o);
    PeersAgreeIff(Digest(looked, t, o), Digest(k, t, o), t, window);
    DigestStanding(looked, t, o);
    DigestStanding(k, t, o);
    StandingIff(k, t, window, o);
  }

  /** Keys that agree and meet the same harmless outcome agree afterwards. */
  lemma HarmlessAgree(k: Key, l: Key, t: Time, window: nat, o: Outcome)
    requires Norm(k, t, window) == Norm(l, t, window) && Harmless(k, t, o) && Harmless(l, t, o)
    ensures Norm(Digest(k, t, o), t, window) == Norm(Digest(l, t, o), t, window)
  {
    var k1, l1 := Settle(Refresh(k, t), t, window), Settle(Refresh(l, t), t, window);
    LookMattersIff(k, t, window, o);
    LookMattersIff(l, t, window, o);
    NormLater(k, t, t, window);
    NormLater(l, t, t, window);
    SameArePeers(k1, l1, t, window);
    DigestPeers(k1, l1, t, window, o);
    LookedStanding(k, t, window);
    LookedStanding(l, t, window);
    SameStanding(k, l, t, window);
    DigestStanding(k1, t, o);
    DigestStanding(l1, t, o);
    SameStandingAfter(k1, l1, t, window, o);
    PeersAgreeIff(Digest(k1, t, o), Digest(l1, t, o), t, window);
  }

  /** Health and month as the key holds them. */
  function Raw(k: Key): Standing {
    Standing(k.health, k.monthRemaining, k.monthResetAt)
  }

  lemma LookedStanding(k: Key, t: Time, window: nat)
    ensures Raw(Refresh(k, t)) == StandingAt(k, t)
    ensures Raw(Settle(Refresh(k, t), t, window)) == StandingAt(k, t)
    ensures Raw(Reserve(Settle(Refresh(k, t), t, window), t)) == StandingAt(k, t)
  {
  }

  lemma SameStanding(k: Key, l: Key, t: Time, window: nat)
    requires Norm(k, t, window) == Norm(l, t, window)
    ensures StandingAt(k, t) == StandingAt(l, t)
  {
    NormIsStanding(k, t, window);
    NormIsStanding(l, t, window);
    assert Raw(Norm(k, t, window)) == StandingAt(k, t) && Raw(Norm(l, t, window)) == StandingAt(l, t);
  }

  lemma SameStandingAfter(k: Key, l: Key, t: Time, window: nat, o: Outcome)
    requires Peers(k, l, t, window) && Raw(k) == Raw(l)
    ensures StandingAfter(k, t, o) == StandingAfter(l, t, o)
  {
  }

  // ----- whole runs ----------------------------------------------------------------------------------------

  /** `k` has noticed every expiry that `l` has. */
  predicate Ahead(k: Key, l: Key) {
    k.health.Exhausted? ==> Raw(k) == Raw(l)
  }

  ghost predicate AllAhead(ks: Keys, ls: Keys) {
    |ks| == |ls| && forall i :: 0 <= i < |ks| ==> Ahead(ks[i], ls[i])
  }

  /** An outcome that is harmless to the key not looked at is harmless to the other. */
  lemma HarmlessAhead(k: Key, l: Key, t: Time, window: nat, o: Outcome)
    requires Norm(k, t, window) == Norm(l, t, window) && Ahead(k, l) && Harmless(l, t, o)
    ensures Harmless(k, t, o)
  {
    SameArePeers(k, l, t, window);
  }

  lemma AheadAfterOutcome(k: Key, l: Key, t: Time, window: nat, o: Outcome)
    requires Norm(k, t, window) == Norm(l, t, window) && Ahead(k, l)
    ensures Ahead(Digest(k, t, o), Digest(l, t, o))
  {
    SameArePeers(k, l, t, window);
    DigestPark(k, t, o);
    DigestPark(l, t, o);
    DigestMonth(k, t, o);
    DigestMonth(l, t, o);
  }

  lemma AheadAfterLook(k: Key, l: Key, t: Time)
    requires Ahead(k, l)
    ensures StandingAt(k, t).health.Exhausted? ==> StandingAt(k, t) == StandingAt(l, t) && StandingAt(k, t) == Raw(l)
  {
  }

  lemma AheadAfterAcquire(ks: Keys, ls: Keys, t: Time, window: nat, exclude: seq<nat>)
    requires AllAhead(ks, ls)
    ensures AllAhead(TryAcquire(ks, t, window, exclude).0, TryAcquire(ls, t, window, exclude).0)
  {
    var ks1, ls1 := TryAcquire(ks, t, window, exclude).0, TryAcquire(ls, t, window, exclude).0;
    forall i | 0 <= i < |ks| ensures Ahead(ks1[i], ls1[i]) {
      AcquiredStanding(ks, t, window, exclude, i);
      AcquiredStanding(ls, t, window, exclude, i);
      AheadAfterLook(ks[i], ls[i], t);
    }
  }

  lemma AcquiredStanding(ks: Keys, t: Time, window: nat, exclude: seq<nat>, i: nat)
    requires i < |ks|
    ensures Raw(TryAcquire(ks, t, window, exclude).0[i]) == StandingAt(ks[i], t)
  {
    KeyAfterAcquire(ks, t, window, exclude, i);
    ReplyIsEntitled(ks, t, window, exclude);
    LookedStanding(ks[i], t, window);
  }

  lemma AheadAfterSnapshot(ks: Keys, ls: Keys, t: Time, window: nat)
    requires AllAhead(ks, ls)
    ensures AllAhead(Observe(ks, t, window), ls)
  {
    forall i | 0 <= i < |ks| ensures Ahead(Observe(ks, t, window)[i], ls[i]) {
      LookedStanding(ks[i], t, window);
      AheadAfterLook(ks[i], ls[i], t);
    }
  }

  /** Every recorded outcome is harmless to the key it meets. */
  ghost predicate ReportsHarmless(ks: Keys, window: nat, es: seq<Event>) {
    es == [] ||
    (ReportsHarmless(ks, window, Init(es)) && ReportHarmless(Run(ks, window, Init(es)), Last(es)))
  }

  predicate ReportHarmless(ks: Keys, e: Event) {
    e.Report? && e.idx < |ks| ==> Harmless(ks[e.idx], e.now, e.outcome)
  }

  /** Pools that agree react alike, the one with snapshots staying ahead. */
  lemma SameStep(ks: Keys, ls: Keys, window: nat, e: Event, t: Time)
    requires SameAt(ks, ls, e.now, window) && AllAhead(ks, ls) && e.now <= t
    requires e.Snapshot? || ReportHarmless(ls, e)
    ensures var ls1 := if e.Snapshot? then ls else Step(ls, window, e);
            SameAt(Step(ks, window, e), ls1, t, window) && AllAhead(Step(ks, window, e), ls1)
    ensures e.Acquire? ==> TryAcquire(ks, e.now, window, e.exclude).1 == TryAcquire(ls, e.now, window, e.exclude).1
  {
    match e
    case Snapshot(now) =>
      SameAfterSnapshot(ks, now, t, window);
      SameLater(ks, ls, now, t, window);
      AheadAfterSnapshot(ks, ls, now, window);
    case Acquire(now, exclude) =>
      SameReply(ks, ls, now, window, exclude);
      SameAfterAcquire(ks, ls, now, window, exclude);
      AheadAfterAcquire(ks, ls, now, window, exclude);
      SameLater(Step(ks, window, e), Step(ls, window, e), now, t, window);
    case Report(now, idx, o) =>
      SameAfterReport(ks, ls, now, window, idx, o);
      SameLater(Step(ks, window, e), Step(ls, window, e), now, t, window);
  }

  lemma SameAfterReport(ks: Keys, ls: Keys, t: Time, window: nat, idx: nat, o: Outcome)
    requires SameAt(ks, ls, t, window) && AllAhead(ks, ls)
    requires idx < |ks| ==> Harmless(ls[idx], t, o)
    ensures var (ks1, ls1) := (Record(ks, t, idx, o).0, Record(ls, t, idx, o).0);
            SameAt(ks1, ls1, t, window) && AllAhead(ks1, ls1)
  {
    if idx < |ks| {
      HarmlessAhead(ks[idx], ls[idx], t, window, o);
      HarmlessAgree(ks[idx], ls[idx], t, window, o);
      AheadAfterOutcome(ks[idx], ls[idx], t, window, o);
    }
  }

  lemma {:induction false} SnapshotsDropOut(ks: Keys, window: nat, es: seq<Event>, t: Time)
    requires Timely(es) && EndOf(es) <= t && ReportsHarmless(ks, window, WithoutSnapshots(es))
    ensures SameAt(Run(ks, window, es), Run(ks, window, WithoutSnapshots(es)), t, window)
    ensures AllAhead(Run(ks, window, es), Run(ks, window, WithoutSnapshots(es)))
    ensures Replies(ks, window, es) == Replies(ks, window, WithoutSnapshots(es))
  {
    if es != [] {
      var e := Last(es);
      var fewer := WithoutSnapshots(Init(es));
      if !e.Snapshot? {
        assert Init(fewer + [e]) == fewer;
      } else {
        assert fewer + [] == fewer;
      }
      SnapshotsDropOut(ks, window, Init(es), e.now);
      SameStep(Run(ks, window, Init(es)), Run(ks, window, fewer), window, e, t);
    }
  }

  /**
   Over whole runs: dropping every snapshot changes no reply and, in effect, no state, as long as
   every outcome of the run without snapshots is harmless to the key it meets.
   */
  lemma SnapshotsLeaveNoTrace(ks: Keys, window: nat, es: seq<Event>, t: Time)
    requires Timely(es) && EndOf(es) <= t && ReportsHarmless(ks, window, WithoutSnapshots(es))
    ensures SameAt(Run(ks, window, es), Run(ks, window, WithoutSnapshots(es)), t, window)
    ensures Replies(ks, window, es) == Replies(ks, window, WithoutSnapshots(es))
  {
    SnapshotsDropOut(ks, window, es, t);
  }
}

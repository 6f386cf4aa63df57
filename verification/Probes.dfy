/**
 Probing a key whose park is over: how long it stays at one live request, over whole runs.
 */
module Probes {
  import opened Prelude
  import opened RateLimit
  import opened KeySpec
  import opened PoolSpec
  import opened Selection
  import opened KeyRuns
  import opened Pruning
  import opened Discipline
  import opened Tallies
  import opened Parks
  import opened Window

  /** A span of a run in which no outcome of key `i` is recorded. */
  ghost predicate Unanswered(es: seq<Event>, i: nat, from: Time, to: Time) {
    Timely(es) && forall n :: 0 <= n < |es| ==>
      from <= es[n].now <= to && !(es[n].Report? && es[n].idx == i)
  }

  /** The key is leased again while a request of it is still unanswered. */
  ghost predicate ProbedAgain(ks: Keys, window: nat, es: seq<Event>, i: nat, from: Time, to: Time)
    requires i < |ks|
  {
    Unanswered(es, i, from, to) && Leases(Acts(ks, window, es, i)) > 0
  }

  // ----- the deque while nothing is answered -------------------------------------------------------------

  ghost predicate Quiet(acts: seq<Act>, to: Time) {
    forall n :: 0 <= n < |acts| ==> !acts[n].Digested? && acts[n].now <= to
  }

  lemma QuietInit(acts: seq<Act>, to: Time)
    requires acts != [] && Quiet(acts, to)
    ensures Quiet(Init(acts), to) && !Last(acts).Digested? && Last(acts).now <= to
  {
    forall n | 0 <= n < |Init(acts)| ensures !Init(acts)[n].Digested? && Init(acts)[n].now <= to {
      assert Init(acts)[n] == acts[n];
    }
  }

  lemma WakeKeepsYoung(k: Key, window: nat, now: Time, settled: bool, to: Time)
    requires now <= to
    ensures var k1 := Do(k, window, Wake(now, settled));
            k1.Limit() == k.Limit() && Prune(k1.sends, to, window) == Prune(k.sends, to, window)
  {
    PruneTwice(k.sends, now, to, window);
  }

  /** Until its next lease a key that hears nothing keeps its limit and its young sends. */
  lemma {:induction false} QuietKeepsYoung(k: Key, window: nat, acts: seq<Act>, to: Time)
    requires Quiet(acts, to) && Leases(acts) == 0
    ensures var k1 := After(k, window, acts);
            k1.Limit() == k.Limit() && Prune(k1.sends, to, window) == Prune(k.sends, to, window)
  {
    if acts != [] {
      QuietInit(acts, to);
      QuietKeepsYoung(k, window, Init(acts), to);
      WakeKeepsYoung(After(k, window, Init(acts)), window, Last(acts).now, Last(acts).settled, to);
    }
  }

  lemma {:induction false} QuietNeverQueues(k: Key, window: nat, acts: seq<Act>, to: Time)
    requires Quiet(acts, to) && Leases(acts) == 0
    ensures |After(k, window, acts).sends| <= |k.sends|
  {
    if acts != [] {
      QuietInit(acts, to);
      QuietNeverQueues(k, window, Init(acts), to);
      PruneShrinks(After(k, window, Init(acts)).sends, Last(acts).now, window);
    }
  }

  /** A second lease needs room beside the young sends. */
  lemma {:induction false} SecondLeaseNeedsRoom(k: Key, window: nat, acts: seq<Act>, to: Time)
    requires Legal(k, window, acts) && Quiet(acts, to) && Leases(acts) > 0 && |k.sends| <= U32_MAX
    ensures |Prune(k.sends, to, window)| < k.Limit()
  {
    QuietInit(acts, to);
    if Leases(Init(acts)) > 0 {
      SecondLeaseNeedsRoom(k, window, Init(acts), to);
    } else {
      var before, now := After(k, window, Init(acts)), Last(acts).now;
      QuietKeepsYoung(k, window, Init(acts), to);
      QuietNeverQueues(k, window, Init(acts), to);
      PruneShrinks(before.sends, now, window);
      FreeHasRoom(before, now, window);
      PruneTwice(before.sends, now, to, window);
      PruneShrinks(Prune(before.sends, now, window), to, window);
    }
  }

  // ----- one key of a pool ---------------------------------------------------------------------------------

  lemma {:induction false} UnansweredIsQuiet(ks: Keys, window: nat, es: seq<Event>, i: nat, from: Time, to: Time)
    requires i < |ks| && Unanswered(es, i, from, to)
    ensures Quiet(Acts(ks, window, es, i), to)
  {
    if es != [] {
      assert forall n :: 0 <= n < |Init(es)| ==> Init(es)[n] == es[n];
      assert es[|es| - 1] == Last(es);
      UnansweredIsQuiet(ks, window, Init(es), i, from, to);
    }
  }

  /** All indices below `n` but `i`. */
  function AllBut(i: nat, n: nat): (s: seq<nat>)
    ensures forall j: nat :: j in s <==> j < n && j != i
  {
    if n == 0 then [] else if n - 1 == i then AllBut(i, n - 1) else AllBut(i, n - 1) + [n - 1]
  }

  /** A free key is leased to a caller that has tried all others. */
  lemma OnlyChoice(ks: Keys, window: nat, t: Time, i: nat)
    requires i < |ks| && FreeAt(ks[i], t, window)
    ensures TryAcquire(ks, t, window, AllBut(i, |ks|)).1 == Leased(i)
  {
    var exclude := AllBut(i, |ks|);
    assert Up(ks[i], t) && !OthersParked(ks, t, exclude);
    ReplyIffEntitled(ks, t, window, exclude, Leased(i));
  }

  lemma FreeWithRoom(k: Key, t: Time, window: nat)
    requires k.health == Ok && k.holdUntil == None && |Prune(k.sends, t, window)| < k.Limit()
    ensures FreeAt(k, t, window)
  {
  }

  lemma ReservedKey(k: Key, f: Time, window: nat)
    requires FreeAt(k, f, window) && |k.sends| <= U32_MAX
    ensures var k1 := Reserve(Settle(Refresh(k, f), f, window), f);
            && k1.health == Ok && k1.holdUntil == None && k1.Limit() == k.Limit()
            && k1.sends == Prune(k.sends, f, window) + [f] && |k1.sends| <= U32_MAX
  {
    PruneShrinks(k.sends, f, window);
    FreeHasRoom(k, f, window);
  }

  /** The key as a lease leaves it. */
  lemma LeasedKey(ks: Keys, f: Time, window: nat, exclude: seq<nat>, i: nat)
    requires TryAcquire(ks, f, window, exclude).1 == Leased(i) && |ks[i].sends| <= U32_MAX
    ensures var k := TryAcquire(ks, f, window, exclude).0[i];
            && k.health == Ok && k.holdUntil == None && k.Limit() == ks[i].Limit()
            && k.sends == Prune(ks[i].sends, f, window) + [f] && |k.sends| <= U32_MAX
  {
    KeyAfterAcquire(ks, f, window, exclude, i);
    ReplyIsEntitled(ks, f, window, exclude);
    ReservedKey(ks[i], f, window);
  }

  lemma {:induction false} PruneAppend(sends: seq<Time>, f: Time, u: Time, window: nat)
    requires f <= u
    ensures Prune(Prune(sends, f, window) + [f], u, window) == Prune(sends + [f], u, window)
  {
    if sends != [] && SatSub(f, sends[0]) >= window {
      PruneAppend(sends[1..], f, u, window);
      assert (sends + [f])[1..] == sends[1..] + [f];
    }
  }

  lemma OneMoreLease(ks: Keys, window: nat, u: Time, i: nat)
    requires i < |ks| && TryAcquire(ks, u, window, AllBut(i, |ks|)).1 == Leased(i)
    ensures Leases(Acts(ks, window, [Acquire(u, AllBut(i, |ks|))], i)) == 1
  {
    var es := [Acquire(u, AllBut(i, |ks|))];
    assert Init(es) == [] && Run(ks, window, []) == ks;
    assert Acts(ks, window, [], i) == [];
    assert Acts(ks, window, es, i) == [] + [Lease(u)];
    assert Init([Lease(u)]) == [];
  }

  /** An unparked, unheld key can be leased without an answer by `u` exactly when it has room then. */
  lemma LeasableIffRoom(ks: Keys, window: nat, f: Time, i: nat, u: Time)
    requires i < |ks| && ks[i].health == Ok && ks[i].holdUntil == None && |ks[i].sends| <= U32_MAX && f <= u
    ensures (exists es :: ProbedAgain(ks, window, es, i, f, u)) <==> |Prune(ks[i].sends, u, window)| < ks[i].Limit()
  {
    if |Prune(ks[i].sends, u, window)| < ks[i].Limit() {
      FreeWithRoom(ks[i], u, window);
      OnlyChoice(ks, window, u, i);
      OneMoreLease(ks, window, u, i);
      assert ProbedAgain(ks, window, [Acquire(u, AllBut(i, |ks|))], i, f, u);
    }
    forall es | ProbedAgain(ks, window, es, i, f, u) ensures |Prune(ks[i].sends, u, window)| < ks[i].Limit() {
      RunActsOnKey(ks, window, es, i);
      UnansweredIsQuiet(ks, window, es, i, f, u);
      SecondLeaseNeedsRoom(ks[i], window, Acts(ks, window, es, i), u);
    }
  }

  /**
   Once a key has been leased at `f`, it can be leased again by `u`, with no outcome of it recorded
   in between, exactly when its limit leaves room beside the sends that are then inside the window.
   */
  lemma LeasedAgainIff(ks: Keys, window: nat, f: Time, exclude: seq<nat>, i: nat, u: Time)
    requires TryAcquire(ks, f, window, exclude).1 == Leased(i) && |ks[i].sends| <= U32_MAX && f <= u
    ensures (exists es :: ProbedAgain(TryAcquire(ks, f, window, exclude).0, window, es, i, f, u)) <==>
            |Prune(ks[i].sends + [f], u, window)| < ks[i].Limit()
  {
    LeasedKey(ks, f, window, exclude, i);
    PruneAppend(ks[i].sends, f, u, window);
    LeasableIffRoom(TryAcquire(ks, f, window, exclude).0, window, f, i, u);
  }

  // ----- keys coming out of a backoff ------------------------------------------------------------------------

  lemma BackoffIsLong(o: Outcome, strikes: nat)
    ensures BackoffPark(o, strikes) >= FAIL_BACKOFF_BASE
  {
    var n := Min(Min(strikes + 1, U32_MAX) - 1, 16);
    DoubledGrows(FAIL_BACKOFF_BASE, 0, n);
    DoubledGrows(UNEXPLAINED_429_BACKOFF, 0, n);
    DoubledGrows(AUTH_BACKOFF_BASE, 0, n);
  }

  /** All sends lie before `t`, and well before the end of a backoff. */
  ghost predicate Rested(k: Key, t: Time) {
    forall n :: 0 <= n < |k.sends| ==>
      k.sends[n] <= t && (k.health.Disabled? ==> k.sends[n] + FAIL_BACKOFF_BASE <= k.health.until)
  }

  lemma RestedAfterOutcome(k: Key, clock: Time, now: Time, o: Outcome)
    requires Rested(k, clock) && clock <= now
    ensures Rested(Digest(k, now, o), now)
  {
    DigestKeepsSends(k, now, o);
    DigestPark(k, now, o);
    BackoffIsLong(o, k.disableStrikes);
  }

  lemma RestedAfterLook(k: Key, clock: Time, now: Time, window: nat)
    requires window > 0 && Rested(k, clock) && clock <= now
    ensures Rested(Refresh(k, now), now) && Rested(Settle(Refresh(k, now), now, window), now)
  {
    assert Rested(Refresh(k, now), now);
    RestedWhenPruned(Refresh(k, now), now, window);
  }

  lemma RestedWhenPruned(k: Key, now: Time, window: nat)
    requires window > 0 && Rested(k, now)
    ensures Rested(Settle(k, now, window), now)
  {
    var kept := Prune(k.sends, now, window);
    PruneKeepsSuffix(k.sends, now, window);
    var cut := |k.sends| - |kept|;
    forall n | 0 <= n < |kept| ensures kept[n] <= now {
      assert kept[n] == k.sends[cut + n];
    }
  }

  lemma {:induction false} RestedInvariant(k: Key, window: nat, acts: seq<Act>)
    requires window > 0 && k.sends == [] && Legal(k, window, acts)
    ensures Rested(After(k, window, acts), Clock(acts))
  {
    if acts != [] {
      RestedInvariant(k, window, Init(acts));
      var before, now := After(k, window, Init(acts)), Last(acts).now;
      RestedAfterLook(before, Clock(Init(acts)), now, window);
      match Last(acts)
      case Wake(_, _) =>
      case Lease(_) =>
      case Digested(_, o) => RestedAfterOutcome(before, Clock(Init(acts)), now, o);
    }
  }

  lemma DisabledIsRested(start: Keys, window: nat, es: seq<Event>, i: nat)
    requires window > 0 && Unused(start) && Timely(es) && i < |start|
    ensures Rested(Run(start, window, es)[i], EndOf(es)) && |Run(start, window, es)[i].sends| <= U32_MAX
  {
    RunActsOnKey(start, window, es, i);
    RestedInvariant(start[i], window, Acts(start, window, es, i));
    HistoryInvariant(start[i], window, Acts(start, window, es, i));
  }

  /** A stretch of a key's acts without a lease. */
  ghost predicate Leaseless(acts: seq<Act>, to: Time) {
    Leases(acts) == 0 && forall n :: 0 <= n < |acts| ==> acts[n].now <= to
  }

  /** Whatever is recorded, a key that is not leased only loses sends. */
  lemma {:induction false} LeaselessKeepsYoung(k: Key, window: nat, acts: seq<Act>, to: Time)
    requires Leaseless(acts, to)
    ensures Prune(After(k, window, acts).sends, to, window) == Prune(k.sends, to, window)
    ensures |After(k, window, acts).sends| <= |k.sends|
  {
    if acts != [] {
      assert forall n :: 0 <= n < |Init(acts)| ==> Init(acts)[n] == acts[n];
      LeaselessKeepsYoung(k, window, Init(acts), to);
      var before := After(k, window, Init(acts));
      match Last(acts)
      case Wake(now, settled) =>
        WakeKeepsYoung(before, window, now, settled, to);
        PruneShrinks(before.sends, now, window);
      case Digested(now, o) => DigestKeepsSends(before, now, o);
    }
  }

  /** A span of a run. */
  ghost predicate Within(es: seq<Event>, from: Time, to: Time) {
    Timely(es) && forall n :: 0 <= n < |es| ==> from <= es[n].now <= to
  }

  lemma {:induction false} ActsWithin(ks: Keys, window: nat, es: seq<Event>, i: nat, from: Time, to: Time)
    requires i < |ks| && Within(es, from, to)
    ensures forall n :: 0 <= n < |Acts(ks, window, es, i)| ==> Acts(ks, window, es, i)[n].now <= to
  {
    if es != [] {
      assert forall n :: 0 <= n < |Init(es)| ==> Init(es)[n] == es[n];
      assert es[|es| - 1] == Last(es);
      ActsWithin(ks, window, Init(es), i, from, to);
    }
  }

  /** Once a backoff is over and the key not leased since, none of its sends is inside the window. */
  lemma FreshAfterBackoff(ks: Keys, window: nat, idle: seq<Event>, clock: Time, f: Time, i: nat)
    requires 0 < window <= FAIL_BACKOFF_BASE && i < |ks| && ks[i].health.Disabled? && ks[i].health.until <= f
    requires Rested(ks[i], clock) && |ks[i].sends| <= U32_MAX
    requires Within(idle, clock, f) && Leases(Acts(ks, window, idle, i)) == 0
    ensures var k := Run(ks, window, idle)[i]; Prune(k.sends, f, window) == [] && |k.sends| <= U32_MAX
  {
    RunActsOnKey(ks, window, idle, i);
    ActsWithin(ks, window, idle, i, clock, f);
    LeaselessKeepsYoung(ks[i], window, Acts(ks, window, idle, i), f);
    PruneKeepsSuffix(ks[i].sends, f, window);
  }

  // ----- what else may be heard ----------------------------------------------------------------------------

  /** Requests of the key that were leased but not answered in either stretch. */
  function Open(first: seq<Act>, second: seq<Act>): nat {
    SatSub(Leases(first) + Leases(second), Digests(first) + Digests(second))
  }

  /**
   The key is leased again from `from` to `to`, with at most `open` outcomes of it recorded in between:
   its older requests may be answered, the latest one is not.
   */
  ghost predicate LeasedMeanwhile(ks: Keys, window: nat, es: seq<Event>, i: nat, open: nat, from: Time, to: Time)
    requires i < |ks|
  {
    Within(es, from, to) && Digests(Acts(ks, window, es, i)) <= open && Leases(Acts(ks, window, es, i)) > 0
  }

  lemma {:induction false} NoDigests(ks: Keys, window: nat, es: seq<Event>, i: nat)
    requires i < |ks|
    ensures Digests(Acts(ks, window, es, i)) == 0 <==> forall n :: 0 <= n < |es| ==> !(es[n].Report? && es[n].idx == i)
  {
    if es != [] {
      NoDigests(ks, window, Init(es), i);
      assert forall n :: 0 <= n < |Init(es)| ==> Init(es)[n] == es[n];
      assert es[|es| - 1] == Last(es);
      var acts, all := Acts(ks, window, Init(es), i), Acts(ks, window, es, i);
      assert all == acts || Init(all) == acts;
    }
  }

  /** An answer that rejects its request and reports a rate of a thousand. */
  const TELLS_RATE: Outcome :=
    Response(404, Some(RateLimitInfo(Windows(Some(1000), None), Windows(None, None), Windows(None, None),
                                     Windows(None, None), None)))

  lemma RateIsTold(k: Key, u: Time)
    ensures Digest(k, u, TELLS_RATE) == k.(secLimit := 1000, limitsLearned := true, stats := Digest(k, u, TELLS_RATE).stats)
  {
  }

  /** With an older request open, its answer can make room at once. */
  lemma LateAnswerMakesRoom(ks: Keys, window: nat, f: Time, i: nat, u: Time)
    requires i < |ks| && ks[i].health == Ok && ks[i].holdUntil == None && f <= u
    requires |Prune(ks[i].sends, u, window)| < 1000
    ensures exists es :: LeasedMeanwhile(ks, window, es, i, 1, f, u)
  {
    var told := Step(ks, window, Report(u, i, TELLS_RATE));
    RateIsTold(ks[i], u);
    FreeWithRoom(told[i], u, window);
    OnlyChoice(told, window, u, i);
    ToldThenLeased(ks, window, u, i);
    assert LeasedMeanwhile(ks, window, [Report(u, i, TELLS_RATE), Acquire(u, AllBut(i, |ks|))], i, 1, f, u);
  }

  lemma OneMoreAct(acts: seq<Act>, a: Act)
    ensures Leases(acts + [a]) == Leases(acts) + (if a.Lease? then 1 else 0)
    ensures Digests(acts + [a]) == Digests(acts) + (if a.Digested? then 1 else 0)
  {
    assert Init(acts + [a]) == acts;
  }

  lemma ActsAfterReport(ks: Keys, window: nat, es: seq<Event>, u: Time, i: nat, o: Outcome)
    requires i < |ks|
    ensures Acts(ks, window, es + [Report(u, i, o)], i) == Acts(ks, window, es, i) + [Digested(u, o)]
    ensures Run(ks, window, es + [Report(u, i, o)]) == Step(Run(ks, window, es), window, Report(u, i, o))
  {
    assert Init(es + [Report(u, i, o)]) == es;
  }

  lemma ActsAfterLease(ks: Keys, window: nat, es: seq<Event>, u: Time, exclude: seq<nat>, i: nat)
    requires i < |ks| && TryAcquire(Run(ks, window, es), u, window, exclude).1 == Leased(i)
    ensures Acts(ks, window, es + [Acquire(u, exclude)], i) == Acts(ks, window, es, i) + [Lease(u)]
  {
    assert Init(es + [Acquire(u, exclude)]) == es;
  }

  lemma ToldThenLeased(ks: Keys, window: nat, u: Time, i: nat)
    requires i < |ks|
    requires TryAcquire(Step(ks, window, Report(u, i, TELLS_RATE)), u, window, AllBut(i, |ks|)).1 == Leased(i)
    ensures var acts := Acts(ks, window, [Report(u, i, TELLS_RATE), Acquire(u, AllBut(i, |ks|))], i);
            Leases(acts) == 1 && Digests(acts) == 1
  {
    var e, l := Report(u, i, TELLS_RATE), Acquire(u, AllBut(i, |ks|));
    ActsAfterReport(ks, window, [], u, i, TELLS_RATE);
    ActsAfterLease(ks, window, [] + [e], u, AllBut(i, |ks|), i);
    OneMoreAct(Acts(ks, window, [], i), Digested(u, TELLS_RATE));
    OneMoreAct(Acts(ks, window, [] + [e], i), Lease(u));
    assert [] + [e] + [l] == [e, l];
  }

  lemma MeanwhileIff(ks: Keys, window: nat, f: Time, i: nat, open: nat, u: Time)
    requires i < |ks| && ks[i].health == Ok && ks[i].holdUntil == None && |ks[i].sends| <= U32_MAX && f <= u
    requires |Prune(ks[i].sends, u, window)| < 1000
    ensures (exists es :: LeasedMeanwhile(ks, window, es, i, open, f, u)) <==>
            open > 0 || |Prune(ks[i].sends, u, window)| < ks[i].Limit()
  {
    LeasableIffRoom(ks, window, f, i, u);
    if open > 0 {
      LateAnswerMakesRoom(ks, window, f, i, u);
      var es :| LeasedMeanwhile(ks, window, es, i, 1, f, u);
      assert LeasedMeanwhile(ks, window, es, i, open, f, u);
    } else {
      forall es ensures LeasedMeanwhile(ks, window, es, i, 0, f, u) <==> ProbedAgain(ks, window, es, i, f, u) {
        NoDigests(ks, window, es, i);
      }
    }
  }

  lemma FreshProbeIff(ks: Keys, window: nat, f: Time, exclude: seq<nat>, i: nat, open: nat, u: Time)
    requires TryAcquire(ks, f, window, exclude).1 == Leased(i) && |ks[i].sends| <= U32_MAX && f <= u
    requires window > 0 && Prune(ks[i].sends, f, window) == []
    ensures (exists after :: LeasedMeanwhile(TryAcquire(ks, f, window, exclude).0, window, after, i, open, f, u)) <==>
            open > 0 || ks[i].Limit() > 1 || f + window <= u
  {
    LeasedKey(ks, f, window, exclude, i);
    assert [] + [f] == [f];
    assert [f][1..] == [];
    MeanwhileIff(TryAcquire(ks, f, window, exclude).0, window, f, i, open, u);
  }

  lemma AfterBackoffIff(disabled: Keys, window: nat, idle: seq<Event>, clock: Time, f: Time, exclude: seq<nat>,
                        i: nat, open: nat, u: Time)
    requires 0 < window <= FAIL_BACKOFF_BASE && i < |disabled| && f <= u
    requires disabled[i].health.Disabled? && disabled[i].health.until <= f
    requires Rested(disabled[i], clock) && |disabled[i].sends| <= U32_MAX
    requires Within(idle, clock, f) && Leases(Acts(disabled, window, idle, i)) == 0
    requires TryAcquire(Run(disabled, window, idle), f, window, exclude).1 == Leased(i)
    ensures var ks := Run(disabled, window, idle);
            (exists after :: LeasedMeanwhile(TryAcquire(ks, f, window, exclude).0, window, after, i, open, f, u)) <==>
            open > 0 || ks[i].Limit() > 1 || f + window <= u
  {
    FreshAfterBackoff(disabled, window, idle, clock, f, i);
    FreshProbeIff(Run(disabled, window, idle), window, f, exclude, i, open, u);
  }

  /**
   A disabled key is meant to be probed again with one live request. Over every run from an unused
   pool: let the key be disabled after `es`, and let its next lease, the probe, come at `f`, the backoff
   being over, whatever is recorded in between. Before the outcome of the probe is recorded another
   request can be leased by `u` exactly when the limit is above one, a whole window has passed, or an
   older request of the key is still open, whose answer may then raise the limit.
   */
  lemma SecondProbeIff(start: Keys, window: nat, es: seq<Event>, idle: seq<Event>, f: Time, exclude: seq<nat>,
                       i: nat, open: nat, u: Time)
    requires 0 < window <= FAIL_BACKOFF_BASE && Unused(start) && Timely(es) && i < |start| && f <= u
    requires var disabled := Run(start, window, es);
             disabled[i].health.Disabled? && disabled[i].health.until <= f &&
             Within(idle, EndOf(es), f) && Leases(Acts(disabled, window, idle, i)) == 0
    requires open == Open(Acts(start, window, es, i), Acts(Run(start, window, es), window, idle, i))
    requires TryAcquire(Run(Run(start, window, es), window, idle), f, window, exclude).1 == Leased(i)
    ensures var ks := Run(Run(start, window, es), window, idle);
            (exists after :: LeasedMeanwhile(TryAcquire(ks, f, window, exclude).0, window, after, i, open, f, u)) <==>
            open > 0 || ks[i].Limit() > 1 || f + window <= u
  {
    DisabledIsRested(start, window, es, i);
    AfterBackoffIff(Run(start, window, es), window, idle, EndOf(es), f, exclude, i, open, u);
  }
}

/** Waiting for a key: the announced time is honest, and waiting always makes progress. */
module Waiting {
  import opened Prelude
  import opened KeySpec
  import opened PoolSpec
  import opened Selection
  import opened KeyRuns
  import opened Pruning

  /** `k1` is `k` after at most a selection or a snapshot at `now` looked at it. */
  predicate Woken(k: Key, k1: Key, now: Time, window: nat) {
    k1 == k || k1 == Refresh(k, now) || k1 == Settle(Refresh(k, now), now, window)
  }

  ghost predicate AllWoken(ks: Keys, ks1: Keys, now: Time, window: nat) {
    |ks1| == |ks| && forall i :: 0 <= i < |ks| ==> Woken(ks[i], ks1[i], now, window)
  }

  /** A busy key stays busy, for the same reason, until the instant it announced. */
  lemma BusyUntilAnnounced(k: Key, k1: Key, now: Time, t: Time, window: nat)
    requires window > 0 && Woken(k, k1, now, window) && AvailAt(k, now, window).Busy?
    ensures var at := AvailAt(k, now, window).at;
            now < at && (now <= t < at ==> AvailAt(k1, t, window) == Busy(at) && Up(k1, t) == Up(k, now))
  {
    PruneHead(k.sends, now, window);
    if now <= t {
      PruneTwice(k.sends, now, t, window);
    }
  }

  /** What a selection or a snapshot leaves behind differs from before by waking alone. */
  lemma StepWakes(ks: Keys, window: nat, e: Event)
    requires e.Snapshot? || (e.Acquire? && !TryAcquire(ks, e.now, window, e.exclude).1.Leased?)
    ensures AllWoken(ks, Step(ks, window, e), e.now, window)
  {
    forall i | 0 <= i < |ks| ensures Woken(ks[i], Step(ks, window, e)[i], e.now, window) {
      if e.Acquire? {
        KeyAfterAcquire(ks, e.now, window, e.exclude, i);
      }
    }
  }

  lemma InPlayUntilAnnounced(ks: Keys, ks1: Keys, now: Time, t: Time, window: nat, exclude: seq<nat>, at: Time)
    requires window > 0 && AllWoken(ks, ks1, now, window)
    requires EarliestBusy(ks, now, window, exclude, at) && now <= t < at
    ensures forall i: nat :: InPlay(ks, now, exclude, i) ==>
              AvailAt(ks1[i], t, window) == AvailAt(ks[i], now, window) && Up(ks1[i], t) == Up(ks[i], now)
    ensures forall i: nat :: InPlay(ks1, t, exclude, i) == InPlay(ks, now, exclude, i)
  {
    forall i: nat | InPlay(ks, now, exclude, i)
      ensures AvailAt(ks1[i], t, window) == AvailAt(ks[i], now, window) && Up(ks1[i], t) == Up(ks[i], now)
    {
      BusyUntilAnnounced(ks[i], ks1[i], now, t, window);
    }
    assert forall i: nat :: i < |ks| && i !in exclude ==> InPlay(ks, now, exclude, i);
    assert OthersParked(ks1, t, exclude) == OthersParked(ks, now, exclude);
  }

  lemma BusyCarriesOver(ks: Keys, ks1: Keys, now: Time, t: Time, window: nat, exclude: seq<nat>, at: Time)
    requires |ks1| == |ks|
    requires forall i: nat :: InPlay(ks, now, exclude, i) ==>
               AvailAt(ks1[i], t, window) == AvailAt(ks[i], now, window) && Up(ks1[i], t) == Up(ks[i], now)
    requires forall i: nat :: InPlay(ks1, t, exclude, i) == InPlay(ks, now, exclude, i)
    requires SomeUp(ks, now, exclude) && EarliestBusy(ks, now, window, exclude, at)
    ensures SomeUp(ks1, t, exclude) && EarliestBusy(ks1, t, window, exclude, at)
  {
    var i: nat :| InPlay(ks, now, exclude, i) && Up(ks[i], now);
    assert InPlay(ks1, t, exclude, i) && Up(ks1[i], t);
    var j: nat :| InPlay(ks, now, exclude, j) && AvailAt(ks[j], now, window) == Busy(at);
    assert InPlay(ks1, t, exclude, j) && AvailAt(ks1[j], t, window) == Busy(at);
  }

  /** Until the announced instant the answer stays the same, whatever looks at the pool meanwhile. */
  lemma AnswerStands(ks: Keys, ks1: Keys, now: Time, t: Time, window: nat, exclude: seq<nat>, at: Time)
    requires window > 0 && AllWoken(ks, ks1, now, window) && now <= t < at
    requires TryAcquire(ks, now, window, exclude).1 == At(at)
    ensures TryAcquire(ks1, t, window, exclude).1 == At(at)
  {
    AtMeans(ks, now, window, exclude, at);
    InPlayUntilAnnounced(ks, ks1, now, t, window, exclude, at);
    BusyCarriesOver(ks, ks1, now, t, window, exclude, at);
    AtMeans(ks1, t, window, exclude, at);
  }

  /** The announced instant lies in the future. */
  lemma WaitIsPositive(ks: Keys, now: Time, window: nat, exclude: seq<nat>)
    requires window > 0 && TryAcquire(ks, now, window, exclude).1.At?
    ensures now < TryAcquire(ks, now, window, exclude).1.at
  {
    ReplyIsEntitled(ks, now, window, exclude);
    var at := TryAcquire(ks, now, window, exclude).1.at;
    var j: nat :| InPlay(ks, now, exclude, j) && AvailAt(ks[j], now, window) == Busy(at);
    BusyUntilAnnounced(ks[j], ks[j], now, now, window);
  }

  /** Steps of one waiter and of snapshots; nothing is recorded. */
  ghost predicate OnlyWaiting(es: seq<Event>, exclude: seq<nat>, from: Time, to: Time) {
    forall n :: 0 <= n < |es| ==>
      from <= es[n].now < to && (es[n].Snapshot? || (es[n].Acquire? && es[n].exclude == exclude))
  }

  /** Honest wait: every attempt before the announced instant fails and announces the same instant. */
  lemma {:induction false} HonestWait(ks: Keys, now: Time, window: nat, exclude: seq<nat>, at: Time,
                                      es: seq<Event>, t: Time)
    requires window > 0 && TryAcquire(ks, now, window, exclude).1 == At(at)
    requires Timely(es) && OnlyWaiting(es, exclude, now, at) && now <= t < at && EndOf(es) <= t
    ensures now < at
    ensures TryAcquire(Run(ks, window, es), t, window, exclude).1 == At(at)
  {
    if es == [] {
      AnswerStands(ks, ks, now, t, window, exclude, at);
    } else {
      var e := Last(es);
      var before := Run(ks, window, Init(es));
      assert es[|es| - 1] == e;
      assert EndOf(Init(es)) <= e.now;
      HonestWait(ks, now, window, exclude, at, Init(es), e.now);
      StepWakes(before, window, e);
      AnswerStands(before, Step(before, window, e), e.now, t, window, exclude, at);
    }
  }

  // ----- no key at all ------------------------------------------------------------------------------

  function ParkedUntil(k: Key, now: Time): Time
    requires !Up(k, now)
  {
    Refresh(k, now).health.until
  }

  /** `e` is the first instant at which a park of the pool expires. */
  ghost predicate FirstExpiry(ks: Keys, now: Time, e: Time) {
    (exists i: nat :: i < |ks| && !Up(ks[i], now) && ParkedUntil(ks[i], now) == e) &&
    forall i: nat :: i < |ks| && !Up(ks[i], now) ==> e <= ParkedUntil(ks[i], now)
  }

  /** The pool is unavailable exactly when every key, excluded ones included, is parked. */
  lemma UnavailableIffAllParked(ks: Keys, now: Time, window: nat, exclude: seq<nat>)
    ensures var r := TryAcquire(ks, now, window, exclude).1;
            && (r.Unavailable? <==> AllParked(ks, now))
            && (r.Unavailable? ==> (r.earliest.None? <==> |ks| == 0))
            && (r.Unavailable? && r.earliest.Some? ==> FirstExpiry(ks, now, r.earliest.value))
  {
    ReplyIsEntitled(ks, now, window, exclude);
    var r := TryAcquire(ks, now, window, exclude).1;
    if r.Unavailable? {
      assert forall i: nat :: i < |ks| ==> InPlay(ks, now, exclude, i);
      if r.earliest.Some? {
        var j: nat :| InPlay(ks, now, exclude, j) && AvailAt(ks[j], now, window) == Busy(r.earliest.value);
        assert ParkedUntil(ks[j], now) == r.earliest.value;
        forall i: nat | i < |ks| && !Up(ks[i], now) ensures r.earliest.value <= ParkedUntil(ks[i], now) {
          assert AvailAt(ks[i], now, window) == Busy(ParkedUntil(ks[i], now));
        }
      }
    }
  }

  ghost predicate NothingRecorded(es: seq<Event>, from: Time, to: Time) {
    forall n :: 0 <= n < |es| ==> from <= es[n].now < to && !es[n].Report?
  }

  lemma ParksStand(ks: Keys, ks1: Keys, now: Time, t: Time, window: nat, e: Time)
    requires AllWoken(ks, ks1, now, window) && now <= t < e
    requires AllParked(ks, now) && FirstExpiry(ks, now, e)
    ensures AllParked(ks1, t) && FirstExpiry(ks1, t, e)
  {
    forall i: nat | i < |ks1| ensures !Up(ks1[i], t) && ParkedUntil(ks1[i], t) == ParkedUntil(ks[i], now) {
      assert !Up(ks[i], now) && e <= ParkedUntil(ks[i], now);
    }
    var j: nat :| j < |ks| && !Up(ks[j], now) && ParkedUntil(ks[j], now) == e;
    assert ParkedUntil(ks1[j], t) == e;
  }

  /** While all keys are parked no caller gets a lease before the announced expiry. */
  lemma {:induction false} NoLeaseBeforeExpiry(ks: Keys, now: Time, window: nat, exclude: seq<nat>, e: Time,
                                               es: seq<Event>, t: Time, other: seq<nat>)
    requires TryAcquire(ks, now, window, exclude).1 == Unavailable(Some(e))
    requires Timely(es) && NothingRecorded(es, now, e) && now <= t < e && EndOf(es) <= t
    ensures TryAcquire(Run(ks, window, es), t, window, other).1 == Unavailable(Some(e))
  {
    AllParkedRun(ks, now, window, exclude, e, es, t);
    ExpiryIsAnnounced(Run(ks, window, es), t, window, other, e);
  }

  lemma ExpiryIsAnnounced(ks: Keys, now: Time, window: nat, exclude: seq<nat>, e: Time)
    requires AllParked(ks, now) && FirstExpiry(ks, now, e)
    ensures TryAcquire(ks, now, window, exclude).1 == Unavailable(Some(e))
  {
    UnavailableIffAllParked(ks, now, window, exclude);
  }

  lemma {:induction false} AllParkedRun(ks: Keys, now: Time, window: nat, exclude: seq<nat>, e: Time,
                                        es: seq<Event>, t: Time)
    requires TryAcquire(ks, now, window, exclude).1 == Unavailable(Some(e))
    requires Timely(es) && NothingRecorded(es, now, e) && now <= t < e && EndOf(es) <= t
    ensures AllParked(Run(ks, window, es), t) && FirstExpiry(Run(ks, window, es), t, e)
  {
    UnavailableIffAllParked(ks, now, window, exclude);
    if es == [] {
      ParksStand(ks, ks, now, t, window, e);
    } else {
      var ev := Last(es);
      var before := Run(ks, window, Init(es));
      assert es[|es| - 1] == ev;
      assert EndOf(Init(es)) <= ev.now;
      AllParkedRun(ks, now, window, exclude, e, Init(es), ev.now);
      if ev.Acquire? {
        UnavailableIffAllParked(before, ev.now, window, ev.exclude);
      }
      StepWakes(before, window, ev);
      ParksStand(before, Step(before, window, ev), ev.now, t, window, e);
    }
  }

  // ----- progress -------------------------------------------------------------------------------------

  /** What a key may still be waiting for: its park, its hold and its queued sends. */
  function Pending(k: Key): nat {
    (if k.health == Ok then 0 else 1) + (if k.holdUntil.Some? then 1 else 0) + |k.sends|
  }

  function TotalPending(ks: Keys): nat {
    if ks == [] then 0 else TotalPending(Init(ks)) + Pending(Last(ks))
  }

  lemma WakingNeverAdds(k: Key, now: Time, window: nat)
    ensures Pending(Refresh(k, now)) <= Pending(k)
    ensures Pending(Settle(Refresh(k, now), now, window)) <= Pending(k)
    ensures k.health != Ok && Up(k, now) ==> Pending(Refresh(k, now)) < Pending(k)
    ensures k.health != Ok && Up(k, now) ==> Pending(Settle(Refresh(k, now), now, window)) < Pending(k)
  {
    PruneShrinks(k.sends, now, window);
  }

  /** Waking a busy key at or after the instant it announced settles something. */
  lemma WakingOnTimeSettles(k: Key, now: Time, t: Time, window: nat)
    requires AvailAt(k, now, window).Busy? && now <= t && AvailAt(k, now, window).at <= t
    ensures var k1 := Settle(Refresh(k, now), now, window);
            Pending(Settle(Refresh(k1, t), t, window)) < Pending(k1)
  {
    var k1 := Settle(Refresh(k, now), now, window);
    PruneShrinks(k1.sends, t, window);
  }

  lemma {:induction false} TotalShrinks(ks: Keys, ks1: Keys, strict: nat)
    requires |ks1| == |ks| && (forall i :: 0 <= i < |ks| ==> Pending(ks1[i]) <= Pending(ks[i]))
    ensures TotalPending(ks1) <= TotalPending(ks)
    ensures strict < |ks| && Pending(ks1[strict]) < Pending(ks[strict]) ==> TotalPending(ks1) < TotalPending(ks)
  {
    if ks != [] {
      TotalShrinks(Init(ks), Init(ks1), strict);
    }
  }

  /** The pool as a selection leaves it, before any slot is reserved. */
  ghost function TouchedAll(ks: Keys, now: Time, window: nat, exclude: seq<nat>): Keys {
    seq(|ks|, i requires 0 <= i < |ks| => Touched(ks, now, window, exclude, i))
  }

  lemma SelectionNeverAdds(ks: Keys, now: Time, window: nat, exclude: seq<nat>)
    ensures TotalPending(TouchedAll(ks, now, window, exclude)) <= TotalPending(ks)
    ensures !TryAcquire(ks, now, window, exclude).1.Leased? ==>
              TryAcquire(ks, now, window, exclude).0 == TouchedAll(ks, now, window, exclude)
  {
    var touched := TouchedAll(ks, now, window, exclude);
    forall i | 0 <= i < |ks| ensures Pending(touched[i]) <= Pending(ks[i]) {
      WakingNeverAdds(ks[i], now, window);
    }
    TotalShrinks(ks, touched, 0);
    forall i | 0 <= i < |ks| && !TryAcquire(ks, now, window, exclude).1.Leased?
      ensures TryAcquire(ks, now, window, exclude).0[i] == touched[i]
    {
      KeyAfterAcquire(ks, now, window, exclude, i);
    }
  }

  /**
   Progress: waking at or after the announced instant settles at least one park, hold or queued
   send, even if the scan moves from the fallback keys back to the others in between.
   */
  lemma WakeUpMakesProgress(ks: Keys, now: Time, t: Time, window: nat, exclude: seq<nat>, at: Time)
    requires TryAcquire(ks, now, window, exclude).1 == At(at) && now <= t && at <= t
    ensures var failed := TryAcquire(ks, now, window, exclude).0;
            TotalPending(TouchedAll(failed, t, window, exclude)) < TotalPending(failed)
  {
    var failed := TryAcquire(ks, now, window, exclude).0;
    var touched := TouchedAll(failed, t, window, exclude);
    ReplyIsEntitled(ks, now, window, exclude);
    var i: nat :| InPlay(ks, now, exclude, i) && AvailAt(ks[i], now, window) == Busy(at);
    forall j | 0 <= j < |ks| ensures Pending(touched[j]) <= Pending(failed[j]) {
      WakingNeverAdds(failed[j], t, window);
    }
    KeyAfterAcquire(ks, now, window, exclude, i);
    var strict := i;
    if InPlay(failed, t, exclude, i) {
      WakingOnTimeSettles(ks[i], now, t, window);
    } else {
      var j: nat :| j < |failed| && j !in exclude && Up(failed[j], t);
      assert OthersParked(ks, now, exclude);
      KeyAfterAcquire(ks, now, window, exclude, j);
      WakingNeverAdds(failed[j], t, window);
      strict := j;
    }
    TotalShrinks(failed, touched, strict);
  }

  /** Settling early changes nothing about settling later. */
  lemma SettleTwice(k: Key, s: Time, t: Time, window: nat)
    requires s <= t
    ensures Settle(Refresh(Settle(Refresh(k, s), s, window), t), t, window) == Settle(Refresh(k, t), t, window)
  {
    PruneTwice(k.sends, s, t, window);
  }

  lemma SettlingKeepsPark(k: Key, s: Time, t: Time, window: nat)
    requires s <= t
    ensures Pending(Refresh(Settle(Refresh(k, s), s, window), t)) <= Pending(Refresh(k, t))
    ensures Up(Settle(Refresh(k, s), s, window), t) == Up(k, t)
  {
    PruneShrinks(k.sends, s, window);
  }

  /** A snapshot takes nothing away from the progress of a waiter. */
  lemma SnapshotKeepsProgress(ks: Keys, now: Time, t: Time, window: nat, exclude: seq<nat>)
    requires now <= t
    ensures TotalPending(TouchedAll(Observe(ks, now, window), t, window, exclude)) <=
            TotalPending(TouchedAll(ks, t, window, exclude))
  {
    var after := Observe(ks, now, window);
    forall i | 0 <= i < |ks| ensures Up(after[i], t) == Up(ks[i], t) {
      SettlingKeepsPark(ks[i], now, t, window);
    }
    assert OthersParked(after, t, exclude) == OthersParked(ks, t, exclude);
    var touched, touched1 := TouchedAll(ks, t, window, exclude), TouchedAll(after, t, window, exclude);
    forall i | 0 <= i < |ks| ensures Pending(touched1[i]) <= Pending(touched[i]) {
      SettleTwice(ks[i], now, t, window);
      SettlingKeepsPark(ks[i], now, t, window);
    }
    TotalShrinks(touched, touched1, 0);
  }

  /** How many attempts a run makes. */
  function Attempts(es: seq<Event>): nat {
    if es == [] then 0 else Attempts(Init(es)) + if Last(es).Acquire? then 1 else 0
  }

  /** The instant the latest attempt of a run announced. */
  ghost function Announced(ks: Keys, window: nat, es: seq<Event>): Time {
    if es == [] then 0
    else if Last(es).Acquire? then
      var r := TryAcquire(Run(ks, window, Init(es)), Last(es).now, window, Last(es).exclude).1;
      if r.At? then r.at else 0
    else Announced(ks, window, Init(es))
  }

  /** Failed attempts of one waiter, each at or after the instant announced before, and snapshots. */
  ghost predicate KeepsTrying(ks: Keys, window: nat, es: seq<Event>, exclude: seq<nat>) {
    es == [] ||
    (KeepsTrying(ks, window, Init(es), exclude) &&
     match Last(es)
     case Snapshot(_) => true
     case Report(_, _, _) => false
     case Acquire(now, ex) =>
       ex == exclude && Announced(ks, window, Init(es)) <= now &&
       TryAcquire(Run(ks, window, Init(es)), now, window, exclude).1.At?)
  }

  lemma {:induction false} EachAttemptSettles(ks: Keys, window: nat, es: seq<Event>, exclude: seq<nat>, t: Time)
    requires Timely(es) && KeepsTrying(ks, window, es, exclude)
    requires EndOf(es) <= t && Announced(ks, window, es) <= t
    ensures Attempts(es) + TotalPending(TouchedAll(Run(ks, window, es), t, window, exclude)) <= TotalPending(ks)
  {
    if es == [] {
      SelectionNeverAdds(ks, t, window, exclude);
    } else {
      var before, now := Run(ks, window, Init(es)), Last(es).now;
      assert EndOf(Init(es)) <= now;
      if Last(es).Snapshot? {
        EachAttemptSettles(ks, window, Init(es), exclude, t);
        SnapshotKeepsProgress(before, now, t, window, exclude);
      } else {
        EachAttemptSettles(ks, window, Init(es), exclude, now);
        SelectionNeverAdds(before, now, window, exclude);
        WakeUpMakesProgress(before, now, t, window, exclude, TryAcquire(before, now, window, exclude).1.at);
      }
    }
  }

  /**
   A waiter fails at most as often as there were parks, holds and queued sends when it came, whatever
   snapshots are taken while it sleeps and however late it wakes up.
   */
  lemma FailedAttemptsAreBounded(ks: Keys, window: nat, es: seq<Event>, exclude: seq<nat>)
    requires Timely(es) && KeepsTrying(ks, window, es, exclude)
    ensures Attempts(es) <= TotalPending(ks)
  {
    EachAttemptSettles(ks, window, es, exclude, Max(EndOf(es), Announced(ks, window, es)));
  }

  // ----- a whole wait ---------------------------------------------------------------------------------

  /** The reply to the `n`-th attempt of a run. */
  ghost function ReplyTo(ks: Keys, window: nat, tries: seq<Event>, n: nat): Reply
    requires n < |tries| && tries[n].Acquire?
  {
    TryAcquire(Run(ks, window, tries[..n]), tries[n].now, window, tries[n].exclude).1
  }

  /** A waiter's attempts: each failed one is followed by another at or after the announced instant. */
  ghost predicate Patient(ks: Keys, window: nat, tries: seq<Event>, start: Time, deadline: Time, exclude: seq<nat>) {
    tries != [] && tries[0].now == start &&
    (forall n :: 0 <= n < |tries| ==> tries[n].Acquire? && tries[n].exclude == exclude) &&
    forall n :: 0 <= n < |tries| - 1 ==>
      var r := ReplyTo(ks, window, tries, n);
      r.At? && r.at <= deadline && r.at <= tries[n + 1].now
  }

  /** The waiter is about to make the last of `tries` on the pool `ks`. */
  ghost predicate MidWait(start: Keys, ks: Keys, window: nat, tries: seq<Event>, from: Time, deadline: Time,
                          exclude: seq<nat>, now: Time)
  {
    && Patient(start, window, tries, from, deadline, exclude)
    && Last(tries).now == now
    && ks == Run(start, window, Init(tries))
    && |tries| - 1 + TotalPending(TouchedAll(ks, now, window, exclude)) <= TotalPending(start)
  }

  /** The last attempt of a run, taken on the pool that the ones before it leave. */
  lemma LastTry(start: Keys, ks: Keys, window: nat, tries: seq<Event>, exclude: seq<nat>, now: Time)
    requires tries != [] && ks == Run(start, window, Init(tries)) && Last(tries) == Acquire(now, exclude)
    ensures Run(start, window, tries) == TryAcquire(ks, now, window, exclude).0
    ensures ReplyTo(start, window, tries, |tries| - 1) == TryAcquire(ks, now, window, exclude).1
  {
    RunStep(start, window, Init(tries), Last(tries));
    assert Init(tries) + [Last(tries)] == tries;
  }

  lemma LastIsAttempt(start: Keys, window: nat, tries: seq<Event>, from: Time, deadline: Time, exclude: seq<nat>)
    requires Patient(start, window, tries, from, deadline, exclude)
    ensures Last(tries) == Acquire(Last(tries).now, exclude)
  {
    assert tries[|tries| - 1].Acquire?;
  }

  lemma AttemptMade(start: Keys, ks: Keys, window: nat, tries: seq<Event>, from: Time, deadline: Time,
                    exclude: seq<nat>, now: Time)
    requires window > 0 && MidWait(start, ks, window, tries, from, deadline, exclude, now)
    ensures var (after, reply) := TryAcquire(ks, now, window, exclude);
            && Run(start, window, tries) == after
            && ReplyTo(start, window, tries, |tries| - 1) == reply
            && (reply.At? ==> now < reply.at)
            && |tries| - 1 <= TotalPending(start)
  {
    LastIsAttempt(start, window, tries, from, deadline, exclude);
    LastTry(start, ks, window, tries, exclude, now);
    if TryAcquire(ks, now, window, exclude).1.At? {
      WaitIsPositive(ks, now, window, exclude);
    }
  }

  lemma AnotherTry(ks: Keys, window: nat, tries: seq<Event>, from: Time, deadline: Time, exclude: seq<nat>, now: Time)
    requires Patient(ks, window, tries, from, deadline, exclude)
    requires var r := ReplyTo(ks, window, tries, |tries| - 1); r.At? && r.at <= deadline && r.at <= now
    ensures Patient(ks, window, tries + [Acquire(now, exclude)], from, deadline, exclude)
  {
    var more := tries + [Acquire(now, exclude)];
    forall n | 0 <= n < |tries| ensures ReplyTo(ks, window, more, n) == ReplyTo(ks, window, tries, n) {
      assert more[..n] == tries[..n];
    }
  }

  /** A failed attempt and the sleep after it bring the waiter closer to the end of its wait. */
  lemma WaitGoesOn(start: Keys, ks: Keys, window: nat, tries: seq<Event>, from: Time, deadline: Time,
                   exclude: seq<nat>, now: Time, at: Time, awake: Time)
    requires window > 0 && MidWait(start, ks, window, tries, from, deadline, exclude, now)
    requires TryAcquire(ks, now, window, exclude).1 == At(at) && at <= deadline && at <= awake
    ensures var after := TryAcquire(ks, now, window, exclude).0;
            && MidWait(start, after, window, tries + [Acquire(awake, exclude)], from, deadline, exclude, awake)
            && TotalPending(TouchedAll(after, awake, window, exclude)) <
               TotalPending(TouchedAll(ks, now, window, exclude))
  {
    AttemptMade(start, ks, window, tries, from, deadline, exclude, now);
    SelectionNeverAdds(ks, now, window, exclude);
    WakeUpMakesProgress(ks, now, awake, window, exclude, at);
    AnotherTry(start, window, tries, from, deadline, exclude, awake);
    assert Init(tries + [Acquire(awake, exclude)]) == tries;
  }

  /** No attempt under the same exclusions would be granted in the given span. */
  ghost predicate NothingUntil(ks: Keys, window: nat, from: Time, to: Time, exclude: seq<nat>) {
    forall t :: from <= t <= to ==> TryAcquire(ks, t, window, exclude).1.At?
  }

  /** A rejected waiter lost nothing: the pool could not have served it by its deadline. */
  lemma StillNothing(ks: Keys, now: Time, deadline: Time, window: nat, exclude: seq<nat>, at: Time)
    requires window > 0 && TryAcquire(ks, now, window, exclude).1 == At(at) && deadline < at
    ensures NothingUntil(TryAcquire(ks, now, window, exclude).0, window, now, deadline, exclude)
  {
    var after := TryAcquire(ks, now, window, exclude).0;
    StepWakes(ks, window, Acquire(now, exclude));
    forall t | now <= t <= deadline ensures TryAcquire(after, t, window, exclude).1 == At(at) {
      AnswerStands(ks, after, now, t, window, exclude, at);
    }
  }
}

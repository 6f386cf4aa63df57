/** The free slots a snapshot advertises are exactly the leases the pool will grant. */
module Capacity {
  import opened Prelude
  import opened RateLimit
  import opened KeySpec
  import opened PoolSpec
  import opened Selection
  import opened Pruning
  import opened Transparency
  import opened Waiting

  /** A key as a snapshot leaves it. */
  predicate Settled(k: Key, now: Time, window: nat) {
    k == Settle(Refresh(k, now), now, window)
  }

  lemma SettlingSettles(k: Key, now: Time, window: nat)
    ensures Settled(Settle(Refresh(k, now), now, window), now, window)
  {
    PruneTwice(k.sends, now, now, window);
  }

  lemma FreeIffSlots(k: Key, now: Time, window: nat)
    requires Settled(k, now, window)
    ensures FreeAt(k, now, window) <==> k.FreeSlots() > 0
  {
  }

  /** A lease takes exactly one advertised slot. */
  lemma LeaseTakesSlot(k: Key, now: Time, window: nat)
    requires window > 0 && Settled(k, now, window) && FreeAt(k, now, window)
    ensures Settled(Reserve(k, now), now, window)
    ensures Reserve(k, now).FreeSlots() == k.FreeSlots() - 1
  {
    PruneHead(k.sends, now, window);
    var sends := k.sends + [now];
    assert Prune(sends, now, window) == sends;
  }

  ghost predicate AllSettled(ks: Keys, now: Time, window: nat) {
    forall i :: 0 <= i < |ks| ==> Settled(ks[i], now, window)
  }

  function Slots(ks: Keys): nat {
    Summarise(ks, |ks|).slots
  }

  lemma {:induction false} SlotsChange(ks: Keys, i: nat, k: Key, n: nat)
    requires i < |ks| && n <= |ks|
    ensures Summarise(ks[i := k], n).slots + (if i < n then ks[i].FreeSlots() else 0) ==
            Summarise(ks, n).slots + (if i < n then k.FreeSlots() else 0)
  {
    if n > 0 {
      SlotsChange(ks, i, k, n - 1);
      assert n - 1 != i ==> ks[i := k][n - 1] == ks[n - 1];
    }
  }

  lemma {:induction false} SlotsPositive(ks: Keys, n: nat)
    requires n <= |ks|
    ensures Summarise(ks, n).slots > 0 <==> exists i :: 0 <= i < n && ks[i].FreeSlots() > 0
  {
    if n > 0 {
      SlotsPositive(ks, n - 1);
      if ks[n - 1].FreeSlots() > 0 {
        assert ks[n - 1].health == Ok;
      }
    }
  }

  /** With nothing excluded, a lease is granted exactly when some key is free. */
  lemma LeasedIffFree(ks: Keys, now: Time, window: nat)
    ensures TryAcquire(ks, now, window, []).1.Leased? <==> exists i :: 0 <= i < |ks| && FreeAt(ks[i], now, window)
    ensures var r := TryAcquire(ks, now, window, []).1; r.Leased? ==> FreeAt(ks[r.idx], now, window)
  {
    ReplyIsEntitled(ks, now, window, []);
    var r := TryAcquire(ks, now, window, []).1;
    forall i: nat | i < |ks| && FreeAt(ks[i], now, window) ensures r.Leased? {
      assert InPlay(ks, now, [], i) && Up(ks[i], now);
    }
  }

  lemma SettledStays(ks: Keys, now: Time, window: nat)
    requires AllSettled(ks, now, window)
    ensures var (after, r) := TryAcquire(ks, now, window, []);
            after == if r.Leased? then ks[r.idx := Reserve(ks[r.idx], now)] else ks
  {
    var (after, r) := TryAcquire(ks, now, window, []);
    forall i | 0 <= i < |ks| ensures after[i] == if r == Leased(i) then Reserve(ks[i], now) else ks[i] {
      KeyAfterAcquire(ks, now, window, [], i);
      assert Settled(ks[i], now, window);
    }
  }

  /** One attempt on an observed pool: granted if and only if a slot is left, which it then takes. */
  lemma AttemptTakesSlot(ks: Keys, now: Time, window: nat)
    requires window > 0 && AllSettled(ks, now, window)
    ensures var (after, r) := TryAcquire(ks, now, window, []);
            && AllSettled(after, now, window)
            && (r.Leased? <==> Slots(ks) > 0)
            && Slots(after) == SatSub(Slots(ks), 1)
  {
    var (after, r) := TryAcquire(ks, now, window, []);
    LeasedIffFree(ks, now, window);
    SettledStays(ks, now, window);
    SlotsPositive(ks, |ks|);
    forall i | 0 <= i < |ks| ensures FreeAt(ks[i], now, window) <==> ks[i].FreeSlots() > 0 {
      FreeIffSlots(ks[i], now, window);
    }
    if r.Leased? {
      LeaseTakesSlot(ks[r.idx], now, window);
      SlotsChange(ks, r.idx, Reserve(ks[r.idx], now), |ks|);
    }
  }

  /** How many of `n` consecutive attempts at `now` are granted. */
  function Granted(ks: Keys, now: Time, window: nat, n: nat): nat
    decreases n
  {
    if n == 0 then 0 else
      var (after, r) := TryAcquire(ks, now, window, []);
      (if r.Leased? then 1 else 0) + Granted(after, now, window, n - 1)
  }

  lemma {:induction false} GrantedIsSlots(ks: Keys, now: Time, window: nat, n: nat)
    requires window > 0 && AllSettled(ks, now, window)
    ensures Granted(ks, now, window, n) == Min(n, Slots(ks))
    decreases n
  {
    if n > 0 {
      AttemptTakesSlot(ks, now, window);
      GrantedIsSlots(TryAcquire(ks, now, window, []).0, now, window, n - 1);
    }
  }

  /**
   The advertised capacity is exact: whatever mix of parked, held, over-full and partly used keys
   a snapshot finds, the next attempts at that instant are granted up to the reported number of
   slots, and every further one fails.
   */
  lemma AdvertisedCapacityIsExact(ks: Keys, now: Time, window: nat, n: nat)
    requires window > 0
    ensures var observed := Observe(ks, now, window);
            Granted(observed, now, window, n) == Min(n, Summarise(observed, |ks|).slots)
  {
    var observed := Observe(ks, now, window);
    forall i | 0 <= i < |ks| ensures Settled(observed[i], now, window) {
      SettlingSettles(ks[i], now, window);
    }
    GrantedIsSlots(observed, now, window, n);
  }

  /** Looking at the pool first makes no difference to an attempt at the same instant. */
  lemma ObservedFirst(ks: Keys, now: Time, window: nat)
    ensures TryAcquire(Observe(ks, now, window), now, window, []) == TryAcquire(ks, now, window, [])
  {
    var seen, plain := TryAcquire(Observe(ks, now, window), now, window, []), TryAcquire(ks, now, window, []);
    SnapshotIsTransparent(ks, now, now, window, []);
    forall i | 0 <= i < |ks| ensures seen.0[i] == plain.0[i] {
      KeyAfterAcquire(ks, now, window, [], i);
      KeyAfterAcquire(Observe(ks, now, window), now, window, [], i);
      SettlingSettles(ks[i], now, window);
      assert InPlay(ks, now, [], i) && InPlay(Observe(ks, now, window), now, [], i);
    }
    assert seen.0 == plain.0;
  }

  lemma OneKeyGranted(k: Key, now: Time, window: nat, n: nat)
    requires window > 0
    ensures Granted([k], now, window, n) == Min(n, Settle(Refresh(k, now), now, window).FreeSlots())
  {
    var observed := Observe([k], now, window);
    AdvertisedCapacityIsExact([k], now, window, n);
    ObservedFirst([k], now, window);
    assert Granted([k], now, window, n) == Granted(observed, now, window, n);
    assert Summarise(observed, 1).slots == Summarise(observed, 0).slots + observed[0].FreeSlots();
  }

  /** What the limit leaves beside the sends still inside the window; nothing while parked or held. */
  function Room(k: Key, now: Time, window: nat): nat {
    if !Up(k, now) || PendingHold(k, now).Some? then 0
    else SatSub(k.Limit(), AsU32(|Prune(k.sends, now, window)|))
  }

  lemma SlotsAreRoom(k: Key, now: Time, window: nat)
    ensures Settle(Refresh(k, now), now, window).FreeSlots() == Room(k, now, window)
  {
  }

  /**
   A key whose park is over is probed at once as often as its limit leaves room, not just once: the
   sends from before the park count while they are inside the window, and a pending hold still holds.
   */
  lemma ProbesAfterPark(k: Key, now: Time, window: nat, n: nat)
    requires window > 0 && k.health != Ok && k.health.until <= now
    ensures Granted([k], now, window, n) ==
            Min(n, if PendingHold(k, now).Some? then 0 else SatSub(k.Limit(), AsU32(|Prune(k.sends, now, window)|)))
  {
    OneKeyGranted(k, now, window, n);
    SlotsAreRoom(k, now, window);
  }

  /**
   A learned rate is put to use at once: after a success that reports `rate` requests per second, the
   window takes exactly that many sends, capped at 1000, less those already in it; none while the key
   is parked or held.
   */
  lemma LearnedRateIsUsed(k: Key, now: Time, status: nat, rl: RateLimitInfo, t: Time, window: nat, n: nat)
    requires window > 0 && 200 <= status <= 299
    requires rl.limit.second.Some? && rl.limit.second.value > 0
    ensures var d := Digest(k, now, Response(status, Some(rl)));
            Granted([d], t, window, n) ==
            Min(n, if !Up(d, t) || PendingHold(k, t).Some? then 0
                   else SatSub(Min(rl.limit.second.value, 1000), AsU32(|Prune(k.sends, t, window)|)))
  {
    var d := Digest(k, now, Response(status, Some(rl)));
    SuccessTeaches(k, now, status, rl);
    OneKeyGranted(d, t, window, n);
    SlotsAreRoom(d, t, window);
  }

  lemma SuccessTeaches(k: Key, now: Time, status: nat, rl: RateLimitInfo)
    requires 200 <= status <= 299 && rl.limit.second.Some? && rl.limit.second.value > 0
    ensures var d := Digest(k, now, Response(status, Some(rl)));
            d.sends == k.sends && d.holdUntil == k.holdUntil && d.Limit() == Min(rl.limit.second.value, 1000)
  {
  }

  /**
   The report on a key is honest: it is called ok exactly when it could be leased, otherwise the instant
   reported is the one a waiter would be told; it is called parked, held or busy exactly when it is; and what is
   reported to be in its window and its free slots make up its limit.
   */
  lemma KeyReportIsHonest(k: Key, now: Time, window: nat)
    ensures var observed := Settle(Refresh(k, now), now, window);
            var r := ReportKey(k, now, window);
            && (r.state == "ok" <==> FreeAt(k, now, window))
            && (r.until.Some? <==> AvailAt(k, now, window).Busy?)
            && (r.until.Some? ==> AvailAt(k, now, window) == Busy(r.until.value))
            && (r.state == "disabled" <==> Refresh(k, now).health.Disabled?)
            && (r.state == "exhausted" <==> Refresh(k, now).health.Exhausted?)
            && (r.state == "cooling" <==> Up(k, now) && PendingHold(k, now).Some?)
            && (r.state == "busy" <==> Up(k, now) && PendingHold(k, now).None? && !FreeAt(k, now, window))
            && (r.state == "cooling" ==> r.until == PendingHold(k, now))
            && (r.state == "busy" ==> r.inWindow >= observed.Limit())
            && (r.state == "ok" ==> observed.FreeSlots() + Min(r.inWindow, observed.Limit()) == observed.Limit())
  {
  }

  lemma {:induction false} NoneHealthy(ks: Keys, n: nat)
    requires n <= |ks|
    ensures Summarise(ks, n).healthy == 0 <==> forall i :: 0 <= i < n ==> ks[i].health != Ok
  {
    if n > 0 {
      NoneHealthy(ks, n - 1);
    }
  }

  /** The health report is honest: no key counts as healthy exactly when every caller would be turned away. */
  lemma HealthReportIsHonest(ks: Keys, now: Time, window: nat, exclude: seq<nat>)
    ensures Summarise(Observe(ks, now, window), |ks|).healthy == 0 <==>
            TryAcquire(ks, now, window, exclude).1.Unavailable?
  {
    ObservedHealth(ks, now, window);
    UnavailableIffAllParked(ks, now, window, exclude);
  }

  lemma ObservedHealth(ks: Keys, now: Time, window: nat)
    ensures Summarise(Observe(ks, now, window), |ks|).healthy == 0 <==> AllParked(ks, now)
  {
    var observed := Observe(ks, now, window);
    NoneHealthy(observed, |ks|);
    forall i | 0 <= i < |ks| ensures observed[i].health == Ok <==> Up(ks[i], now) {
    }
  }
}

/**
 What a selection means, independently of how the pool scans its keys: which keys are in play,
 which of them wins, and what the caller is told when none is free.
 */
module Selection {
  import opened Prelude
  import opened KeySpec
  import opened PoolSpec

  /** Not parked at `now`. */
  predicate Up(k: Key, now: Time) {
    Refresh(k, now).health == Ok
  }

  function AvailAt(k: Key, now: Time, window: nat): Avail {
    Availability(Refresh(k, now), now, window)
  }

  predicate FreeAt(k: Key, now: Time, window: nat) {
    AvailAt(k, now, window).Free?
  }

  /** Every key that is not excluded is parked. */
  predicate OthersParked(ks: Keys, now: Time, exclude: seq<nat>) {
    forall j: nat :: j < |ks| && j !in exclude ==> !Up(ks[j], now)
  }

  /** An excluded key only counts once every other key is parked. */
  predicate InPlay(ks: Keys, now: Time, exclude: seq<nat>, i: nat) {
    i < |ks| && (i !in exclude || OthersParked(ks, now, exclude))
  }

  predicate RanksBefore(a: Key, i: nat, b: Key, j: nat) {
    Better(a, b) || (!Better(b, a) && i < j)
  }

  /** The reply a caller is entitled to. */
  ghost predicate Entitled(ks: Keys, now: Time, window: nat, exclude: seq<nat>, r: Reply) {
    match r
    case Leased(i) =>
      InPlay(ks, now, exclude, i) && FreeAt(ks[i], now, window) &&
      forall j: nat :: InPlay(ks, now, exclude, j) && FreeAt(ks[j], now, window) && j != i ==>
        RanksBefore(Refresh(ks[i], now), i, Refresh(ks[j], now), j)
    case At(at) =>
      SomeUp(ks, now, exclude) && EarliestBusy(ks, now, window, exclude, at)
    case Unavailable(earliest) =>
      AllParked(ks, now) &&
      (earliest.None? <==> |ks| == 0) &&
      (earliest.Some? ==> EarliestBusy(ks, now, window, exclude, earliest.value))
  }

  ghost predicate SomeUp(ks: Keys, now: Time, exclude: seq<nat>) {
    exists i: nat :: InPlay(ks, now, exclude, i) && Up(ks[i], now)
  }

  ghost predicate AllParked(ks: Keys, now: Time) {
    forall i: nat :: i < |ks| ==> !Up(ks[i], now)
  }

  /** No key in play is free, and `at` is the first instant at which one of them may be. */
  ghost predicate EarliestBusy(ks: Keys, now: Time, window: nat, exclude: seq<nat>, at: Time) {
    (exists i: nat :: InPlay(ks, now, exclude, i) && AvailAt(ks[i], now, window) == Busy(at)) &&
    forall i: nat :: InPlay(ks, now, exclude, i) ==>
      AvailAt(ks[i], now, window).Busy? && at <= AvailAt(ks[i], now, window).at
  }

  // ----- the scan ----------------------------------------------------------------------------

  predicate Contends(ks: Keys, now: Time, window: nat, exclude: seq<nat>, skip: bool, j: nat) {
    j < |ks| && Considered(j, exclude, skip) && Availability(ks[j], now, window).Free?
  }

  predicate Waits(ks: Keys, now: Time, window: nat, exclude: seq<nat>, skip: bool, j: nat) {
    j < |ks| && Considered(j, exclude, skip) && Availability(ks[j], now, window).Busy?
  }

  predicate Beats(ks: Keys, i: nat, j: nat)
    requires i < |ks| && j < |ks|
  {
    RanksBefore(ks[i], i, ks[j], j)
  }

  ghost predicate BestMeans(ks: Keys, now: Time, window: nat, exclude: seq<nat>, skip: bool, n: nat, best: Option<nat>)
    requires n <= |ks|
  {
    match best
    case None => forall j: nat :: j < n ==> !Contends(ks, now, window, exclude, skip, j)
    case Some(b) =>
      b < n && Contends(ks, now, window, exclude, skip, b) &&
      forall j: nat :: j < n && j != b && Contends(ks, now, window, exclude, skip, j) ==> Beats(ks, b, j)
  }

  ghost predicate NextMeans(ks: Keys, now: Time, window: nat, exclude: seq<nat>, skip: bool, n: nat, next: Option<Time>)
    requires n <= |ks|
  {
    match next
    case None => forall j: nat :: j < n ==> !Waits(ks, now, window, exclude, skip, j)
    case Some(at) =>
      (exists j: nat :: j < n && Waits(ks, now, window, exclude, skip, j) && Availability(ks[j], now, window).at == at) &&
      forall j: nat :: j < n && Waits(ks, now, window, exclude, skip, j) ==> at <= Availability(ks[j], now, window).at
  }

  ghost predicate HealthyMeans(ks: Keys, exclude: seq<nat>, skip: bool, n: nat, any: bool)
    requires n <= |ks|
  {
    any <==> exists j: nat :: j < n && Considered(j, exclude, skip) && ks[j].health == Ok
  }

  lemma BeatsIsTransitive(ks: Keys, i: nat, j: nat, l: nat)
    requires i < |ks| && j < |ks| && l < |ks| && Beats(ks, i, j) && Beats(ks, j, l)
    ensures Beats(ks, i, l)
  {
  }

  lemma {:induction false} ScanBest(ks: Keys, now: Time, window: nat, exclude: seq<nat>, skip: bool, n: nat)
    requires n <= |ks|
    ensures BestMeans(ks, now, window, exclude, skip, n, PickAmong(ks, now, window, exclude, skip, n).best)
  {
    if n > 0 {
      ScanBest(ks, now, window, exclude, skip, n - 1);
      var p := PickAmong(ks, now, window, exclude, skip, n - 1).best;
      var q := PickAmong(ks, now, window, exclude, skip, n).best;
      if p.Some? && q == Some(n - 1) {
        assert Beats(ks, n - 1, p.value);
        forall j: nat | j < n - 1 && j != p.value && Contends(ks, now, window, exclude, skip, j)
          ensures Beats(ks, n - 1, j)
        {
          BeatsIsTransitive(ks, n - 1, p.value, j);
        }
      } else if p.Some? && Contends(ks, now, window, exclude, skip, n - 1) {
        assert Beats(ks, p.value, n - 1);
      }
    }
  }

  lemma {:induction false} ScanNext(ks: Keys, now: Time, window: nat, exclude: seq<nat>, skip: bool, n: nat)
    requires n <= |ks|
    ensures NextMeans(ks, now, window, exclude, skip, n, PickAmong(ks, now, window, exclude, skip, n).next)
  {
    if n > 0 {
      ScanNext(ks, now, window, exclude, skip, n - 1);
      var p := PickAmong(ks, now, window, exclude, skip, n - 1).next;
      var q := PickAmong(ks, now, window, exclude, skip, n).next;
      if p != q {
        assert Waits(ks, now, window, exclude, skip, n - 1) && Availability(ks[n - 1], now, window).at == q.value;
      }
    }
  }

  lemma {:induction false} ScanHealthy(ks: Keys, now: Time, window: nat, exclude: seq<nat>, skip: bool, n: nat)
    requires n <= |ks|
    ensures HealthyMeans(ks, exclude, skip, n, PickAmong(ks, now, window, exclude, skip, n).anyHealthy)
  {
    if n > 0 {
      ScanHealthy(ks, now, window, exclude, skip, n - 1);
      var p := PickAmong(ks, now, window, exclude, skip, n - 1);
      var q := PickAmong(ks, now, window, exclude, skip, n);
      assert q.anyHealthy == (p.anyHealthy || (Considered(n - 1, exclude, skip) && ks[n - 1].health == Ok));
    }
  }

  // ----- the reply and the pool afterwards -----------------------------------------------------

  /** Excluded keys are passed over unless the fallback scan was needed. */
  ghost predicate Skips(ks: Keys, now: Time, exclude: seq<nat>) {
    exclude == [] || !OthersParked(ks, now, exclude)
  }

  /** The two scans of the pool amount to one scan of the keys in play. */
  lemma OneScan(ks: Keys, now: Time, window: nat, exclude: seq<nat>)
    ensures var r := RefreshAll(ks, now);
            var skip := Skips(ks, now, exclude);
            TryAcquire(ks, now, window, exclude) ==
            Conclude(SettleAll(r, now, window, exclude, skip), now, PickFrom(r, now, window, exclude, skip))
  {
    var r := RefreshAll(ks, now);
    var p := PickFrom(r, now, window, exclude, true);
    var s := SettleAll(r, now, window, exclude, true);
    ScanBest(r, now, window, exclude, true, |r|);
    ScanHealthy(r, now, window, exclude, true, |r|);
    assert p.anyHealthy <==> !OthersParked(ks, now, exclude) by {
      if p.anyHealthy {
        var j: nat :| j < |r| && Considered(j, exclude, true) && r[j].health == Ok;
        assert Up(ks[j], now);
      } else {
        forall j: nat | j < |ks| && j !in exclude ensures !Up(ks[j], now) {
          assert Considered(j, exclude, true);
        }
      }
    }
    if !p.anyHealthy {
      forall j: nat | j < |r| && Considered(j, exclude, true) ensures s[j] == r[j] {
        assert r[j].health != Ok;
      }
      assert s == r;
      assert p.best.None?;
    }
  }

  /** The pool answers every caller with what the keys in play entitle it to. */
  lemma ReplyIsEntitled(ks: Keys, now: Time, window: nat, exclude: seq<nat>)
    ensures Entitled(ks, now, window, exclude, TryAcquire(ks, now, window, exclude).1)
  {
    var r := RefreshAll(ks, now);
    var skip := Skips(ks, now, exclude);
    OneScan(ks, now, window, exclude);
    ScanBest(r, now, window, exclude, skip, |r|);
    ScanNext(r, now, window, exclude, skip, |r|);
    ScanHealthy(r, now, window, exclude, skip, |r|);
    var p := PickFrom(r, now, window, exclude, skip);
    forall i: nat | i < |ks| ensures InPlay(ks, now, exclude, i) <==> Considered(i, exclude, skip) {
    }
    match p.best
    case Some(b) =>
      assert Contends(r, now, window, exclude, skip, b);
      forall j: nat | InPlay(ks, now, exclude, j) && FreeAt(ks[j], now, window) && j != b
        ensures RanksBefore(Refresh(ks[b], now), b, Refresh(ks[j], now), j)
      {
        assert Contends(r, now, window, exclude, skip, j);
        assert Beats(r, b, j);
      }
    case None =>
      NoneFree(ks, now, window, exclude, p.next);
  }

  /** When the scan finds no free key, `next` is the first instant a key in play may free up. */
  lemma NoneFree(ks: Keys, now: Time, window: nat, exclude: seq<nat>, next: Option<Time>)
    requires var r := RefreshAll(ks, now);
             BestMeans(r, now, window, exclude, Skips(ks, now, exclude), |r|, None) &&
             NextMeans(r, now, window, exclude, Skips(ks, now, exclude), |r|, next)
    ensures next.Some? ==> EarliestBusy(ks, now, window, exclude, next.value)
    ensures next.None? ==> forall i: nat :: !InPlay(ks, now, exclude, i)
  {
    var r := RefreshAll(ks, now);
    var skip := Skips(ks, now, exclude);
    forall i: nat | InPlay(ks, now, exclude, i)
      ensures Waits(r, now, window, exclude, skip, i)
    {
      assert !Contends(r, now, window, exclude, skip, i);
    }
    if next.Some? {
      var i: nat :| i < |r| && Waits(r, now, window, exclude, skip, i) && Availability(r[i], now, window).at == next.value;
      assert InPlay(ks, now, exclude, i) && AvailAt(ks[i], now, window) == Busy(next.value);
    }
  }

  /** Exactly one reply is right, and the pool gives it. */
  lemma ReplyIffEntitled(ks: Keys, now: Time, window: nat, exclude: seq<nat>, r: Reply)
    ensures Entitled(ks, now, window, exclude, r) <==> r == TryAcquire(ks, now, window, exclude).1
  {
    ReplyIsEntitled(ks, now, window, exclude);
    if Entitled(ks, now, window, exclude, r) {
      OneWinner(ks, now, window, exclude, r, TryAcquire(ks, now, window, exclude).1);
    }
  }

  lemma OneWinner(ks: Keys, now: Time, window: nat, exclude: seq<nat>, a: Reply, b: Reply)
    requires Entitled(ks, now, window, exclude, a) && Entitled(ks, now, window, exclude, b)
    ensures a == b
  {
  }

  /** A wait is announced exactly when some key in play is healthy but none is free. */
  lemma AtMeans(ks: Keys, now: Time, window: nat, exclude: seq<nat>, at: Time)
    ensures TryAcquire(ks, now, window, exclude).1 == At(at) <==>
            SomeUp(ks, now, exclude) && EarliestBusy(ks, now, window, exclude, at)
  {
    ReplyIffEntitled(ks, now, window, exclude, At(at));
  }

  /** A key after the selection has looked at it, before any slot is reserved. */
  function Touched(ks: Keys, now: Time, window: nat, exclude: seq<nat>, i: nat): Key
    requires i < |ks|
  {
    if InPlay(ks, now, exclude, i) then Settle(Refresh(ks[i], now), now, window) else Refresh(ks[i], now)
  }

  /** Only the leased key is charged; every other key is at most refreshed and settled. */
  lemma KeyAfterAcquire(ks: Keys, now: Time, window: nat, exclude: seq<nat>, i: nat)
    requires i < |ks|
    ensures var (after, reply) := TryAcquire(ks, now, window, exclude);
            after[i] == if reply == Leased(i) then Reserve(Touched(ks, now, window, exclude, i), now)
                        else Touched(ks, now, window, exclude, i)
  {
    OneScan(ks, now, window, exclude);
    assert InPlay(ks, now, exclude, i) <==> Considered(i, exclude, Skips(ks, now, exclude));
  }
}

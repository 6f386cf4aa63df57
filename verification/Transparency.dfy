/**
 Snapshots refresh, prune and clear holds, yet leave no trace: pools that agree once normalised
 at an instant answer alike from then on.
 */
module Transparency {
  import opened Prelude
  import opened KeySpec
  import opened PoolSpec
  import opened Selection
  import opened Pruning

  function PendingHold(k: Key, t: Time): Option<Time> {
    if k.holdUntil.Some? && k.holdUntil.value > t then k.holdUntil else None
  }

  /** Without the hold and the sends that are over at `t`. */
  function Trim(k: Key, t: Time, window: nat): Key {
    k.(holdUntil := PendingHold(k, t), sends := Prune(k.sends, t, window))
  }

  /** All of a key that matters from `t` on. */
  function Norm(k: Key, t: Time, window: nat): Key {
    Trim(Refresh(k, t), t, window)
  }

  ghost predicate SameAt(ks: Keys, ls: Keys, t: Time, window: nat) {
    |ks| == |ls| && forall i :: 0 <= i < |ks| ==> Norm(ks[i], t, window) == Norm(ls[i], t, window)
  }

  lemma RefreshTwice(k: Key, t: Time, later: Time, window: nat)
    requires t <= later
    ensures Refresh(Refresh(k, t), later) == Refresh(k, later)
    ensures Refresh(Trim(k, t, window), later) == Trim(Refresh(k, later), t, window)
    ensures Refresh(Settle(k, t, window), later) == Refresh(k, later) ||
            Refresh(Settle(k, t, window), later) == Trim(Refresh(k, later), t, window)
  {
  }

  /** Trimming early changes nothing about trimming later. */
  lemma TrimTwice(k: Key, t: Time, later: Time, window: nat)
    requires t <= later
    ensures Trim(Trim(k, t, window), later, window) == Trim(k, later, window)
  {
    PruneTwice(k.sends, t, later, window);
  }

  lemma NormLater(k: Key, t: Time, later: Time, window: nat)
    requires t <= later
    ensures Norm(Norm(k, t, window), later, window) == Norm(k, later, window)
    ensures Norm(Refresh(k, t), later, window) == Norm(k, later, window)
    ensures Norm(Settle(Refresh(k, t), t, window), later, window) == Norm(k, later, window)
  {
    RefreshTwice(k, t, later, window);
    RefreshTwice(Refresh(k, t), t, later, window);
    TrimTwice(Refresh(k, later), t, later, window);
  }

  /** Everything a selection asks of a key can be read off its normal form. */
  lemma NormDecides(k: Key, t: Time, window: nat)
    ensures AvailAt(k, t, window) == Availability(Norm(k, t, window), t, window)
    ensures Up(k, t) == (Norm(k, t, window).health == Ok)
    ensures Refresh(k, t).lastUsed == Norm(k, t, window).lastUsed
    ensures Refresh(k, t).MonthRemainingForRanking() == Norm(k, t, window).MonthRemainingForRanking()
    ensures FreeAt(k, t, window) ==> Settle(Refresh(k, t), t, window) == Norm(k, t, window)
  {
    PruneTwice(k.sends, t, t, window);
  }

  /** Two keys no selection at `t` can tell apart. */
  predicate Alike(k: Key, l: Key, t: Time, window: nat) {
    && AvailAt(k, t, window) == AvailAt(l, t, window)
    && Up(k, t) == Up(l, t)
    && Refresh(k, t).lastUsed == Refresh(l, t).lastUsed
    && Refresh(k, t).MonthRemainingForRanking() == Refresh(l, t).MonthRemainingForRanking()
  }

  lemma AlikeSelection(ks: Keys, ls: Keys, t: Time, window: nat, exclude: seq<nat>, r: Reply)
    requires |ks| == |ls| && forall i :: 0 <= i < |ks| ==> Alike(ks[i], ls[i], t, window)
    requires Entitled(ks, t, window, exclude, r)
    ensures forall i: nat :: InPlay(ks, t, exclude, i) == InPlay(ls, t, exclude, i)
    ensures Entitled(ls, t, window, exclude, r)
  {
    assert OthersParked(ks, t, exclude) == OthersParked(ls, t, exclude);
    match r
    case Leased(i) =>
      forall j: nat | InPlay(ls, t, exclude, j) && FreeAt(ls[j], t, window) && j != i
        ensures RanksBefore(Refresh(ls[i], t), i, Refresh(ls[j], t), j)
      {
        assert InPlay(ks, t, exclude, j) && FreeAt(ks[j], t, window);
        assert RanksBefore(Refresh(ks[i], t), i, Refresh(ks[j], t), j);
      }
    case At(at) =>
      var i: nat :| InPlay(ks, t, exclude, i) && Up(ks[i], t);
      assert InPlay(ls, t, exclude, i) && Up(ls[i], t);
      AlikeBusy(ks, ls, t, window, exclude, at);
    case Unavailable(earliest) =>
      if earliest.Some? {
        AlikeBusy(ks, ls, t, window, exclude, earliest.value);
      }
  }

  lemma AlikeBusy(ks: Keys, ls: Keys, t: Time, window: nat, exclude: seq<nat>, at: Time)
    requires |ks| == |ls| && forall i :: 0 <= i < |ks| ==> AvailAt(ks[i], t, window) == AvailAt(ls[i], t, window)
    requires forall i: nat :: InPlay(ks, t, exclude, i) == InPlay(ls, t, exclude, i)
    requires EarliestBusy(ks, t, window, exclude, at)
    ensures EarliestBusy(ls, t, window, exclude, at)
  {
    var j: nat :| InPlay(ks, t, exclude, j) && AvailAt(ks[j], t, window) == Busy(at);
    assert InPlay(ls, t, exclude, j) && AvailAt(ls[j], t, window) == Busy(at);
    forall i: nat | InPlay(ls, t, exclude, i)
      ensures AvailAt(ls[i], t, window).Busy? && at <= AvailAt(ls[i], t, window).at
    {
      assert InPlay(ks, t, exclude, i);
    }
  }

  lemma SameIsAlike(ks: Keys, ls: Keys, t: Time, window: nat, i: nat)
    requires SameAt(ks, ls, t, window) && i < |ks|
    ensures Alike(ks[i], ls[i], t, window)
  {
    NormDecides(ks[i], t, window);
    NormDecides(ls[i], t, window);
  }

  lemma SameReply(ks: Keys, ls: Keys, t: Time, window: nat, exclude: seq<nat>)
    requires SameAt(ks, ls, t, window)
    ensures TryAcquire(ks, t, window, exclude).1 == TryAcquire(ls, t, window, exclude).1
  {
    forall i | 0 <= i < |ks| ensures Alike(ks[i], ls[i], t, window) {
      SameIsAlike(ks, ls, t, window, i);
    }
    ReplyIsEntitled(ks, t, window, exclude);
    AlikeSelection(ks, ls, t, window, exclude, TryAcquire(ks, t, window, exclude).1);
    ReplyIffEntitled(ls, t, window, exclude, TryAcquire(ks, t, window, exclude).1);
  }

  lemma SameLater(ks: Keys, ls: Keys, t: Time, later: Time, window: nat)
    requires SameAt(ks, ls, t, window) && t <= later
    ensures SameAt(ks, ls, later, window)
  {
    forall i | 0 <= i < |ks| ensures Norm(ks[i], later, window) == Norm(ls[i], later, window) {
      NormLater(ks[i], t, later, window);
      NormLater(ls[i], t, later, window);
    }
  }

  lemma LeasedNorm(ks: Keys, t: Time, window: nat, exclude: seq<nat>, i: nat)
    requires i < |ks|
    ensures var (after, reply) := TryAcquire(ks, t, window, exclude);
            Norm(after[i], t, window) ==
            if reply == Leased(i) then Norm(Reserve(Norm(ks[i], t, window), t), t, window) else Norm(ks[i], t, window)
  {
    KeyAfterAcquire(ks, t, window, exclude, i);
    ReplyIsEntitled(ks, t, window, exclude);
    NormLater(ks[i], t, t, window);
    NormDecides(ks[i], t, window);
  }

  lemma SameAfterAcquire(ks: Keys, ls: Keys, t: Time, window: nat, exclude: seq<nat>)
    requires SameAt(ks, ls, t, window)
    ensures SameAt(TryAcquire(ks, t, window, exclude).0, TryAcquire(ls, t, window, exclude).0, t, window)
  {
    SameReply(ks, ls, t, window, exclude);
    forall i | 0 <= i < |ks|
      ensures Norm(TryAcquire(ks, t, window, exclude).0[i], t, window) ==
              Norm(TryAcquire(ls, t, window, exclude).0[i], t, window)
    {
      LeasedNorm(ks, t, window, exclude, i);
      LeasedNorm(ls, t, window, exclude, i);
    }
  }

  lemma SameAfterSnapshot(ks: Keys, t: Time, later: Time, window: nat)
    requires t <= later
    ensures SameAt(Observe(ks, t, window), ks, later, window)
  {
    forall i | 0 <= i < |ks| ensures Norm(Observe(ks, t, window)[i], later, window) == Norm(ks[i], later, window) {
      NormLater(ks[i], t, later, window);
    }
  }

  /** A snapshot taken before an attempt changes neither its answer nor, in effect, the pool after it. */
  lemma SnapshotIsTransparent(ks: Keys, t: Time, later: Time, window: nat, exclude: seq<nat>)
    requires t <= later
    ensures var seen := TryAcquire(Observe(ks, t, window), later, window, exclude);
            var unseen := TryAcquire(ks, later, window, exclude);
            seen.1 == unseen.1 && SameAt(seen.0, unseen.0, later, window)
  {
    SameAfterSnapshot(ks, t, later, window);
    SameReply(Observe(ks, t, window), ks, later, window, exclude);
    SameAfterAcquire(Observe(ks, t, window), ks, later, window, exclude);
  }
}

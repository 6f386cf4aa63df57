/** How the window deque shrinks as time passes. */
module Pruning {
  import opened Prelude
  import opened KeySpec

  lemma {:induction false} PruneKeepsSuffix(s: seq<Time>, now: Time, window: nat)
    requires window > 0
    ensures var kept := Prune(s, now, window);
            var cut := |s| - |kept|;
            cut >= 0 && kept == s[cut..] &&
            (forall j :: 0 <= j < cut ==> s[j] + window <= now) &&
            (kept != [] ==> now < kept[0] + window)
  {
    if s != [] && SatSub(now, s[0]) >= window {
      PruneKeepsSuffix(s[1..], now, window);
      var kept := Prune(s, now, window);
      var cut := |s| - |kept|;
      assert s[1..][cut - 1..] == s[cut..];
      forall j | 0 <= j < cut ensures s[j] + window <= now {
        if j > 0 {
          assert s[j] == s[1..][j - 1];
        }
      }
    }
  }

  lemma {:induction false} PruneShrinks(sends: seq<Time>, now: Time, window: nat)
    ensures |Prune(sends, now, window)| <= |sends|
    ensures sends != [] && SatSub(now, sends[0]) >= window ==> |Prune(sends, now, window)| < |sends|
  {
    if sends != [] && SatSub(now, sends[0]) >= window {
      PruneShrinks(sends[1..], now, window);
    }
  }

  lemma {:induction false} PruneHead(sends: seq<Time>, now: Time, window: nat)
    ensures Prune(sends, now, window) != [] ==> SatSub(now, Prune(sends, now, window)[0]) < window
  {
    if sends != [] && SatSub(now, sends[0]) >= window {
      PruneHead(sends[1..], now, window);
    }
  }

  /** Pruning early changes nothing about pruning later. */
  lemma {:induction false} PruneTwice(sends: seq<Time>, now: Time, later: Time, window: nat)
    requires now <= later
    ensures Prune(Prune(sends, now, window), later, window) == Prune(sends, later, window)
  {
    if sends != [] && SatSub(now, sends[0]) >= window {
      PruneTwice(sends[1..], now, later, window);
    }
  }
}

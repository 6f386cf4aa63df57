/** The per-second budget: no key is ever sent more than its limit within one window. */
module Window {
  import opened Prelude
  import opened KeySpec
  import opened PoolSpec
  import opened Selection
  import opened KeyRuns
  import opened Pruning

  /** One send in a key's full history, with the limit in force when it was made. */
  datatype Send = Send(at: Time, limit: nat)

  function SendLog(k: Key, window: nat, acts: seq<Act>): seq<Send> {
    if acts == [] then [] else
      var log := SendLog(k, window, Init(acts));
      match Last(acts)
      case Lease(now) => log + [Send(now, After(k, window, Init(acts)).Limit())]
      case _ => log
  }

  /** Sends made in the half-open interval [from, to). */
  function CountIn(log: seq<Send>, from: Time, to: Time): nat {
    if log == [] then 0
    else CountIn(Init(log), from, to) + if from <= Last(log).at < to then 1 else 0
  }

  predicate Sorted(log: seq<Send>) {
    forall i, j :: 0 <= i <= j < |log| ==> log[i].at <= log[j].at
  }

  /** Any stretch of sends that fits in one window is no longer than the limit at its last send. */
  predicate Spaced(log: seq<Send>, window: nat) {
    forall i, j :: 0 <= i <= j < |log| && log[j].at < log[i].at + window ==> j - i < log[j].limit
  }

  /** The deque is the part of the history that may still be inside the window. */
  predicate Remembers(sends: seq<Time>, log: seq<Send>, window: nat, clock: Time) {
    var gone := |log| - |sends|;
    && 0 <= gone
    && (forall j :: gone <= j < |log| ==> sends[j - gone] == log[j].at)
    && (forall j :: 0 <= j < gone ==> log[j].at + window <= clock)
    && (forall j :: 0 <= j < |log| ==> log[j].at <= clock)
    && |sends| <= U32_MAX
  }

  lemma RemembersAfterPrune(sends: seq<Time>, log: seq<Send>, window: nat, clock: Time, now: Time)
    requires window > 0 && clock <= now && Remembers(sends, log, window, clock)
    ensures Remembers(sends, log, window, now)
    ensures Remembers(Prune(sends, now, window), log, window, now)
  {
    PruneKeepsSuffix(sends, now, window);
  }

  /** Waking a key drops nothing but elapsed sends. */
  lemma SettledSends(k: Key, now: Time, window: nat)
    ensures Settle(Refresh(k, now), now, window).sends == k.sends ||
            Settle(Refresh(k, now), now, window).sends == Prune(k.sends, now, window)
    ensures Refresh(k, now).sends == k.sends
  {
  }

  /** A free key has room for one more send. */
  lemma FreeHasRoom(k: Key, now: Time, window: nat)
    requires |Prune(k.sends, now, window)| <= U32_MAX && FreeAt(k, now, window)
    ensures |Prune(k.sends, now, window)| < k.Limit()
    ensures Settle(Refresh(k, now), now, window).sends == Prune(k.sends, now, window)
  {
  }

  lemma DigestKeepsSends(k: Key, now: Time, o: Outcome)
    ensures Digest(k, now, o).sends == k.sends
  {
  }

  lemma SpacedAppend(log: seq<Send>, sends: seq<Time>, limit: U32, window: nat, now: Time)
    requires Sorted(log) && Spaced(log, window) && Remembers(sends, log, window, now) && |sends| < limit
    ensures Sorted(log + [Send(now, limit)]) && Spaced(log + [Send(now, limit)], window)
    ensures Remembers(sends + [now], log + [Send(now, limit)], window, now)
  {
  }

  /** Along every legal sequence of acts the history stays spaced and the deque stays faithful. */
  lemma {:induction false} HistoryInvariant(k: Key, window: nat, acts: seq<Act>)
    requires window > 0 && k.sends == [] && Legal(k, window, acts)
    ensures var log := SendLog(k, window, acts);
            Sorted(log) && Spaced(log, window) && Remembers(After(k, window, acts).sends, log, window, Clock(acts))
  {
    if acts != [] {
      HistoryInvariant(k, window, Init(acts));
      var log := SendLog(k, window, Init(acts));
      var before := After(k, window, Init(acts));
      var now := Last(acts).now;
      RemembersAfterPrune(before.sends, log, window, Clock(Init(acts)), now);
      match Last(acts)
      case Wake(_, settled) =>
        SettledSends(before, now, window);
      case Lease(_) =>
        FreeHasRoom(before, now, window);
        SpacedAppend(log, Prune(before.sends, now, window), before.Limit(), window, now);
      case Digested(_, o) =>
        DigestKeepsSends(before, now, o);
    }
  }

  // ----- at most the limit in any window ---------------------------------------------------------

  /** How many entries fall in an interval that starts after the first `first` entries. */
  lemma {:induction false} CountAfter(log: seq<Send>, from: Time, to: Time, first: nat)
    requires first <= |log|
    requires forall j :: 0 <= j < first ==> log[j].at < from
    ensures CountIn(log, from, to) <= |log| - first
    ensures (forall j :: first <= j < |log| ==> from <= log[j].at < to) ==> CountIn(log, from, to) == |log| - first
  {
    if first < |log| {
      CountAfter(Init(log), from, to, first);
    } else if log != [] {
      CountAfter(Init(log), from, to, first - 1);
    }
  }

  lemma {:induction false} FirstFrom(log: seq<Send>, from: Time) returns (first: nat)
    ensures first <= |log|
    ensures forall j :: 0 <= j < first ==> log[j].at < from
    ensures first < |log| ==> from <= log[first].at
  {
    first := 0;
    while first < |log| && log[first].at < from
      invariant first <= |log|
      invariant forall j :: 0 <= j < first ==> log[j].at < from
    {
      first := first + 1;
    }
  }

  /** Entry `l` is the last one in the window that starts at `from`. */
  predicate LastInWindow(log: seq<Send>, from: Time, window: nat, l: nat) {
    l < |log| && from <= log[l].at < from + window &&
    forall j :: l < j < |log| ==> from + window <= log[j].at
  }

  /** The sends in the window number at most the limit in force at the last of them. */
  ghost predicate WithinLimit(log: seq<Send>, from: Time, window: nat) {
    CountIn(log, from, from + window) == 0 ||
    exists l: nat :: LastInWindow(log, from, window, l) && CountIn(log, from, from + window) <= log[l].limit
  }

  lemma {:induction false} WindowHolds(log: seq<Send>, from: Time, window: nat)
    requires Sorted(log) && Spaced(log, window)
    ensures WithinLimit(log, from, window)
  {
    if log != [] {
      var l := |log| - 1;
      if log[l].at < from {
        CountAfter(log, from, from + window, |log|);
      } else if from + window <= log[l].at {
        WindowHolds(Init(log), from, window);
        if CountIn(Init(log), from, from + window) != 0 {
          var m: nat :| LastInWindow(Init(log), from, window, m) &&
                   CountIn(Init(log), from, from + window) <= Init(log)[m].limit;
          assert LastInWindow(log, from, window, m);
        }
      } else {
        var first := FirstFrom(log, from);
        CountAfter(log, from, from + window, first);
        assert l - first < log[l].limit;
        assert LastInWindow(log, from, window, l);
      }
    }
  }

  /** The full send history of key `i` in a run of the pool. */
  ghost function SendsOf(ks: Keys, window: nat, es: seq<Event>, i: nat): seq<Send>
    requires i < |ks|
  {
    SendLog(ks[i], window, Acts(ks, window, es, i))
  }

  ghost predicate Unused(ks: Keys) {
    forall i :: 0 <= i < |ks| ==> ks[i].sends == []
  }

  /**
   Whole-run safety. However acquires, late responses and snapshots interleave, and however the
   limits are raised and lowered on the way, a key is sent in any half-open interval of one
   window at most as often as the limit in force at the last of those sends.
   */
  lemma SlidingWindowSafety(ks: Keys, window: nat, es: seq<Event>, i: nat, from: Time)
    requires window > 0 && Unused(ks) && Timely(es) && i < |ks|
    ensures WithinLimit(SendsOf(ks, window, es, i), from, window)
  {
    RunActsOnKey(ks, window, es, i);
    HistoryInvariant(ks[i], window, Acts(ks, window, es, i));
    WindowHolds(SendsOf(ks, window, es, i), from, window);
  }

  // ----- the deque decides as the full history would -----------------------------------------------

  /** Sends of the whole history that are younger than the window at `now`. */
  function Young(log: seq<Send>, now: Time, window: nat): nat {
    CountIn(log, SatSub(now + 1, window), now + 1)
  }

  /** The same decision made from the full history: an independent account of availability. */
  ghost predicate AvailFromHistory(k: Key, log: seq<Send>, now: Time, window: nat, a: Avail) {
    if k.health != Ok then a == Busy(k.health.until)
    else if k.holdUntil.Some? && k.holdUntil.value > now then a == Busy(k.holdUntil.value)
    else if Young(log, now, window) < k.Limit() then a == Free
    else a.Busy? && a.at >= window && OldestYoungIs(log, now, window, a.at - window)
  }

  /** `s` is the time of the oldest send of the history that is still inside the window. */
  ghost predicate OldestYoungIs(log: seq<Send>, now: Time, window: nat, s: Time) {
    exists j :: 0 <= j < |log| && log[j].at == s && now < s + window &&
      forall m :: 0 <= m < j ==> log[m].at + window <= now
  }

  /** At `now` the key, once refreshed, holds all of its history that can matter, in full. */
  ghost predicate Faithful(k: Key, log: seq<Send>, window: nat, now: Time) {
    && AvailFromHistory(Refresh(k, now), log, now, window, AvailAt(k, now, window))
    && Remembers(k.sends, log, window, now)
    && AsU32(|k.sends|) == |k.sends|
  }

  lemma YoungAreKept(sends: seq<Time>, log: seq<Send>, window: nat, clock: Time, now: Time)
    requires window > 0 && clock <= now && Sorted(log) && Remembers(sends, log, window, clock)
    ensures |Prune(sends, now, window)| == Young(log, now, window) <= U32_MAX
  {
    RemembersAfterPrune(sends, log, window, clock, now);
    PruneKeepsSuffix(sends, now, window);
    var kept := Prune(sends, now, window);
    var gone := |log| - |kept|;
    forall j | gone <= j < |log| ensures SatSub(now + 1, window) <= log[j].at {
      assert log[gone].at == kept[0];
    }
    CountAfter(log, SatSub(now + 1, window), now + 1, gone);
  }

  lemma AvailabilityFromHistory(k: Key, log: seq<Send>, window: nat, clock: Time, now: Time)
    requires window > 0 && clock <= now && Sorted(log) && Remembers(k.sends, log, window, clock)
    ensures AvailFromHistory(k, log, now, window, Availability(k, now, window))
  {
    YoungAreKept(k.sends, log, window, clock, now);
    if Young(log, now, window) != 0 {
      OldestYoung(k.sends, log, window, clock, now);
    }
  }

  /** The head of the pruned deque is the oldest send still inside the window. */
  lemma OldestYoung(sends: seq<Time>, log: seq<Send>, window: nat, clock: Time, now: Time)
    requires window > 0 && clock <= now && Remembers(sends, log, window, clock) && Prune(sends, now, window) != []
    ensures OldestYoungIs(log, now, window, Prune(sends, now, window)[0])
  {
    RemembersAfterPrune(sends, log, window, clock, now);
    PruneHead(sends, now, window);
    var kept := Prune(sends, now, window);
    var j := |log| - |kept|;
    assert log[j].at == kept[0];
  }

  /**
   In every reachable state the pruned deque decides availability exactly as counting all
   sends ever made would, and the 32-bit cast of its length loses nothing.
   */
  lemma DequeRefinesHistory(ks: Keys, window: nat, es: seq<Event>, i: nat, now: Time)
    requires window > 0 && Unused(ks) && Timely(es) && i < |ks| && EndOf(es) <= now
    ensures Faithful(Run(ks, window, es)[i], SendsOf(ks, window, es, i), window, now)
  {
    RunActsOnKey(ks, window, es, i);
    var acts := Acts(ks, window, es, i);
    ActsRefineHistory(ks[i], window, acts, now);
  }

  lemma ActsRefineHistory(k: Key, window: nat, acts: seq<Act>, now: Time)
    requires window > 0 && k.sends == [] && Legal(k, window, acts) && Clock(acts) <= now
    ensures Faithful(After(k, window, acts), SendLog(k, window, acts), window, now)
  {
    HistoryInvariant(k, window, acts);
    KeyRefinesHistory(After(k, window, acts), SendLog(k, window, acts), window, Clock(acts), now);
  }

  lemma KeyRefinesHistory(k: Key, log: seq<Send>, window: nat, clock: Time, now: Time)
    requires window > 0 && clock <= now && Sorted(log) && Remembers(k.sends, log, window, clock)
    ensures Faithful(k, log, window, now)
  {
    SettledSends(k, now, window);
    RemembersAfterPrune(k.sends, log, window, clock, now);
    AvailabilityFromHistory(Refresh(k, now), log, window, now, now);
  }
}

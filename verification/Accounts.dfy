/** Usage accounts: nothing sent or answered is lost, and a self-imposed cap is kept. */
module Accounts {
  import opened Prelude
  import opened KeySpec
  import opened PoolSpec
  import opened KeyRuns
  import opened Discipline
  import opened Tallies

  function UnclassifiedIn(acts: seq<Act>): nat {
    if acts == [] then 0
    else UnclassifiedIn(Init(acts)) + if Last(acts).Digested? && Unclassified(Last(acts).outcome) then 1 else 0
  }

  function SuccessesIn(acts: seq<Act>): nat {
    if acts == [] then 0
    else SuccessesIn(Init(acts)) + if Last(acts).Digested? && Succeeded(Last(acts).outcome) then 1 else 0
  }

  function Classified(s: Stats): nat {
    s.ok + s.upstream429 + s.client4xx + s.server5xx + s.transportErrors
  }

  lemma StatsAccount(s: Stats, o: Outcome)
    ensures var c := CountStats(s, o);
            && c.requests == s.requests
            && Classified(c) == Classified(s) + (if Unclassified(o) then 0 else 1)
            && c.ok == s.ok + (if Succeeded(o) then 1 else 0)
  {
  }

  function StatsAfter(s: Stats, a: Act): Stats {
    match a
    case Wake(_, _) => s
    case Lease(_) => s.(requests := s.requests + 1)
    case Digested(_, o) => CountStats(s, o)
  }

  lemma ActStats(k: Key, window: nat, a: Act)
    ensures Do(k, window, a).stats == StatsAfter(k.stats, a)
    ensures Do(k, window, a).cap == k.cap
  {
    WakeCounts(k, a.now, window);
    if a.Digested? {
      DigestCounts(k, a.now, a.outcome);
      var t := TallyOf(k);
      assert Count(t, a.now, a.outcome).stats == CountStats(k.stats, a.outcome);
    }
  }

  /** The statistics of a new key after the given acts. */
  function StatsFrom(acts: seq<Act>): Stats {
    if acts == [] then NO_STATS else StatsAfter(StatsFrom(Init(acts)), Last(acts))
  }

  predicate Balanced(s: Stats, acts: seq<Act>) {
    && s.requests == Leases(acts)
    && Classified(s) + UnclassifiedIn(acts) == Digests(acts)
    && s.ok == SuccessesIn(acts)
  }

  lemma {:induction false} BalanceHolds(acts: seq<Act>)
    ensures Balanced(StatsFrom(acts), acts)
  {
    if acts != [] {
      BalanceHolds(Init(acts));
      if Last(acts).Digested? {
        StatsAccount(StatsFrom(Init(acts)), Last(acts).outcome);
      }
    }
  }

  lemma {:induction false} StatsOfKey(k: Key, window: nat, acts: seq<Act>)
    requires k.stats == NO_STATS
    ensures After(k, window, acts).stats == StatsFrom(acts)
    ensures After(k, window, acts).cap == k.cap
  {
    if acts != [] {
      StatsOfKey(k, window, Init(acts));
      ActStats(After(k, window, Init(acts)), window, Last(acts));
    }
  }

  /** Every lease is counted once, and every outcome once under its class or not at all. */
  lemma AccountsBalance(ks: Keys, window: nat, es: seq<Event>, i: nat)
    requires i < |ks| && Timely(es) && ks[i].stats == NO_STATS
    ensures Balanced(Run(ks, window, es)[i].stats, Acts(ks, window, es, i))
  {
    RunActsOnKey(ks, window, es, i);
    StatsOfKey(ks[i], window, Acts(ks, window, es, i));
    BalanceHolds(Acts(ks, window, es, i));
  }

  // ----- the self-imposed cap -----------------------------------------------------------------------

  /** The act ends a monthly park. */
  predicate Expires(before: Key, a: Act) {
    !a.Digested? && before.health.Exhausted? && before.health.until <= a.now
  }

  function Expiries(k: Key, window: nat, acts: seq<Act>): nat {
    if acts == [] then 0
    else Expiries(k, window, Init(acts)) + if Expires(After(k, window, Init(acts)), Last(acts)) then 1 else 0
  }

  /** Successes since the last expiry of a monthly park. */
  function SuccessesThisCycle(k: Key, window: nat, acts: seq<Act>): nat {
    if acts == [] then 0
    else if Expires(After(k, window, Init(acts)), Last(acts)) then 0
    else SuccessesThisCycle(k, window, Init(acts)) +
         if Last(acts).Digested? && Succeeded(Last(acts).outcome) then 1 else 0
  }

  predicate WithinCap(exhausted: bool, ok: nat, bound: nat, expiries: nat, cycle: nat) {
    && cycle <= bound && cycle <= ok <= bound + expiries
    && (!exhausted ==> ok + 1 <= bound + expiries && (ok >= bound ==> cycle == 0))
  }

  lemma SuccessParksAtCap(k: Key, now: Time, o: Outcome)
    requires k.cap.Some? && Succeeded(o)
    ensures Digest(k, now, o).stats.ok == k.stats.ok + 1
    ensures Digest(k, now, o).health.Exhausted? || Digest(k, now, o).health == k.health
    ensures k.stats.ok + 1 >= k.cap.value ==> Digest(k, now, o).health.Exhausted?
  {
  }

  /** A capped key, one request at a time, keeps its cap in every cycle and over its whole life. */
  lemma {:induction false} CapInvariant(k: Key, window: nat, acts: seq<Act>)
    requires k.cap.Some? && k.stats == NO_STATS && k.health == Ok
    requires Legal(k, window, acts) && Sequential(acts)
    ensures WithinCap(After(k, window, acts).health.Exhausted?, SuccessesIn(acts), Max(k.cap.value, 1),
                      Expiries(k, window, acts), SuccessesThisCycle(k, window, acts))
  {
    if acts != [] {
      CapInvariant(k, window, Init(acts));
      StatsOfKey(k, window, Init(acts));
      BalanceHolds(Init(acts));
      var before := After(k, window, Init(acts));
      match Last(acts)
      case Wake(_, _) =>
      case Lease(_) =>
      case Digested(now, o) =>
        OutstandingIsUp(k, window, Init(acts));
        if Succeeded(o) {
          SuccessParksAtCap(before, now, o);
        }
    }
  }

  /**
   Self-imposed cap: at most max(cap, 1) successes between expiries of the monthly park, and at
   most one more per expiry over the whole life of the key.
   */
  lemma CapIsKept(ks: Keys, window: nat, es: seq<Event>, i: nat)
    requires i < |ks| && Timely(es) && ks[i].cap.Some? && ks[i].stats == NO_STATS && ks[i].health == Ok
    requires Sequential(Acts(ks, window, es, i))
    ensures var acts := Acts(ks, window, es, i);
            && SuccessesThisCycle(ks[i], window, acts) <= Max(ks[i].cap.value, 1)
            && SuccessesIn(acts) <= Max(ks[i].cap.value, 1) + Expiries(ks[i], window, acts)
  {
    RunActsOnKey(ks, window, es, i);
    CapInvariant(ks[i], window, Acts(ks, window, es, i));
  }

  // ----- what the cap means after the first cycle -------------------------------------------------------

  /** Successes counted before the last expiry of a monthly park. */
  function Carried(k: Key, window: nat, acts: seq<Act>): nat {
    if acts == [] then 0
    else if Expires(After(k, window, Init(acts)), Last(acts)) then SuccessesIn(Init(acts))
    else Carried(k, window, Init(acts))
  }

  lemma {:induction false} CyclesAddUp(k: Key, window: nat, acts: seq<Act>)
    ensures SuccessesIn(acts) == Carried(k, window, acts) + SuccessesThisCycle(k, window, acts)
  {
    if acts != [] {
      CyclesAddUp(k, window, Init(acts));
    }
  }

  /**
   The counter held against the cap is meant to count this cycle. It does so exactly as long as no
   success came before the last expiry: it is never set back.
   */
  lemma CountsThisCycleIff(ks: Keys, window: nat, es: seq<Event>, i: nat)
    requires i < |ks| && Timely(es) && ks[i].cap.Some? && ks[i].stats == NO_STATS
    ensures var acts := Acts(ks, window, es, i);
            Run(ks, window, es)[i].EffectiveMonthUsed() == SuccessesThisCycle(ks[i], window, acts) <==>
            Carried(ks[i], window, acts) == 0
  {
    AccountsBalance(ks, window, es, i);
    RunActsOnKey(ks, window, es, i);
    StatsOfKey(ks[i], window, Acts(ks, window, es, i));
    CyclesAddUp(ks[i], window, Acts(ks, window, es, i));
  }

  /** What is left of the cap when a cycle starts, but at least one success. */
  function LeftOfCap(cap: nat, carried: nat): nat {
    Max(SatSub(cap, carried), 1)
  }

  predicate WithinCycle(exhausted: bool, cap: nat, carried: nat, cycle: nat) {
    cycle <= LeftOfCap(cap, carried) && (!exhausted && cycle > 0 ==> carried + cycle < cap)
  }

  lemma {:induction false} CycleInvariant(k: Key, window: nat, acts: seq<Act>)
    requires k.cap.Some? && k.stats == NO_STATS && k.health == Ok
    requires Legal(k, window, acts) && Sequential(acts)
    ensures WithinCycle(After(k, window, acts).health.Exhausted?, k.cap.value,
                        Carried(k, window, acts), SuccessesThisCycle(k, window, acts))
  {
    if acts != [] {
      CycleInvariant(k, window, Init(acts));
      CyclesAddUp(k, window, Init(acts));
      StatsOfKey(k, window, Init(acts));
      BalanceHolds(Init(acts));
      var before := After(k, window, Init(acts));
      match Last(acts)
      case Wake(_, _) =>
      case Lease(_) =>
      case Digested(now, o) =>
        OutstandingIsUp(k, window, Init(acts));
        if Succeeded(o) {
          SuccessParksAtCap(before, now, o);
        }
    }
  }

  /**
   So later cycles are cut: a cycle holds at most what earlier ones left of the cap, and a single
   success once they used it up.
   */
  lemma LaterCyclesAreCut(ks: Keys, window: nat, es: seq<Event>, i: nat)
    requires i < |ks| && Timely(es) && ks[i].cap.Some? && ks[i].stats == NO_STATS && ks[i].health == Ok
    requires Sequential(Acts(ks, window, es, i))
    ensures var acts := Acts(ks, window, es, i);
            var (carried, cycle) := (Carried(ks[i], window, acts), SuccessesThisCycle(ks[i], window, acts));
            cycle <= LeftOfCap(ks[i].cap.value, carried) && (carried >= ks[i].cap.value ==> cycle <= 1)
  {
    RunActsOnKey(ks, window, es, i);
    CycleInvariant(ks[i], window, Acts(ks, window, es, i));
  }

  /** An outcome touches its own key only, and one for a key that does not exist nothing at all: nor is it retried. */
  lemma OutcomeStaysWithItsKey(ks: Keys, now: Time, idx: nat, o: Outcome)
    ensures var (after, v) := Record(ks, now, idx, o);
            && (v == RetryOtherKey <==> idx < |ks| && AsksForAnother(o))
            && (v == Success <==> idx < |ks| && Succeeded(o))
            && (idx >= |ks| ==> after == ks)
            && forall j :: 0 <= j < |ks| && j != idx ==> after[j] == ks[j]
  {
    VerdictIff(o);
  }
}

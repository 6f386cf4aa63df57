/**
 Who gets the lease: the winner among the free keys, told from the histories of the keys alone.
 */
module Ranking {
  import opened Prelude
  import opened KeySpec
  import opened PoolSpec
  import opened Selection
  import opened KeyRuns
  import opened Tallies
  import opened Accounts
  import opened Known

  /** What a key can show when it is weighed: when it was last leased, and how much of its month is left. */
  datatype Claim = Claim(used: Option<Time>, left: nat, idx: nat)

  /**
   How much is left of a key's month: of its cap, what its successes have not used; without cap and with
   an unlimited plan, as much as can be; otherwise what it was told last, or as much as can be if nothing.
   */
  function Left(k: Key, window: nat, acts: seq<Act>): nat {
    if k.cap.Some? then SatSub(k.cap.value, SuccessesIn(acts))
    else if LimitTold(acts) == Some(0) then U64_MAX
    else if RemainingTold(k, window, acts).Some? then RemainingTold(k, window, acts).value
    else U64_MAX
  }

  function ClaimOf(k: Key, window: nat, acts: seq<Act>, idx: nat): Claim {
    Claim(LeasedAt(acts), Left(k, window, acts), idx)
  }

  /** Longest unused first, never used before all; then most left; then the lowest index. */
  predicate ComesBefore(a: Claim, b: Claim) {
    if a.used == b.used then a.left > b.left || (a.left == b.left && a.idx < b.idx)
    else a.used.None? || (b.used.Some? && a.used.value < b.used.value)
  }

  /** The acts of a key once the pool has looked at the clock. */
  function Looked(acts: seq<Act>, now: Time): seq<Act> {
    acts + [Wake(now, false)]
  }

  lemma LookedKey(k: Key, window: nat, acts: seq<Act>, now: Time)
    ensures After(k, window, Looked(acts, now)) == Refresh(After(k, window, acts), now)
  {
    assert Init(Looked(acts, now)) == acts;
  }

  lemma ShowsLeft(after: Key, k: Key, configured: U32, window: nat, acts: seq<Act>)
    requires KnowsPlan(after, configured, acts) && KnowsMonth(after, k, window, acts)
    requires after.cap == k.cap && after.stats.ok == SuccessesIn(acts)
    ensures after.MonthRemainingForRanking() == Left(k, window, acts) && after.lastUsed == LeasedAt(acts)
  {
  }

  /** What a key ranks by is what its history shows. */
  lemma RankIsLeft(configured: U32, cap: Option<U64>, window: nat, acts: seq<Act>)
    ensures var k := NewKey(configured, cap);
            After(k, window, acts).MonthRemainingForRanking() == Left(k, window, acts) &&
            After(k, window, acts).lastUsed == LeasedAt(acts)
  {
    var k := NewKey(configured, cap);
    PlanIsKnown(configured, cap, window, acts);
    MonthIsKnown(configured, cap, window, acts);
    StatsOfKey(k, window, acts);
    BalanceHolds(acts);
    ShowsLeft(After(k, window, acts), k, configured, window, acts);
  }

  lemma RankOrder(a: Key, i: nat, b: Key, j: nat)
    requires i != j
    ensures RanksBefore(a, i, b, j) <==>
            ComesBefore(Claim(a.lastUsed, a.MonthRemainingForRanking(), i), Claim(b.lastUsed, b.MonthRemainingForRanking(), j))
  {
  }

  /** Key `i` could be leased at `now`. */
  ghost predicate Candidate(ks: Keys, now: Time, window: nat, exclude: seq<nat>, i: nat) {
    InPlay(ks, now, exclude, i) && FreeAt(ks[i], now, window)
  }

  /** The claim of key `i` after a run from a new pool. */
  ghost function ClaimIn(start: Keys, window: nat, es: seq<Event>, now: Time, i: nat): Claim
    requires i < |start|
  {
    ClaimOf(start[i], window, Looked(Acts(start, window, es, i), now), i)
  }

  lemma ClaimIsRank(configured: U32, caps: seq<Option<U64>>, window: nat, es: seq<Event>, now: Time, i: nat)
    requires i < |caps| && Timely(es)
    ensures var k := Refresh(Run(NewPool(configured, caps), window, es)[i], now);
            ClaimIn(NewPool(configured, caps), window, es, now, i) == Claim(k.lastUsed, k.MonthRemainingForRanking(), i)
  {
    var start := NewPool(configured, caps);
    var acts := Acts(start, window, es, i);
    RunActsOnKey(start, window, es, i);
    LookedKey(start[i], window, acts, now);
    RankIsLeft(configured, caps[i], window, Looked(acts, now));
  }

  /** Key `i` could be leased, and comes before every other key that could. */
  ghost predicate Foremost(start: Keys, window: nat, es: seq<Event>, now: Time, exclude: seq<nat>, i: nat) {
    var ks := Run(start, window, es);
    Candidate(ks, now, window, exclude, i) &&
    forall j: nat :: Candidate(ks, now, window, exclude, j) && j != i ==>
      ComesBefore(ClaimIn(start, window, es, now, i), ClaimIn(start, window, es, now, j))
  }

  /**
   In every run from a new pool an attempt leases a key if and only if it could be leased and comes before
   every other key that could, by the histories of the keys.
   */
  lemma WinnerIffForemost(configured: U32, caps: seq<Option<U64>>, window: nat, es: seq<Event>, now: Time,
                          exclude: seq<nat>, i: nat)
    requires Timely(es)
    ensures var start := NewPool(configured, caps);
            TryAcquire(Run(start, window, es), now, window, exclude).1 == Leased(i) <==>
            Foremost(start, window, es, now, exclude, i)
  {
    var start := NewPool(configured, caps);
    var ks := Run(start, window, es);
    ReplyIffEntitled(ks, now, window, exclude, Leased(i));
    if Candidate(ks, now, window, exclude, i) {
      forall j: nat | Candidate(ks, now, window, exclude, j) && j != i
        ensures RanksBefore(Refresh(ks[i], now), i, Refresh(ks[j], now), j) <==>
                ComesBefore(ClaimIn(start, window, es, now, i), ClaimIn(start, window, es, now, j))
      {
        ClaimIsRank(configured, caps, window, es, now, i);
        ClaimIsRank(configured, caps, window, es, now, j);
        RankOrder(Refresh(ks[i], now), i, Refresh(ks[j], now), j);
      }
      CandidatesDecide(ks, now, window, exclude, i);
    }
  }

  lemma CandidatesDecide(ks: Keys, now: Time, window: nat, exclude: seq<nat>, i: nat)
    requires Candidate(ks, now, window, exclude, i)
    ensures Entitled(ks, now, window, exclude, Leased(i)) <==>
            forall j: nat :: Candidate(ks, now, window, exclude, j) && j != i ==>
              RanksBefore(Refresh(ks[i], now), i, Refresh(ks[j], now), j)
  {
  }

  /** What counts as used of a month: the successes of a capped key, otherwise what the plan told is missing. */
  lemma UseIsTold(configured: U32, caps: seq<Option<U64>>, window: nat, es: seq<Event>, i: nat)
    requires i < |caps| && Timely(es)
    ensures var start := NewPool(configured, caps);
            var acts := Acts(start, window, es, i);
            var (limit, left) := (LimitTold(acts), RemainingTold(start[i], window, acts));
            Run(start, window, es)[i].EffectiveMonthUsed() ==
            if caps[i].Some? then SuccessesIn(acts)
            else if limit.None? || left.None? || limit.value <= left.value then 0
            else limit.value - left.value
  {
    var start := NewPool(configured, caps);
    var acts := Acts(start, window, es, i);
    RunActsOnKey(start, window, es, i);
    PlanIsKnown(configured, caps[i], window, acts);
    MonthIsKnown(configured, caps[i], window, acts);
    StatsOfKey(start[i], window, acts);
    BalanceHolds(acts);
  }
}

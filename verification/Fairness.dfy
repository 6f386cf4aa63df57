/** Least-recently-used selection is fair, and exact round-robin while every key is eligible. */
module Fairness {
  import opened Prelude
  import opened KeySpec
  import opened PoolSpec
  import opened Selection
  import opened KeyRuns
  import opened Counting

  /** One lease: the pool it was granted from, and to whom it went. */
  datatype Round = Round(before: Keys, now: Time, exclude: seq<nat>, idx: nat)

  /** The leases of a run, in order, whatever else happens in between. */
  ghost function Rounds(ks: Keys, window: nat, es: seq<Event>): seq<Round> {
    if es == [] then [] else
      var before := Run(ks, window, Init(es));
      var rounds := Rounds(ks, window, Init(es));
      match Last(es)
      case Acquire(now, exclude) =>
        var reply := TryAcquire(before, now, window, exclude).1;
        if reply.Leased? then rounds + [Round(before, now, exclude, reply.idx)] else rounds
      case _ => rounds
  }

  /** When key `i` was last leased. */
  function LastLease(ks: Keys, rounds: seq<Round>, i: nat): Option<Time>
    requires i < |ks|
  {
    if rounds == [] then ks[i].lastUsed
    else if Last(rounds).idx == i then Some(Last(rounds).now) else LastLease(ks, Init(rounds), i)
  }

  predicate EarlierUse(a: Option<Time>, b: Option<Time>) {
    a.None? || (b.Some? && a.value <= b.value)
  }

  /** `r` is a lease granted by a pool whose last uses are those of the rounds before it. */
  ghost predicate Genuine(ks: Keys, window: nat, earlier: seq<Round>, r: Round) {
    && |r.before| == |ks|
    && TryAcquire(r.before, r.now, window, r.exclude).1 == Leased(r.idx)
    && r.idx < |ks|
    && forall i :: 0 <= i < |ks| ==> r.before[i].lastUsed == LastLease(ks, earlier, i)
  }

  ghost predicate AllGenuine(ks: Keys, window: nat, rounds: seq<Round>) {
    forall n :: 0 <= n < |rounds| ==> Genuine(ks, window, rounds[..n], rounds[n])
  }

  lemma DigestKeepsLastUsed(k: Key, now: Time, o: Outcome)
    ensures Digest(k, now, o).lastUsed == k.lastUsed
  {
  }

  lemma WakingKeepsLastUsed(k: Key, now: Time, window: nat)
    ensures Refresh(k, now).lastUsed == k.lastUsed
    ensures Settle(Refresh(k, now), now, window).lastUsed == k.lastUsed
  {
  }

  lemma AcquireLastUsed(ks: Keys, window: nat, now: Time, exclude: seq<nat>, i: nat)
    requires i < |ks|
    ensures var (after, reply) := TryAcquire(ks, now, window, exclude);
            after[i].lastUsed == if reply == Leased(i) then Some(now) else ks[i].lastUsed
  {
    KeyAfterAcquire(ks, now, window, exclude, i);
    WakingKeepsLastUsed(ks[i], now, window);
  }

  lemma StepLastUsed(ks: Keys, window: nat, e: Event, i: nat)
    requires i < |ks|
    ensures Step(ks, window, e)[i].lastUsed ==
            if e.Acquire? && TryAcquire(ks, e.now, window, e.exclude).1 == Leased(i) then Some(e.now) else ks[i].lastUsed
  {
    match e
    case Acquire(now, exclude) => AcquireLastUsed(ks, window, now, exclude, i);
    case Report(now, idx, o) => DigestKeepsLastUsed(ks[i], now, o);
    case Snapshot(now) => WakingKeepsLastUsed(ks[i], now, window);
  }

  lemma {:induction false} LastUsedIsLastLease(ks: Keys, window: nat, es: seq<Event>, i: nat)
    requires i < |ks|
    ensures Run(ks, window, es)[i].lastUsed == LastLease(ks, Rounds(ks, window, es), i)
  {
    if es != [] {
      LastUsedIsLastLease(ks, window, Init(es), i);
      StepLastUsed(Run(ks, window, Init(es)), window, Last(es), i);
      var rounds := Rounds(ks, window, Init(es));
      var all := Rounds(ks, window, es);
      if all != rounds {
        assert Init(all) == rounds;
      }
    }
  }

  lemma {:induction false} RoundsAreGenuine(ks: Keys, window: nat, es: seq<Event>)
    ensures AllGenuine(ks, window, Rounds(ks, window, es))
  {
    if es != [] {
      RoundsAreGenuine(ks, window, Init(es));
      var rounds := Rounds(ks, window, Init(es));
      var all := Rounds(ks, window, es);
      forall n | 0 <= n < |all| ensures Genuine(ks, window, all[..n], all[n]) {
        if n < |rounds| {
          assert all[..n] == rounds[..n] && all[n] == rounds[n];
        } else {
          assert all[..n] == rounds;
          forall i | 0 <= i < |ks| ensures Run(ks, window, Init(es))[i].lastUsed == LastLease(ks, rounds, i) {
            LastUsedIsLastLease(ks, window, Init(es), i);
          }
        }
      }
    }
  }

  // ----- lease times ---------------------------------------------------------------------------------------

  /** Lease times never go back. */
  ghost predicate Ordered(rounds: seq<Round>) {
    forall a, b :: 0 <= a <= b < |rounds| ==> rounds[a].now <= rounds[b].now
  }

  lemma {:induction false} RoundsAreOrdered(ks: Keys, window: nat, es: seq<Event>)
    requires Timely(es)
    ensures Ordered(Rounds(ks, window, es))
    ensures forall a :: 0 <= a < |Rounds(ks, window, es)| ==> Rounds(ks, window, es)[a].now <= EndOf(es)
  {
    if es != [] {
      RoundsAreOrdered(ks, window, Init(es));
      assert EndOf(Init(es)) <= EndOf(es);
      var rounds, all := Rounds(ks, window, Init(es)), Rounds(ks, window, es);
      if all != rounds {
        OneLater(rounds, Last(all), EndOf(Init(es)));
      }
    }
  }

  lemma OneLater(rounds: seq<Round>, r: Round, clock: Time)
    requires Ordered(rounds) && clock <= r.now && forall a :: 0 <= a < |rounds| ==> rounds[a].now <= clock
    ensures Ordered(rounds + [r])
  {
  }

  /** Key `j` was not last leased at the very instant of the round, but before. */
  predicate UsedEarlier(r: Round, j: nat) {
    j < |r.before| && r.before[j].lastUsed.Some? ==> r.before[j].lastUsed.value < r.now
  }

  predicate LeasedEarlier(ks: Keys, rounds: seq<Round>, m: nat, j: nat)
    requires m < |rounds| && j < |ks|
  {
    var l := LastLease(ks, rounds[..m], j);
    l.Some? ==> l.value < rounds[m].now
  }

  /** A key that was not leased in rounds [m, n) has the same last lease at both ends. */
  lemma {:induction false} LastLeaseUnchanged(ks: Keys, rounds: seq<Round>, m: nat, n: nat, i: nat)
    requires i < |ks| && m <= n <= |rounds|
    requires forall r :: m <= r < n ==> rounds[r].idx != i
    ensures LastLease(ks, rounds[..n], i) == LastLease(ks, rounds[..m], i)
    decreases n
  {
    if m < n {
      assert Init(rounds[..n]) == rounds[..n - 1];
      LastLeaseUnchanged(ks, rounds, m, n - 1, i);
    }
  }

  /** A key leased in round `r` has a last lease at least that late from then on. */
  lemma {:induction false} LastLeaseSince(ks: Keys, rounds: seq<Round>, r: nat, n: nat, i: nat)
    requires i < |ks| && r < n <= |rounds| && rounds[r].idx == i && Ordered(rounds)
    ensures var l := LastLease(ks, rounds[..n], i); l.Some? && l.value >= rounds[r].now
    decreases n
  {
    assert Init(rounds[..n]) == rounds[..n - 1];
    if rounds[n - 1].idx != i {
      LastLeaseSince(ks, rounds, r, n - 1, i);
    }
  }

  // ----- fairness ----------------------------------------------------------------------------------------

  /** Key `j` could have been leased in round `r`. */
  ghost predicate Eligible(window: nat, r: Round, j: nat) {
    InPlay(r.before, r.now, r.exclude, j) && FreeAt(r.before[j], r.now, window)
  }

  ghost predicate StaysEligible(window: nat, rounds: seq<Round>, j: nat, from: nat, to: nat)
    requires to <= |rounds|
  {
    forall q :: from <= q < to ==> Eligible(window, rounds[q], j)
  }

  /** Every key of the first `n` could have been leased in each of the rounds. */
  ghost predicate AllStayEligible(window: nat, rounds: seq<Round>, n: nat, from: nat, to: nat)
    requires to <= |rounds|
  {
    forall q, j :: from <= q < to && 0 <= j < n ==> Eligible(window, rounds[q], j)
  }

  lemma WinnerRanksBefore(ks: Keys, now: Time, window: nat, exclude: seq<nat>, i: nat, j: nat)
    requires TryAcquire(ks, now, window, exclude).1 == Leased(i) && i != j
    requires InPlay(ks, now, exclude, j) && FreeAt(ks[j], now, window)
    ensures i < |ks| && RanksBefore(Refresh(ks[i], now), i, Refresh(ks[j], now), j)
  {
    ReplyIsEntitled(ks, now, window, exclude);
  }

  /** A winner was last leased no later than any key that was eligible beside it. */
  lemma WinnerIsOlder(ks: Keys, window: nat, earlier: seq<Round>, r: Round, j: nat)
    requires Genuine(ks, window, earlier, r) && j < |ks| && Eligible(window, r, j)
    ensures EarlierUse(LastLease(ks, earlier, r.idx), LastLease(ks, earlier, j))
  {
    if j != r.idx {
      WinnerRanksBefore(r.before, r.now, window, r.exclude, r.idx, j);
      WakingKeepsLastUsed(r.before[j], r.now, window);
      WakingKeepsLastUsed(r.before[r.idx], r.now, window);
    }
  }

  predicate InRange(rounds: seq<Round>, n: nat) {
    forall q :: 0 <= q < |rounds| ==> rounds[q].idx < n
  }

  /** The winner of round `q` had been used no later than key `j`. */
  predicate WinnerOlder(ks: Keys, rounds: seq<Round>, j: nat, q: nat)
    requires q < |rounds| && j < |ks| && InRange(rounds, |ks|)
  {
    EarlierUse(LastLease(ks, rounds[..q], rounds[q].idx), LastLease(ks, rounds[..q], j))
  }

  ghost predicate WinnersOlder(ks: Keys, rounds: seq<Round>, j: nat, from: nat, to: nat)
    requires to <= |rounds| && j < |ks| && InRange(rounds, |ks|)
  {
    forall q: nat :: from <= q < to ==> WinnerOlder(ks, rounds, j, q)
  }

  lemma GenuineInRange(ks: Keys, window: nat, rounds: seq<Round>)
    requires AllGenuine(ks, window, rounds)
    ensures InRange(rounds, |ks|)
  {
    forall q | 0 <= q < |rounds| ensures rounds[q].idx < |ks| {
      assert Genuine(ks, window, rounds[..q], rounds[q]);
    }
  }

  lemma EligibleMeansOlder(ks: Keys, window: nat, rounds: seq<Round>, j: nat, from: nat, to: nat)
    requires AllGenuine(ks, window, rounds) && InRange(rounds, |ks|) && j < |ks| && to <= |rounds|
    requires StaysEligible(window, rounds, j, from, to)
    ensures WinnersOlder(ks, rounds, j, from, to)
  {
    forall q: nat | from <= q < to ensures WinnerOlder(ks, rounds, j, q) {
      WinnerIsOlder(ks, window, rounds[..q], rounds[q], j);
    }
  }

  /** While a key that is no younger is passed over, no other key is leased twice. */
  lemma NoRepeatWhilePassedOver(ks: Keys, rounds: seq<Round>, m: nat, r: nat, s: nat, j: nat)
    requires InRange(rounds, |ks|) && Ordered(rounds) && j < |ks| && m < |rounds| && LeasedEarlier(ks, rounds, m, j)
    requires m <= r < s < |rounds| && WinnersOlder(ks, rounds, j, m, s + 1)
    requires forall q :: m <= q <= s ==> rounds[q].idx != j
    ensures rounds[r].idx != rounds[s].idx
  {
    var i := rounds[r].idx;
    assert WinnerOlder(ks, rounds, j, s);
    if rounds[s].idx == i {
      LastLeaseSince(ks, rounds, r, s, i);
      LastLeaseUnchanged(ks, rounds, m, s, j);
      assert false;
    }
  }

  function Winners(rounds: seq<Round>, from: nat, to: nat): (s: seq<nat>)
    requires from <= to <= |rounds|
    ensures |s| == to - from
    ensures forall n :: 0 <= n < |s| ==> s[n] == rounds[from + n].idx
  {
    if from == to then [] else Winners(rounds, from, to - 1) + [rounds[to - 1].idx]
  }

  lemma ServedAmong(ks: Keys, rounds: seq<Round>, m: nat, j: nat)
    requires InRange(rounds, |ks|) && Ordered(rounds) && j < |ks| && m + |ks| <= |rounds|
    requires LeasedEarlier(ks, rounds, m, j) && WinnersOlder(ks, rounds, j, m, m + |ks|)
    ensures j in Winners(rounds, m, m + |ks|)
  {
    var s := Winners(rounds, m, m + |ks|);
    if j !in s {
      forall q | m <= q < m + |ks| ensures rounds[q].idx != j {
        assert s[q - m] == rounds[q].idx;
      }
      forall a, b | 0 <= a < b < |s| ensures s[a] != s[b] {
        NoRepeatWhilePassedOver(ks, rounds, m, m + a, m + b, j);
      }
      DistinctCoversAll(s, |ks|, j);
    }
  }

  /**
   LRU fairness: a key that stays eligible is leased at least once in every |ks| consecutive leases,
   whatever is recorded in between. Only a key last leased at the very instant of the first of them may
   have to wait longer: while the clock stands still, ties are broken by monthly quota.
   */
  lemma EligibleKeyIsServed(ks: Keys, window: nat, es: seq<Event>, m: nat, j: nat)
    requires j < |ks| && m + |ks| <= |Rounds(ks, window, es)|
    requires Timely(es) && UsedEarlier(Rounds(ks, window, es)[m], j)
    requires StaysEligible(window, Rounds(ks, window, es), j, m, m + |ks|)
    ensures j in Winners(Rounds(ks, window, es), m, m + |ks|)
  {
    RoundsAreGenuine(ks, window, es);
    RoundsAreOrdered(ks, window, es);
    assert Genuine(ks, window, Rounds(ks, window, es)[..m], Rounds(ks, window, es)[m]);
    GenuineInRange(ks, window, Rounds(ks, window, es));
    EligibleMeansOlder(ks, window, Rounds(ks, window, es), j, m, m + |ks|);
    ServedAmong(ks, Rounds(ks, window, es), m, j);
  }

  /** `n` distinct numbers below `n` are all of them. */
  lemma DistinctCoversAll(s: seq<nat>, n: nat, j: nat)
    requires |s| == n && j < n
    requires forall a :: 0 <= a < n ==> s[a] < n
    requires forall a, b :: 0 <= a < b < n ==> s[a] != s[b]
    ensures j in s
  {
    SetOfSize(s);
    BelowSize(n);
    if j !in s {
      SubsetSize(SetOf(s), Below(n) - {j});
      assert false;
    }
  }

  ghost predicate Covers(s: seq<nat>, n: nat) {
    forall j: nat :: j < n ==> j in s
  }

  /** A sequence of `n` numbers that contains all numbers below `n` repeats none. */
  lemma CoveringIsDistinct(s: seq<nat>, n: nat, a: nat, b: nat)
    requires |s| == n && a < b < n && Covers(s, n)
    ensures s[a] != s[b]
  {
    if s[a] == s[b] {
      var t := s[..b] + s[b + 1..];
      forall j: nat | j < n ensures j in SetOf(t) {
        assert j in s;
        var p :| 0 <= p < n && s[p] == j;
        var q := if p == b then a else p;
        assert s[q] == j;
        assert if q < b then t[q] == j else t[q - 1] == j;
      }
      SetOfSize(t);
      BelowSize(n);
      SubsetSize(Below(n), SetOf(t));
      assert false;
    }
  }

  /** Two overlapping stretches that both cover everything begin and end alike. */
  lemma CoversTwice(rounds: seq<Round>, m: nat, n: nat)
    requires n > 0 && m + n < |rounds| && rounds[m].idx < n
    requires Covers(Winners(rounds, m, m + n), n) && Covers(Winners(rounds, m + 1, m + 1 + n), n)
    ensures rounds[m + n].idx == rounds[m].idx
  {
    var i := rounds[m].idx;
    var first, second := Winners(rounds, m, m + n), Winners(rounds, m + 1, m + 1 + n);
    assert i in second;
    var p :| 0 <= p < n && second[p] == i;
    if p < n - 1 {
      CoveringIsDistinct(first, n, 0, p + 1);
      assert false;
    }
  }

  /**
   Exact round-robin: while all keys stay eligible, lease number m + |ks| goes to the same key as
   lease number m, whatever monthly quotas are learned on the way. The clock has to have moved on
   since the leases before number m, and after it.
   */
  lemma RoundRobin(ks: Keys, window: nat, es: seq<Event>, m: nat)
    requires Timely(es) && |ks| > 0 && m + |ks| < |Rounds(ks, window, es)|
    requires forall j: nat :: j < |ks| ==> UsedEarlier(Rounds(ks, window, es)[m], j)
    requires Rounds(ks, window, es)[m].now < Rounds(ks, window, es)[m + 1].now
    requires AllStayEligible(window, Rounds(ks, window, es), |ks|, m, m + |ks| + 1)
    ensures Rounds(ks, window, es)[m + |ks|].idx == Rounds(ks, window, es)[m].idx
  {
    RoundsAreGenuine(ks, window, es);
    RoundsAreOrdered(ks, window, es);
    CycleOfGenuine(ks, window, Rounds(ks, window, es), m);
  }

  lemma CycleOfGenuine(ks: Keys, window: nat, rounds: seq<Round>, m: nat)
    requires AllGenuine(ks, window, rounds) && Ordered(rounds) && |ks| > 0 && m + |ks| < |rounds|
    requires forall j: nat :: j < |ks| ==> UsedEarlier(rounds[m], j)
    requires rounds[m].now < rounds[m + 1].now
    requires AllStayEligible(window, rounds, |ks|, m, m + |ks| + 1)
    ensures rounds[m + |ks|].idx == rounds[m].idx
  {
    GenuineInRange(ks, window, rounds);
    AllEligibleMeansOlder(ks, window, rounds, m, m + |ks| + 1);
    forall j: nat | j < |ks| ensures LeasedEarlier(ks, rounds, m, j) {
      assert Genuine(ks, window, rounds[..m], rounds[m]) && UsedEarlier(rounds[m], j);
    }
    CycleAmong(ks, rounds, m);
  }

  ghost predicate AllWinnersOlder(ks: Keys, rounds: seq<Round>, from: nat, to: nat)
    requires to <= |rounds| && InRange(rounds, |ks|)
  {
    forall j: nat, q: nat :: j < |ks| && from <= q < to ==> WinnerOlder(ks, rounds, j, q)
  }

  lemma AllEligibleMeansOlder(ks: Keys, window: nat, rounds: seq<Round>, from: nat, to: nat)
    requires AllGenuine(ks, window, rounds) && InRange(rounds, |ks|) && to <= |rounds|
    requires AllStayEligible(window, rounds, |ks|, from, to)
    ensures AllWinnersOlder(ks, rounds, from, to)
  {
    forall j: nat, q: nat | j < |ks| && from <= q < to ensures WinnerOlder(ks, rounds, j, q) {
      WinnerIsOlder(ks, window, rounds[..q], rounds[q], j);
    }
  }

  ghost predicate AllLeasedEarlier(ks: Keys, rounds: seq<Round>, m: nat)
    requires m < |rounds|
  {
    forall j: nat :: j < |ks| ==> LeasedEarlier(ks, rounds, m, j)
  }

  lemma EarlierNext(ks: Keys, rounds: seq<Round>, m: nat)
    requires m + 1 < |rounds| && AllLeasedEarlier(ks, rounds, m) && Ordered(rounds) && rounds[m].now < rounds[m + 1].now
    ensures AllLeasedEarlier(ks, rounds, m + 1)
  {
    assert Init(rounds[..m + 1]) == rounds[..m] && Last(rounds[..m + 1]) == rounds[m];
    var next := m + 1;
    forall j: nat | j < |ks| ensures LeasedEarlier(ks, rounds, next, j) {
      assert LeasedEarlier(ks, rounds, m, j);
      assert LastLease(ks, rounds[..m + 1], j) == if rounds[m].idx == j then Some(rounds[m].now) else LastLease(ks, rounds[..m], j);
    }
  }

  lemma CycleAmong(ks: Keys, rounds: seq<Round>, m: nat)
    requires InRange(rounds, |ks|) && Ordered(rounds) && |ks| > 0 && m + |ks| < |rounds|
    requires AllLeasedEarlier(ks, rounds, m) && rounds[m].now < rounds[m + 1].now
    requires AllWinnersOlder(ks, rounds, m, m + |ks| + 1)
    ensures rounds[m + |ks|].idx == rounds[m].idx
  {
    EarlierNext(ks, rounds, m);
    StretchCovers(ks, rounds, m, m, m + |ks| + 1);
    StretchCovers(ks, rounds, m + 1, m, m + |ks| + 1);
    assert rounds[m].idx < |ks|;
    CoversTwice(rounds, m, |ks|);
  }

  lemma StretchCovers(ks: Keys, rounds: seq<Round>, m: nat, from: nat, to: nat)
    requires InRange(rounds, |ks|) && Ordered(rounds) && m < |rounds| && AllLeasedEarlier(ks, rounds, m)
    requires from <= m && m + |ks| <= to <= |rounds| && AllWinnersOlder(ks, rounds, from, to)
    ensures Covers(Winners(rounds, m, m + |ks|), |ks|)
  {
    var winners := Winners(rounds, m, m + |ks|);
    forall j: nat | j < |ks| ensures j in winners {
      ServedAmong(ks, rounds, m, j);
    }
  }
}

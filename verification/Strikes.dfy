/** How long the parks of a backoff last, by what disabled the key before. */
module Strikes {
  import opened Prelude
  import opened KeySpec
  import opened PoolSpec
  import opened KeyRuns
  import opened Tallies
  import opened Counters
  import opened Parks

  /** What may disable a key. */
  datatype Cause = Failing | Throttling | Rejecting {
    function Base(): nat {
      match this
      case Failing => FAIL_BACKOFF_BASE
      case Throttling => UNEXPLAINED_429_BACKOFF
      case Rejecting => AUTH_BACKOFF_BASE
    }

    function Most(): nat {
      match this
      case Failing => FAIL_BACKOFF_MAX
      case Throttling => UNEXPLAINED_429_BACKOFF
      case Rejecting => AUTH_BACKOFF_MAX
    }

    /** The strike from which on parks are no longer doubled. */
    function Levels(): nat {
      match this
      case Failing => 6
      case Throttling => 1
      case Rejecting => 5
    }
  }

  function CauseOf(o: Outcome): Cause {
    if Failed(o) then Failing else if Throttled(o) then Throttling else Rejecting
  }

  /** The `n`-th park of a series of one cause: the base, doubled each time, up to the most. */
  function Series(c: Cause, n: nat): nat
    requires n >= 1
  {
    ParkTime(n, c.Base(), c.Most())
  }

  /** Disables by the given cause among the entries after the first `from`. */
  function CausedAfter(h: seq<Entry>, from: nat, c: Cause): nat {
    if |h| <= from then 0
    else CausedAfter(Init(h), from, c) + if Disables(h) && CauseOf(Last(h).outcome) == c then 1 else 0
  }

  lemma {:induction false} CausedAreStrikes(h: seq<Entry>, from: nat, c: Cause)
    ensures CausedAfter(h, from, c) <= StrikesAfter(h, from)
  {
    if |h| > from {
      CausedAreStrikes(Init(h), from, c);
    }
  }

  // ----- the series of one cause ---------------------------------------------------------------------------

  lemma SeriesAtMost(c: Cause, n: nat)
    requires n >= 1
    ensures Series(c, n) <= c.Most()
    ensures n >= c.Levels() ==> Series(c, n) == c.Most()
  {
    var m := Min(n - 1, 16);
    FourMore(c.Base(), 0);
    FourMore(c.Base(), 1);
    Doubled16(c.Base());
    DoubledGrows(c.Base(), m, 16);
    if n >= c.Levels() {
      DoubledGrows(c.Base(), c.Levels() - 1, m);
    }
  }

  /** Below its last level a series is doubled at each strike. */
  lemma SeriesBelow(c: Cause, n: nat)
    requires 1 <= n < c.Levels()
    ensures Series(c, n) == Doubled(c.Base(), n - 1) < c.Most()
    ensures Series(c, n) < Series(c, n + 1)
  {
    FourMore(c.Base(), 0);
    FourMore(c.Base(), 1);
  }

  lemma {:induction false} SeriesGrows(c: Cause, n: nat, m: nat)
    requires 1 <= n < m && n < c.Levels()
    ensures Series(c, n) < Series(c, m)
    decreases m
  {
    SeriesBelow(c, n);
    if n + 1 < m {
      if m - 1 < c.Levels() {
        SeriesGrows(c, n, m - 1);
        SeriesBelow(c, m - 1);
      } else {
        SeriesAtMost(c, m);
      }
    }
  }

  /** Two strikes of a series park for the same time only if they are the same or past its last level. */
  lemma SeriesAgreeIff(c: Cause, n: nat, m: nat)
    requires 1 <= n <= m
    ensures Series(c, n) == Series(c, m) <==> n == m || n >= c.Levels()
  {
    SeriesAtMost(c, n);
    SeriesAtMost(c, m);
    if n < m && n < c.Levels() {
      SeriesGrows(c, n, m);
    }
  }

  // ----- parks in runs -------------------------------------------------------------------------------------

  /** What the key has heard, with one more outcome. */
  ghost function HistoryWith(ks: Keys, window: nat, es: seq<Event>, i: nat, now: Time, o: Outcome): (h: seq<Entry>)
    requires i < |ks|
    ensures h != []
  {
    Outcomes(Acts(ks, window, es, i)) + [Entry(now, o)]
  }

  lemma StrikeParks(k: Key, h: seq<Entry>, now: Time, o: Outcome)
    requires Tells(TallyOf(k), h) && Disabling(k, o)
    ensures var h1 := h + [Entry(now, o)];
            var m := StrikesAfter(h1, LastSuccess(h1));
            && Disables(h1) && LastSuccess(h1) == LastSuccess(h) && m >= 1
            && Digest(k, now, o).health == Disabled(now + Series(CauseOf(o), m))
  {
    DisablesStep(TallyOf(k), h, now, o);
    DigestPark(k, now, o);
    SeriesSaturates(CauseOf(o), StrikesAfter(h, LastSuccess(h)) + 1);
  }

  lemma SeriesSaturates(c: Cause, n: nat)
    requires n >= 1
    ensures Series(c, Min(n, U32_MAX)) == Series(c, n)
  {
  }

  /**
   The documented backoff, over runs: a disable parks its key by the number of disables of any cause
   since the last success, this one included. That is what the series of its own cause says if and only
   if all of them share that cause, or that series has reached its last level.
   */
  lemma BackoffIsDocumentedIff(ks: Keys, window: nat, es: seq<Event>, i: nat, now: Time, o: Outcome)
    requires i < |ks| && Timely(es) && TallyOf(ks[i]) == Tally(0, 0, 0, None, NO_STATS)
    requires Disabling(Run(ks, window, es)[i], o)
    ensures var h := HistoryWith(ks, window, es, i, now, o);
            var all, own := StrikesAfter(h, LastSuccess(h)), CausedAfter(h, LastSuccess(h), CauseOf(o));
            && 1 <= own <= all
            && Digest(Run(ks, window, es)[i], now, o).health == Disabled(now + Series(CauseOf(o), all))
            && (Series(CauseOf(o), all) == Series(CauseOf(o), own) <==> own == all || own >= CauseOf(o).Levels())
  {
    PoolCountersRefineHistory(ks, window, es, i);
    var before := Outcomes(Acts(ks, window, es, i));
    StrikeParks(Run(ks, window, es)[i], before, now, o);
    OwnIsCounted(before, now, o);
  }

  lemma OwnIsCounted(before: seq<Entry>, now: Time, o: Outcome)
    requires Disables(before + [Entry(now, o)]) && LastSuccess(before + [Entry(now, o)]) == LastSuccess(before)
    ensures var h := before + [Entry(now, o)];
            var all, own := StrikesAfter(h, LastSuccess(h)), CausedAfter(h, LastSuccess(h), CauseOf(o));
            1 <= own <= all && (Series(CauseOf(o), all) == Series(CauseOf(o), own) <==> own == all || own >= CauseOf(o).Levels())
  {
    var h := before + [Entry(now, o)];
    assert Init(h) == before && Last(h) == Entry(now, o);
    CausedAreStrikes(h, LastSuccess(h), CauseOf(o));
    var all, own := StrikesAfter(h, LastSuccess(h)), CausedAfter(h, LastSuccess(h), CauseOf(o));
    SeriesAgreeIff(CauseOf(o), own, all);
  }
}

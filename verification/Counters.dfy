/** The failure counters are a faithful digest of the outcome history. */
module Counters {
  import opened Prelude
  import opened KeySpec
  import opened PoolSpec
  import opened KeyRuns
  import opened Tallies

  datatype Entry = Entry(at: Time, outcome: Outcome)

  /** Every outcome digested so far, in order. */
  function Outcomes(acts: seq<Act>): seq<Entry> {
    if acts == [] then [] else
      var h := Outcomes(Init(acts));
      if Last(acts).Digested? then h + [Entry(Last(acts).now, Last(acts).outcome)] else h
  }

  /** Failures (transport errors and 5xx) among the entries after the first `from`. */
  function FailuresAfter(h: seq<Entry>, from: nat): nat {
    if |h| <= from then 0 else FailuresAfter(Init(h), from) + if Failed(Last(h).outcome) then 1 else 0
  }

  /** Responses 429 among the entries after the first `from`. */
  function ThrottlesAfter(h: seq<Entry>, from: nat): nat {
    if |h| <= from then 0 else ThrottlesAfter(Init(h), from) + if Throttled(Last(h).outcome) then 1 else 0
  }

  /**
   The last entry disabled the key: a rejected token, the third failure, or a 429 without
   rate-limit headers that is at least the fifth 429, counted since the last success or disable.
   */
  predicate Disables(h: seq<Entry>)
    requires h != []
    decreases |h|, 1
  {
    var before := Init(h);
    var since := LastReset(before);
    DisablesAfter(Last(h).outcome, FailuresAfter(before, since), ThrottlesAfter(before, since))
  }

  /** How many entries there were up to the last success or disable. */
  function LastReset(h: seq<Entry>): (n: nat)
    ensures n <= |h|
    decreases |h|, 2
  {
    if h == [] then 0
    else if Succeeded(Last(h).outcome) || Disables(h) then |h|
    else LastReset(Init(h))
  }

  function LastSuccess(h: seq<Entry>): (n: nat)
    ensures n <= |h|
  {
    if h == [] then 0 else if Succeeded(Last(h).outcome) then |h| else LastSuccess(Init(h))
  }

  /** Disables among the entries after the first `from`. */
  function StrikesAfter(h: seq<Entry>, from: nat): nat {
    if |h| <= from then 0 else StrikesAfter(Init(h), from) + if Disables(h) then 1 else 0
  }

  /** When the first disable among the entries after the first `from` happened. */
  function FirstStrikeAfter(h: seq<Entry>, from: nat): Option<Time> {
    if |h| <= from then None
    else if FirstStrikeAfter(Init(h), from).Some? then FirstStrikeAfter(Init(h), from)
    else if Disables(h) then Some(Last(h).at) else None
  }

  /** The counts of failures and 429s say what happened since the last success or disable. */
  predicate TellsRun(t: Tally, h: seq<Entry>) {
    && t.failures == FailuresAfter(h, LastReset(h)) <= 2
    && t.throttles == AsU32(ThrottlesAfter(h, LastReset(h)))
  }

  /** The strikes say what happened since the last success. */
  predicate TellsStrikes(t: Tally, h: seq<Entry>) {
    && t.strikes == Min(StrikesAfter(h, LastSuccess(h)), U32_MAX)
    && t.since == FirstStrikeAfter(h, LastSuccess(h))
    && (t.since.Some? <==> t.strikes > 0)
  }

  /** What the counters of a key are meant to say. */
  predicate Tells(t: Tally, h: seq<Entry>) {
    TellsRun(t, h) && TellsStrikes(t, h)
  }

  lemma AsU32Step(n: nat)
    ensures AsU32(AsU32(n) + 1) == AsU32(n + 1)
  {
  }

  lemma DisablesStep(t: Tally, h: seq<Entry>, now: Time, o: Outcome)
    requires TellsRun(t, h)
    ensures Init(h + [Entry(now, o)]) == h
    ensures Disables(h + [Entry(now, o)]) == DisablesAfter(o, t.failures, t.throttles)
  {
    assert Init(h + [Entry(now, o)]) == h;
    AsU32Step(ThrottlesAfter(h, LastReset(h)));
  }

  lemma RunStays(t: Tally, h: seq<Entry>, now: Time, o: Outcome)
    requires TellsRun(t, h)
    ensures TellsRun(Count(t, now, o), h + [Entry(now, o)])
  {
    DisablesStep(t, h, now, o);
    AsU32Step(ThrottlesAfter(h, LastReset(h)));
  }

  lemma StrikesStay(t: Tally, h: seq<Entry>, now: Time, o: Outcome)
    requires TellsRun(t, h) && TellsStrikes(t, h)
    ensures TellsStrikes(Count(t, now, o), h + [Entry(now, o)])
  {
    DisablesStep(t, h, now, o);
  }

  lemma TallyStep(t: Tally, h: seq<Entry>, now: Time, o: Outcome)
    requires Tells(t, h)
    ensures Tells(Count(t, now, o), h + [Entry(now, o)])
  {
    RunStays(t, h, now, o);
    StrikesStay(t, h, now, o);
  }

  lemma NothingToTell()
    ensures Tells(Tally(0, 0, 0, None, NO_STATS), [])
  {
  }

  /** At every moment of every run the counters of each key agree with its outcome history. */
  lemma {:induction false} CountersRefineHistory(k: Key, window: nat, acts: seq<Act>)
    requires TallyOf(k) == Tally(0, 0, 0, None, NO_STATS)
    ensures Tells(TallyOf(After(k, window, acts)), Outcomes(acts))
  {
    if acts == [] {
      NothingToTell();
    } else {
      CountersRefineHistory(k, window, Init(acts));
      var before := After(k, window, Init(acts));
      var now := Last(acts).now;
      WakeCounts(before, now, window);
      if Last(acts).Digested? {
        DigestCounts(before, now, Last(acts).outcome);
        TallyStep(TallyOf(before), Outcomes(Init(acts)), now, Last(acts).outcome);
      }
    }
  }

  lemma PoolCountersRefineHistory(ks: Keys, window: nat, es: seq<Event>, i: nat)
    requires i < |ks| && Timely(es) && TallyOf(ks[i]) == Tally(0, 0, 0, None, NO_STATS)
    ensures Tells(TallyOf(Run(ks, window, es)[i]), Outcomes(Acts(ks, window, es, i)))
  {
    RunActsOnKey(ks, window, es, i);
    CountersRefineHistory(ks[i], window, Acts(ks, window, es, i));
  }

  // ----- consecutive failures ------------------------------------------------------------------------------

  /** Failures in a row at the end, among the entries after the first `from`. */
  function TrailingAfter(h: seq<Entry>, from: nat): nat {
    if |h| <= from || !Failed(Last(h).outcome) then 0 else TrailingAfter(Init(h), from) + 1
  }

  /** Some failure after the first `from` entries is followed by something else. */
  ghost predicate Interrupted(h: seq<Entry>, from: nat) {
    exists a, b :: from <= a < b < |h| && Failed(h[a].outcome) && !Failed(h[b].outcome)
  }

  lemma {:induction false} NoFailures(h: seq<Entry>, from: nat)
    ensures FailuresAfter(h, from) == 0 <==> forall a :: from <= a < |h| ==> !Failed(h[a].outcome)
  {
    if |h| > from {
      NoFailures(Init(h), from);
      assert forall a :: from <= a < |h| - 1 ==> Init(h)[a] == h[a];
      assert Last(h) == h[|h| - 1];
    }
  }

  lemma InterruptedStep(h: seq<Entry>, from: nat)
    requires |h| > from
    ensures Interrupted(h, from) <==>
            Interrupted(Init(h), from) || (!Failed(Last(h).outcome) && FailuresAfter(Init(h), from) > 0)
  {
    NoFailures(Init(h), from);
    var init := Init(h);
    forall a, b | from <= a < b < |init| && Failed(init[a].outcome) && !Failed(init[b].outcome) ensures Interrupted(h, from) {
      assert h[a] == init[a] && h[b] == init[b];
    }
    forall a | from <= a < |init| && Failed(init[a].outcome) && !Failed(Last(h).outcome) ensures Interrupted(h, from) {
      assert h[a] == init[a] && h[|h| - 1] == Last(h);
    }
    forall a, b | from <= a < b < |h| && Failed(h[a].outcome) && !Failed(h[b].outcome)
      ensures Interrupted(init, from) || (!Failed(Last(h).outcome) && FailuresAfter(init, from) > 0)
    {
      assert h[a] == init[a];
      if b < |init| {
        assert h[b] == init[b];
      }
    }
  }

  lemma {:induction false} InARowIff(h: seq<Entry>, from: nat)
    ensures TrailingAfter(h, from) <= FailuresAfter(h, from)
    ensures FailuresAfter(h, from) == TrailingAfter(h, from) <==> !Interrupted(h, from)
  {
    if |h| > from {
      InARowIff(Init(h), from);
      InterruptedStep(h, from);
    }
  }

  lemma TallyFailures(k: Key, h: seq<Entry>)
    requires Tells(TallyOf(k), h)
    ensures k.consecutiveFailures == FailuresAfter(h, LastReset(h))
  {
  }

  /**
   Failures are meant to be counted while they are consecutive. The count says how many failures came
   in a row, since the last success or disable, exactly when none of them is followed by anything else.
   */
  lemma ConsecutiveIff(ks: Keys, window: nat, es: seq<Event>, i: nat)
    requires i < |ks| && Timely(es) && TallyOf(ks[i]) == Tally(0, 0, 0, None, NO_STATS)
    ensures var h := Outcomes(Acts(ks, window, es, i));
            Run(ks, window, es)[i].consecutiveFailures == TrailingAfter(h, LastReset(h)) <==> !Interrupted(h, LastReset(h))
  {
    var h := Outcomes(Acts(ks, window, es, i));
    PoolCountersRefineHistory(ks, window, es, i);
    InARowIff(h, LastReset(h));
    TallyFailures(Run(ks, window, es)[i], h);
  }
}

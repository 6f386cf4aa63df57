/** The status report, number by number: what it says of the keys, and of everything they have been through. */
module Totals {
  import opened Prelude
  import opened RateLimit
  import opened KeySpec
  import opened PoolSpec
  import opened Selection
  import opened KeyRuns
  import opened Discipline
  import opened Tallies
  import opened Accounts
  import opened Known

  /** A number of each key, summed over the pool. */
  function Sum(ks: Keys, f: Key -> nat): nat {
    if ks == [] then 0 else Sum(Init(ks), f) + f(Last(ks))
  }

  /** Without a cap of its own on a plan without a monthly one. */
  predicate Unlimited(k: Key) {
    k.cap.None? && k.monthLimit == Some(0)
  }

  /** `total` sums a number over the limited keys that know it, and is absent if none does. */
  ghost predicate SumsKnown(total: Option<nat>, ks: Keys, f: Key -> Option<nat>) {
    && (total.None? <==> forall i :: 0 <= i < |ks| && !Unlimited(ks[i]) ==> f(ks[i]).None?)
    && (total.Some? ==> total.value == Sum(ks, (k: Key) => if Unlimited(k) then 0 else f(k).GetOr(0)))
  }

  function Month(): Key -> Option<nat> {
    (k: Key) => if k.monthLimit.Some? then Some(k.monthLimit.value) else None
  }

  function MonthLeft(): Key -> Option<nat> {
    (k: Key) => if k.monthRemaining.Some? then Some(k.monthRemaining.value) else None
  }

  function UpOnly(f: Key -> nat): Key -> nat {
    (k: Key) => if k.health == Ok then f(k) else 0
  }

  /** Every number of the report, by what it counts. */
  ghost predicate Tells(s: Summary, ks: Keys) {
    && s.healthy == Sum(ks, UpOnly((k: Key) => 1))
    && s.rpsCapacity == Sum(ks, UpOnly((k: Key) => if k.secLimit == 0 then 1 else k.secLimit))
    && s.slots == Sum(ks, UpOnly((k: Key) => k.FreeSlots()))
    && s.unlimitedKeys == Sum(ks, UpOnly((k: Key) => if Unlimited(k) then 1 else 0))
  }

  lemma {:induction false} CountsAreTold(ks: Keys)
    ensures Tells(Summarise(ks, |ks|), ks)
  {
    if ks != [] {
      CountsAreTold(Init(ks));
      SummariseInit(ks);
    }
  }

  lemma {:induction false} SummarisePrefix(ks: Keys, n: nat)
    requires ks != [] && n < |ks|
    ensures Summarise(ks, n) == Summarise(Init(ks), n)
  {
    if n > 0 {
      SummarisePrefix(ks, n - 1);
    }
  }

  lemma SummariseInit(ks: Keys)
    requires ks != []
    ensures Summarise(ks, |ks|) == AddKey(Summarise(Init(ks), |Init(ks)|), Last(ks))
  {
    SummarisePrefix(ks, |ks| - 1);
  }

  lemma OneMoreKnown(total: Option<nat>, ks: Keys, f: Key -> Option<nat>)
    requires ks != [] && SumsKnown(total, Init(ks), f)
    ensures SumsKnown(if Unlimited(Last(ks)) || f(Last(ks)).None? then total else Some(total.GetOr(0) + f(Last(ks)).value), ks, f)
  {
    var g := (k: Key) => if Unlimited(k) then 0 else f(k).GetOr(0);
    if total.None? {
      NothingKnown(Init(ks), f);
    }
    assert forall i :: 0 <= i < |Init(ks)| ==> Init(ks)[i] == ks[i];
    assert Last(ks) == ks[|ks| - 1];
    assert Sum(ks, g) == Sum(Init(ks), g) + g(Last(ks));
  }

  lemma {:induction false} NothingKnown(ks: Keys, f: Key -> Option<nat>)
    requires forall i :: 0 <= i < |ks| && !Unlimited(ks[i]) ==> f(ks[i]).None?
    ensures Sum(ks, (k: Key) => if Unlimited(k) then 0 else f(k).GetOr(0)) == 0
  {
    if ks != [] {
      NothingKnown(Init(ks), f);
    }
  }

  /** The monthly totals sum what the limited keys know. */
  lemma {:induction false} MonthsAreTold(ks: Keys)
    ensures SumsKnown(Summarise(ks, |ks|).monthLimit, ks, Month())
    ensures SumsKnown(Summarise(ks, |ks|).monthRemaining, ks, MonthLeft())
  {
    if ks != [] {
      MonthsAreTold(Init(ks));
      SummariseInit(ks);
      OneMoreKnown(Summarise(Init(ks), |Init(ks)|).monthLimit, ks, Month());
      OneMoreKnown(Summarise(Init(ks), |Init(ks)|).monthRemaining, ks, MonthLeft());
    }
  }

  // ----- the statistics ------------------------------------------------------------------------------------

  /** How many outcomes of a kind were recorded. */
  function Heard(acts: seq<Act>, kind: Outcome -> bool): nat {
    if acts == [] then 0 else Heard(Init(acts), kind) + if Last(acts).Digested? && kind(Last(acts).outcome) then 1 else 0
  }

  function OfStatus(low: nat, high: nat): Outcome -> bool {
    (o: Outcome) => o.Response? && low <= o.status <= high
  }

  /** A 4xx other than 429. */
  function OfRejection(): Outcome -> bool {
    (o: Outcome) => o.Response? && 400 <= o.status <= 499 && o.status != 429
  }

  function OfTransport(): Outcome -> bool {
    (o: Outcome) => o.Transport?
  }

  /** The statistics of a key with the given acts behind it, class by class. */
  predicate Counted(s: Stats, acts: seq<Act>) {
    && s.requests == Leases(acts)
    && s.ok == Heard(acts, OfStatus(200, 299))
    && s.upstream429 == Heard(acts, OfStatus(429, 429))
    && s.client4xx == Heard(acts, OfRejection())
    && s.server5xx == Heard(acts, OfStatus(500, 599))
    && s.transportErrors == Heard(acts, OfTransport())
  }

  lemma {:induction false} StatsAreCounted(acts: seq<Act>)
    ensures Counted(StatsFrom(acts), acts)
  {
    if acts != [] {
      StatsAreCounted(Init(acts));
    }
  }

  /** In every run the statistics of a key count its leases and, class by class, its outcomes. */
  lemma KeyStatsAreCounted(ks: Keys, window: nat, es: seq<Event>, i: nat)
    requires i < |ks| && Timely(es) && ks[i].stats == NO_STATS
    ensures Counted(Run(ks, window, es)[i].stats, Acts(ks, window, es, i))
  {
    RunActsOnKey(ks, window, es, i);
    StatsOfKey(ks[i], window, Acts(ks, window, es, i));
    StatsAreCounted(Acts(ks, window, es, i));
  }

  /** A number of the history of each of the first `n` keys, summed. */
  ghost function Over(ks: Keys, window: nat, es: seq<Event>, f: seq<Act> -> nat, n: nat): nat
    requires n <= |ks|
  {
    if n == 0 then 0 else Over(ks, window, es, f, n - 1) + f(Acts(ks, window, es, n - 1))
  }

  function LeaseCount(): seq<Act> -> nat {
    (acts: seq<Act>) => Leases(acts)
  }

  function HeardCount(kind: Outcome -> bool): seq<Act> -> nat {
    (acts: seq<Act>) => Heard(acts, kind)
  }

  /** The totals count all leases and outcomes of the first `n` keys, class by class. */
  ghost predicate AllCounted(s: Stats, ks: Keys, window: nat, es: seq<Event>, n: nat)
    requires n <= |ks|
  {
    && s.requests == Over(ks, window, es, LeaseCount(), n)
    && s.ok == Over(ks, window, es, HeardCount(OfStatus(200, 299)), n)
    && s.upstream429 == Over(ks, window, es, HeardCount(OfStatus(429, 429)), n)
    && s.client4xx == Over(ks, window, es, HeardCount(OfRejection()), n)
    && s.server5xx == Over(ks, window, es, HeardCount(OfStatus(500, 599)), n)
    && s.transportErrors == Over(ks, window, es, HeardCount(OfTransport()), n)
  }

  lemma {:induction false} TotalsAreCounted(ks: Keys, window: nat, es: seq<Event>, n: nat)
    requires n <= |ks| && Timely(es) && forall i :: 0 <= i < |ks| ==> ks[i].stats == NO_STATS
    ensures AllCounted(Summarise(Run(ks, window, es), n).totals, ks, window, es, n)
  {
    if n > 0 {
      TotalsAreCounted(ks, window, es, n - 1);
      KeyStatsAreCounted(ks, window, es, n - 1);
      OneMoreCounted(Summarise(Run(ks, window, es), n - 1), Run(ks, window, es)[n - 1], ks, window, es, n);
    }
  }

  lemma OneMoreCounted(s: Summary, k: Key, ks: Keys, window: nat, es: seq<Event>, n: nat)
    requires 0 < n <= |ks| && AllCounted(s.totals, ks, window, es, n - 1) && Counted(k.stats, Acts(ks, window, es, n - 1))
    ensures AllCounted(AddKey(s, k).totals, ks, window, es, n)
  {
  }

  /** The whole report on a pool: its counts, its monthly totals, and over runs from a new pool its statistics. */
  lemma ReportIsTrue(configured: U32, caps: seq<Option<U64>>, window: nat, es: seq<Event>)
    requires Timely(es)
    ensures var start := NewPool(configured, caps);
            var ks := Run(start, window, es);
            var s := Summarise(ks, |ks|);
            && Tells(s, ks) && SumsKnown(s.monthLimit, ks, Month()) && SumsKnown(s.monthRemaining, ks, MonthLeft())
            && AllCounted(s.totals, start, window, es, |start|)
  {
    var start := NewPool(configured, caps);
    CountsAreTold(Run(start, window, es));
    MonthsAreTold(Run(start, window, es));
    TotalsAreCounted(start, window, es, |start|);
  }

  // ----- the report on one key -----------------------------------------------------------------------------

  /** `ago` is how long before `now` the instant lies, if there is one. */
  predicate LiesBack(ago: Option<nat>, t: Option<Time>, now: Time) {
    (ago.Some? <==> t.Some?) && (ago.Some? && t.value <= now ==> t.value + ago.value == now)
  }

  /** The report gives what the key was told, and hides the month of an unlimited plan. */
  predicate ReportsTold(r: KeyReport, k: Key, configured: U32, cap: Option<U64>, acts: seq<Act>, now: Time) {
    && r.limit == RateTold(configured, acts) && r.limitsLearned == LimitsTold(acts)
    && (r.unlimited <==> cap.None? && LimitTold(acts) == Some(0))
    && r.monthLimit == (if r.unlimited then None else LimitTold(acts))
    && r.monthRemaining == (if r.unlimited then None else k.monthRemaining)
    && r.monthResetAt == k.monthResetAt && r.disabledSince == k.disabledSince
    && LiesBack(r.lastUsedAgo, LeasedAt(acts), now) && LiesBack(r.lastOkAgo, AnsweredAt(acts), now)
    && Counted(r.stats, acts)
  }

  /** How many milliseconds off the next slot is, cut to whole ones. */
  predicate TellsSlot(ms: nat, a: Avail, now: Time) {
    match a
    case Free => ms == 0
    case Busy(at) => if at <= now then ms == 0 else ms * 1_000_000 <= at - now < (ms + 1) * 1_000_000
  }

  /** In every run from a new pool the report on a key tells its history. */
  lemma KeyReportIsTrue(configured: U32, caps: seq<Option<U64>>, window: nat, es: seq<Event>, i: nat, a: Avail, now: Time)
    requires i < |caps| && Timely(es)
    ensures var start := NewPool(configured, caps);
            var k := Run(start, window, es)[i];
            var r := ReportOn(k, a, now);
            ReportsTold(r, k, configured, caps[i], Acts(start, window, es, i), now) && TellsSlot(r.nextSlotInMs, a, now)
  {
    var start := NewPool(configured, caps);
    KeysKnowWhatTheyWereTold(configured, caps, window, es, i);
    KeyStatsAreCounted(start, window, es, i);
    RunActsOnKey(start, window, es, i);
    StatsOfKey(start[i], window, Acts(start, window, es, i));
    ReportGives(Run(start, window, es)[i], configured, Acts(start, window, es, i), a, now);
  }

  lemma ReportGives(k: Key, configured: U32, acts: seq<Act>, a: Avail, now: Time)
    requires KnowsPlan(k, configured, acts) && Counted(k.stats, acts)
    ensures ReportsTold(ReportOn(k, a, now), k, configured, k.cap, acts, now)
    ensures TellsSlot(ReportOn(k, a, now).nextSlotInMs, a, now)
  {
  }
}

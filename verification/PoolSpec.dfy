/** Steps of the whole pool on values: picking a key, digesting an outcome, taking a snapshot. */
module PoolSpec {
  import opened Prelude
  import opened KeySpec

  type Keys = seq<Key>

  /** The pool as it starts: one new key per configured cap entry. */
  function NewPool(defaultRps: U32, caps: seq<Option<U64>>): (ks: Keys)
    ensures |ks| == |caps|
    ensures forall i :: 0 <= i < |ks| ==> ks[i] == NewKey(defaultRps, caps[i])
  {
    seq(|caps|, i requires 0 <= i < |caps| => NewKey(defaultRps, caps[i]))
  }

  function RefreshAll(ks: Keys, now: Time): (r: Keys)
    ensures |r| == |ks|
    ensures forall i :: 0 <= i < |r| ==> r[i] == Refresh(ks[i], now)
  {
    seq(|ks|, i requires 0 <= i < |ks| => Refresh(ks[i], now))
  }

  // ----- picking a key ---------------------------------------------------------------------

  predicate Considered(i: nat, exclude: seq<nat>, skip: bool) {
    !(skip && i in exclude)
  }

  function SettleAll(ks: Keys, now: Time, window: nat, exclude: seq<nat>, skip: bool): (r: Keys)
    ensures |r| == |ks|
    ensures forall i :: 0 <= i < |r| ==>
              r[i] == if Considered(i, exclude, skip) then Settle(ks[i], now, window) else ks[i]
  {
    seq(|ks|, i requires 0 <= i < |ks| =>
      if Considered(i, exclude, skip) then Settle(ks[i], now, window) else ks[i])
  }

  /** Earlier last use wins, never used first; then more monthly quota left. */
  predicate Better(a: Key, b: Key) {
    match (a.lastUsed, b.lastUsed)
    case (None, Some(_)) => true
    case (Some(_), None) => false
    case (None, None) => a.MonthRemainingForRanking() > b.MonthRemainingForRanking()
    case (Some(s), Some(t)) =>
      s < t || (s == t && a.MonthRemainingForRanking() > b.MonthRemainingForRanking())
  }

  /** Best free key, earliest instant a busy one frees up, and whether any key is healthy. */
  datatype Pick = Pick(best: Option<nat>, next: Option<Time>, anyHealthy: bool)

  /** The pick once key `i`, found in state `k`, has been weighed too. */
  function Weigh(p: Pick, best: Option<Key>, k: Key, i: nat, a: Avail): Pick {
    var p1 := p.(anyHealthy := p.anyHealthy || k.health == Ok);
    match a
    case Free => if best.None? || Better(k, best.value) then p1.(best := Some(i)) else p1
    case Busy(at) => p1.(next := Earliest(p.next, Some(at)))
  }

  function BestKey(ks: Keys, p: Pick): Option<Key>
    requires p.best.Some? ==> p.best.value < |ks|
  {
    if p.best.Some? then Some(ks[p.best.value]) else None
  }

  /** The pick among the first `n` keys. */
  function PickAmong(ks: Keys, now: Time, window: nat, exclude: seq<nat>, skip: bool, n: nat): (p: Pick)
    requires n <= |ks|
    ensures p.best.Some? ==> p.best.value < n
  {
    if n == 0 then Pick(None, None, false) else
      var p := PickAmong(ks, now, window, exclude, skip, n - 1);
      var k := ks[n - 1];
      if Considered(n - 1, exclude, skip)
      then Weigh(p, BestKey(ks, p), k, n - 1, Availability(k, now, window)) else p
  }

  function PickFrom(ks: Keys, now: Time, window: nat, exclude: seq<nat>, skip: bool): (p: Pick)
    ensures p.best.Some? ==> p.best.value < |ks|
  {
    PickAmong(ks, now, window, exclude, skip, |ks|)
  }

  datatype Reply = Leased(idx: nat) | At(at: Time) | Unavailable(earliest: Option<Time>)

  /** One attempt: the pool afterwards and what the caller is told. */
  function TryAcquire(ks: Keys, now: Time, window: nat, exclude: seq<nat>): (r: (Keys, Reply))
    ensures |r.0| == |ks|
    ensures r.1.Leased? ==> r.1.idx < |ks|
  {
    var r := RefreshAll(ks, now);
    var p := PickFrom(r, now, window, exclude, true);
    var s := SettleAll(r, now, window, exclude, true);
    if p.best.None? && exclude != [] && !p.anyHealthy
    then Conclude(SettleAll(s, now, window, exclude, false), now, PickFrom(s, now, window, exclude, false))
    else Conclude(s, now, p)
  }

  function Conclude(ks: Keys, now: Time, p: Pick): (r: (Keys, Reply))
    requires p.best.Some? ==> p.best.value < |ks|
    ensures |r.0| == |ks|
    ensures r.1.Leased? ==> r.1.idx < |ks|
  {
    match p.best
    case Some(i) => (ks[i := Reserve(ks[i], now)], Leased(i))
    case None => (ks, if p.anyHealthy then At(p.next.GetOr(now)) else Unavailable(p.next))
  }

  // ----- recording and snapshots -----------------------------------------------------------

  function Record(ks: Keys, now: Time, idx: nat, o: Outcome): (r: (Keys, Verdict))
    ensures |r.0| == |ks|
  {
    if idx < |ks| then (ks[idx := Digest(ks[idx], now, o)], VerdictOf(o)) else (ks, ReturnToClient)
  }

  /** What a snapshot does to the pool. */
  function Observe(ks: Keys, now: Time, window: nat): (r: Keys)
    ensures |r| == |ks|
    ensures forall i :: 0 <= i < |r| ==> r[i] == Settle(Refresh(ks[i], now), now, window)
  {
    SettleAll(RefreshAll(ks, now), now, window, [], false)
  }

  /** The numbers a snapshot reports. */
  datatype Summary = Summary(
    healthy: nat,
    rpsCapacity: nat,
    slots: nat,
    monthLimit: Option<nat>,
    monthRemaining: Option<nat>,
    unlimitedKeys: nat,
    totals: Stats)

  function AddMonth(total: Option<nat>, m: Option<nat>): Option<nat> {
    if m.Some? then Some(total.GetOr(0) + m.value) else total
  }

  function AddKey(s: Summary, k: Key): Summary {
    var up := k.health == Ok;
    Summary(
      if up then s.healthy + 1 else s.healthy,
      if up then s.rpsCapacity + k.Limit() else s.rpsCapacity,
      if up then s.slots + k.FreeSlots() else s.slots,
      if k.MonthUnlimited() then s.monthLimit else AddMonth(s.monthLimit, k.monthLimit),
      if k.MonthUnlimited() then s.monthRemaining else AddMonth(s.monthRemaining, k.monthRemaining),
      if k.MonthUnlimited() && up then s.unlimitedKeys + 1 else s.unlimitedKeys,
      s.totals.Plus(k.stats))
  }

  const NO_SUMMARY := Summary(0, 0, 0, None, None, 0, NO_STATS)

  /** The report on the first `n` keys of an observed pool. */
  function Summarise(ks: Keys, n: nat): Summary
    requires n <= |ks|
  {
    if n == 0 then NO_SUMMARY else AddKey(Summarise(ks, n - 1), ks[n - 1])
  }

  /** What a snapshot reports about one key. */
  datatype KeyReport = KeyReport(
    state: string,
    until: Option<Time>,
    limit: U32,
    limitsLearned: bool,
    inWindow: U32,
    nextSlotInMs: nat,
    unlimited: bool,
    monthLimit: Option<U64>,
    monthRemaining: Option<U64>,
    monthResetAt: Option<Time>,
    disabledSince: Option<Time>,
    lastUsedAgo: Option<nat>,
    lastOkAgo: Option<nat>,
    stats: Stats)

  /** How long ago an instant was. */
  function Ago(t: Option<Time>, now: Time): Option<nat> {
    if t.Some? then Some(SatSub(now, t.value)) else None
  }

  function StateOf(k: Key, a: Avail, now: Time): (string, Option<Time>) {
    match k.health
    case Ok =>
      if k.holdUntil.Some? && k.holdUntil.value > now then ("cooling", k.holdUntil)
      else if a.Busy? then ("busy", Some(a.at))
      else ("ok", None)
    case Disabled(until) => ("disabled", Some(until))
    case Exhausted(until) => ("exhausted", Some(until))
  }

  /** The report on an observed key that answered `a` when asked whether it is free. */
  function ReportOn(k: Key, a: Avail, now: Time): KeyReport {
    var (state, until) := StateOf(k, a, now);
    KeyReport(state, until, k.secLimit, k.limitsLearned, AsU32(|k.sends|),
              if a.Busy? then WholeMillis(SatSub(a.at, now)) else 0,
              k.MonthUnlimited(),
              if k.MonthUnlimited() then None else k.monthLimit,
              if k.MonthUnlimited() then None else k.monthRemaining,
              k.monthResetAt, k.disabledSince, Ago(k.lastUsed, now), Ago(k.lastOk, now), k.stats)
  }

  /** What a snapshot reports about a key found in state `k`. */
  function ReportKey(k: Key, now: Time, window: nat): KeyReport {
    ReportOn(Settle(Refresh(k, now), now, window), Availability(Refresh(k, now), now, window), now)
  }

  /** What a snapshot reports about the first `n` keys of the pool it finds. */
  function ReportAll(ks: Keys, now: Time, window: nat, n: nat): (r: seq<KeyReport>)
    requires n <= |ks|
    ensures |r| == n && forall i :: 0 <= i < n ==> r[i] == ReportKey(ks[i], now, window)
  {
    if n == 0 then [] else ReportAll(ks, now, window, n - 1) + [ReportKey(ks[n - 1], now, window)]
  }

  // ----- runs ------------------------------------------------------------------------------

  datatype Event =
    | Acquire(now: Time, exclude: seq<nat>)
    | Report(now: Time, idx: nat, outcome: Outcome)
    | Snapshot(now: Time)

  function Step(ks: Keys, window: nat, e: Event): (r: Keys)
    ensures |r| == |ks|
  {
    match e
    case Acquire(now, exclude) => TryAcquire(ks, now, window, exclude).0
    case Report(now, idx, o) => Record(ks, now, idx, o).0
    case Snapshot(now) => Observe(ks, now, window)
  }

  /** The pool after a run of interleaved steps. */
  function Run(ks: Keys, window: nat, es: seq<Event>): (r: Keys)
    ensures |r| == |ks|
  {
    if es == [] then ks else Step(Run(ks, window, es[..|es| - 1]), window, es[|es| - 1])
  }

  /** Step times never go back. */
  ghost predicate Timely(es: seq<Event>) {
    forall i, j :: 0 <= i <= j < |es| ==> es[i].now <= es[j].now
  }
}

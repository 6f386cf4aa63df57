/** The shared pool: key selection, outcome digestion and snapshots over mutable key records. */
module Pools {
  import opened Prelude
  import opened KeySpec
  import opened KeyStates
  import opened PoolSpec
  import opened KeyRuns
  import opened Waiting

  datatype AcquireResult =
    | Granted(idx: nat)
    | Saturated(retryAfter: nat)
    | NoneUsable(nextProbe: Option<nat>)

  /** What a waiter that stops on the given reply is told. */
  function Told(r: Reply, now: Time): AcquireResult {
    match r
    case Leased(i) => Granted(i)
    case At(at) => Saturated(SatSub(at, now))
    case Unavailable(earliest) =>
      NoneUsable(if earliest.Some? then Some(SatSub(earliest.value, now)) else None)
  }

  /** A waiter stops on a lease, on unavailability, or on a wait that its deadline does not allow. */
  predicate StopsOn(reply: Reply, now: Time, deadline: Time, r: AcquireResult) {
    r == Told(reply, now) && (reply.At? ==> deadline < reply.at && now < reply.at)
  }

  /**
   The whole story of a wait: which attempts were made, that there were no more of them than things
   to wait for, what the result means, and that a rejection lost nothing.
   */
  ghost predicate Waited(before: Keys, after: Keys, window: nat, tries: seq<Event>, start: Time, deadline: Time,
                         exclude: seq<nat>, r: AcquireResult)
  {
    && Patient(before, window, tries, start, deadline, exclude)
    && after == Run(before, window, tries)
    && StopsOn(ReplyTo(before, window, tries, |tries| - 1), Last(tries).now, deadline, r)
    && |tries| - 1 <= TotalPending(before)
    && (r.Saturated? ==> NothingUntil(after, window, Last(tries).now, deadline, exclude))
  }

  /** The wait ended at `now`. */
  ghost predicate WaitedUntil(before: Keys, after: Keys, window: nat, tries: seq<Event>, start: Time, deadline: Time,
                              exclude: seq<nat>, r: AcquireResult, now: Time)
  {
    Waited(before, after, window, tries, start, deadline, exclude, r) && Last(tries).now == now
  }

  lemma WaitBegins(ks: Keys, window: nat, start: Time, deadline: Time, exclude: seq<nat>)
    ensures MidWait(ks, ks, window, [Event.Acquire(start, exclude)], start, deadline, exclude, start)
  {
    SelectionNeverAdds(ks, start, window, exclude);
    assert Init([Event.Acquire(start, exclude)]) == [];
  }

  lemma WaitEnds(before: Keys, ks: Keys, window: nat, tries: seq<Event>, start: Time, deadline: Time,
                 exclude: seq<nat>, now: Time, r: AcquireResult)
    requires window > 0 && MidWait(before, ks, window, tries, start, deadline, exclude, now)
    requires var reply := PoolSpec.TryAcquire(ks, now, window, exclude).1;
             (reply.At? ==> deadline < reply.at) && r == Told(reply, now)
    ensures Waited(before, PoolSpec.TryAcquire(ks, now, window, exclude).0, window, tries, start, deadline, exclude, r)
  {
    AttemptMade(before, ks, window, tries, start, deadline, exclude, now);
    var reply := PoolSpec.TryAcquire(ks, now, window, exclude).1;
    if reply.At? {
      StillNothing(ks, now, deadline, window, exclude, reply.at);
    }
  }

  class Pool {
    const keys: seq<KeyState>
    const windowMargin: nat

    ghost predicate Valid() {
      forall i, j :: 0 <= i < j < |keys| ==> keys[i] != keys[j]
    }

    ghost function View(): (v: Keys)
      reads keys
      ensures |v| == |keys|
      ensures forall i :: 0 <= i < |v| ==> v[i] == keys[i].View()
    {
      seq(|keys|, i requires 0 <= i < |keys| reads keys => keys[i].View())
    }

    function Window(): nat {
      WINDOW + windowMargin
    }

    constructor (tokens: seq<string>, windowMargin: nat, defaultRps: U32, monthlyLimits: seq<Option<U64>>)
      ensures Valid() && fresh(keys)
      ensures this.windowMargin == windowMargin
      ensures |keys| == |tokens|
      ensures forall i :: 0 <= i < |keys| ==> keys[i].token == tokens[i]
      ensures View() == NewPool(defaultRps,
                seq(|tokens|, i requires 0 <= i => if i < |monthlyLimits| then monthlyLimits[i] else None))
    {
      var made: seq<KeyState> := [];
      for i := 0 to |tokens|
        invariant |made| == i && fresh(made)
        invariant forall a, b :: 0 <= a < b < i ==> made[a] != made[b]
        invariant forall a :: 0 <= a < i ==> made[a].token == tokens[a]
        invariant forall a :: 0 <= a < i ==>
          made[a].View() == NewKey(defaultRps, if a < |monthlyLimits| then monthlyLimits[a] else None)
      {
        var k := new KeyState(tokens[i], defaultRps, if i < |monthlyLimits| then monthlyLimits[i] else None);
        made := made + [k];
      }
      keys := made;
      this.windowMargin := windowMargin;
    }

    method RefreshKeys(now: Time)
      requires Valid()
      modifies keys
      ensures View() == RefreshAll(old(View()), now)
    {
      for i := 0 to |keys|
        invariant forall j :: 0 <= j < i ==> keys[j].View() == Refresh(old(keys[j].View()), now)
        invariant forall j :: i <= j < |keys| ==> keys[j].View() == old(keys[j].View())
      {
        keys[i].Refresh(now);
      }
    }

    /** Settles one key and tells whether it is free. */
    method Inspect(i: nat, now: Time) returns (a: Avail)
      requires Valid() && i < |keys|
      modifies keys
      ensures a == Availability(old(keys[i].View()), now, Window())
      ensures keys[i].View() == Settle(old(keys[i].View()), now, Window())
      ensures forall j :: 0 <= j < |keys| && j != i ==> keys[j].View() == old(keys[j].View())
    {
      a := keys[i].Availability(now, Window());
    }

    /** Weighs key `i` against the pick among the keys before it. */
    method Consider(p: Pick, i: nat, now: Time) returns (r: Pick)
      requires Valid() && i < |keys| && (p.best.Some? ==> p.best.value < i)
      modifies keys
      ensures r == Weigh(p, if p.best.Some? then Some(old(keys[p.best.value].View())) else None, old(keys[i].View()), i,
                         Availability(old(keys[i].View()), now, Window()))
      ensures keys[i].View() == Settle(old(keys[i].View()), now, Window())
      ensures forall j :: 0 <= j < |keys| && j != i ==> keys[j].View() == old(keys[j].View())
    {
      r := p;
      if keys[i].health == Ok {
        r := r.(anyHealthy := true);
      }
      var a := Inspect(i, now);
      match a
      case Free =>
        if p.best.None? || Better(keys[i].View(), keys[p.best.value].View()) {
          r := r.(best := Some(i));
        }
      case Busy(at) =>
        r := r.(next := Earliest(p.next, Some(at)));
    }

    /** The best free key, the earliest instant a considered key frees up, and whether any is healthy. */
    method PickKey(now: Time, exclude: seq<nat>, skip: bool) returns (p: Pick)
      requires Valid()
      modifies keys
      ensures p == PickFrom(old(View()), now, Window(), exclude, skip)
      ensures View() == SettleAll(old(View()), now, Window(), exclude, skip)
    {
      ghost var before := View();
      ghost var after := SettleAll(before, now, Window(), exclude, skip);
      p := Pick(None, None, false);
      for i := 0 to |keys|
        invariant p == PickAmong(before, now, Window(), exclude, skip, i)
        invariant forall j :: 0 <= j < i ==> keys[j].View() == after[j]
        invariant forall j :: i <= j < |keys| ==> keys[j].View() == before[j]
      {
        PickNext(before, now, Window(), exclude, skip, i);
        if !(skip && i in exclude) {
          p := Consider(p, i, now);
        }
      }
      assert View() == after;
    }

    /** Picks a key for a request sent now and reserves its slot. */
    method TryAcquire(now: Time, exclude: seq<nat>) returns (r: Reply)
      requires Valid()
      modifies keys
      ensures (View(), r) == PoolSpec.TryAcquire(old(View()), now, Window(), exclude)
    {
      RefreshKeys(now);
      var p := PickKey(now, exclude, true);
      if p.best.None? && exclude != [] && !p.anyHealthy {
        p := PickKey(now, exclude, false);
      }
      r := Grant(now, p);
    }

    /** Reserves the picked key, or says when to come back. */
    method Grant(now: Time, p: Pick) returns (r: Reply)
      requires Valid() && (p.best.Some? ==> p.best.value < |keys|)
      modifies keys
      ensures (View(), r) == Conclude(old(View()), now, p)
    {
      match p.best
      case Some(i) =>
        keys[i].Reserve(now);
        assert View() == old(View())[i := KeySpec.Reserve(old(View())[i], now)];
        return Leased(i);
      case None =>
        if p.anyHealthy {
          return At(p.next.GetOr(now));
        }
        return Unavailable(p.next);
    }

    /** Tries, and sleeps until the announced instant, as long as the deadline allows; nothing else uses the pool meanwhile. */
    method Acquire(start: Time, deadline: Time, exclude: seq<nat>)
      returns (r: AcquireResult, now: Time, ghost tries: seq<Event>)
      requires Valid()
      modifies keys
      ensures WaitedUntil(old(View()), View(), Window(), tries, start, deadline, exclude, r, now)
    {
      ghost var before := View();
      ghost var ks := before;
      ghost var window := Window();
      now := start;
      tries := [Event.Acquire(start, exclude)];
      WaitBegins(before, window, start, deadline, exclude);
      while true
        invariant View() == ks
        invariant MidWait(before, ks, window, tries, start, deadline, exclude, now)
        decreases TotalPending(TouchedAll(ks, now, window, exclude))
      {
        var reply := TryAcquire(now, exclude);
        if reply.At? && reply.at <= deadline {
          ghost var asleep := now;
          now := NotBefore(reply.at);
          WaitGoesOn(before, ks, window, tries, start, deadline, exclude, asleep, reply.at, now);
          tries := tries + [Event.Acquire(now, exclude)];
          ks := View();
        } else {
          r := Told(reply, now);
          WaitEnds(before, ks, window, tries, start, deadline, exclude, now, r);
          return;
        }
      }
    }

    method Record(now: Time, idx: nat, o: Outcome) returns (v: Verdict)
      requires Valid()
      modifies keys
      ensures (View(), v) == PoolSpec.Record(old(View()), now, idx, o)
    {
      if idx >= |keys| {
        return ReturnToClient;
      }
      v := keys[idx].Digest(now, o);
      assert View() == old(View())[idx := Digest(old(View())[idx], now, o)];
    }

    /** The summary and, key by key, the report of the pool as it is now. */
    method Snapshot(now: Time) returns (s: Summary, reports: seq<KeyReport>)
      requires Valid()
      modifies keys
      ensures View() == Observe(old(View()), now, Window())
      ensures s == Summarise(View(), |keys|)
      ensures reports == ReportAll(old(View()), now, Window(), |keys|)
    {
      s, reports := NO_SUMMARY, [];
      ghost var before, observed := View(), Observe(View(), now, Window());
      for i := 0 to |keys|
        invariant forall j :: 0 <= j < i ==> keys[j].View() == observed[j]
        invariant forall j :: i <= j < |keys| ==> keys[j].View() == before[j]
        invariant s == Summarise(observed, i)
        invariant reports == ReportAll(before, now, Window(), i)
      {
        var report;
        s, report := LookAt(i, now, s);
        reports := reports + [report];
      }
      assert View() == observed;
    }

    /** Looks at one key, adds it to the summary and reports on it. */
    method LookAt(i: nat, now: Time, s: Summary) returns (r: Summary, report: KeyReport)
      requires Valid() && i < |keys|
      modifies keys
      ensures keys[i].View() == Settle(Refresh(old(keys[i].View()), now), now, Window())
      ensures forall j :: 0 <= j < |keys| && j != i ==> keys[j].View() == old(keys[j].View())
      ensures r == AddKey(s, keys[i].View())
      ensures report == ReportKey(old(keys[i].View()), now, Window())
    {
      keys[i].Refresh(now);
      var avail := Inspect(i, now);
      r := AddToSummary(s, keys[i]);
      report := Describe(keys[i], avail, now);
    }

    static method Describe(k: KeyState, a: Avail, now: Time) returns (r: KeyReport)
      ensures r == ReportOn(k.View(), a, now)
    {
      var state, until := "ok", None;
      if k.health.Disabled? {
        state, until := "disabled", Some(k.health.until);
      } else if k.health.Exhausted? {
        state, until := "exhausted", Some(k.health.until);
      } else if k.holdUntil.Some? && k.holdUntil.value > now {
        state, until := "cooling", k.holdUntil;
      } else if a.Busy? {
        state, until := "busy", Some(a.at);
      }
      var unlimited := k.View().MonthUnlimited();
      r := KeyReport(state, until, k.secLimit, k.limitsLearned, AsU32(|k.sends|),
                     if a.Busy? then WholeMillis(SatSub(a.at, now)) else 0,
                     unlimited, if unlimited then None else k.monthLimit, if unlimited then None else k.monthRemaining,
                     k.monthResetAt, k.disabledSince, Ago(k.lastUsed, now), Ago(k.lastOk, now), k.stats);
    }

    static method AddToSummary(s: Summary, k: KeyState) returns (r: Summary)
      ensures r == AddKey(s, k.View())
    {
      r := s;
      if k.health == Ok {
        r := r.(healthy := r.healthy + 1,
                rpsCapacity := r.rpsCapacity + k.View().Limit(),
                slots := r.slots + k.View().FreeSlots());
      }
      if k.View().MonthUnlimited() {
        if k.health == Ok {
          r := r.(unlimitedKeys := r.unlimitedKeys + 1);
        }
      } else {
        r := r.(monthLimit := AddMonth(r.monthLimit, k.monthLimit),
                monthRemaining := AddMonth(r.monthRemaining, k.monthRemaining));
      }
      r := r.(totals := r.totals.Plus(k.stats));
    }
  }

  /** Weighing sees the same whether or not the best key so far has been settled. */
  lemma SettleKeepsPick(p: Pick, best: Option<Key>, settled: Option<Key>, k: Key, i: nat, now: Time, window: nat)
    requires best.None? <==> settled.None?
    requires best.Some? ==> settled.value == best.value || settled.value == Settle(best.value, now, window)
    ensures Weigh(p, settled, k, i, Availability(k, now, window)) == Weigh(p, best, k, i, Availability(k, now, window))
  {
  }

  /** One more key weighed, the keys before it being settled already. */
  lemma PickNext(ks: Keys, now: Time, window: nat, exclude: seq<nat>, skip: bool, i: nat)
    requires i < |ks|
    ensures var p := PickAmong(ks, now, window, exclude, skip, i);
            PickAmong(ks, now, window, exclude, skip, i + 1) ==
            if Considered(i, exclude, skip)
            then Weigh(p, BestKey(SettleAll(ks, now, window, exclude, skip), p), ks[i], i, Availability(ks[i], now, window))
            else p
  {
    var p := PickAmong(ks, now, window, exclude, skip, i);
    SettleKeepsPick(p, BestKey(ks, p), BestKey(SettleAll(ks, now, window, exclude, skip), p), ks[i], i, now, window);
  }
}

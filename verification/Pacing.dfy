/**
 End to end: a client window of one second plus a margin keeps the simulator's one-second window
 from ever overflowing, even when requests overtake each other on the way.
 */
module Pacing {
  import opened Prelude
  import opened KeySpec
  import opened PoolSpec
  import opened KeyRuns
  import opened Pruning
  import opened Counting
  import opened Window
  import opened Mock

  /** The request of send number `src` reaches the simulator. */
  datatype Arrival = Arrival(at: Time, src: nat)

  /** Each arrival is a different send, delayed by at least `delay` and at most `margin` more. */
  ghost predicate Delivered(log: seq<Send>, arrivals: seq<Arrival>, delay: nat, margin: nat) {
    && (forall j :: 0 <= j < |arrivals| ==> arrivals[j].src < |log|)
    && (forall j :: 0 <= j < |arrivals| ==>
          log[arrivals[j].src].at + delay <= arrivals[j].at <= log[arrivals[j].src].at + delay + margin)
    && (forall i, j :: 0 <= i < j < |arrivals| ==> arrivals[i].src != arrivals[j].src)
    && (forall i, j :: 0 <= i <= j < |arrivals| ==> arrivals[i].at <= arrivals[j].at)
  }

  /** The simulator's record of the key after the first `n` arrivals. */
  function Served(s: Setup, key: string, arrivals: seq<Arrival>, n: nat): Record
    requires n <= |arrivals|
  {
    if n == 0 then Record([], 0, 0) else Serve(s, Served(s, key, arrivals, n - 1), key, arrivals[n - 1].at).0
  }

  function Suffix(s: seq<nat>, n: nat): seq<nat> {
    if n <= |s| then s[|s| - n..] else s
  }

  /** The queue entries are the times of distinct, earlier arrivals. */
  predicate Tracks(queue: seq<Time>, from: seq<nat>, arrivals: seq<Arrival>, n: nat)
    requires n <= |arrivals|
  {
    && |queue| == |from|
    && (forall i :: 0 <= i < |from| ==> from[i] < n && queue[i] == arrivals[from[i]].at)
    && (forall i, j :: 0 <= i < j < |from| ==> from[i] < from[j])
  }

  lemma ServeQueue(s: Setup, r: Record, key: string, now: Time)
    ensures var q := Serve(s, r, key, now).0.sends;
            q == r.sends || q == Prune(r.sends, now, WINDOW) || q == Prune(r.sends, now, WINDOW) + [now]
  {
  }

  lemma TracksSuffix(queue: seq<Time>, from: seq<nat>, arrivals: seq<Arrival>, n: nat, now: Time)
    requires n <= |arrivals| && Tracks(queue, from, arrivals, n)
    ensures var kept := Prune(queue, now, WINDOW); Tracks(kept, Suffix(from, |kept|), arrivals, n)
  {
    PruneKeepsSuffix(queue, now, WINDOW);
  }

  lemma TracksNext(queue: seq<Time>, from: seq<nat>, arrivals: seq<Arrival>, n: nat, after: seq<Time>)
    returns (next: seq<nat>)
    requires n < |arrivals| && Tracks(queue, from, arrivals, n)
    requires var now := arrivals[n].at;
             after == queue || after == Prune(queue, now, WINDOW) || after == Prune(queue, now, WINDOW) + [now]
    ensures Tracks(after, next, arrivals, n + 1)
  {
    var kept := Prune(queue, arrivals[n].at, WINDOW);
    TracksSuffix(queue, from, arrivals, n, arrivals[n].at);
    if after == queue {
      next := from;
    } else if after == kept {
      next := Suffix(from, |kept|);
    } else {
      next := Suffix(from, |kept|) + [n];
      TracksPush(kept, Suffix(from, |kept|), arrivals, n);
    }
  }

  lemma TracksPush(queue: seq<Time>, from: seq<nat>, arrivals: seq<Arrival>, n: nat)
    requires n < |arrivals| && Tracks(queue, from, arrivals, n)
    ensures Tracks(queue + [arrivals[n].at], from + [n], arrivals, n + 1)
  {
  }

  /** The arrivals that the simulator's queue stands for. */
  lemma {:induction false} QueueIsTracked(s: Setup, key: string, arrivals: seq<Arrival>, n: nat)
    returns (from: seq<nat>)
    requires n <= |arrivals|
    ensures Tracks(Served(s, key, arrivals, n).sends, from, arrivals, n)
    decreases n
  {
    if n == 0 {
      from := [];
    } else {
      var before := QueueIsTracked(s, key, arrivals, n - 1);
      ServeQueue(s, Served(s, key, arrivals, n - 1), key, arrivals[n - 1].at);
      from := TracksNext(Served(s, key, arrivals, n - 1).sends, before, arrivals, n - 1,
                         Served(s, key, arrivals, n).sends);
    }
  }

  /** A set of sends that all lie in an interval is no larger than the count of sends there. */
  lemma {:induction false} SetWithinCount(log: seq<Send>, from: Time, to: Time, ps: set<nat>)
    requires forall p :: p in ps ==> p < |log| && from <= log[p].at < to
    ensures |ps| <= CountIn(log, from, to)
  {
    if log == [] {
      assert ps == {};
    } else {
      var l := |log| - 1;
      SetWithinCount(Init(log), from, to, ps - {l});
      assert ps <= (ps - {l}) + {l};
      if l in ps {
        assert |ps| == |ps - {l}| + 1;
      } else {
        assert ps - {l} == ps;
      }
    }
  }

  function Sources(from: seq<nat>, arrivals: seq<Arrival>): (s: seq<nat>)
    requires forall i :: 0 <= i < |from| ==> from[i] < |arrivals|
    ensures |s| == |from|
    ensures forall i :: 0 <= i < |s| ==> s[i] == arrivals[from[i]].src
  {
    if from == [] then [] else Sources(from[..|from| - 1], arrivals) + [arrivals[from[|from| - 1]].src]
  }

  /** Where the sends behind the current second's arrivals must lie. */
  function SpanStart(now: Time, delay: nat, margin: nat): Time {
    SatSub(now + 1, delay + WINDOW + margin)
  }

  /** The sends behind the arrivals of the last second fit in one client window. */
  lemma SourceInSpan(log: seq<Send>, arrivals: seq<Arrival>, delay: nat, margin: nat, j: nat, now: Time)
    requires Delivered(log, arrivals, delay, margin) && j < |arrivals|
    requires arrivals[j].at <= now < arrivals[j].at + WINDOW
    ensures var from := SpanStart(now, delay, margin);
            from <= log[arrivals[j].src].at < from + WINDOW + margin
  {
  }

  /** The arrivals still queued when number `n` comes in, together with it. */
  lemma QueuePlusOne(log: seq<Send>, arrivals: seq<Arrival>, delay: nat, margin: nat, queue: seq<Time>, from: seq<nat>, n: nat)
    requires Delivered(log, arrivals, delay, margin) && n < |arrivals| && Tracks(queue, from, arrivals, n)
    requires forall i :: 0 <= i < |queue| ==> arrivals[n].at < queue[i] + WINDOW
    ensures |queue| + 1 <= CountIn(log, SpanStart(arrivals[n].at, delay, margin),
                                   SpanStart(arrivals[n].at, delay, margin) + (WINDOW + margin))
  {
    var now := arrivals[n].at;
    var start := SpanStart(now, delay, margin);
    var all := from + [n];
    var srcs := Sources(all, arrivals);
    forall i | 0 <= i < |all| ensures start <= log[srcs[i]].at < start + (WINDOW + margin) && srcs[i] < |log| {
      if i < |from| {
        assert queue[i] == arrivals[from[i]].at;
      }
      SourceInSpan(log, arrivals, delay, margin, all[i], now);
    }
    forall a, b | 0 <= a < b < |srcs| ensures srcs[a] != srcs[b] {
      assert all[a] < all[b];
    }
    SetOfSize(srcs);
    SetWithinCount(log, start, start + (WINDOW + margin), SetOf(srcs));
  }

  lemma KeptIsRecent(queue: seq<Time>, from: seq<nat>, arrivals: seq<Arrival>, n: nat)
    requires n < |arrivals| && Tracks(queue, from, arrivals, n)
    requires forall i, j :: 0 <= i <= j < |arrivals| ==> arrivals[i].at <= arrivals[j].at
    ensures var kept := Prune(queue, arrivals[n].at, WINDOW);
            forall i :: 0 <= i < |kept| ==> arrivals[n].at < kept[i] + WINDOW
  {
    var kept := Prune(queue, arrivals[n].at, WINDOW);
    PruneKeepsSuffix(queue, arrivals[n].at, WINDOW);
    var cut := |queue| - |kept|;
    forall i | 0 <= i < |kept| ensures kept[0] <= kept[i] {
      assert kept[0] == queue[cut] && kept[i] == queue[cut + i];
    }
  }

  ghost predicate LimitsAtMost(log: seq<Send>, rps: nat) {
    forall j :: 0 <= j < |log| ==> log[j].limit <= rps
  }

  /** With a safe send log, arrival number `n` finds room in the simulator's window. */
  lemma ArrivalFindsRoom(s: Setup, key: string, log: seq<Send>, arrivals: seq<Arrival>, delay: nat, margin: nat, n: nat)
    requires Delivered(log, arrivals, delay, margin) && n < |arrivals| && LimitsAtMost(log, s.rps)
    requires Sorted(log) && Spaced(log, WINDOW + margin)
    ensures !HitsSecondLimit(s, Served(s, key, arrivals, n), key, arrivals[n].at)
  {
    var queue := Served(s, key, arrivals, n).sends;
    var from := QueueIsTracked(s, key, arrivals, n);
    var now := arrivals[n].at;
    var kept := Prune(queue, now, WINDOW);
    TracksSuffix(queue, from, arrivals, n, now);
    KeptIsRecent(queue, from, arrivals, n);
    QueuePlusOne(log, arrivals, delay, margin, kept, Suffix(from, |kept|), n);
    WindowHolds(log, SpanStart(now, delay, margin), WINDOW + margin);
  }

  /**
   End-to-end pacing: if every request reaches the simulator between `delay` and `delay + margin`
   after its lease, in whatever order, and the key's limit never exceeds the simulator's, then in
   no run of the pool does the simulator take its per-second 429 branch.
   */
  lemma NoSecondLimitEver(ks: Keys, es: seq<Event>, i: nat, margin: nat, s: Setup, key: string,
                          arrivals: seq<Arrival>, delay: nat, n: nat)
    requires i < |ks| && Unused(ks) && Timely(es) && n < |arrivals|
    requires LimitsAtMost(SendsOf(ks, WINDOW + margin, es, i), s.rps)
    requires Delivered(SendsOf(ks, WINDOW + margin, es, i), arrivals, delay, margin)
    ensures !HitsSecondLimit(s, Served(s, key, arrivals, n), key, arrivals[n].at)
  {
    var acts := Acts(ks, WINDOW + margin, es, i);
    RunActsOnKey(ks, WINDOW + margin, es, i);
    HistoryInvariant(ks[i], WINDOW + margin, acts);
    ArrivalFindsRoom(s, key, SendsOf(ks, WINDOW + margin, es, i), arrivals, delay, margin, n);
  }

  // ----- where the limit stays within the simulator's ------------------------------------------------------

  /** No outcome teaches the key a larger limit than `rps`. */
  ghost predicate TeachesAtMost(acts: seq<Act>, rps: nat) {
    forall n :: 0 <= n < |acts| && acts[n].Digested? && acts[n].outcome.Response? && acts[n].outcome.rl.Some? ==>
      var l := acts[n].outcome.rl.value.limit.second; l.Some? ==> l.value <= rps
  }

  lemma ActKeepsLimit(k: Key, window: nat, a: Act, rps: nat)
    requires k.Limit() <= rps && rps >= 1
    requires a.Digested? && a.outcome.Response? && a.outcome.rl.Some? ==>
               var l := a.outcome.rl.value.limit.second; l.Some? ==> l.value <= rps
    ensures Do(k, window, a).Limit() <= rps
  {
  }

  lemma {:induction false} LimitStaysWithin(k: Key, window: nat, acts: seq<Act>, rps: nat)
    requires k.Limit() <= rps && TeachesAtMost(acts, rps)
    ensures After(k, window, acts).Limit() <= rps && LimitsAtMost(SendLog(k, window, acts), rps)
  {
    if acts != [] {
      assert forall n :: 0 <= n < |Init(acts)| ==> Init(acts)[n] == acts[n];
      LimitStaysWithin(k, window, Init(acts), rps);
      ActKeepsLimit(After(k, window, Init(acts)), window, Last(acts), rps);
    }
  }

  /** A pool configured within the simulator's rate, and taught no more, meets the premise above. */
  lemma ConfiguredWithinRate(ks: Keys, window: nat, es: seq<Event>, i: nat, rps: nat)
    requires i < |ks| && Timely(es) && ks[i].Limit() <= rps && TeachesAtMost(Acts(ks, window, es, i), rps)
    ensures LimitsAtMost(SendsOf(ks, window, es, i), rps)
  {
    RunActsOnKey(ks, window, es, i);
    LimitStaysWithin(ks[i], window, Acts(ks, window, es, i), rps);
  }
}

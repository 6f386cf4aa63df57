/**
 What a run of the whole pool does to one key. Every pool step acts on a key as a wake-up, a
 lease or a digested outcome, so per-key safety is proved on such act sequences and then holds
 for every run of the pool.
 */
module KeyRuns {
  import opened Prelude
  import opened KeySpec
  import opened PoolSpec
  import opened Selection

  datatype Act =
    | Wake(now: Time, settled: bool)
    | Lease(now: Time)
    | Digested(now: Time, outcome: Outcome)

  function Do(k: Key, window: nat, a: Act): Key {
    match a
    case Wake(now, settled) => if settled then Settle(Refresh(k, now), now, window) else Refresh(k, now)
    case Lease(now) => Reserve(Settle(Refresh(k, now), now, window), now)
    case Digested(now, o) => Digest(k, now, o)
  }

  function Last<T>(s: seq<T>): T
    requires s != []
  {
    s[|s| - 1]
  }

  function Init<T>(s: seq<T>): seq<T>
    requires s != []
  {
    s[..|s| - 1]
  }

  function After(k: Key, window: nat, acts: seq<Act>): Key {
    if acts == [] then k else Do(After(k, window, Init(acts)), window, Last(acts))
  }

  function Clock(acts: seq<Act>): Time {
    if acts == [] then 0 else Last(acts).now
  }

  /** Time never goes back and a key is leased only while it is free. */
  ghost predicate Legal(k: Key, window: nat, acts: seq<Act>) {
    acts == [] ||
    (Legal(k, window, Init(acts)) && Clock(Init(acts)) <= Last(acts).now &&
     (Last(acts).Lease? ==> FreeAt(After(k, window, Init(acts)), Last(acts).now, window)))
  }

  /** The acts of a pool run on key `i`. */
  ghost function Acts(ks: Keys, window: nat, es: seq<Event>, i: nat): seq<Act> {
    if es == [] then [] else
      var before := Run(ks, window, Init(es));
      var acts := Acts(ks, window, Init(es), i);
      match Last(es)
      case Acquire(now, exclude) =>
        acts + [if TryAcquire(before, now, window, exclude).1 == Leased(i) then Lease(now)
                else Wake(now, InPlay(before, now, exclude, i))]
      case Report(now, idx, o) => if idx == i then acts + [Digested(now, o)] else acts
      case Snapshot(now) => acts + [Wake(now, true)]
  }

  lemma RunStep(ks: Keys, window: nat, es: seq<Event>, e: Event)
    ensures Run(ks, window, es + [e]) == Step(Run(ks, window, es), window, e)
  {
    assert (es + [e])[..|es|] == es;
  }

  /** A run may be taken apart after its first step. */
  lemma {:induction false} RunFirst(ks: Keys, window: nat, e: Event, es: seq<Event>)
    ensures Run(ks, window, [e] + es) == Run(Step(ks, window, e), window, es)
  {
    if es == [] {
      assert [e] + es == [] + [e];
      RunStep(ks, window, [], e);
    } else {
      RunFirst(ks, window, e, Init(es));
      RunStep(ks, window, [e] + Init(es), Last(es));
      RunStep(Step(ks, window, e), window, Init(es), Last(es));
      assert [e] + Init(es) + [Last(es)] == [e] + es && Init(es) + [Last(es)] == es;
    }
  }

  lemma LegalStep(k: Key, window: nat, acts: seq<Act>, a: Act)
    requires Legal(k, window, acts) && Clock(acts) <= a.now
    requires a.Lease? ==> FreeAt(After(k, window, acts), a.now, window)
    ensures Legal(k, window, acts + [a])
    ensures After(k, window, acts + [a]) == Do(After(k, window, acts), window, a)
    ensures Clock(acts + [a]) == a.now
  {
    assert Init(acts + [a]) == acts;
  }

  ghost function EndOf(es: seq<Event>): Time {
    if es == [] then 0 else Last(es).now
  }

  /** Every run of the pool is, for each of its keys, a legal sequence of acts. */
  lemma {:induction false} RunActsOnKey(ks: Keys, window: nat, es: seq<Event>, i: nat)
    requires i < |ks| && Timely(es)
    ensures Legal(ks[i], window, Acts(ks, window, es, i))
    ensures After(ks[i], window, Acts(ks, window, es, i)) == Run(ks, window, es)[i]
    ensures Clock(Acts(ks, window, es, i)) <= EndOf(es)
  {
    if es != [] {
      var pre := Init(es);
      RunActsOnKey(ks, window, pre, i);
      var before := Run(ks, window, pre);
      var acts := Acts(ks, window, pre, i);
      var now := Last(es).now;
      assert EndOf(pre) <= now;
      match Last(es)
      case Acquire(_, exclude) =>
        KeyAfterAcquire(before, now, window, exclude, i);
        ReplyIsEntitled(before, now, window, exclude);
        LegalStep(ks[i], window, acts, Last(Acts(ks, window, es, i)));
      case Report(_, idx, o) =>
        if idx == i {
          LegalStep(ks[i], window, acts, Digested(now, o));
        }
      case Snapshot(_) =>
        LegalStep(ks[i], window, acts, Wake(now, true));
    }
  }
}

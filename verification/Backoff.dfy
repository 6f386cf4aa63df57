/** A key that is always rejected is probed ever more rarely. */
module Backoff {
  import opened Prelude
  import opened KeySpec
  import opened PoolSpec
  import opened KeyRuns
  import opened Discipline
  import opened Parks
  import opened Tallies

  ghost predicate AlwaysRejected(acts: seq<Act>) {
    acts == [] || (AlwaysRejected(Init(acts)) && (Last(acts).Digested? ==> Rejected(Last(acts).outcome)))
  }

  /** When the first outcome was recorded. */
  function FirstRejection(acts: seq<Act>): Time {
    if acts == [] then 0
    else if Digests(Init(acts)) == 0 && Last(acts).Digested? then Last(acts).now
    else FirstRejection(Init(acts))
  }

  /** Time for which the first `n` rejections in a row park a key. */
  function Penance(n: nat): nat {
    if n == 0 then 0 else Penance(n - 1) + ParkTime(n, AUTH_BACKOFF_BASE, AUTH_BACKOFF_MAX)
  }

  lemma LateStrikes(n: nat)
    requires n >= 5
    ensures ParkTime(n, AUTH_BACKOFF_BASE, AUTH_BACKOFF_MAX) == 3600 * SECOND
  {
    var m := Min(n - 1, 16);
    DoubledGrows(AUTH_BACKOFF_BASE, 4, m);
    DoubledGrows(AUTH_BACKOFF_BASE, m, 16);
    Doubled16(AUTH_BACKOFF_BASE);
    FourMore(AUTH_BACKOFF_BASE, 0);
  }

  lemma FirstPenance()
    ensures Penance(4) == 4500 * SECOND
  {
    FourMore(AUTH_BACKOFF_BASE, 0);
    assert Penance(1) == Penance(0) + ParkTime(1, AUTH_BACKOFF_BASE, AUTH_BACKOFF_MAX);
    assert Penance(2) == Penance(1) + ParkTime(2, AUTH_BACKOFF_BASE, AUTH_BACKOFF_MAX);
    assert Penance(3) == Penance(2) + ParkTime(3, AUTH_BACKOFF_BASE, AUTH_BACKOFF_MAX);
    assert Penance(4) == Penance(3) + ParkTime(4, AUTH_BACKOFF_BASE, AUTH_BACKOFF_MAX);
  }

  lemma {:induction false} PenanceGrows(n: nat)
    requires n >= 4
    ensures Penance(n) == Seconds(4500 + 3600 * (n - 4))
  {
    if n == 4 {
      FirstPenance();
    } else {
      PenanceGrows(n - 1);
      LateStrikes(n);
      assert Penance(n) == Penance(n - 1) + Seconds(3600);
    }
  }

  lemma SaturatedStrikes(n: nat)
    requires n >= 1
    ensures ParkTime(Min(n, U32_MAX), AUTH_BACKOFF_BASE, AUTH_BACKOFF_MAX) ==
            ParkTime(n, AUTH_BACKOFF_BASE, AUTH_BACKOFF_MAX)
  {
  }

  lemma RejectionParks(k: Key, now: Time, o: Outcome)
    requires Rejected(o)
    ensures var strikes := Min(k.disableStrikes + 1, U32_MAX);
            Digest(k, now, o).disableStrikes == strikes &&
            Digest(k, now, o).health == Disabled(now + ParkTime(strikes, AUTH_BACKOFF_BASE, AUTH_BACKOFF_MAX))
  {
  }

  /** The key has served, or is still serving, its penance for `n` rejections since `first`. */
  predicate Serves(k: Key, clock: Time, first: Time, n: nat) {
    && k.disableStrikes == Min(n, U32_MAX)
    && (n >= 1 ==> if k.health == Ok then first + Penance(n) <= clock else first + Penance(n) <= k.health.until)
  }

  lemma {:induction false} PenanceIsServed(k: Key, window: nat, acts: seq<Act>)
    requires k.health == Ok && k.disableStrikes == 0
    requires Legal(k, window, acts) && Sequential(acts) && AlwaysRejected(acts)
    ensures Serves(After(k, window, acts), Clock(acts), FirstRejection(acts), Digests(acts))
  {
    if acts != [] {
      PenanceIsServed(k, window, Init(acts));
      var before := After(k, window, Init(acts));
      match Last(acts)
      case Wake(_, _) =>
      case Lease(_) =>
      case Digested(now, o) =>
        OutstandingIsUp(k, window, Init(acts));
        RejectionParks(before, now, o);
        SaturatedStrikes(Digests(acts));
    }
  }

  /** The least time from the first rejection to lease number `n`: 4500 + 3600 (n - 5) seconds. */
  function LeaseGap(n: nat): Time
    requires n >= 5
  {
    Seconds(4500 + 3600 * (n - 5))
  }

  lemma RareLeases(k: Key, window: nat, acts: seq<Act>)
    requires k.health == Ok && k.disableStrikes == 0
    requires Legal(k, window, acts) && Sequential(acts) && AlwaysRejected(acts)
    requires acts != [] && Last(acts).Lease? && Leases(acts) >= 5
    ensures FirstRejection(acts) + LeaseGap(Leases(acts)) <= Last(acts).now
  {
    PenanceIsServed(k, window, acts);
    PenanceGrows(Leases(acts) - 1);
  }

  /**
   A key that answers every request with 401 or 403, one request at a time, gets its lease number
   n no earlier than 4500 + 3600 (n - 5) seconds after its first rejection.
   */
  lemma ProbesAreRare(ks: Keys, window: nat, es: seq<Event>, i: nat)
    requires i < |ks| && Timely(es) && ks[i].health == Ok && ks[i].disableStrikes == 0
    requires var acts := Acts(ks, window, es, i);
             acts != [] && Last(acts).Lease? && Sequential(acts) && AlwaysRejected(acts) && Leases(acts) >= 5
    ensures var acts := Acts(ks, window, es, i);
            FirstRejection(acts) + LeaseGap(Leases(acts)) <= Last(acts).now
  {
    var acts := Acts(ks, window, es, i);
    RunActsOnKey(ks, window, es, i);
    RareLeases(ks[i], window, acts);
  }

  /** So within a given time after its first rejection such a key is probed only so often. */
  lemma {:induction false} ProbesAreBounded(k: Key, window: nat, acts: seq<Act>, span: nat)
    requires k.health == Ok && k.disableStrikes == 0
    requires Legal(k, window, acts) && Sequential(acts) && AlwaysRejected(acts)
    requires Digests(acts) >= 1 && Clock(acts) <= FirstRejection(acts) + span
    ensures Leases(acts) <= 5 || LeaseGap(Leases(acts)) <= span
  {
    if Leases(acts) > 5 {
      PenanceIsServed(k, window, acts);
      OutstandingIsUp(k, window, acts);
      if Last(acts).Lease? {
        PenanceGrows(Leases(acts) - 1);
      } else {
        MonotoneClock(acts, k, window);
        ProbesAreBounded(k, window, Init(acts), span);
      }
    }
  }

  lemma MonotoneClock(acts: seq<Act>, k: Key, window: nat)
    requires acts != [] && Legal(k, window, acts)
    ensures Clock(Init(acts)) <= Clock(acts)
  {
  }
}

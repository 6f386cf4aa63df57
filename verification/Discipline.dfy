/** Counting leases and outcomes of one key. */
module Discipline {
  import opened KeySpec
  import opened KeyRuns

  function Leases(acts: seq<Act>): nat {
    if acts == [] then 0 else Leases(Init(acts)) + if Last(acts).Lease? then 1 else 0
  }

  function Digests(acts: seq<Act>): nat {
    if acts == [] then 0 else Digests(Init(acts)) + if Last(acts).Digested? then 1 else 0
  }

  /** At most one request of the key is outstanding, and only outstanding requests report. */
  ghost predicate Sequential(acts: seq<Act>) {
    acts == [] ||
    (Sequential(Init(acts)) &&
     (Last(acts).Lease? ==> Leases(Init(acts)) == Digests(Init(acts))) &&
     (Last(acts).Digested? ==> Leases(Init(acts)) == Digests(Init(acts)) + 1))
  }

  /** A key with a request outstanding is not parked. */
  lemma {:induction false} OutstandingIsUp(k: Key, window: nat, acts: seq<Act>)
    requires Legal(k, window, acts) && Sequential(acts)
    ensures Leases(acts) == Digests(acts) || Leases(acts) == Digests(acts) + 1
    ensures Leases(acts) == Digests(acts) + 1 ==> After(k, window, acts).health == Ok
  {
    if acts != [] {
      OutstandingIsUp(k, window, Init(acts));
    }
  }
}

/**
 The FIFO turnstile in front of the pool, as a timed protocol: callers join, one at a time holds
 the turnstile and tries or sleeps, outcomes and snapshots of others come in between, and callers
 may give up. Timers are exact and an enabled caller acts before time passes.
 */
module Turnstile {
  import opened Prelude
  import opened PoolSpec
  import opened KeyRuns
  import opened Waiting

  datatype Phase = Queued | Trying | Sleeping(until: Time)

  datatype Caller = Caller(ticket: nat, started: Time, joined: Time, deadline: Time, exclude: seq<nat>, phase: Phase)

  datatype Finished = Finished(ticket: nat, started: Time, joined: Time, at: Time, reply: Reply)

  datatype Hall = Hall(pool: Keys, clock: Time, callers: seq<Caller>, done: seq<Finished>, nextTicket: nat)

  datatype Move =
    | Join(started: Time, exclude: seq<nat>)
    | Enter(n: nat)
    | Try(n: nat)
    | Awaken(n: nat)
    | GiveUp(n: nat)
    | Outside(e: Event)
    | Tick(to: Time)

  predicate Holds(c: Caller) {
    c.phase != Queued
  }

  predicate Enabled(h: Hall, m: Move) {
    match m
    case Join(started, _) => started <= h.clock
    case Enter(n) =>
      // the turnstile is free, and it is handed to the first caller in the queue
      n == 0 < |h.callers| && forall i :: 0 <= i < |h.callers| ==> !Holds(h.callers[i])
    case Try(n) => n < |h.callers| && h.callers[n].phase == Trying
    case Awaken(n) => n < |h.callers| && h.callers[n].phase.Sleeping? && h.callers[n].phase.until <= h.clock
    case GiveUp(n) => n < |h.callers|
    case Outside(e) => !e.Acquire? && e.now == h.clock
    case Tick(to) =>
      h.clock < to &&
      (h.callers == [] || exists i :: 0 <= i < |h.callers| && Holds(h.callers[i])) &&
      forall i :: 0 <= i < |h.callers| && Holds(h.callers[i]) ==>
        h.callers[i].phase.Sleeping? && to <= h.callers[i].phase.until
  }

  function Without<T>(s: seq<T>, n: nat): seq<T>
    requires n < |s|
  {
    s[..n] + s[n + 1..]
  }

  /** A caller leaves with the given reply. */
  function Finish(h: Hall, n: nat, pool: Keys, r: Reply): Hall
    requires n < |h.callers|
  {
    var c := h.callers[n];
    h.(pool := pool, callers := Without(h.callers, n),
       done := h.done + [Finished(c.ticket, c.started, c.joined, h.clock, r)])
  }

  function Apply(h: Hall, window: nat, maxWait: nat, m: Move): Hall
    requires Enabled(h, m)
  {
    match m
    case Join(started, exclude) =>
      h.(callers := h.callers + [Caller(h.nextTicket, started, h.clock, started + maxWait, exclude, Queued)],
         nextTicket := h.nextTicket + 1)
    case Enter(n) => h.(callers := h.callers[n := h.callers[n].(phase := Trying)])
    case Try(n) =>
      var c := h.callers[n];
      var (pool, r) := TryAcquire(h.pool, h.clock, window, c.exclude);
      if r.At? && r.at <= c.deadline
      then h.(pool := pool, callers := h.callers[n := c.(phase := Sleeping(r.at))])
      else Finish(h, n, pool, r)
    case Awaken(n) => h.(callers := h.callers[n := h.callers[n].(phase := Trying)])
    case GiveUp(n) => h.(callers := Without(h.callers, n))
    case Outside(e) => h.(pool := Step(h.pool, window, e))
    case Tick(to) => h.(clock := to)
  }

  ghost predicate Playable(h: Hall, window: nat, maxWait: nat, ms: seq<Move>)
    decreases |ms|
  {
    ms == [] || (Enabled(h, ms[0]) && Playable(Apply(h, window, maxWait, ms[0]), window, maxWait, ms[1..]))
  }

  function Play(h: Hall, window: nat, maxWait: nat, ms: seq<Move>): Hall
    requires Playable(h, window, maxWait, ms)
    decreases |ms|
  {
    if ms == [] then h else Play(Apply(h, window, maxWait, ms[0]), window, maxWait, ms[1..])
  }

  // ----- what every step keeps ---------------------------------------------------------------------------

  predicate CallersAscend(callers: seq<Caller>) {
    forall i, j :: 0 <= i < j < |callers| ==>
      callers[i].ticket < callers[j].ticket && callers[i].joined <= callers[j].joined
  }

  predicate DoneAscends(done: seq<Finished>) {
    forall i, j :: 0 <= i < j < |done| ==> done[i].ticket < done[j].ticket
  }

  predicate DoneBefore(done: seq<Finished>, callers: seq<Caller>) {
    forall i, j :: 0 <= i < |done| && 0 <= j < |callers| ==> done[i].ticket < callers[j].ticket
  }

  predicate Issued(h: Hall) {
    && (forall i :: 0 <= i < |h.callers| ==> h.callers[i].ticket < h.nextTicket)
    && (forall i :: 0 <= i < |h.done| ==> h.done[i].ticket < h.nextTicket)
  }

  /** Tickets are handed out, served and left in increasing order. */
  predicate InOrder(h: Hall) {
    CallersAscend(h.callers) && DoneAscends(h.done) && DoneBefore(h.done, h.callers) && Issued(h)
  }

  /** Only the first caller may hold the turnstile. */
  predicate OneHolder(h: Hall) {
    forall i :: 0 < i < |h.callers| ==> !Holds(h.callers[i])
  }

  /** Nobody sleeps past its deadline, and nobody has waited longer than allowed. */
  predicate OnTime(h: Hall, maxWait: nat) {
    && (forall i :: 0 <= i < |h.callers| ==>
          var c := h.callers[i];
          && c.deadline <= c.joined + maxWait
          && c.joined <= h.clock <= c.joined + maxWait
          && (c.phase.Sleeping? ==> h.clock <= c.phase.until <= c.deadline))
    && (forall i :: 0 <= i < |h.done| ==> h.done[i].at <= h.done[i].joined + maxWait)
  }

  lemma OrderKept(h: Hall, window: nat, maxWait: nat, m: Move)
    requires InOrder(h) && OneHolder(h) && Enabled(h, m) && OnTime(h, maxWait)
    ensures InOrder(Apply(h, window, maxWait, m))
  {
    match m
    case Try(n) =>
      var c := h.callers[n];
      var (pool, r) := TryAcquire(h.pool, h.clock, window, c.exclude);
      assert Holds(c);
      FinishInOrder(h, pool, r);
      PhaseInOrder(h.(pool := pool), n, if r.At? then Sleeping(r.at) else Trying);
    case Enter(n) => PhaseInOrder(h, n, Trying);
    case Awaken(n) => PhaseInOrder(h, n, Trying);
    case GiveUp(n) => LeavingInOrder(h, n);
    case _ =>
  }

  lemma PhaseInOrder(h: Hall, n: nat, phase: Phase)
    requires InOrder(h) && n < |h.callers|
    ensures InOrder(h.(callers := h.callers[n := h.callers[n].(phase := phase)]))
  {
  }

  /** The first caller leaves ahead of all others. */
  lemma FinishInOrder(h: Hall, pool: Keys, r: Reply)
    requires InOrder(h) && h.callers != []
    ensures InOrder(Finish(h, 0, pool, r))
  {
    var g := Finish(h, 0, pool, r);
    assert g.callers == h.callers[1..];
    FirstGoesToDone(h.done, h.callers, Last(g.done));
  }

  lemma FirstGoesToDone(done: seq<Finished>, callers: seq<Caller>, f: Finished)
    requires CallersAscend(callers) && DoneAscends(done) && DoneBefore(done, callers)
    requires callers != [] && f.ticket == callers[0].ticket
    ensures CallersAscend(callers[1..]) && DoneAscends(done + [f]) && DoneBefore(done + [f], callers[1..])
  {
  }

  lemma LeavingInOrder(h: Hall, n: nat)
    requires InOrder(h) && n < |h.callers|
    ensures InOrder(h.(callers := Without(h.callers, n)))
  {
    var callers := Without(h.callers, n);
    forall i | 0 <= i < |callers| ensures callers[i] == h.callers[if i < n then i else i + 1] {
    }
  }

  lemma HolderKept(h: Hall, window: nat, maxWait: nat, m: Move)
    requires OneHolder(h) && Enabled(h, m)
    ensures OneHolder(Apply(h, window, maxWait, m))
  {
  }

  lemma TryKeepsTime(h: Hall, window: nat, maxWait: nat, n: nat)
    requires window > 0 && OnTime(h, maxWait) && Enabled(h, Try(n))
    ensures OnTime(Apply(h, window, maxWait, Try(n)), maxWait)
  {
    var c := h.callers[n];
    if TryAcquire(h.pool, h.clock, window, c.exclude).1.At? {
      WaitIsPositive(h.pool, h.clock, window, c.exclude);
    }
  }

  lemma TickKeepsTime(h: Hall, window: nat, maxWait: nat, to: Time)
    requires OnTime(h, maxWait) && InOrder(h) && OneHolder(h) && Enabled(h, Tick(to))
    ensures OnTime(Apply(h, window, maxWait, Tick(to)), maxWait)
  {
    if h.callers != [] {
      var head := h.callers[0];
      assert Holds(head);
      assert to <= head.phase.until <= head.deadline <= head.joined + maxWait;
    }
  }

  lemma PhaseKeepsTime(h: Hall, maxWait: nat, n: nat)
    requires OnTime(h, maxWait) && n < |h.callers|
    ensures OnTime(h.(callers := h.callers[n := h.callers[n].(phase := Trying)]), maxWait)
  {
  }

  lemma LeavingKeepsTime(h: Hall, maxWait: nat, n: nat)
    requires OnTime(h, maxWait) && n < |h.callers|
    ensures OnTime(h.(callers := Without(h.callers, n)), maxWait)
  {
    var callers := Without(h.callers, n);
    forall i | 0 <= i < |callers| ensures callers[i] == h.callers[if i < n then i else i + 1] {
    }
  }

  lemma TimeKept(h: Hall, window: nat, maxWait: nat, m: Move)
    requires window > 0 && OnTime(h, maxWait) && InOrder(h) && OneHolder(h) && Enabled(h, m)
    ensures OnTime(Apply(h, window, maxWait, m), maxWait)
  {
    match m
    case Try(n) => TryKeepsTime(h, window, maxWait, n);
    case Tick(to) => TickKeepsTime(h, window, maxWait, to);
    case Enter(n) => PhaseKeepsTime(h, maxWait, n);
    case Awaken(n) => PhaseKeepsTime(h, maxWait, n);
    case GiveUp(n) => LeavingKeepsTime(h, maxWait, n);
    case _ =>
  }

  predicate Orderly(h: Hall, maxWait: nat) {
    InOrder(h) && OneHolder(h) && OnTime(h, maxWait)
  }

  lemma {:induction false} OrderlyPlay(h: Hall, window: nat, maxWait: nat, ms: seq<Move>)
    requires window > 0 && Orderly(h, maxWait) && Playable(h, window, maxWait, ms)
    ensures Orderly(Play(h, window, maxWait, ms), maxWait)
    decreases |ms|
  {
    if ms != [] {
      OrderKept(h, window, maxWait, ms[0]);
      HolderKept(h, window, maxWait, ms[0]);
      TimeKept(h, window, maxWait, ms[0]);
      OrderlyPlay(Apply(h, window, maxWait, ms[0]), window, maxWait, ms[1..]);
    }
  }

  /** FIFO and bounded queueing, for every run of the protocol from an empty hall. */
  lemma FifoAndBounded(pool: Keys, clock: Time, window: nat, maxWait: nat, ms: seq<Move>)
    requires window > 0
    requires var h := Hall(pool, clock, [], [], 0); Playable(h, window, maxWait, ms)
    ensures var h := Play(Hall(pool, clock, [], [], 0), window, maxWait, ms);
            // callers finish in the order they joined
            && (forall i, j :: 0 <= i < j < |h.done| ==> h.done[i].ticket < h.done[j].ticket)
            && (forall i, j :: 0 <= i < |h.done| && 0 <= j < |h.callers| ==> h.done[i].ticket < h.callers[j].ticket)
            // at most one tries or sleeps at a time
            && (forall i, j :: 0 <= i < |h.callers| && 0 <= j < |h.callers| && Holds(h.callers[i]) && Holds(h.callers[j]) ==> i == j)
            // each has finished by its own join time plus the longest wait
            && (forall i :: 0 <= i < |h.done| ==> h.done[i].at <= h.done[i].joined + maxWait)
            && (forall i :: 0 <= i < |h.callers| ==> h.clock <= h.callers[i].joined + maxWait)
  {
    OrderlyPlay(Hall(pool, clock, [], [], 0), window, maxWait, ms);
  }

  // ----- deadlines -----------------------------------------------------------------------------------------

  /** The longest wait runs from when the request came in, not from when it joined the queue. */
  predicate WaitsFairly(c: Caller, maxWait: nat) {
    c.started <= c.joined && c.deadline == c.started + maxWait &&
    (c.phase.Sleeping? ==> c.phase.until <= c.started + maxWait)
  }

  /** A caller leaves without a key and without unavailability only for a wait that ends past its deadline. */
  predicate LeftRightly(f: Finished, maxWait: nat) {
    f.reply.At? ==> f.started + maxWait < f.reply.at
  }

  predicate DeadlinesKept(h: Hall, maxWait: nat) {
    && (forall i :: 0 <= i < |h.callers| ==> WaitsFairly(h.callers[i], maxWait))
    && (forall i :: 0 <= i < |h.done| ==> LeftRightly(h.done[i], maxWait))
  }

  lemma WithoutKeeps(callers: seq<Caller>, n: nat, maxWait: nat)
    requires n < |callers| && forall i :: 0 <= i < |callers| ==> WaitsFairly(callers[i], maxWait)
    ensures forall i :: 0 <= i < |Without(callers, n)| ==> WaitsFairly(Without(callers, n)[i], maxWait)
  {
    var rest := Without(callers, n);
    forall i | 0 <= i < |rest| ensures rest[i] == callers[if i < n then i else i + 1] {
    }
  }

  lemma DeadlinesStayKept(h: Hall, window: nat, maxWait: nat, m: Move)
    requires DeadlinesKept(h, maxWait) && Enabled(h, m)
    ensures DeadlinesKept(Apply(h, window, maxWait, m), maxWait)
  {
    match m
    case Try(n) => WithoutKeeps(h.callers, n, maxWait);
    case GiveUp(n) => WithoutKeeps(h.callers, n, maxWait);
    case _ =>
  }

  lemma {:induction false} DeadlinesInPlay(h: Hall, window: nat, maxWait: nat, ms: seq<Move>)
    requires DeadlinesKept(h, maxWait) && Playable(h, window, maxWait, ms)
    ensures DeadlinesKept(Play(h, window, maxWait, ms), maxWait)
    decreases |ms|
  {
    if ms != [] {
      DeadlinesStayKept(h, window, maxWait, ms[0]);
      DeadlinesInPlay(Apply(h, window, maxWait, ms[0]), window, maxWait, ms[1..]);
    }
  }

  /**
   In every run of the protocol from an empty hall nobody sleeps past the longest wait after its request
   came in, and whoever is told to come back later could not have been served by then.
   */
  lemma DeadlinesAreKept(pool: Keys, clock: Time, window: nat, maxWait: nat, ms: seq<Move>)
    requires Playable(Hall(pool, clock, [], [], 0), window, maxWait, ms)
    ensures DeadlinesKept(Play(Hall(pool, clock, [], [], 0), window, maxWait, ms), maxWait)
  {
    DeadlinesInPlay(Hall(pool, clock, [], [], 0), window, maxWait, ms);
  }

  /** The protocol never gets stuck: some caller can act at once, or time may pass. */
  lemma NeverStuck(h: Hall, window: nat, maxWait: nat)
    requires Orderly(h, maxWait)
    ensures Enabled(h, Enter(0)) || Enabled(h, Try(0)) || Enabled(h, Awaken(0)) || exists to :: Enabled(h, Tick(to))
  {
    if h.callers == [] {
      assert Enabled(h, Tick(h.clock + 1));
    } else if h.callers[0].phase.Sleeping? && h.clock < h.callers[0].phase.until {
      assert Enabled(h, Tick(h.clock + 1));
    }
  }

  // ----- time must pass ------------------------------------------------------------------------------------

  /** How many moves a caller can still make before the clock does. */
  function MovesLeft(c: Caller, clock: Time): nat {
    match c.phase
    case Queued => 2
    case Trying => 1
    case Sleeping(until) => if until <= clock then 2 else 0
  }

  function AllMovesLeft(callers: seq<Caller>, clock: Time): nat {
    if callers == [] then 0 else AllMovesLeft(Init(callers), clock) + MovesLeft(Last(callers), clock)
  }

  lemma {:induction false} MovesLeftBounded(callers: seq<Caller>, clock: Time)
    ensures AllMovesLeft(callers, clock) <= 2 * |callers|
  {
    if callers != [] {
      MovesLeftBounded(Init(callers), clock);
    }
  }

  lemma {:induction false} MovesLeftUpdate(callers: seq<Caller>, n: nat, c: Caller, clock: Time)
    requires n < |callers|
    ensures AllMovesLeft(callers[n := c], clock) + MovesLeft(callers[n], clock) ==
            AllMovesLeft(callers, clock) + MovesLeft(c, clock)
  {
    var changed := callers[n := c];
    if n == |callers| - 1 {
      assert Init(changed) == Init(callers);
    } else {
      assert Init(changed) == Init(callers)[n := c];
      MovesLeftUpdate(Init(callers), n, c, clock);
    }
  }

  lemma {:induction false} MovesLeftWithout(callers: seq<Caller>, n: nat, clock: Time)
    requires n < |callers|
    ensures AllMovesLeft(Without(callers, n), clock) + MovesLeft(callers[n], clock) == AllMovesLeft(callers, clock)
  {
    if n == |callers| - 1 {
      assert Without(callers, n) == Init(callers);
    } else {
      assert Init(Without(callers, n)) == Without(Init(callers), n);
      MovesLeftWithout(Init(callers), n, clock);
    }
  }

  /** Moves in which a caller takes the turnstile, tries, or wakes up. */
  predicate Working(m: Move) {
    m.Enter? || m.Try? || m.Awaken?
  }

  function Workings(ms: seq<Move>): nat {
    if ms == [] then 0 else (if Working(ms[0]) then 1 else 0) + Workings(ms[1..])
  }

  function Joins(ms: seq<Move>): nat {
    if ms == [] then 0 else (if ms[0].Join? then 1 else 0) + Joins(ms[1..])
  }

  /** A caller that keeps the turnstile sleeps into the future. */
  lemma TryUsesMove(h: Hall, window: nat, maxWait: nat, n: nat)
    requires window > 0 && Enabled(h, Try(n))
    ensures var g := Apply(h, window, maxWait, Try(n));
            AllMovesLeft(g.callers, g.clock) + 1 <= AllMovesLeft(h.callers, h.clock)
  {
    var c := h.callers[n];
    var r := TryAcquire(h.pool, h.clock, window, c.exclude).1;
    MovesLeftWithout(h.callers, n, h.clock);
    if r.At? {
      WaitIsPositive(h.pool, h.clock, window, c.exclude);
      MovesLeftUpdate(h.callers, n, c.(phase := Sleeping(r.at)), h.clock);
    }
  }

  lemma MoveUsesMove(h: Hall, window: nat, maxWait: nat, m: Move)
    requires window > 0 && Enabled(h, m) && !m.Tick?
    ensures var g := Apply(h, window, maxWait, m);
            AllMovesLeft(g.callers, g.clock) + (if Working(m) then 1 else 0) <=
            AllMovesLeft(h.callers, h.clock) + (if m.Join? then 2 else 0)
  {
    match m
    case Join(_, _) => assert Init(Apply(h, window, maxWait, m).callers) == h.callers;
    case Enter(n) => MovesLeftUpdate(h.callers, n, h.callers[n].(phase := Trying), h.clock);
    case Try(n) => TryUsesMove(h, window, maxWait, n);
    case Awaken(n) => MovesLeftUpdate(h.callers, n, h.callers[n].(phase := Trying), h.clock);
    case GiveUp(n) => MovesLeftWithout(h.callers, n, h.clock);
    case Outside(_) =>
  }

  lemma {:induction false} MovesRunOut(h: Hall, window: nat, maxWait: nat, ms: seq<Move>)
    requires window > 0 && Playable(h, window, maxWait, ms) && forall n :: 0 <= n < |ms| ==> !ms[n].Tick?
    ensures Workings(ms) <= AllMovesLeft(h.callers, h.clock) + 2 * Joins(ms)
    decreases |ms|
  {
    if ms != [] {
      MoveUsesMove(h, window, maxWait, ms[0]);
      assert forall n :: 0 <= n < |ms[1..]| ==> ms[1..][n] == ms[n + 1];
      MovesRunOut(Apply(h, window, maxWait, ms[0]), window, maxWait, ms[1..]);
    }
  }

  /**
   Nothing goes on for ever at one instant: between two movements of the clock the callers present at
   the first, and those that join, take the turnstile, try or wake up at most twice each on average.
   With `NeverStuck` time has to pass, and by `FifoAndBounded` every caller is served or rejected in it.
   */
  lemma TimeMustPass(h: Hall, window: nat, maxWait: nat, ms: seq<Move>)
    requires window > 0 && Playable(h, window, maxWait, ms) && forall n :: 0 <= n < |ms| ==> !ms[n].Tick?
    ensures Workings(ms) <= 2 * (|h.callers| + Joins(ms))
  {
    MovesRunOut(h, window, maxWait, ms);
    MovesLeftBounded(h.callers, h.clock);
  }

  // ----- the protocol runs the pool ------------------------------------------------------------------------

  /** The pool step that a move takes, if any. */
  function PoolEvents(h: Hall, m: Move): seq<Event>
    requires Enabled(h, m)
  {
    match m
    case Try(n) => [Acquire(h.clock, h.callers[n].exclude)]
    case Outside(e) => [e]
    case _ => []
  }

  lemma MoveStepsPool(h: Hall, window: nat, maxWait: nat, m: Move, es: seq<Event>)
    requires Enabled(h, m)
    ensures Run(h.pool, window, PoolEvents(h, m) + es) == Run(Apply(h, window, maxWait, m).pool, window, es)
  {
    match m
    case Try(n) => RunFirst(h.pool, window, Acquire(h.clock, h.callers[n].exclude), es);
    case Outside(e) => RunFirst(h.pool, window, e, es);
    case _ => assert PoolEvents(h, m) + es == es;
  }

  /** Times that never go back and stay within the given span. */
  ghost predicate Spans(es: seq<Event>, from: Time) {
    Timely(es) && forall i :: 0 <= i < |es| ==> from <= es[i].now
  }

  /**
   Whatever the protocol does to the pool is a timely run of pool steps, so everything proved about
   such runs holds behind the turnstile.
   */
  lemma {:induction false} ProtocolRunsPool(h: Hall, window: nat, maxWait: nat, ms: seq<Move>) returns (es: seq<Event>)
    requires Playable(h, window, maxWait, ms)
    ensures Play(h, window, maxWait, ms).pool == Run(h.pool, window, es) && Spans(es, h.clock)
    decreases |ms|
  {
    if ms == [] {
      es := [];
    } else {
      var next := Apply(h, window, maxWait, ms[0]);
      var rest := ProtocolRunsPool(next, window, maxWait, ms[1..]);
      es := PoolEvents(h, ms[0]) + rest;
      MoveStepsPool(h, window, maxWait, ms[0], rest);
      assert h.clock <= next.clock;
      EventsSpan(PoolEvents(h, ms[0]), rest, h.clock, next.clock);
    }
  }

  lemma EventsSpan(first: seq<Event>, rest: seq<Event>, from: Time, later: Time)
    requires |first| <= 1 && (forall i :: 0 <= i < |first| ==> first[i].now == from)
    requires from <= later && Spans(rest, later)
    ensures Spans(first + rest, from)
  {
  }
}

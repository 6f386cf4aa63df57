# A verified model of the brave-rotator key pool

brave-rotator is a reverse proxy that spreads requests over several Brave Search API keys. This
project models its key pool (`src/pool.rs`) as a timed state machine, together with the FIFO
turnstile and wait loop around it, the retry loop in `src/proxy.rs` that drives it, the header
parser in `src/ratelimit.rs`, the token list in `src/config.rs`, and the Brave simulator
(`scripts/mock_brave.py`) as the environment it has to satisfy. It proves what the pool promises
over whole runs, not only what single calls do.

## How it is laid out

- `Prelude`, `RateLimit`, `Text`, `HeaderText`: optional values, machine integers, time in
  nanoseconds, the header parser, and what is printed into headers.
- `KeySpec`, `PoolSpec`: one key and the whole pool as values, with every operation as a function.
- `KeyStates.KeyState`, `Pools.Pool`, `Mock.Server`: the mutable records of the source as classes.
  Every method is proved against the function that specifies it.
- `Selection`: what a selection means, without reference to the scan that computes it. A reply is
  right for exactly one reason, and the scan gives the right one.
- `KeyRuns`: every step of the pool acts on a given key as a wake-up, a lease or a digested
  outcome. Safety of single keys is proved on legal sequences of such acts and holds for every run
  of the pool by `KeyRuns.RunActsOnKey`.
- `Known`: every field an outcome teaches, as a function of the outcomes before.
- `Window`, `Parks`, `Holds`, `Probes`, `Backoff`, `Tallies`, `Counters`, `Strikes`, `Accounts`, `Discipline`: safety
  of single keys.
- `Ranking`, `Waiting`, `Turnstile`, `Fairness`, `Capacity`, `Totals`, `Transparency`, `SnapshotRuns`: what callers of
  the pool observe.
- `Pacing`, `Monthly`: the pool and the simulator together. `Simulator`: the simulator by what it has answered.
- `Retry`, `Course`, `Proxy`, `Config`: many requests over one pool, one request's course and its loop, the
  token list.
- `Scenarios`: runs from a new pool on which the code does not do what its documentation says.
- `Pruning`, `Counting`: small facts about the deque and about finite sets.

Step times never go back: the source reads the clock before it takes the lock, and two steps whose
readings are swapped by the lock are taken in the order of their readings. Mutex-protected steps are
atomic, the turnstile is FIFO, and a sleep never ends early.

## Where the code and its documentation differ

The model follows the code. Each item names a run from a new pool that shows the difference, and the
theorem that says exactly when the documentation is right.

- `src/pool.rs:205-211` speaks of successes "this cycle", but the counter behind it is never set back. It
  counts this cycle if and only if no success came before the last expiry of the monthly park
  (`Accounts.CountsThisCycleIff`). A later cycle therefore holds only what earlier ones left of the cap, and a
  single success once they used it up (`Accounts.LaterCyclesAreCut`): a key capped at two a month gets two in
  its first month and one in its second (`Scenarios.SecondMonthHoldsOne`).
- `README.md:35` and `src/pool.rs:49` promise one live probe after a park. Nothing enforces it. Before the
  outcome of the probe is recorded another request of the key can be leased if and only if the per-second
  limit is above one, a whole window has passed since the probe, or an older request of the key is still
  open, whose late answer may raise the limit (`Probes.SecondProbeIff`). With a limit of one,
  `Scenarios.TwoLiveProbes` is a run of the second kind and `Scenarios.LateAnswerRaisesLimit` one of the third;
  an upstream timeout of 15 s leaves ample time for the second, the third takes a timeout longer than the park.
- `README.md:24-26` says a spent key is parked until the reported reset. A late response to another
  request of the key can replace that park: `Scenarios.LateRejectionCutsPark` is such a run, and
  `Parks.MonthlyParkIsKeptIff` says exactly when the park is kept. The reported reset is also cut to
  whole seconds by the simulator: `Monthly.ParkReachesResetIff` says when the park reaches the reset.
- `README.md:27` says keys without a monthly cap are never parked. The check looks at the limit reported
  beside the quota, not at the limit learned: a key is parked as exhausted if and only if a success or 429 of
  it reports nothing remaining without reporting a limit of 0 alongside (`Parks.ExhaustedIffTold`, for keys
  without a self-imposed cap; a capped key is also parked when it uses up its cap).
  `Scenarios.UnlimitedIsExhausted` is a run in which a key known to be unlimited is parked.
- `README.md:35-36` speaks of three consecutive failures. Other client errors and 429s in between do not
  interrupt the count; only a success or a disable does (`Counters.PoolCountersRefineHistory`). The count
  says how many failures came in a row if and only if none of them is followed by anything else
  (`Counters.ConsecutiveIff`). The answers 500, 404, 500, 500 disable a key
  (`Scenarios.InterruptedFailuresDisable`).
- `README.md:28-29` says a 429 holds the key for the time given in its reset or retry header. The hold set is
  exactly that time if and only if some X-RateLimit header is there and the time lies between one and sixty
  seconds, or there is none and the time is two seconds (`Holds.HoldIsGivenIff`): a key told to wait for an hour
  is leased again after a minute (`Scenarios.LongResetIsCut`), one told by nothing but `Retry-After` to wait for
  thirty seconds after two (`Scenarios.RetryAfterAloneIsIgnored`). The next per-second 429 then replaces the
  hold, even by a shorter one: `Scenarios.LaterThrottleCutsHold` is such a run. The key stays held for the time
  given if and only if the hold set is as long, or a park is, and every outcome of the key recorded meanwhile
  leaves it barred as long (`Holds.HeldAsGivenIff`); of these only later per-second 429s can cut a hold
  (`Holds.OnlyThrottlesCut`).
- `README.md:34-36` gives two series of parks, for rejected tokens and for failures. The code counts disables of
  any cause together, so a park is as long as its series says if and only if all disables since the last success
  share its cause, or the series has reached its maximum (`Strikes.BackoffIsDocumentedIff`). In
  `Scenarios.RejectionDoublesFailurePark` the first failures after a 401 park for a minute.
- Snapshots leave no trace on later attempts, but an outcome recorded for a key whose monthly park has ended
  unnoticed can tell whether a snapshot came before it. `SnapshotRuns.LookMattersIff` says exactly for which
  outcomes it cannot, and whole runs are transparent when all outcomes are of that kind
  (`SnapshotRuns.SnapshotsLeaveNoTrace`). In `Scenarios.LateResponseSeesSnapshot` a snapshot changes which key
  gets the next lease.

## Model

| member | source | states |
|---|---|---|
| `KeyStates.KeyState.constructor` | src/pool.rs:101-130 | A new key is healthy and unused, with its limit raised to at least one. |
| `KeyStates.KeyState.Refresh` | src/pool.rs:133-153 | Ends a park whose time is over and forgets the quota of an expired monthly park, nothing else. |
| `KeyStates.KeyState.PruneWindow` | src/pool.rs:155-163 | Drops from the front of the deque exactly the sends that have left the window. |
| `KeyStates.KeyState.Availability` | src/pool.rs:166-184 | Free, or the instant announced by park, hold or oldest send; an elapsed hold and elapsed sends are gone afterwards. |
| `KeyStates.KeyState.LearnLimits` | src/pool.rs:237-272 | Whole new state after learning from rate-limit headers, limits of 0 ignored and rates capped. |
| `KeyStates.KeyState.Disable` | src/pool.rs:274-291 | Whole new state: one more (saturating) strike, counters restarted, parked with exponential backoff. |
| `KeyStates.KeyState.Exhaust` | src/pool.rs:293-310 | Whole new state: parked until the reported reset or the fallback. |
| `KeyStates.KeyState.Fail` | src/pool.rs:312-326 | Whole new state: one more failure, the third one disables. |
| `KeyStates.KeyState.Digest` | src/pool.rs:551-652 | Whole new state and verdict for every status and for transport errors. |
| `KeyStates.KeyState.DigestSuccess` | src/pool.rs:573-597 | Whole new state after a 2xx, including the proactive monthly park and the self-imposed cap. |
| `KeyStates.KeyState.Digest429` | src/pool.rs:598-630 | Whole new state after a 429: monthly park, hold, or disable after unexplained ones. |
| `KeyStates.KeyState.Reserve` | src/pool.rs:472-475 | A lease records its send, its use and its request. |
| `Pools.Pool.constructor` | src/pool.rs:396-410 | One new key per token, caps assigned by position, missing ones absent. |
| `Pools.Pool.RefreshKeys` | src/pool.rs:431-433 | Every key is refreshed, none otherwise changed. |
| `Pools.Pool.Consider` | src/pool.rs:448-459 | One key weighed against the best so far; only that key is settled. |
| `Pools.Pool.PickKey` | src/pool.rs:438-462 | The loop computes the best free key, the earliest instant and the health flag, and settles exactly the considered keys. |
| `Pools.Pool.TryAcquire` | src/pool.rs:428-512 | Reply and pool afterwards, including the fallback scan over excluded keys. |
| `Pools.Pool.Acquire` | src/pool.rs:515-541 | The whole wait: attempts made, their bound, what the result means, and that a saturated reply lost nothing the pool could have served by the deadline. |
| `Pools.Pool.Record` | src/pool.rs:544-653 | Digests the outcome on the indexed key only; an unknown index changes nothing. |
| `Pools.Pool.Snapshot` | src/pool.rs:655-741 | The pool afterwards, the summed numbers, and key by key the state, the instant it lasts until, the window, the month, the ages and the statistics. |
| `Selection.ReplyIffEntitled` | src/pool.rs:435-510 | A reply is given if and only if the keys in play entitle the caller to it: least recently used free key, then most quota, then lowest index; earliest instant; or unavailable. |
| `Ranking.WinnerIffForemost` | src/pool.rs:219-229 | In every run from a new pool a key is leased if and only if it could be and comes before every other that could, by the histories: last lease, then what its successes leave of its cap or what it was last told is left, then index. |
| `Ranking.UseIsTold` | src/pool.rs:205-217 | What counts as used of a month is the successes of a capped key, otherwise what the last told limit and remainder leave. |
| `Scenarios.LargerCapGoesFirst` | src/pool.rs:435-456 | Of two new keys with caps of ten and a thousand the second is leased first. |
| `Selection.OneScan` | src/pool.rs:464-468 | The two scans amount to one scan of the keys in play. |
| `Selection.KeyAfterAcquire` | src/pool.rs:470-481 | Only the leased key is charged; all others are at most refreshed and settled. |
| `Known.DigestLimits` | src/pool.rs:237-251 | What an outcome teaches about monthly limit, rate and whether limits are known, and when the key last answered. |
| `Known.KeysKnowWhatTheyWereTold` | src/pool.rs:237-310 | In every run from a new pool the limit, rate, remainder, reset and last times a key holds are the ones the responses to it told last. |
| `KeyRuns.RunActsOnKey` | src/pool.rs:428-666 | Every run of the pool is a legal act sequence for each key, which is leased only while free. |
| `Window.SlidingWindowSafety` | src/pool.rs:155-184 | In every run, any half-open window holds at most as many sends of a key as the limit in force at the last of them, however limits move. |
| `Window.DequeRefinesHistory` | src/pool.rs:155-193 | The pruned deque decides availability exactly as the full send history would, is a suffix of it, and its length survives the 32-bit cast. |
| `Window.HistoryInvariant` | src/pool.rs:471-475 | Spacing of the history and faithfulness of the deque are kept by every act. |
| `Waiting.HonestWait` | src/pool.rs:464-482 | A wait ends in the future, and every attempt before it, with snapshots and attempts in between, fails with the same instant. |
| `Waiting.UnavailableIffAllParked` | src/pool.rs:483-510 | Unavailable exactly when every key, excluded ones included, is parked; the instant given is the first expiry. |
| `Waiting.NoLeaseBeforeExpiry` | src/pool.rs:464-510 | Until that instant no caller with any exclusion list gets a lease, whatever looks at the pool. |
| `Waiting.WakeUpMakesProgress` | src/pool.rs:520-540 | Each wake-up strictly lowers the number of parks, holds and queued sends, also when the scan moves between fallback and first choice. |
| `Waiting.FailedAttemptsAreBounded` | src/pool.rs:520-540 | A waiter fails at most as often as there were parks, holds and queued sends when it came, however late it wakes and whatever snapshots are taken in between. |
| `Waiting.StillNothing` | src/pool.rs:525-530 | A rejected waiter could not have been served by its deadline. |
| `Turnstile.FifoAndBounded` | src/pool.rs:515-541 | Callers finish in join order, at most one tries or sleeps, and each finishes by its join time plus the longest wait, even with older deadlines and callers that give up. |
| `Turnstile.DeadlinesAreKept` | src/pool.rs:525-531 | In every play nobody sleeps past the longest wait after its request came in, and whoever is told to come back later could not have been served by then. |
| `Turnstile.ProtocolRunsPool` | src/pool.rs:515-541 | Whatever the protocol does to the pool is a timely run of pool steps, so all results about runs hold behind the turnstile. |
| `Turnstile.NeverStuck` | src/pool.rs:515-541 | In every orderly state a caller can act or time may pass. |
| `Turnstile.TimeMustPass` | src/pool.rs:515-541 | Between two movements of the clock the callers present and joining take the turnstile, try or wake up at most twice each, so time does pass. |
| `Capacity.AdvertisedCapacityIsExact` | src/pool.rs:684-688 | After a snapshot reports s slots, exactly the first s consecutive attempts are granted. |
| `Totals.ReportIsTrue` | src/pool.rs:684-706 | Each number of the report is what it counts: keys up, their limits and free slots, unlimited ones, monthly totals over exactly the limited keys that know them, and over every run from a new pool all leases and outcomes by class. |
| `Totals.KeyReportIsTrue` | src/pool.rs:708-741 | In every run from a new pool the report on a key tells its history, hides the month of an unlimited plan, and gives the next slot in whole milliseconds. |
| `Capacity.KeyReportIsHonest` | src/pool.rs:667-720 | A key is reported ok exactly when it could be leased, disabled, exhausted, held or busy exactly when it is, and until the instant a waiter would be told. |
| `Capacity.ProbesAfterPark` | src/pool.rs:133-153 | The moment a park is over exactly as many probes pass as the limit leaves beside the sends still in the window, none while a hold is pending. |
| `Probes.LeasedAgainIff` | src/pool.rs:166-184 | After any lease, another one with nothing heard in between is possible exactly when the limit leaves room beside the sends in the window. |
| `Probes.SecondProbeIff` | src/pool.rs:49 | In every run from an unused pool, after a disabled key's probe and before its outcome is recorded, the key can be leased again exactly when the limit is above one, a window has passed, or an older request of the key is still open. |
| `Scenarios.LateAnswerRaisesLimit` | src/pool.rs:237-240 | A run in which the late answer to an older request makes room beside an unanswered probe. |
| `Capacity.LearnedRateIsUsed` | src/pool.rs:237-240 | After any success reporting a rate, the window takes exactly that many sends, capped at 1000, less those already in it; none while the key is parked or held. |
| `Capacity.HealthReportIsHonest` | src/proxy.rs:443-450 | No key counts as healthy exactly when every caller would be turned away. |
| `Transparency.SnapshotIsTransparent` | src/pool.rs:655-666 | A snapshot before an attempt changes neither its reply nor, in effect, the pool after it. |
| `SnapshotRuns.DigestPeers` | src/pool.rs:544-653 | Keys that differ only in health, month, and elapsed holds and sends still do so after the same outcome. |
| `SnapshotRuns.LookMattersIff` | src/pool.rs:237-310 | Looking at a key first makes no difference to an outcome if and only if no monthly park has lapsed unnoticed, or the outcome spends the month, or disables and reports all that is stored, or neither disables nor reports. |
| `SnapshotRuns.SnapshotsLeaveNoTrace` | src/pool.rs:655-666 | Dropping all snapshots from a run keeps all replies and, in effect, the pool, as long as each outcome is of that kind for the key it meets in the run without snapshots. |
| `Scenarios.LateResponseSeesSnapshot` | src/pool.rs:244-246 | A run in which, without that condition, a snapshot changes which key the next lease goes to. |
| `Fairness.EligibleKeyIsServed` | src/pool.rs:435-462 | A key that stays eligible is leased within every n consecutive leases, unless it was last leased at the very instant of the first of them. |
| `Fairness.RoundRobin` | src/pool.rs:435-475 | While all n keys stay eligible, lease m + n goes to the same key as lease m, whatever quotas are learned, if the clock moved on before and after lease m. |
| `Parks.LeaseOutlivesPark` | src/pool.rs:133-153 | In every run a lease comes no earlier than the expiry of the latest park of its key. |
| `Parks.DigestNeverUnparks` | src/pool.rs:544-653 | Recording an outcome never ends a park. |
| `Parks.DigestPark` | src/pool.rs:551-650 | Which park, if any, an outcome installs, and until when. |
| `Parks.MonthlyParkIsKeptIff` | README.md:24-26 | Exactly when a late outcome keeps a spent key parked as long as it was. |
| `Scenarios.LateRejectionCutsPark` | src/pool.rs:290 | A run in which it does not: a late 401 turns an hour's park into five minutes. |
| `Parks.ExhaustedIffTold` | README.md:27 | In every run a key without self-imposed cap is parked as exhausted exactly when a success or 429 of it reports nothing remaining and no limit of 0 alongside. |
| `Scenarios.UnlimitedIsExhausted` | src/pool.rs:588 | A run in which a key known to be unlimited is parked for six hours. |
| `Holds.LeaseOutlivesHold` | src/pool.rs:171-176 | In every run a lease comes no earlier than the end of the hold of its key's latest per-second 429. |
| `Holds.HoldIsGivenIff` | README.md:28-29 | Exactly when the hold set by a 429, from its headers on, is the time they give, and when it is at least as long. |
| `Holds.HeldAsGivenIff` | README.md:28-29 | Over every run after a 429, exactly when its key stays held for the time given. |
| `Holds.OnlyThrottlesCut` | src/pool.rs:604-614 | A hold is cut short exactly by a later per-second 429 that neither holds nor parks as long. |
| `Holds.StaysBarredIff` | src/pool.rs:166-176 | A key is barred at every moment up to an instant exactly when no bar runs out before it without an outcome of the key having come first. |
| `Scenarios.LaterThrottleCutsHold` | src/pool.rs:606 | A run in which a second 429 turns a hold of a minute into one of a second. |
| `Scenarios.RetryAfterAloneIsIgnored` | src/pool.rs:613-614 | A run in which a retry time without X-RateLimit headers is not honoured. |
| `Scenarios.LongResetIsCut` | src/pool.rs:604-606 | A run in which a key told to wait for an hour is leased after a minute. |
| `Parks.ParkTimeNeverOverflows` | src/pool.rs:275-278 | Strike n parks for min(base * 2^min(n-1,16), max); no product saturates. |
| `Parks.FailureBackoff` | src/pool.rs:275-277 | Strike n parks a failing key for 30, 60, 120, 240, 480 seconds, then ten minutes each. |
| `Strikes.BackoffIsDocumentedIff` | README.md:34-36 | In every run a disable parks by the number of disables of any cause since the last success; that is its own cause's documented time exactly when all share the cause or the series is at its maximum. |
| `Scenarios.RejectionDoublesFailurePark` | src/pool.rs:275 | A run in which a 401 doubles the park of the first failures. |
| `Scenarios.TwoLiveProbes` | src/pool.rs:49 | A run in which a key with a limit of one is probed twice at once. |
| `Backoff.ProbesAreRare` | src/pool.rs:631-637 | A key always answered 401 or 403 gets lease n no earlier than 4500 + 3600 (n - 5) seconds after its first rejection, for n from 5. |
| `Backoff.ProbesAreBounded` | src/pool.rs:274-291 | So its probes within a given span are bounded. |
| `Counters.PoolCountersRefineHistory` | src/pool.rs:573-648 | Failures, 429s, strikes and the time of the first strike agree with the outcome history; failures never exceed two between steps. |
| `Counters.ConsecutiveIff` | src/pool.rs:312-319 | The failure count says how many failures came in a row exactly when none of them is followed by anything else. |
| `Scenarios.InterruptedFailuresDisable` | src/pool.rs:638-642 | A run in which 500, 404, 500, 500 disable a key. |
| `Scenarios.FifthUnexplainedDisables` | src/pool.rs:613-626 | A run in which four 429s without rate-limit headers leave a key unparked and the fifth parks it for five minutes. |
| `Tallies.VerdictIff` | src/pool.rs:551-650 | Another key is tried exactly after a transport error, a 401, 403, 429 or 5xx; exactly a 2xx is a success. |
| `Accounts.OutcomeStaysWithItsKey` | src/pool.rs:543-651 | An outcome changes no key but its own; one for a key that does not exist changes nothing and is not retried. |
| `Tallies.DigestCounts` | src/pool.rs:551-650 | Counting depends only on what was counted before and on the outcome. |
| `Totals.KeyStatsAreCounted` | src/pool.rs:551-650 | In every run the statistics of a key count its leases and, class by class, its outcomes. |
| `Accounts.AccountsBalance` | src/pool.rs:475 | Requests equal leases, and every outcome is counted once under its class or not at all. |
| `Accounts.CapIsKept` | src/pool.rs:590-595 | At most max(cap,1) successes between expiries of the monthly park, and one more per expiry over a whole life. |
| `Accounts.CountsThisCycleIff` | src/pool.rs:205-211 | The counter held against the cap counts this cycle exactly when no success came before the last expiry of the monthly park. |
| `Accounts.LaterCyclesAreCut` | src/pool.rs:590-595 | A cycle holds at most what earlier ones left of the cap, and at most one success once they used it up. |
| `Scenarios.SecondMonthHoldsOne` | src/pool.rs:590-595 | A run in which a key capped at two a month gets one success in its second month. |
| `Mock.Server.Handle` | scripts/mock_brave.py:67-103 | Answer and record of the served key; every other key untouched. |
| `Mock.Server.PopElapsed` | scripts/mock_brave.py:90-92 | Drops exactly the sends that left the server's window. |
| `Mock.Server.CheckLimits` | scripts/mock_brave.py:93-101 | Monthly check first, then the per-second check, then the success is counted. |
| `Simulator.StatusIsDue` | scripts/mock_brave.py:77-101 | Every call is answered as the answers before it demand: 401, 500, 429 once the month or the last second is full, otherwise 200. |
| `Simulator.SecondsAreLimited` | scripts/mock_brave.py:90-99 | No half-open second holds more answers 200 than the rate allows. |
| `Simulator.UsedIsGranted` | scripts/mock_brave.py:99-101 | The use counted is the number of answers 200. |
| `Simulator.AnswersTellHistory` | scripts/mock_brave.py:49-59 | The proxy hears from the printed headers what the answers given so far amount to. |
| `Mock.AnswerIsUnderstood` | scripts/mock_brave.py:49-59 | The proxy parses from the printed headers exactly the numbers meant; a reset in the past reads as none. |
| `Pacing.NoSecondLimitEver` | scripts/mock_brave.py:90-99 | With bounded jitter and a limit within the server's, no run takes the server's per-second 429 branch, even when requests overtake each other. |
| `Simulator.NoSecondLimitAnswered` | scripts/mock_brave.py:93-101 | Under the same premises an arrival is answered 429 only once the month is used up by answers 200. |
| `Pacing.ConfiguredWithinRate` | src/pool.rs:237-240 | A pool configured and taught no more than the server's rate meets that premise. |
| `Monthly.NoMonthlyLimitBeforeReset` | src/pool.rs:587-589 | With one request outstanding and all answers delivered, a monthly 429 happens at most one second before the reset or later. |
| `Monthly.ParkReachesResetIff` | scripts/mock_brave.py:58 | Exactly when the park reaches the reset itself, despite the cut to whole seconds. |
| `Text.ParseIff` | src/ratelimit.rs:84-98 | A text is read as a 64-bit number exactly if it writes it: an optional plus sign, zeros, and the number in decimal. |
| `HeaderText.NumbersRoundTrip` | src/ratelimit.rs:84-98 | Every printed pair of 64-bit numbers is parsed back. |
| `HeaderText.DecoratedPairRoundTrip` | src/ratelimit.rs:84-98 | So it is with any spaces around and parameters behind the values. |
| `HeaderText.PolicyRoundTrip` | src/ratelimit.rs:100-112 | The printed policy yields window sizes to one parser and limits to the other. |
| `HeaderText.FirstWindowCounts` | src/ratelimit.rs:100-112 | Of several window parameters the first one is read, whatever follows it. |
| `HeaderText.UnknownMonthRoundTrip` | src/proxy.rs:384-390 | A question mark gives no month. |
| `Proxy.BuildHeaders` | src/proxy.rs:372-414 | Every field of the response: the pool-wide values in place of the key's, nothing of the stripped ones, all others with their values in order. |
| `Proxy.KeyLimitsAreHidden` | src/proxy.rs:55-57 | Of all rate-limit fields only two can reach the client, both the pool's own. |
| `Proxy.LimitHeaderMeans` | src/proxy.rs:391-395 | Under the limit header a client reads capacity and monthly limit. |
| `Proxy.RemainingHeaderMeans` | src/proxy.rs:396-404 | Under the remaining header it reads free slots and what is left of the month. |
| `Proxy.RotatorHeadersMean` | src/proxy.rs:405-406 | Under the proxy's own names it reads the key and the number of attempts. |
| `Proxy.PoolHeaderRoundTrip` | src/proxy.rs:384-404 | The printed pool headers are parsed back to the summary. |
| `Proxy.Handle` | src/proxy.rs:228-369 | The loop is a play of the retry protocol by one request, under its deadline and with upstream's outcomes in order; it gives the right reply for the right reason by the statuses heard, a refusal with the retry time of the result it comes from, reuses keys only while all others are parked, and counts one success exactly when the client gets it. |
| `Course.WholeWait` | src/proxy.rs:238-246 | A whole wait for a key is a stretch of the protocol's attempts, and its result is what becomes of the request. |
| `Retry.ClientsGetTheRightReply` | src/proxy.rs:237-361 | In every play, each outcome before the last asked for another key; one that does reaches the client only when all attempts are used, any other at once. |
| `Retry.AttemptsAreBounded` | src/proxy.rs:230 | A request makes two to five attempts, as many as there are keys between these bounds. |
| `Retry.RetryConservesFromStart` | src/proxy.rs:230-325 | In every interleaving, leases are answered, in flight or lost, per key, and summed successes equal the requests answered 2xx. |
| `Retry.BalanceIsKept` | src/pool.rs:551-650 | The balance of each key survives every step of every request. |
| `Retry.ReuseOnlyWhenOthersParked` | src/pool.rs:464-468 | In every play a request is given a key it has tried only at a moment when every key it has not tried is parked. |
| `Retry.FreshKeyWhenNoneParked` | src/proxy.rs:230-246 | In every play over two keys or more, a request that finds no key parked whenever it is given one gets no key twice. |
| `Config.ReadKeys` | src/config.rs:43-61 | Distinct non-empty tokens in order of first occurrence; keys plus duplicates are the tokens given; none is an error. |
| `Config.PiecesAreSolid` | src/config.rs:45 | No piece holds a comma, a semicolon or a space. |
| `Config.PiecesRejoin` | src/config.rs:45 | The pieces with the separators between them are the raw text. |
| `Config.TokensAreThePieces` | src/config.rs:46-49 | The tokens given are the pieces that are not empty; trimming changes nothing. |
| `Config.TokenWindowSafety` | src/config.rs:50-54 | Because tokens differ, window safety of keys is window safety of tokens. |

## Left out

- HTTP transport, TLS, body limits and timeouts (`src/upstream.rs`): an outcome is any status with any rate-limit information, or a transport error, after any delay.
- Threads and lock internals: steps are atomic and step times do not go back.
- Overflow of instants: a reported reset so far ahead that adding it to the clock overflows makes the source abort; the model's time is unbounded.
- Statistics and monthly totals are unbounded here; the source's 64-bit counters would take centuries to wrap. The 32-bit count of 429s wraps as in a release build.
- Logging, labels, reason texts, last status and last error: they decide nothing.
- `Pools.Pool.Snapshot`: no labels, reason texts and printed times, and no last status and last error.
- Server start, shutdown, reporter, client authorization, request headers, JSON bodies and hints: easy members with no bearing on the pool. What counts as a header value is left to the caller of `Proxy.BuildHeaders`.
- The remaining configuration options and the parsing of monthly limits: plain reading of settings.
- HTTP-date values of `Retry-After` (section 10.2.3 of RFC 9110): the code reads whole seconds only, and so does the model.
- `Pools.Pool.Acquire`: nothing else uses the pool while this method sleeps; outcomes and snapshots that arrive meanwhile are covered by the `Turnstile` protocol and by `Waiting.FailedAttemptsAreBounded`.
- `Proxy.Handle`: one request by itself; interleaved requests are covered by the `Retry` protocol, of which it is a play.
- `Probes.SecondProbeIff`: windows above thirty seconds, the shortest backoff; `Probes.LeasedAgainIff` covers them.
- `Monthly.NoMonthlyLimitBeforeReset`: the pool and the simulator share one clock, and the key's other pool steps appear as wake-ups of the key.
- The simulator's latency and its count of answers per status, and the body texts of its answers.

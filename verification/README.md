# A verified model of the `breaker` circuit breaker

`breaker` guards a fallible operation with a three-state circuit (Closed, Open, HalfOpen). This project models its
three hard layers in Dafny and proves what they promise, over every run and every interleaving.

| file | models |
|---|---|
| `Prelude.dfy` | bounded `u32`, durations, samples; products with named laws |
| `Config.dfy`, `Backoff.dfy`, `Xorshift.dfy` | `src/config.rs`: `build`, the Open-state waits, the jitter generator |
| `Outcomes.dfy`, `Window.dfy` | plain definitions over outcome histories, and the ring-buffer window of `src/state.rs` |
| `Machine.dfy` | each locked operation of `src/state.rs` on values, and runs of them |
| `StateMachine.dfy` | the state machine of `src/state.rs` as a class with in-place fields, proved against `Machine.dfy` |
| `Reference.dfy` | the breaker as documented, kept the plain way (whole outcome history, trips, last trip's time), which `Machine.dfy` refines |
| `LazyTimer.dfy`, `Amnesia.dfy`, `Accounting.dfy`, `Waits.dfy`, `Recovery.dfy`, `Races.dfy`, `MissedTrips.dfy` | properties of all sequential runs |
| `Protocol.dfy` | `src/lib.rs` as a transition system: any number of calls, every lock, load, compare-exchange and release a step |
| `Guarantees.dfy`, `Probes.dfy`, `Progress.dfy`, `Contention.dfy`, `Lockout.dfy`, `Outsiders.dfy`, `Unprobed.dfy`, `Schedules.dfy`, `Solo.dfy` | properties of all interleavings |
| `CircuitBreaker.dfy` | `call`, `acquire`, the permit's drop and the manual operations as imperative code, proved to be runs of `Protocol.dfy` while other tasks interfere |

How the layers connect: the class in `StateMachine.dfy` refines the functions of `Machine.dfy`, which refine the plain
breaker of `Reference.dfy`; the protocol applies
those same functions under its write lock and keeps the lock-order log of operations; `InterleavingsLinearize` shows
that its machine is the sequential run of that log, so every property of sequential runs holds in every interleaving;
and `CircuitBreaker.dfy` shows that the imperative code takes only the protocol's steps.

A clock reading, a jitter draw, the wall-clock seed, what an operation does, when it is dropped, and whether an error
counts as a failure are parameters or nondeterministic steps. Time, waits and rates are real numbers.

## What the code does where its prose says otherwise

- The comment at `src/config.rs:96-98` says that any factor above 1 has overflowed by exponent 1024. It has not for a
  slow factor: `ExponentCapVisibleForSlowFactor` gives one, and `ExponentCapExact` says exactly when the cap is visible.
- The comment at `src/state.rs:164-165` says that a success needs no trip check. A success can complete
  `minimum_calls` with the rate already at the threshold (`RateCanBeReachedWhileClosed`), so that the circuit stays
  Closed although the documented rule holds. `MissedTripsExact` says for exactly which configurations this can happen,
  and `RateReachedOnlyBySuccesses` what such a state looks like.
- `src/config.rs:232-234` and `README.md:100-101` say that `success_threshold` successful probes close the circuit.
  The code counts every success recorded while the circuit reads HalfOpen: of a probe of this half-open phase, of one
  left over from an earlier phase, of a call admitted while Closed, or by hand (`SuccessCountBySource`,
  `RecoveryBySource`). With any threshold the circuit can recover with no permit ever granted
  (`RecoversWithoutProbes`). Calls other than the phase's own probes can have a say in it exactly when one is already
  in flight (`OutsideRecordsExactly`); with none, its own probes and manual records decide it, recovery and re-trip
  alike (`OwnProbesDecide`).
- `src/config.rs:35-36` says that full jitter picks from 0 on. A draw is below 1, so before rounding a positive base
  never becomes a wait of 0 (`LargerDrawsWaitLess`). `src/config.rs:108` names the generator xorshift64*; the code is
  the plain xorshift, without the multiplication.
- The `transitions` counter includes upgrades to HalfOpen, which are never returned to the caller
  (`TransitionsAreConserved`, `PairsDetermineCounter`), and misses an upgrade that `trip` or `reset` overtakes
  (`LazyRefinesEager`).

## Model

| member | source | states |
|---|---|---|
| Config.Builder.Build | src/config.rs:398-416 | the bounds the rest of the crate relies on, and the value of every field: its default when unset, itself when in range, the nearer end when not |
| Config.ValidIffBuildable | src/config.rs:398-416 | the configurations that satisfy those bounds are exactly the ones some builder produces |
| Backoff.WaitIsInRange | src/config.rs:60-80 | every wait lies between base times (1 - jitter) and base, for any attempt and draw; without jitter it is the base |
| Backoff.WaitNeverExceedsMax | src/config.rs:93-105 | no exponential wait, jittered or not, exceeds `max`, for any factor and attempt |
| Backoff.BaseWaitMonotone | src/config.rs:93-105 | for a factor of at least 1 the base waits never shrink from one attempt to a later one |
| Backoff.BaseWaitIsGeometric | src/config.rs:90-105 | every base wait, for every factor, is the element of the geometric sequence from `initial` that its attempt names, within 0 and `max`; from attempt 1025 on the 1025th |
| Backoff.FirstBaseWait | src/config.rs:82-87 | the first wait is the lesser of `initial` and `max` |
| Backoff.NextBaseWait | src/config.rs:90-105 | below `max` each wait is `factor` times the one before, or `max`; constant from attempt 1025 on |
| Backoff.JitterTakesOff | src/config.rs:67-78 | a jittered wait is shorter than its base by exactly base times jitter times draw, with jitter taken within [0, 1] |
| Backoff.LargerDrawsWaitLess | src/config.rs:31-38 | draw 0 gives the base, a larger draw a strictly shorter wait, a positive base a positive wait |
| Backoff.ExponentCapExact | src/config.rs:90-105 | for every factor, negative ones included, exactly when capping the exponent at 1024 leaves the documented formula unchanged |
| Backoff.ExponentCapInvisible | src/config.rs:96-100 | for a factor of at least 2 and an initial wait of at least 1 ns the cap never shows |
| Backoff.ExponentCapVisibleForSlowFactor | src/config.rs:96-100 | the comment's claim for every factor above 1 is false: a concrete factor where the cap shows |
| Xorshift.NextIsPermutation | src/config.rs:120-122 | the (13, 7, 17) step on 64-bit words has an explicit inverse on both sides |
| Xorshift.NextKeepsNonzero | src/config.rs:115-123 | only zero steps to zero, so a seeded generator is never seeded again |
| Xorshift.OrbitsNeverMerge | src/config.rs:120-123 | generators that hold the same word after equally many draws started from the same word |
| Xorshift.Seed | src/config.rs:127-134 | the seed keeps the upper 63 bits of the clock reading and is odd, so never zero |
| Xorshift.SampleIsTopBits | src/config.rs:124 | the sample times 2^53 is the word's integer over 2048, rounded down; two words share a sample if and only if they share their top 53 bits |
| Xorshift.JitterCell.Rand | src/config.rs:110-126 | the cell holds the orbit of its first seed; over any number of draws it seeds exactly once, and the sample is in [0, 1) |
| Outcomes.StreakIsTrailingRun | src/state.rs:106-108 | the streak of a history is its longest all-failure suffix |
| Outcomes.PushKeepsLastN | src/state.rs:41-51 | evicting one at a time keeps exactly the most recent outcomes of the whole history |
| Outcomes.FailuresOfPush | src/state.rs:41-51 | taking off the evicted outcome and adding the new one keeps the failure count exact |
| Outcomes.SuccessNeverRaisesRate | src/state.rs:161-166 | recording a success never raises the failure rate, evicting or not |
| Outcomes.RateEnds | src/state.rs:58-68 | the rate is 0 exactly when no outcome is a failure, none at all included, and 1 exactly when all of at least one are |
| Outcomes.RateBounds | src/state.rs:58-68 | the window rate stays within [0, 1] for every outcome sequence |
| Window.Window.Record | src/state.rs:41-51 | the ring buffer after a record holds the old outcomes minus the evicted one plus the new one, with an exact count |
| Window.Window.FailureRate | src/state.rs:58-68 | the O(1) rate is the failure fraction of the outcomes held |
| StateMachine.StateMachine.Current | src/state.rs:144-153 | reads the effective state, an expired Open circuit as HalfOpen |
| StateMachine.StateMachine.RecordSuccess | src/state.rs:155-179 | whole new state and returned transition, which are also those of the plain breaker, from every valid state, with no counter overflowing |
| StateMachine.StateMachine.RecordFailure | src/state.rs:181-204 | the same for a failure; a jittered trip uses the sample just drawn |
| StateMachine.StateMachine.ShouldTrip | src/state.rs:210-218 | decides the trip rule on the streak counter and the ring buffer |
| StateMachine.StateMachine.Transition | src/state.rs:238-259 | whole new state on entering each of the three states, counting one transition whatever the state before, and drawing one sample only for a jittered wait |
| StateMachine.StateMachine.ForceOpen | src/state.rs:261-263 | whole new state of a forced trip, in agreement with the plain breaker |
| StateMachine.StateMachine.ForceClosed | src/state.rs:265-267 | whole new state of a forced reset, in agreement with the plain breaker |
| Reference.RunRefines | src/state.rs:104-123 | after every run the window is the last outcomes of the episode, the streak its trailing failures, the probe count, saturated trip count, trip time and wait those of the plain breaker |
| Reference.ReferenceIsObserved | src/state.rs:144-218 | after every run the effective state at any instant and the transition any next operation returns are those of the plain breaker |
| Reference.OutcomeAgrees | src/state.rs:206-218 | the O(1) trip check on streak counter and window decides the documented rule on the whole history |
| Reference.TripsExactlyByRule | src/state.rs:155-218 | in every reachable Closed state a record trips if and only if it is a failure and the documented rule holds of the whole episode |
| Reference.CountersFit | src/state.rs:41-51 | no `u32` counter of a reachable state can overflow or underflow, even with thresholds at `u32::MAX` |
| Reference.RateReachedOnlyBySuccesses | src/state.rs:161-167 | a Closed circuit at or above the threshold has recorded only successes from the `minimum_calls`-th outcome on |
| Reference.RateCanBeReachedWhileClosed | tests/integration.rs:201-225 | such a state is reachable: the run of that test |
| MissedTrips.MissedTripsExact | src/state.rs:161-167 | a Closed circuit can meet the documented trip rule if and only if the rate rule is on and ceil(threshold * minimum_calls) failures fit among `minimum_calls` outcomes without a tripping streak |
| LazyTimer.LazyRefinesEager | src/state.rs:144-153 | at every instant of every run the lazy upgrade is indistinguishable from a timer firing at the deadline, and by how much `transitions` lags |
| LazyTimer.InStepOp | src/state.rs:220-232 | each operation returns the same transition on the lazy and on the eager machine and keeps them in step |
| Amnesia.NoMemoryAcrossRecovery | src/state.rs:234-267 | after any entry to Closed every future run matches a newly built breaker's, up to constant offsets of the lifetime counters |
| Accounting.TransitionsAreConserved | src/state.rs:155-259 | in every unforced run `transitions` is trips plus re-trips plus upgrades plus recoveries, and each kind balances the others up to the current state |
| Accounting.ForcedTally | src/state.rs:238-267 | `trip` and `reset` count one transition and return none, from every state, even the one they force |
| Accounting.EveryTransitionIsCounted | src/state.rs:155-267 | in every run from every state, forced operations included, `transitions` grows by the returned pairs, the upgrades and the forced operations |
| Accounting.PairsFormChain | src/state.rs:155-204 | the returned transitions form a chain from Closed, broken only by the unreported upgrade |
| Accounting.PairsDetermineCounter | src/state.rs:220-259 | the returned transitions and the stored state determine `transitions` |
| Accounting.OpenTakesFailures | tests/kani.rs:9-24 | in every run without `trip`, a circuit that is not Closed has recorded the failures a trip takes, with either or both rules on |
| Accounting.FloorIsReached | tests/kani.rs:9-24 | that floor cannot be raised: for every configuration a run with just so many failures opens the circuit |
| Waits.OpenLastsItsWait | src/state.rs:144-153 | after any operation that enters Open, whatever is recorded meanwhile, the circuit reads Open exactly until the wait of that trip count and draw has elapsed, and HalfOpen from then on |
| Waits.AttemptsCountTrips | src/state.rs:238-251 | in every run `open_attempts` is the saturated number of operations that entered Open, forced or not, since the last one that entered Closed |
| Waits.WaitFollowsTrips | src/state.rs:245-249 | while not Closed the wait is that of the trip count, exactly or within the jitter range |
| Waits.SuccessiveWaitsGrow | src/config.rs:57-80 | successive waits without recovery never shrink for a factor of at least 1, and never exceed `max` |
| Recovery.SuccessesClose | src/state.rs:155-179 | after the deadline, `k` successes leave the circuit Closed if and only if `k` reaches the number still needed |
| Recovery.NoLockout | src/state.rs:144-179 | the same from the end of every run of a new breaker |
| Recovery.RecoversExactlyAfterProbes | src/state.rs:155-179 | in every run an operation returns (HalfOpen, Closed) if and only if it completes `success_threshold` successes in a row, each recorded while the circuit read HalfOpen |
| Recovery.OpenWaits | src/state.rs:155-204 | before the deadline records of either kind move nothing but the lifetime totals |
| Races.RacingFailures | tests/loom.rs:42-69 | any number of racing failures on a fresh streak-only breaker: none lost, Open after one transition if and only if they reach the threshold |
| Races.TripRacingSuccesses | tests/loom.rs:71-95 | one `trip` among any number of successes, anywhere: Open after one transition, every success counted |
| Protocol.EveryInterleaving | src/lib.rs:294-355 | the inductive invariant of any number of interleaved calls, manual records, forced transitions and clock ticks |
| Protocol.PermitsStep | src/lib.rs:151-175 | every step keeps the counter equal to the permits held and within the bound, and no release underflows it |
| Protocol.TasksStep | src/lib.rs:305-322 | what a call read under the read guard stays true while it keeps the guard |
| Guarantees.ProbesAreBounded | src/lib.rs:129-137 | at any time at most `half_open_max_calls` permits are held, and the counter is their number |
| Guarantees.PermitReleasedExactlyOnce | src/lib.rs:140-175 | a call is granted at most one permit and gives it back exactly once, whether it returns or is dropped |
| Guarantees.CallRecordsExactlyOnce | src/lib.rs:326-354 | a call records once if it ends in success, a counted error or a timeout, and never otherwise |
| Guarantees.TotalsAreExact | src/lib.rs:222-248 | the lifetime totals are the recorded calls plus the manual records, in every interleaving |
| Guarantees.CallsAreAccounted | src/lib.rs:294-355 | calls begun are those in flight plus those ended in each of the seven ways |
| Guarantees.AdmissionIsAtomic | src/lib.rs:305-322 | a permit is won only while HalfOpen, and a call goes ahead without one only while Closed |
| Guarantees.RejectedOnlyWhenFull | src/lib.rs:151-168 | a rejected call had every permit held by others at some instant of its own admission |
| Guarantees.ObservationWasReal | src/lib.rs:151-168 | a value in the compare-exchange loop was the counter's value at an instant of that admission |
| Guarantees.RefusedOnlyWhenOpen | src/lib.rs:305-308 | a call refused as open was in its admission at an instant when the circuit was Open and its wait not over |
| Guarantees.OperationEndsAtMostOnce | src/lib.rs:324-354 | a call's operation ends at most once, and not at all when the call is refused or rejected |
| Guarantees.ResidualPermitsOnlyReduceCapacity | src/lib.rs:129-137 | permits left from earlier half-open phases plus current ones never exceed the bound |
| Guarantees.InterleavingsLinearize | src/lib.rs:222-248 | in every interleaving the state machine is the sequential run of the lock-order log, in clock order, and refines the plain breaker |
| Guarantees.ConcurrentFailures | tests/loom.rs:42-69 | the racing-failures result for calls and manual records interleaved at every step, on the effective state at the end |
| Guarantees.ConcurrentTrip | tests/loom.rs:71-95 | the racing-trip result at the same granularity, on the effective state at the end |
| Probes.ProbeSucceeds | src/lib.rs:294-355 | a successful call made while HalfOpen with a free permit records one success and leaves the permit free |
| Probes.FullBreakerRejects | src/lib.rs:309-319 | a call made while every permit is held is rejected and changes nothing |
| Probes.SequentialProbesRecover | src/lib.rs:294-355 | from every quiet state of every interleaving that reads HalfOpen with a free permit, the needed number of sequential calls closes the circuit |
| Progress.WritersNeverWaitForOperations | src/lib.rs:305-324 | the read guards can all be dropped without any operation finishing, so a hung one blocks no writer |
| Contention.LostRacesArePaidFor | src/lib.rs:145-168 | the loop is lock-free: a call's exchanges that fail on a changed counter number at most the permits others win or give back during its admission |
| Lockout.FullCircuitLocksOut | src/lib.rs:305-322 | from a full HalfOpen circuit, through any steps without a release, record, trip or reset, nothing changes: no permit is won and no call not yet let through gets further than a rejection |
| Lockout.LockoutEndsExactly | src/state.rs:155-267 | exactly which step of any interleaving ends that: a release, or a write after which the circuit no longer reads HalfOpen |
| Lockout.EveryHolderCanRelease | src/lib.rs:324-355 | from any state a permit holder can be brought to give its permit back by steps of calls alone |
| Lockout.LockoutCanEnd | src/lib.rs:171-175 | so no full circuit of any interleaving is locked out for ever: calls alone can free a permit |
| Outsiders.SuccessCountBySource | src/state.rs:168-178 | in every interleaving the success count is the successes since the circuit entered its phase, by current probes, residual probes, calls admitted while Closed, and hand |
| Outsiders.RecoveryBySource | src/config.rs:232-234 | a recovery takes `success_threshold` of them from all four sources together, and is due to current probes alone exactly when the other three gave none |
| Outsiders.PhasesStartWithoutProbes | src/lib.rs:129-137 | on entering Open every permit held is of an earlier phase |
| Outsiders.OwnProbesDecide | README.md:100-101 | with no other call in flight when the circuit reads HalfOpen, the rest of the phase is decided by its own probes and manual records |
| Outsiders.OutsideRecordsExactly | src/lib.rs:324-355 | another call's record can still fall in the phase if and only if such a call is in flight |
| Unprobed.RecoversWithoutProbes | src/config.rs:232-234 | for every configuration an interleaving that recovers although no permit was ever granted |
| Schedules.TimeAlwaysPasses | src/state.rs:144-153 | after every legal run, whoever holds a guard or a permit, the clock may go on by any amount, and nothing else changes by that |
| Schedules.OpenMayEndUnderGuard | src/lib.rs:305-322 | from every Open state a call that takes its guard before the deadline wins a permit if the wait ends under that guard and one is free |
| Schedules.ProbesAcrossDeadline | src/lib.rs:305-322 | such a run of a new breaker, for every configuration and draw with a positive first wait |
| Schedules.FailsThenWins | src/lib.rs:158-166 | the weak exchange may fail any number of times on an unchanged counter before it wins |
| Solo.SoleCall | src/lib.rs:294-355 | a call that nobody interferes with records once or not at all, as its result says, and touches nothing else but its own permit |
| CircuitBreaker.CircuitBreaker.CompareExchangeWeak | src/lib.rs:158-166 | one attempt, spurious failures included, is one step of the protocol |
| CircuitBreaker.CircuitBreaker.Acquire | src/lib.rs:151-168 | the retry loop under interference ends with a permit or a refusal, through protocol steps only; it gives up undecided only after `patience` failed exchanges, and still in the loop; of the steps logged it takes only its own task's |
| CircuitBreaker.CircuitBreaker.DropPermit | src/lib.rs:171-175 | the drop gives back one held permit |
| CircuitBreaker.CircuitBreaker.RecordSuccess | src/lib.rs:222-233 | the section under the write lock is one step of the protocol |
| CircuitBreaker.CircuitBreaker.RecordFailure | src/lib.rs:238-248 | the same for a failure |
| CircuitBreaker.CircuitBreaker.ForceOpen | src/lib.rs:385-391 | the same for `trip` |
| CircuitBreaker.CircuitBreaker.Reset | src/lib.rs:395-399 | the same for `reset` |
| CircuitBreaker.CircuitBreaker.RecordOutcome | src/lib.rs:222-248 | the call's outcome is recorded as it deserves; it gives up only after `patience` looks at the lock, at each of which a reader held it; it takes only its own task's steps, so it records nothing else |
| CircuitBreaker.CircuitBreaker.Call | src/lib.rs:294-355 | with other tasks interfering between any two steps, the call runs through the protocol to the result its operation deserves, or to a refusal; it gives up only after `patience` failed exchanges or `patience` looks at a lock held by readers; every step logged is its own or one that others may take, and if these may take none, the breaker changes by its one record at most and the permit it holds |
| CircuitBreaker.OthersKeepTask | src/lib.rs:294-355 | no sequence of other tasks' steps moves a task |

## Left out

- Floating point: rates, factors and waits are real numbers, so rounding, infinities, NaN and the conversion to whole nanoseconds are not modelled.
- Clocks: one reading serves a whole locked operation, where a re-trip in the source reads the clock once to upgrade and once more to trip; readings never go back.
- `src/lock.rs`: the readers-writer lock is assumed correct and the atomic sequentially consistent; weak memory orders are not modelled.
- Write-locked sections are single steps, enabled when no task holds the read guard; waiting writers do not hold new readers back.
- CircuitBreaker.CircuitBreaker.Acquire: the source's loop has no bound, the model's gives up undecided after exactly a chosen number of failed exchanges, because interference may go on for ever.
- CircuitBreaker.CircuitBreaker.RecordOutcome: waiting for the write lock is bounded in the same way, by a number of looks that each find a reader.
- CircuitBreaker.CircuitBreaker.Call: gives up, as `None`, only where one of those two does.
- CircuitBreaker.CircuitBreaker.RecordSuccess, RecordFailure, ForceOpen and Reset start once the write lock is free; their wait for it is not part of them.
- CircuitBreaker.CircuitBreaker.Environment stands for all other threads: its body does nothing, and its callers may use only its contract, which allows any legal steps of other tasks. One jitter cell serves them all.
- Liveness: no fairness is assumed, so nothing says that a retrying call is ever decided, only what each of its lost races costs another call.
- Async mechanics: polling, timeouts and cancellation are nondeterministic steps; an operation that panics is covered only as a dropped one.
- The type-erased failure predicate: whether an error counts is an arbitrary choice per error.
- State-change callbacks, the previous state `trip` and `reset` read before taking the write lock, the `metrics` feature and `src/tower.rs`.
- The `u64` lifetime counters are unbounded.
- Builder setters one by one: `Build` is modelled on any builder contents, which include all they can produce.
- Presets, names, `Debug`, `Display` and getters: only easy members.

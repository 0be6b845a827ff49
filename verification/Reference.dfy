/**
 * The breaker as documented, kept the plain way: the whole history of outcomes since the circuit last entered Closed,
 * the probe successes so far, the trips since, and when the last one happened. The state machine of module `Machine`
 * is proved to refine it: same effective state, same returned transitions.
 */
module Reference {
  import opened Prelude
  import opened Config
  import opened Backoff
  import opened Outcomes
  import opened Machine

  datatype Reference = Reference(
    phase: State,
    history: seq<bool>,   // outcomes recorded while Closed, since the circuit last entered Closed
    probes: nat,          // successes recorded in the current half-open phase
    trips: nat,           // trips, forced or not, since the circuit last entered Closed
    openedAt: real,       // when the last of them happened
    wait: Duration)       // the wait drawn for it

  function Initial(wait: Duration): Reference {
    Reference(Closed, [], 0, 0, 0.0, wait)
  }

  /** The trip rule as documented, on the whole history of the episode. */
  predicate TripRule(c: Config, h: seq<bool>) {
    || Streak(h) >= c.consecutiveFailures
    || (0.0 < c.failureRateThreshold
        && Min(|h|, c.slidingWindowSize) >= c.minimumCalls
        && Rate(LastN(h, c.slidingWindowSize)) >= c.failureRateThreshold)
  }

  /** The effective phase: Open lasts exactly for its wait. */
  function Phase(r: Reference, now: real): State {
    if r.phase.Open? && now - r.openedAt >= r.wait then HalfOpen else r.phase
  }

  function Tripped(c: Config, r: Reference, now: real, draw: Sample): Reference {
    r.(phase := Open, probes := 0, trips := r.trips + 1, openedAt := now,
       wait := WaitFor(c.backoff, Min(r.trips + 1, U32_MAX), draw))
  }

  function Recovered(r: Reference): Reference {
    r.(phase := Closed, history := [], probes := 0, trips := 0)
  }

  function RefStep(c: Config, r: Reference, op: Op): (Reference, Transition) {
    match op
    case Success(now) =>
      (match Phase(r, now)
       case Closed => (r.(history := r.history + [false]), None)
       case HalfOpen =>
         if r.probes + 1 == c.successThreshold then (Recovered(r), Some((HalfOpen, Closed)))
         else (r.(phase := HalfOpen, probes := r.probes + 1), None)
       case Open => (r, None))
    case Failure(now, draw) =>
      (match Phase(r, now)
       case Closed =>
         var failed := r.(history := r.history + [true]);
         if TripRule(c, failed.history) then (Tripped(c, failed, now, draw), Some((Closed, Open))) else (failed, None)
       case HalfOpen => (Tripped(c, r, now, draw), Some((HalfOpen, Open)))
       case Open => (r, None))
    case Trip(now, draw) => (Tripped(c, r, now, draw), None)
    case Reset(_) => (Recovered(r), None)
  }

  function RefRun(c: Config, wait: Duration, ops: seq<Op>): Reference {
    if ops == [] then Initial(wait) else RefStep(c, RefRun(c, wait, Front(ops)), Last(ops)).0
  }

  /** The incrementally kept state agrees with the reference. */
  predicate Agree(c: Config, m: Machine, r: Reference) {
    && m.current == r.phase
    && m.window == LastN(r.history, c.slidingWindowSize)
    && m.failureCount == (if r.phase == Closed then Streak(r.history) else 0)
    && m.successCount == r.probes
    && m.openAttempts == Min(r.trips, U32_MAX)
    && m.openSince == (if r.phase == Open then Some(r.openedAt) else None)
    && (r.phase != Closed ==> m.waitDuration == r.wait)
  }

  /** Some failure was recorded once the rate was being evaluated. */
  predicate FailedOnceEvaluated(c: Config, h: seq<bool>) {
    exists i: nat :: c.minimumCalls <= i + 1 && i < |h| && h[i]
  }

  /** What holds of the reference in every run. */
  predicate Sound(c: Config, r: Reference) {
    match r.phase
    case Closed =>
      && Streak(r.history) < c.consecutiveFailures && r.probes == 0 && r.trips == 0
      && (0.0 < c.failureRateThreshold && FailedOnceEvaluated(c, r.history) ==>
            Rate(LastN(r.history, c.slidingWindowSize)) < c.failureRateThreshold)
    case Open =>
      r.probes == 0 && 1 <= r.trips && WaitInRange(c.backoff, Min(r.trips, U32_MAX), r.wait)
    case HalfOpen =>
      r.probes < c.successThreshold && 1 <= r.trips && WaitInRange(c.backoff, Min(r.trips, U32_MAX), r.wait)
  }

  predicate Inv(c: Config, m: Machine, r: Reference) {
    Agree(c, m, r) && Sound(c, r)
  }

  lemma NewInv(c: Config, wait: Duration)
    requires ValidConfig(c)
    ensures Inv(c, New(wait), Initial(wait))
  {
  }

  lemma PhaseIsCurrent(c: Config, m: Machine, r: Reference, now: real)
    requires Agree(c, m, r)
    ensures Current(m, now) == Phase(r, now)
  {
  }

  lemma EmptyHistory(n: nat)
    ensures LastN([], n) == [] && Streak([]) == 0
  {
  }

  /** An outcome recorded while Closed, on the window and streak and on the whole history. */
  lemma OutcomeAgrees(c: Config, h: seq<bool>, failed: bool)
    requires ValidConfig(c)
    ensures var w := Push(LastN(h, c.slidingWindowSize), c.slidingWindowSize, failed);
            && w == LastN(h + [failed], c.slidingWindowSize)
            && Streak(h + [failed]) == (if failed then Streak(h) + 1 else 0)
            && (ShouldTrip(c, Streak(h + [failed]), w) <==> TripRule(c, h + [failed]))
  {
    hide Rate, Push, LastN, Streak;
    PushKeepsLastN(h, c.slidingWindowSize, failed);
    StreakSnoc(h, failed);
  }

  lemma StepAgrees(c: Config, m: Machine, r: Reference, op: Op)
    requires ValidConfig(c) && Inv(c, m, r)
    ensures Agree(c, Step(c, m, op).0, RefStep(c, r, op).0)
    ensures Step(c, m, op).1 == RefStep(c, r, op).1
  {
    hide Rate, Push, LastN, Streak, WaitFor, WaitInRange, ShouldTrip, TripRule, FailedOnceEvaluated;
    EmptyHistory(c.slidingWindowSize);
    OutcomeAgrees(c, r.history, op.Failure?);
  }

  lemma SuccessKeepsCalm(c: Config, h: seq<bool>)
    requires ValidConfig(c)
    requires FailedOnceEvaluated(c, h) ==> Rate(LastN(h, c.slidingWindowSize)) < c.failureRateThreshold
    ensures FailedOnceEvaluated(c, h + [false]) ==>
      Rate(LastN(h + [false], c.slidingWindowSize)) < c.failureRateThreshold
  {
    hide Rate, Push, LastN;
    PushKeepsLastN(h, c.slidingWindowSize, false);
    SuccessNeverRaisesRate(LastN(h, c.slidingWindowSize), c.slidingWindowSize);
    if FailedOnceEvaluated(c, h + [false]) {
      var i: nat :| c.minimumCalls <= i + 1 && i < |h + [false]| && (h + [false])[i];
      assert h[i];
    }
  }

  lemma StepSound(c: Config, r: Reference, op: Op)
    requires ValidConfig(c) && Sound(c, r)
    ensures Sound(c, RefStep(c, r, op).0)
  {
    hide Rate, LastN, Streak, WaitFor, WaitInRange;
    EmptyHistory(c.slidingWindowSize);
    StreakSnoc(r.history, op.Failure?);
    if op.Trip? || op.Failure? {
      WaitIsInRange(c.backoff, Min(r.trips + 1, U32_MAX), op.draw);
    }
    if op.Success? && r.phase == Closed && 0.0 < c.failureRateThreshold {
      SuccessKeepsCalm(c, r.history);
    }
  }

  lemma StepInv(c: Config, m: Machine, r: Reference, op: Op)
    requires ValidConfig(c) && Inv(c, m, r)
    ensures Inv(c, Step(c, m, op).0, RefStep(c, r, op).0)
    ensures Step(c, m, op).1 == RefStep(c, r, op).1
  {
    hide Step, RefStep, Agree, Sound;
    StepAgrees(c, m, r, op);
    StepSound(c, r, op);
  }

  /** The refinement: after every run the O(1) state agrees with the plain reference. */
  lemma {:induction false} RunRefines(c: Config, wait: Duration, ops: seq<Op>)
    requires ValidConfig(c)
    ensures Inv(c, Run(c, New(wait), ops), RefRun(c, wait, ops))
  {
    hide Step, RefStep, Inv;
    if ops == [] {
      NewInv(c, wait);
    } else {
      RunRefines(c, wait, Front(ops));
      StepInv(c, Run(c, New(wait), Front(ops)), RefRun(c, wait, Front(ops)), Last(ops));
    }
  }

  /** What a caller can see: the effective state at any instant, and the transition any next operation returns. */
  lemma ReferenceIsObserved(c: Config, wait: Duration, ops: seq<Op>, now: real, op: Op)
    requires ValidConfig(c)
    ensures Current(Run(c, New(wait), ops), now) == Phase(RefRun(c, wait, ops), now)
    ensures Step(c, Run(c, New(wait), ops), op).1 == RefStep(c, RefRun(c, wait, ops), op).1
  {
    RunRefines(c, wait, ops);
    PhaseIsCurrent(c, Run(c, New(wait), ops), RefRun(c, wait, ops), now);
    StepInv(c, Run(c, New(wait), ops), RefRun(c, wait, ops), op);
  }

  /** In every reachable Closed state a record trips exactly when it is a failure and the documented rule holds. */
  lemma TripsExactlyByRule(c: Config, wait: Duration, ops: seq<Op>, op: Op)
    requires ValidConfig(c) && !op.Forced()
    requires Run(c, New(wait), ops).current == Closed
    ensures Step(c, Run(c, New(wait), ops), op).1
         == if op.Failure? && TripRule(c, RefRun(c, wait, ops).history + [true]) then Some((Closed, Open)) else None
  {
    hide Step, TripRule, RefRun, Run, Sound;
    RunRefines(c, wait, ops);
    StepInv(c, Run(c, New(wait), ops), RefRun(c, wait, ops), op);
  }

  lemma CountersBelow(c: Config, m: Machine, r: Reference)
    requires ValidConfig(c) && Inv(c, m, r)
    ensures m.failureCount < c.consecutiveFailures
    ensures m.successCount < c.successThreshold
    ensures m.openAttempts <= U32_MAX
  {
  }

  /** No u32 counter of a reachable state can overflow or underflow, whatever the thresholds. */
  lemma CountersFit(c: Config, wait: Duration, ops: seq<Op>)
    requires ValidConfig(c)
    ensures var m := Run(c, New(wait), ops);
            && m.failureCount + 1 <= U32_MAX
            && m.successCount + 1 <= U32_MAX
            && Failures(m.window) <= |m.window| <= c.slidingWindowSize <= U32_MAX
            && m.openAttempts <= U32_MAX
  {
    RunRefines(c, wait, ops);
    CountersBelow(c, Run(c, New(wait), ops), RefRun(c, wait, ops));
    FailuresBound(Run(c, New(wait), ops).window);
  }

  /**
   * A success is never checked for a trip. This is all that costs: a Closed circuit whose evaluated rate has
   * reached the threshold got there on successes alone, from the `minimumCalls`-th outcome of its episode on.
   */
  lemma RateReachedOnlyBySuccesses(c: Config, wait: Duration, ops: seq<Op>)
    requires ValidConfig(c) && 0.0 < c.failureRateThreshold
    requires var m := Run(c, New(wait), ops);
             m.current == Closed && |m.window| >= c.minimumCalls && Rate(m.window) >= c.failureRateThreshold
    ensures var h := RefRun(c, wait, ops).history;
            forall i: nat :: c.minimumCalls <= i + 1 && i < |h| ==> !h[i]
  {
    RunRefines(c, wait, ops);
    assert !FailedOnceEvaluated(c, RefRun(c, wait, ops).history);
  }

  /** Such a state is reachable: one failure below `minimumCalls`, then the success that completes it. */
  lemma RateCanBeReachedWhileClosed(c: Config, wait: Duration, now: real, draw: Sample)
    requires ValidConfig(c)
    requires c.consecutiveFailures == U32_MAX && c.failureRateThreshold == 0.5
    requires c.slidingWindowSize == 2 && c.minimumCalls == 2
    ensures var m := Run(c, New(wait), [Failure(now, draw), Success(now)]);
            m.current == Closed && |m.window| == c.minimumCalls && Rate(m.window) == c.failureRateThreshold
  {
    RunSnoc(c, New(wait), [], Failure(now, draw));
    RunSnoc(c, New(wait), [Failure(now, draw)], Success(now));
    assert [] + [Failure(now, draw)] == [Failure(now, draw)];
    assert [Failure(now, draw)] + [Success(now)] == [Failure(now, draw), Success(now)];
    FailuresSnoc([], true);
    FailuresSnoc([true], false);
    assert [] + [true] == [true] && [true] + [false] == [true, false];
    assert Failures([true, false]) == 1;
  }
}

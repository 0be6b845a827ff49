/** Interleaving independence: the loom models, for any number of racing operations and any threshold. */
module Races {
  import opened Prelude
  import opened Config
  import opened Backoff
  import opened Outcomes
  import opened Machine
  import Recovery

  /** Everything recorded after the tripping operation falls within the wait it starts. */
  predicate WithinWait(c: Config, trip: Op, later: seq<Op>)
    requires trip.Failure? || trip.Trip?
  {
    forall i :: 0 <= i < |later| ==> later[i].now - trip.now < WaitFor(c.backoff, 1, trip.draw)
  }

  lemma {:induction false} FailuresBelowThreshold(c: Config, wait: Duration, ops: seq<Op>)
    requires ValidConfig(c) && c.failureRateThreshold == 0.0
    requires forall i :: 0 <= i < |ops| ==> ops[i].Failure?
    requires |ops| < c.consecutiveFailures
    ensures var m := Run(c, New(wait), ops);
            && m.current == Closed && m.transitions == 0 && m.openAttempts == 0
            && m.failureCount == m.totalFailures == |ops|
  {
    hide Push, Rate;
    if ops != [] {
      assert Last(ops) == ops[|ops| - 1];
      FailuresBelowThreshold(c, wait, Front(ops));
    }
  }

  /**
   * `n` racing failures on a fresh streak-only breaker, in whatever order the lock admits them: all are counted, and
   * the circuit is Open, after exactly one transition, if and only if `n` reaches the threshold.
   */
  lemma RacingFailures(c: Config, wait: Duration, ops: seq<Op>)
    requires ValidConfig(c) && c.failureRateThreshold == 0.0
    requires forall i :: 0 <= i < |ops| ==> ops[i].Failure?
    requires |ops| >= c.consecutiveFailures ==>
      WithinWait(c, ops[c.consecutiveFailures - 1], ops[c.consecutiveFailures..])
    ensures var m := Run(c, New(wait), ops);
            && m.totalFailures == |ops| && m.totalSuccesses == 0
            && (if |ops| >= c.consecutiveFailures
                then JustTripped(c, m, ops[c.consecutiveFailures - 1]) else m.current == Closed)
            && m.transitions == Bit(|ops| >= c.consecutiveFailures)
  {
    hide Step, WaitFor;
    var n := c.consecutiveFailures;
    NoSuccesses(c, wait, ops);
    if |ops| < n {
      FailuresBelowThreshold(c, wait, ops);
    } else {
      var first, trip, rest := ops[..n - 1], ops[n - 1], ops[n..];
      FailuresBelowThreshold(c, wait, first);
      ThresholdTrips(c, Run(c, New(wait), first), trip);
      RunSnoc(c, New(wait), first, trip);
      AfterTrip(c, Run(c, New(wait), first + [trip]), trip, rest);
      assert ops == first + [trip] + rest;
      RunConcat(c, New(wait), first + [trip], rest);
    }
  }

  lemma ThresholdTrips(c: Config, m: Machine, op: Op)
    requires ValidConfig(c) && m.current == Closed && m.openAttempts == 0 && op.Failure?
    requires m.failureCount + 1 >= c.consecutiveFailures
    ensures var n := Step(c, m, op).0;
            && JustTripped(c, n, op)
            && n.transitions == m.transitions + 1
            && n.totalFailures == m.totalFailures + 1 && n.totalSuccesses == m.totalSuccesses
  {
    hide Push, WaitFor;
  }

  /** The state right after the first trip of an episode. */
  predicate JustTripped(c: Config, m: Machine, trip: Op)
    requires trip.Failure? || trip.Trip?
  {
    m.current == Open && m.openSince == Some(trip.now) && m.waitDuration == WaitFor(c.backoff, 1, trip.draw)
  }

  /** Within the wait, records only count. */
  lemma AfterTrip(c: Config, m: Machine, trip: Op, rest: seq<Op>)
    requires ValidConfig(c) && (trip.Failure? || trip.Trip?)
    requires JustTripped(c, m, trip) && Unforced(rest) && WithinWait(c, trip, rest)
    ensures var n := Run(c, m, rest);
            && JustTripped(c, n, trip) && n.transitions == m.transitions
            && n.totalSuccesses + n.totalFailures == m.totalSuccesses + m.totalFailures + |rest|
  {
    hide Step, WaitFor;
    Recovery.OpenWaits(c, m, rest);
  }

  lemma {:induction false} NoSuccesses(c: Config, wait: Duration, ops: seq<Op>)
    requires ValidConfig(c)
    requires forall i :: 0 <= i < |ops| ==> ops[i].Failure?
    ensures Run(c, New(wait), ops).totalSuccesses == 0
  {
    hide Push, ShouldTrip, WaitFor;
    if ops != [] {
      assert Last(ops) == ops[|ops| - 1];
      NoSuccesses(c, wait, Front(ops));
    }
  }

  lemma {:induction false} SuccessesWhileClosed(c: Config, wait: Duration, ops: seq<Op>)
    requires ValidConfig(c)
    requires forall i :: 0 <= i < |ops| ==> ops[i].Success?
    ensures var m := Run(c, New(wait), ops);
            && m.current == Closed && m.transitions == 0 && m.openAttempts == 0
            && m.totalSuccesses == |ops| && m.totalFailures == 0
  {
    hide Push;
    if ops != [] {
      assert Last(ops) == ops[|ops| - 1];
      SuccessesWhileClosed(c, wait, Front(ops));
    }
  }

  lemma {:induction false} NoFailures(c: Config, m: Machine, ops: seq<Op>)
    requires ValidConfig(c)
    requires forall i :: 0 <= i < |ops| ==> ops[i].Success?
    ensures Run(c, m, ops).totalFailures == m.totalFailures
  {
    hide Push;
    if ops != [] {
      assert Last(ops) == ops[|ops| - 1];
      NoFailures(c, m, Front(ops));
    }
  }

  /**
   * One `trip` racing any number of successes, wherever the lock places it: the circuit ends Open after exactly one
   * transition, with every success counted.
   */
  lemma TripRacingSuccesses(c: Config, wait: Duration, ops: seq<Op>, k: nat)
    requires ValidConfig(c) && k < |ops| && ops[k].Trip?
    requires forall i :: 0 <= i < |ops| && i != k ==> ops[i].Success?
    requires WithinWait(c, ops[k], ops[k + 1..])
    ensures var m := Run(c, New(wait), ops);
            && JustTripped(c, m, ops[k]) && m.transitions == 1
            && m.totalSuccesses == |ops| - 1 && m.totalFailures == 0
  {
    hide WaitFor;
    var first, trip, rest := ops[..k], ops[k], ops[k + 1..];
    SuccessesWhileClosed(c, wait, first);
    RunSnoc(c, New(wait), first, trip);
    var tripped := Run(c, New(wait), first + [trip]);
    AfterTrip(c, tripped, trip, rest);
    NoFailures(c, tripped, rest);
    assert ops == first + [trip] + rest;
    RunConcat(c, New(wait), first + [trip], rest);
  }
}

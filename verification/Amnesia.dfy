/** No memory across recovery: a circuit that has just entered Closed behaves like a newly built one for ever. */
module Amnesia {
  import opened Prelude
  import opened Config
  import opened Backoff
  import opened Outcomes
  import opened Machine

  /** Equal in all that future behaviour depends on: a Closed circuit's wait is not read before it is replaced. */
  predicate Alike(m: Machine, n: Machine) {
    && m.current == n.current
    && m.failureCount == n.failureCount && m.successCount == n.successCount
    && m.openSince == n.openSince && m.openAttempts == n.openAttempts
    && m.window == n.window
    && (m.current != Closed ==> m.waitDuration == n.waitDuration)
  }

  /** The lifetime counters of `m2` exceed those of `m` by what those of `n2` exceed those of `n`. */
  predicate SameGrowth(m: Machine, m2: Machine, n: Machine, n2: Machine) {
    && m2.transitions - m.transitions == n2.transitions - n.transitions
    && m2.totalSuccesses - m.totalSuccesses == n2.totalSuccesses - n.totalSuccesses
    && m2.totalFailures - m.totalFailures == n2.totalFailures - n.totalFailures
  }

  lemma AlikeStep(c: Config, m: Machine, n: Machine, op: Op)
    requires ValidConfig(c) && Alike(m, n)
    ensures Alike(Step(c, m, op).0, Step(c, n, op).0)
    ensures Step(c, m, op).1 == Step(c, n, op).1
    ensures SameGrowth(m, Step(c, m, op).0, n, Step(c, n, op).0)
  {
    hide Push, ShouldTrip, WaitFor;
  }

  lemma {:induction false} AlikeRuns(c: Config, m: Machine, n: Machine, ops: seq<Op>)
    requires ValidConfig(c) && Alike(m, n)
    ensures Alike(Run(c, m, ops), Run(c, n, ops))
    ensures ops != [] ==> LastResult(c, m, ops) == LastResult(c, n, ops)
    ensures SameGrowth(m, Run(c, m, ops), n, Run(c, n, ops))
  {
    if ops != [] {
      AlikeRuns(c, m, n, Front(ops));
      AlikeStep(c, Run(c, m, Front(ops)), Run(c, n, Front(ops)), Last(ops));
    }
  }

  /** Entering Closed, by recovery or by `reset`, leaves nothing a new breaker would not have. */
  lemma ClosedIsFresh(c: Config, m: Machine, op: Op, wait: Duration)
    requires ValidConfig(c) && EntersClosed(c, m, op)
    ensures Alike(Step(c, m, op).0, New(wait))
  {
  }

  /**
   * After any past that ends by entering Closed, every future run shows the states, returned transitions, waits and
   * window of a newly built breaker given the same operations; the lifetime counters keep a constant offset.
   */
  lemma NoMemoryAcrossRecovery(
    c: Config, wait: Duration, freshWait: Duration, past: seq<Op>, op: Op, future: seq<Op>, now: real)
    requires ValidConfig(c) && EntersClosed(c, Run(c, New(wait), past), op)
    ensures var m, n := Run(c, New(wait), past + [op] + future), Run(c, New(freshWait), future);
            && Alike(m, n) && Current(m, now) == Current(n, now)
            && SameGrowth(Run(c, New(wait), past + [op]), m, New(freshWait), n)
    ensures future != [] ==> LastResult(c, New(wait), past + [op] + future) == LastResult(c, New(freshWait), future)
  {
    var entered := Run(c, New(wait), past + [op]);
    RunSnoc(c, New(wait), past, op);
    ClosedIsFresh(c, Run(c, New(wait), past), op, freshWait);
    AlikeRuns(c, entered, New(freshWait), future);
    RunConcat(c, New(wait), past + [op], future);
    if future != [] {
      assert Front(past + [op] + future) == past + [op] + Front(future);
      RunConcat(c, New(wait), past + [op], Front(future));
    }
  }
}

/** The backoff of Open episodes over whole runs: the attempt counter, and the waits it feeds. */
module Waits {
  import opened Prelude
  import opened Config
  import opened Backoff
  import opened Machine
  import opened Reference
  import Recovery

  /** While a circuit is not Closed, its wait is the one of its saturated trip count: exactly so without jitter. */
  lemma WaitFollowsTrips(c: Config, wait: Duration, ops: seq<Op>)
    requires ValidConfig(c) && Run(c, New(wait), ops).current != Closed
    ensures var attempt := Min(RefRun(c, wait, ops).trips, U32_MAX);
            && 1 <= attempt
            && WaitInRange(c.backoff, attempt, Run(c, New(wait), ops).waitDuration)
            && (JitterOf(c.backoff) == 0.0 ==> Run(c, New(wait), ops).waitDuration == BaseWait(c.backoff, attempt))
  {
    hide Run, RefRun, BaseWait, Times, JitterOf;
    RunRefines(c, wait, ops);
    TimesUnit(BaseWait(c.backoff, Min(RefRun(c, wait, ops).trips, U32_MAX)));
  }

  /** No operation of `ops` enters Closed. */
  predicate NoRecovery(c: Config, m: Machine, ops: seq<Op>)
    requires ValidConfig(c)
  {
    ops == [] || (NoRecovery(c, m, Front(ops)) && !EntersClosed(c, Run(c, m, Front(ops)), Last(ops)))
  }

  lemma TripsStep(c: Config, m: Machine, r: Reference, op: Op)
    requires ValidConfig(c) && Inv(c, m, r)
    ensures RefStep(c, r, op).0.trips
         == if EntersClosed(c, m, op) then 0 else r.trips + Bit(EntersOpen(c, m, op))
  {
    hide Step, TripRule, WaitFor, Inv;
    StepInv(c, m, r, op);
  }

  /** The operations that enter Open, counted over the operations themselves. */
  function TripsIn(c: Config, m: Machine, ops: seq<Op>): nat
    requires ValidConfig(c)
  {
    if ops == [] then 0 else TripsIn(c, m, Front(ops)) + Bit(EntersOpen(c, Run(c, m, Front(ops)), Last(ops)))
  }

  /** The circuit last entered Closed after `k` of these operations: when new, or by the operation before. */
  predicate LastEntersClosed(c: Config, wait: Duration, ops: seq<Op>, k: nat)
    requires ValidConfig(c)
  {
    && k <= |ops|
    && (0 < k ==> EntersClosed(c, Run(c, New(wait), ops[..k - 1]), ops[k - 1]))
    && NoRecovery(c, Run(c, New(wait), ops[..k]), ops[k..])
  }

  lemma {:induction false} TripsSinceRecovery(c: Config, wait: Duration, ops: seq<Op>) returns (k: nat)
    requires ValidConfig(c)
    ensures LastEntersClosed(c, wait, ops, k)
    ensures RefRun(c, wait, ops).trips == TripsIn(c, Run(c, New(wait), ops[..k]), ops[k..])
  {
    hide Step, RefStep, EntersClosed, EntersOpen, Inv, Run;
    if ops == [] {
      k := 0;
    } else {
      var front, op := Front(ops), Last(ops);
      RunRefines(c, wait, front);
      TripsStep(c, Run(c, New(wait), front), RefRun(c, wait, front), op);
      if EntersClosed(c, Run(c, New(wait), front), op) {
        k := |ops|;
        assert ops[..k - 1] == front;
      } else {
        k := TripsSinceRecovery(c, wait, front);
        assert front[..k] == ops[..k] && Front(ops[k..]) == front[k..] && front == front[..k] + front[k..];
        assert 0 < k ==> front[..k - 1] == ops[..k - 1];
        RunConcat(c, New(wait), front[..k], front[k..]);
      }
    }
  }

  /** The attempt counter is the number of entries to Open since the last entry to Closed, saturated. */
  lemma AttemptsCountTrips(c: Config, wait: Duration, ops: seq<Op>) returns (k: nat)
    requires ValidConfig(c)
    ensures LastEntersClosed(c, wait, ops, k)
    ensures Run(c, New(wait), ops).openAttempts
         == Min(TripsIn(c, Run(c, New(wait), ops[..k]), ops[k..]), U32_MAX)
  {
    hide LastEntersClosed, TripsIn, Run, RefRun;
    RunRefines(c, wait, ops);
    k := TripsSinceRecovery(c, wait, ops);
  }

  lemma {:induction false} TripsOnlyGrow(c: Config, wait: Duration, past: seq<Op>, more: seq<Op>)
    requires ValidConfig(c) && NoRecovery(c, Run(c, New(wait), past), more)
    ensures RefRun(c, wait, past).trips <= RefRun(c, wait, past + more).trips
  {
    hide Step, RefStep, EntersClosed, EntersOpen, Inv;
    if more == [] {
      assert past + more == past;
    } else {
      assert Front(past + more) == past + Front(more);
      TripsOnlyGrow(c, wait, past, Front(more));
      RunConcat(c, New(wait), past, Front(more));
      RunRefines(c, wait, past + Front(more));
      TripsStep(c, Run(c, New(wait), past + Front(more)), RefRun(c, wait, past + Front(more)), Last(more));
    }
  }

  /**
   * Successive waits without a recovery in between never shrink for a factor of at least 1 and no jitter, and no
   * wait of an exponential strategy, jittered or not, ever exceeds `max`.
   */
  lemma SuccessiveWaitsGrow(c: Config, wait: Duration, past: seq<Op>, more: seq<Op>)
    requires ValidConfig(c) && NoRecovery(c, Run(c, New(wait), past), more)
    requires Run(c, New(wait), past).current != Closed && Run(c, New(wait), past + more).current != Closed
    ensures var w1, w2 := Run(c, New(wait), past).waitDuration, Run(c, New(wait), past + more).waitDuration;
            && (JitterOf(c.backoff) == 0.0 && (c.backoff.Fixed? || 1.0 <= c.backoff.factor) ==> w1 <= w2)
            && (!c.backoff.Fixed? ==> w1 <= c.backoff.max && w2 <= c.backoff.max)
  {
    WaitFollowsTrips(c, wait, past);
    WaitFollowsTrips(c, wait, past + more);
    TripsOnlyGrow(c, wait, past, more);
    if c.backoff.Fixed? || 1.0 <= c.backoff.factor {
      BaseWaitMonotone(c.backoff, Min(RefRun(c, wait, past).trips, U32_MAX),
                       Min(RefRun(c, wait, past + more).trips, U32_MAX));
    }
  }

  /** What entering Open leaves behind. */
  lemma EntryToOpen(c: Config, m: Machine, op: Op)
    requires ValidConfig(c) && (op.Failure? || op.Trip?) && EntersOpen(c, m, op)
    ensures var n := Step(c, m, op).0;
            && n.current == Open && n.openSince == Some(op.now)
            && n.waitDuration == WaitFor(c.backoff, SaturatingIncrement(m.openAttempts), op.draw)
  {
    hide WaitFor, ShouldTrip;
  }

  /**
   * An Open episode, whatever is recorded in it: it lasts exactly as long as the wait of its trip count since the last
   * recovery, with the sample drawn for it, and reads HalfOpen from the very instant the wait has elapsed.
   */
  lemma OpenLastsItsWait(c: Config, wait: Duration, ops: seq<Op>, op: Op, later: seq<Op>, now: real) returns (k: nat)
    requires ValidConfig(c) && (op.Failure? || op.Trip?) && EntersOpen(c, Run(c, New(wait), ops), op)
    requires var m := Run(c, New(wait), ops + [op]);
             Unforced(later) && forall i :: 0 <= i < |later| ==> Current(m, later[i].now) == Open
    ensures LastEntersClosed(c, wait, ops, k)
    ensures var attempt := Min(TripsIn(c, Run(c, New(wait), ops[..k]), ops[k..]) + 1, U32_MAX);
            Current(Run(c, New(wait), ops + [op] + later), now)
            == if now - op.now < WaitFor(c.backoff, attempt, op.draw) then Open else HalfOpen
  {
    hide Step, WaitFor, EntersOpen, LastEntersClosed, TripsIn, Run, RefRun;
    k := AttemptsCountTrips(c, wait, ops);
    EntryToOpen(c, Run(c, New(wait), ops), op);
    RunSnoc(c, New(wait), ops, op);
    RunConcat(c, New(wait), ops + [op], later);
    Recovery.OpenWaits(c, Run(c, New(wait), ops + [op]), later);
  }
}

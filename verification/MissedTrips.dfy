/**
 * The circuit is documented to be Open whenever the trip rule holds, but the code checks the rule on failures only.
 * This module says for exactly which configurations a Closed circuit can meet the rule.
 */
module MissedTrips {
  import opened Prelude
  import opened Config
  import opened Backoff
  import opened Outcomes
  import opened Machine
  import opened Reference
  import Accounting

  /** After `ops` the circuit is Closed although the documented rule holds of the episode. */
  predicate Missed(c: Config, wait: Duration, ops: seq<Op>)
    requires ValidConfig(c)
  {
    Run(c, New(wait), ops).current == Closed && TripRule(c, RefRun(c, wait, ops).history)
  }

  /** The fewest failures among `minimumCalls` outcomes that reach the rate. */
  function RateFailures(c: Config): int {
    Accounting.Ceiling(Times(c.failureRateThreshold, c.minimumCalls as real))
  }

  /** That many failures fit among `minimumCalls` outcomes, the last a success, without a streak that trips. */
  predicate CanMiss(c: Config) {
    && 0.0 < c.failureRateThreshold
    && RateFailures(c) * c.consecutiveFailures <= c.minimumCalls * (c.consecutiveFailures - 1)
  }

  /** No prefix ends in a streak of `n` failures. */
  predicate Calm(n: nat, h: seq<bool>) {
    forall k :: 0 <= k <= |h| ==> Streak(h[..k]) < n
  }

  lemma EmptyIsCalm(n: nat)
    requires 1 <= n
    ensures Calm(n, [])
  {
  }

  lemma CalmSnoc(n: nat, h: seq<bool>, failed: bool)
    requires Calm(n, h) && Streak(h + [failed]) < n
    ensures Calm(n, h + [failed])
  {
    forall k | 0 <= k <= |h| + 1 ensures Streak((h + [failed])[..k]) < n {
      if k <= |h| {
        assert (h + [failed])[..k] == h[..k];
      } else {
        assert (h + [failed])[..k] == h + [failed];
      }
    }
  }

  /** The history of a Closed circuit never contained a streak that trips. */
  lemma {:induction false} ClosedHistoryIsCalm(c: Config, wait: Duration, ops: seq<Op>)
    requires ValidConfig(c)
    ensures RefRun(c, wait, ops).phase == Closed ==> Calm(c.consecutiveFailures, RefRun(c, wait, ops).history)
  {
    if ops != [] {
      ClosedHistoryIsCalm(c, wait, Front(ops));
      CalmStep(c, RefRun(c, wait, Front(ops)), Last(ops));
    }
  }

  lemma CalmStep(c: Config, r: Reference, op: Op)
    requires ValidConfig(c) && (r.phase == Closed ==> Calm(c.consecutiveFailures, r.history))
    ensures var n := RefStep(c, r, op).0; n.phase == Closed ==> Calm(c.consecutiveFailures, n.history)
  {
    hide Rate, LastN, Streak, WaitFor;
    EmptyIsCalm(c.consecutiveFailures);
    var h := r.history;
    if r.phase == Closed && !op.Forced() {
      StreakSnoc(h, op.Failure?);
      if Streak(h + [op.Failure?]) < c.consecutiveFailures {
        CalmSnoc(c.consecutiveFailures, h, op.Failure?);
      }
    }
  }

  /** Between two successes, and after the last, there are at most `n - 1` failures. */
  lemma {:induction false} CalmBound(n: nat, h: seq<bool>)
    requires 1 <= n && Calm(n, h)
    ensures Failures(h) <= (|h| - Failures(h)) * (n - 1) + Streak(h)
  {
    if h != [] {
      var front := Front(h);
      assert forall k :: 0 <= k <= |front| ==> front[..k] == h[..k];
      CalmBound(n, front);
      assert Streak(h[..|front|]) < n;
      var s := |front| - Failures(front);
      assert (s + 1) * (n - 1) == s * (n - 1) + (n - 1);
    }
  }

  /** Successes only lower the rate: it was at least as high before them. */
  lemma {:induction false} RateBeforeSuccesses(h: seq<bool>, capacity: nat, k: nat)
    requires 1 <= capacity && k <= |h|
    requires forall i :: k <= i < |h| ==> !h[i]
    ensures Rate(LastN(h, capacity)) <= Rate(LastN(h[..k], capacity))
  {
    hide Rate, LastN, Push;
    if k == |h| {
      assert h[..k] == h;
    } else {
      var front := Front(h);
      assert front[..k] == h[..k] && h == front + [false];
      RateBeforeSuccesses(front, capacity, k);
      PushKeepsLastN(front, capacity, false);
      SuccessNeverRaisesRate(LastN(front, capacity), capacity);
    }
  }

  lemma MulOrder(a: int, b: int, n: nat)
    requires a <= b
    ensures a * n <= b * n
  {
  }

  lemma FitBound(least: int, f: int, k: int, n: int)
    requires 1 <= n && least <= f && f <= (k - f) * (n - 1)
    ensures least * n <= k * (n - 1)
  {
    assert (k - f) * (n - 1) == k * (n - 1) - f * n + f;
    MulOrder(least, f, n);
  }

  /** A calm history that meets the rule on successes alone has the needed failures in its first `minimumCalls`. */
  lemma RuleOnSuccessesFits(c: Config, h: seq<bool>)
    requires ValidConfig(c) && Calm(c.consecutiveFailures, h) && TripRule(c, h)
    requires forall i: nat :: c.minimumCalls <= i + 1 && i < |h| ==> !h[i]
    ensures CanMiss(c)
  {
    assert Streak(h[..|h|]) < c.consecutiveFailures && h[..|h|] == h;
    hide Rate, LastN, Streak, Failures, Times, Accounting.Ceiling, Push, TripRule;
    RateRuleOf(c, h);
    var k := c.minimumCalls;
    var g := h[..k];
    RateBeforeSuccesses(h, c.slidingWindowSize, k);
    ShortHistory(g, c.slidingWindowSize);
    RateAtLeast(g, c.failureRateThreshold);
    Accounting.CeilingIsLeast(Times(c.failureRateThreshold, k as real), Failures(g));
    assert forall i :: 0 <= i <= |g| ==> g[..i] == h[..i];
    CalmBound(c.consecutiveFailures, g);
    NoStreakAfterSuccess(g);
    FitBound(RateFailures(c), Failures(g), k, c.consecutiveFailures);
  }

  lemma RateRuleOf(c: Config, h: seq<bool>)
    requires TripRule(c, h) && Streak(h) < c.consecutiveFailures
    ensures 0.0 < c.failureRateThreshold && c.minimumCalls <= |h|
    ensures Rate(LastN(h, c.slidingWindowSize)) >= c.failureRateThreshold
  {
  }

  lemma ShortHistory(h: seq<bool>, n: nat)
    requires |h| <= n
    ensures LastN(h, n) == h
  {
  }

  lemma NoStreakAfterSuccess(h: seq<bool>)
    requires h != [] && !Last(h)
    ensures Streak(h) == 0
  {
  }

  /** A missed trip shows that the failures fit. */
  lemma MissedImpliesCanMiss(c: Config, wait: Duration, ops: seq<Op>)
    requires ValidConfig(c) && Missed(c, wait, ops)
    ensures CanMiss(c)
  {
    hide Step, RefStep, Run, RefRun, TripRule, CanMiss, Streak;
    var r := RefRun(c, wait, ops);
    RunRefines(c, wait, ops);
    ClosedHistoryIsCalm(c, wait, ops);
    assert Streak(r.history[..|r.history|]) < c.consecutiveFailures && r.history[..|r.history|] == r.history;
    RateRuleOf(c, r.history);
    RateReachedOnlyBySuccesses(c, wait, ops);
    RuleOnSuccessesFits(c, r.history);
  }

  /** The densest calm pattern: a success at every `n`-th place. */
  function Dense(n: nat, k: nat): seq<bool>
    requires 1 <= n
  {
    if k == 0 then [] else Dense(n, k - 1) + [k % n != 0]
  }

  lemma {:induction false} DenseShape(n: nat, k: nat)
    requires 1 <= n
    ensures |Dense(n, k)| == k && Streak(Dense(n, k)) == k % n && Failures(Dense(n, k)) == k - k / n
  {
    if k > 0 {
      DenseShape(n, k - 1);
      StreakSnoc(Dense(n, k - 1), k % n != 0);
      FailuresSnoc(Dense(n, k - 1), k % n != 0);
      NextMultiple(k - 1, n);
    }
  }

  lemma NextMultiple(k: nat, n: nat)
    requires 1 <= n
    ensures (k + 1) / n == k / n + Bit((k + 1) % n == 0)
    ensures (k + 1) % n == if k % n + 1 == n then 0 else k % n + 1
  {
    var q, r := k / n, k % n;
    assert k == q * n + r;
    if r + 1 == n {
      assert k + 1 == (q + 1) * n;
      DivisionIsUnique(k + 1, n, q + 1, 0);
    } else {
      DivisionIsUnique(k + 1, n, q, r + 1);
    }
  }

  lemma DivisionIsUnique(x: nat, n: nat, q: nat, r: nat)
    requires 1 <= n && x == q * n + r && r < n
    ensures x / n == q && x % n == r
  {
    var p := x / n;
    assert x == p * n + x % n;
    if p < q {
      MulOrder(p + 1, q, n);
      assert false;
    } else if q < p {
      MulOrder(q + 1, p, n);
      assert false;
    }
  }

  /** The operations that record a history. */
  function Recording(h: seq<bool>): seq<Op> {
    if h == [] then [] else Recording(Front(h)) + [if Last(h) then Failure(0.0, 0.0) else Success(0.0)]
  }

  lemma RecordingSnoc(h: seq<bool>, failed: bool)
    ensures Recording(h + [failed]) == Recording(h) + [if failed then Failure(0.0, 0.0) else Success(0.0)]
  {
    assert Front(h + [failed]) == h;
  }

  /** One more outcome of a Closed reference that does not meet the rule. */
  lemma StaysClosed(c: Config, r: Reference, failed: bool)
    requires r.phase == Closed && (failed ==> !TripRule(c, r.history + [true]))
    ensures var n := RefStep(c, r, if failed then Failure(0.0, 0.0) else Success(0.0)).0;
            n.phase == Closed && n.history == r.history + [failed]
  {
    hide TripRule;
  }

  lemma DenseDoesNotTrip(c: Config, k: nat)
    requires ValidConfig(c) && k < c.minimumCalls
    ensures !TripRule(c, Dense(c.consecutiveFailures, k))
  {
    hide Rate, LastN, Streak, Failures, Dense;
    DenseShape(c.consecutiveFailures, k);
  }

  lemma DenseSnoc(n: nat, k: nat)
    requires 1 <= n && 1 <= k
    ensures Dense(n, k) == Dense(n, k - 1) + [k % n != 0]
  {
  }

  /** Recording `h` leaves a new circuit Closed, with that history. */
  predicate RecordedClosed(c: Config, wait: Duration, h: seq<bool>) {
    var r := RefRun(c, wait, Recording(h));
    r.phase == Closed && r.history == h
  }

  lemma RecordOneMore(c: Config, wait: Duration, h: seq<bool>, failed: bool)
    requires RecordedClosed(c, wait, h) && (failed ==> !TripRule(c, h + [true]))
    ensures RecordedClosed(c, wait, h + [failed])
  {
    hide TripRule, RefStep, Recording;
    RecordingSnoc(h, failed);
    StaysClosed(c, RefRun(c, wait, Recording(h)), failed);
    assert Front(Recording(h + [failed])) == Recording(h);
  }

  lemma NothingRecorded(c: Config, wait: Duration)
    ensures RecordedClosed(c, wait, [])
  {
  }

  /** Below `minimumCalls`, the dense pattern leaves a new circuit Closed. */
  lemma {:induction false} DenseStaysClosed(c: Config, wait: Duration, k: nat)
    requires ValidConfig(c) && k < c.minimumCalls
    ensures RecordedClosed(c, wait, Dense(c.consecutiveFailures, k))
  {
    hide TripRule, RecordedClosed;
    if k == 0 {
      NothingRecorded(c, wait);
    } else {
      var n := c.consecutiveFailures;
      DenseStaysClosed(c, wait, k - 1);
      DenseSnoc(n, k);
      DenseDoesNotTrip(c, k);
      RecordOneMore(c, wait, Dense(n, k - 1), k % n != 0);
    }
  }

  /** The dense pattern completed by a success meets the rule when the failures fit. */
  lemma DenseMeetsRule(c: Config)
    requires ValidConfig(c) && CanMiss(c)
    ensures TripRule(c, Dense(c.consecutiveFailures, c.minimumCalls - 1) + [false])
  {
    hide Rate, LastN, Streak, Failures, Times, Accounting.Ceiling;
    var n, k := c.consecutiveFailures, c.minimumCalls;
    var g := Dense(n, k - 1) + [false];
    DenseShape(n, k - 1);
    FailuresSnoc(Dense(n, k - 1), false);
    DenseHoldsEnough(RateFailures(c), k, n);
    ShortHistory(g, c.slidingWindowSize);
    Accounting.CeilingIsLeast(Times(c.failureRateThreshold, k as real), Failures(g));
    RateAtLeast(g, c.failureRateThreshold);
  }

  /** When the failures fit, the dense pattern and one success miss a trip. */
  lemma CanMissIsMissed(c: Config, wait: Duration)
    requires ValidConfig(c) && CanMiss(c)
    ensures exists ops :: Missed(c, wait, ops)
  {
    hide Step, RefStep, Run, TripRule, CanMiss;
    var h := Dense(c.consecutiveFailures, c.minimumCalls - 1);
    var ops := Recording(h) + [Success(0.0)];
    DenseStaysClosed(c, wait, c.minimumCalls - 1);
    assert Front(ops) == Recording(h);
    StaysClosed(c, RefRun(c, wait, Recording(h)), false);
    DenseMeetsRule(c);
    RunRefines(c, wait, ops);
    assert Missed(c, wait, ops);
  }

  lemma DenseHoldsEnough(least: int, k: nat, n: nat)
    requires 1 <= n && 1 <= k && least * n <= k * (n - 1)
    ensures least <= (k - 1) - (k - 1) / n
  {
    var q, r := (k - 1) / n, (k - 1) % n;
    var f := (k - 1) - q;
    assert k - 1 == q * n + r;
    assert k * (n - 1) == k * n - k;
    assert (f + 1) * n == k * n - q * n;
    if least >= f + 1 {
      MulOrder(f + 1, least, n);
      assert false;
    }
  }

  /**
   * Exactly when the code can leave a circuit Closed although the documented rule holds: the rate rule is enabled and
   * ceil(threshold * minimumCalls) failures fit among `minimumCalls` outcomes without a streak that trips.
   */
  lemma MissedTripsExact(c: Config, wait: Duration)
    requires ValidConfig(c)
    ensures (exists ops :: Missed(c, wait, ops)) <==> CanMiss(c)
  {
    if CanMiss(c) {
      CanMissIsMissed(c, wait);
    }
    forall ops | Missed(c, wait, ops) ensures CanMiss(c) {
      MissedImpliesCanMiss(c, wait, ops);
    }
  }
}

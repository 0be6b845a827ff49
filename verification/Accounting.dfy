/** What the returned transitions and the lifetime counters say about each other over whole runs. */
module Accounting {
  import opened Prelude
  import opened Config
  import opened Backoff
  import opened Outcomes
  import opened Machine
  import opened Reference

  type Pair = (State, State)

  /** The transitions returned by the record operations of a run, in lock order. */
  function Pairs(c: Config, m: Machine, ops: seq<Op>): seq<Pair>
    requires ValidConfig(c)
  {
    if ops == [] then []
    else
      var r := LastResult(c, m, ops);
      Pairs(c, m, Front(ops)) + (if r.Some? then [r.value] else [])
  }

  function Occurrences(p: Pair, ps: seq<Pair>): nat {
    if ps == [] then 0 else Occurrences(p, Front(ps)) + Bit(Last(ps) == p)
  }

  function Initial(ps: seq<Pair>): nat { Occurrences((Closed, Open), ps) }
  function Retrips(ps: seq<Pair>): nat { Occurrences((HalfOpen, Open), ps) }
  function Recoveries(ps: seq<Pair>): nat { Occurrences((HalfOpen, Closed), ps) }

  /** How many records found an expired Open circuit: the upgrades, which are never returned. */
  function Upgrades(c: Config, m: Machine, ops: seq<Op>): nat
    requires ValidConfig(c)
  {
    if ops == [] then 0
    else
      Upgrades(c, m, Front(ops)) + Bit(!Last(ops).Forced() && Expired(Run(c, m, Front(ops)), Last(ops).now))
  }

  lemma OccurrencesSnoc(p: Pair, ps: seq<Pair>, last: Pair)
    ensures Occurrences(p, ps + [last]) == Occurrences(p, ps) + Bit(last == p)
  {
    assert Front(ps + [last]) == ps;
  }

  lemma CountsSnoc(ps: seq<Pair>, last: Pair)
    ensures Initial(ps + [last]) == Initial(ps) + Bit(last == (Closed, Open))
    ensures Retrips(ps + [last]) == Retrips(ps) + Bit(last == (HalfOpen, Open))
    ensures Recoveries(ps + [last]) == Recoveries(ps) + Bit(last == (HalfOpen, Closed))
  {
    OccurrencesSnoc((Closed, Open), ps, last);
    OccurrencesSnoc((HalfOpen, Open), ps, last);
    OccurrencesSnoc((HalfOpen, Closed), ps, last);
  }

  /** One unforced operation: at most an upgrade, then at most the returned transition. */
  lemma StepTally(c: Config, m: Machine, op: Op)
    requires ValidConfig(c) && !op.Forced()
    ensures var (n, r) := Step(c, m, op);
            && n.transitions == m.transitions + Bit(Expired(m, op.now)) + Bit(r.Some?)
            && (r.None? ==> n.current == Current(m, op.now))
            && (r.Some? ==> r.value == (Current(m, op.now), n.current)
                            && r.value in {(Closed, Open), (HalfOpen, Open), (HalfOpen, Closed)})
  {
    hide Push, ShouldTrip, WaitFor;
  }

  /**
   * Conservation: every counted transition is an initial trip, a re-trip, an upgrade or a recovery, and each kind
   * balances the others up to the state the machine is in now.
   */
  lemma {:induction false} TransitionsAreConserved(c: Config, wait: Duration, ops: seq<Op>)
    requires ValidConfig(c) && Unforced(ops)
    ensures var m, ps, u := Run(c, New(wait), ops), Pairs(c, New(wait), ops), Upgrades(c, New(wait), ops);
            && |ps| == Initial(ps) + Retrips(ps) + Recoveries(ps)
            && m.transitions == Initial(ps) + Retrips(ps) + u + Recoveries(ps)
            && Initial(ps) == Recoveries(ps) + Bit(m.current != Closed)
            && Initial(ps) + Retrips(ps) == u + Bit(m.current == Open)
            && u == Retrips(ps) + Recoveries(ps) + Bit(m.current == HalfOpen)
  {
    hide Step;
    if ops != [] {
      TransitionsAreConserved(c, wait, Front(ops));
      StepTally(c, Run(c, New(wait), Front(ops)), Last(ops));
      var r := LastResult(c, New(wait), ops);
      assert !Last(ops).Forced();
      if r.Some? {
        CountsSnoc(Pairs(c, New(wait), Front(ops)), r.value);
      } else {
        assert Pairs(c, New(wait), ops) == Pairs(c, New(wait), Front(ops));
      }
    }
  }

  /** A forced operation counts one transition and returns none, whatever the state it finds. */
  lemma ForcedTally(c: Config, m: Machine, op: Op)
    requires ValidConfig(c) && op.Forced()
    ensures var (n, r) := Step(c, m, op);
            && n.transitions == m.transitions + 1 && r.None?
            && n.current == if op.Trip? then Open else Closed
  {
    hide WaitFor;
  }

  function Forcings(ops: seq<Op>): nat {
    if ops == [] then 0 else Forcings(Front(ops)) + Bit(Last(ops).Forced())
  }

  /** Over all runs from all states, forced or not: `transitions` is returned pairs, upgrades and forced operations. */
  lemma {:induction false} EveryTransitionIsCounted(c: Config, m: Machine, ops: seq<Op>)
    requires ValidConfig(c)
    ensures Run(c, m, ops).transitions == m.transitions + |Pairs(c, m, ops)| + Upgrades(c, m, ops) + Forcings(ops)
  {
    hide Step;
    if ops != [] {
      EveryTransitionIsCounted(c, m, Front(ops));
      if Last(ops).Forced() {
        ForcedTally(c, Run(c, m, Front(ops)), Last(ops));
      } else {
        StepTally(c, Run(c, m, Front(ops)), Last(ops));
      }
    }
  }

  /** Where the next returned pair must start: an Open circuit is only ever left through an unreported upgrade. */
  function Resume(end: State): State {
    if end == Open then HalfOpen else end
  }

  predicate Chain(ps: seq<Pair>) {
    && (ps != [] ==> ps[0].0 == Closed)
    && forall i :: 0 < i < |ps| ==> ps[i].0 == Resume(ps[i - 1].1)
  }

  function EndOf(ps: seq<Pair>): State {
    if ps == [] then Closed else Last(ps).1
  }

  /** The returned pairs form a chain from Closed that ends at the stored state, up to an applied upgrade. */
  lemma {:induction false} PairsFormChain(c: Config, wait: Duration, ops: seq<Op>)
    requires ValidConfig(c) && Unforced(ops)
    ensures Chain(Pairs(c, New(wait), ops))
    ensures var m, end := Run(c, New(wait), ops), EndOf(Pairs(c, New(wait), ops));
            m.current == end || (end == Open && m.current == HalfOpen)
  {
    hide Step;
    if ops != [] {
      PairsFormChain(c, wait, Front(ops));
      StepTally(c, Run(c, New(wait), Front(ops)), Last(ops));
      assert !Last(ops).Forced();
    }
  }

  function StartingAt(s: State, ps: seq<Pair>): nat {
    if ps == [] then 0 else StartingAt(s, Front(ps)) + Bit(Last(ps).0 == s)
  }

  lemma {:induction false} HalfOpenStarts(ps: seq<Pair>)
    requires |ps| == Initial(ps) + Retrips(ps) + Recoveries(ps)
    ensures StartingAt(HalfOpen, ps) == Retrips(ps) + Recoveries(ps)
  {
    if ps != [] {
      assert ps == Front(ps) + [Last(ps)];
      CountsSnoc(Front(ps), Last(ps));
      KindsBound(Front(ps));
      HalfOpenStarts(Front(ps));
    }
  }

  lemma {:induction false} KindsBound(ps: seq<Pair>)
    ensures Initial(ps) + Retrips(ps) + Recoveries(ps) <= |ps|
  {
    if ps != [] {
      KindsBound(Front(ps));
    }
  }

  /** The returned pairs and the stored state determine the `transitions` counter. */
  lemma PairsDetermineCounter(c: Config, wait: Duration, ops: seq<Op>)
    requires ValidConfig(c) && Unforced(ops)
    ensures var m, ps := Run(c, New(wait), ops), Pairs(c, New(wait), ops);
            m.transitions == |ps| + StartingAt(HalfOpen, ps) + Bit(m.current == HalfOpen)
  {
    TransitionsAreConserved(c, wait, ops);
    HalfOpenStarts(Pairs(c, New(wait), ops));
  }

  function Ceiling(x: real): int {
    -((-x).Floor)
  }

  /** The ceiling is the least integer not below. */
  lemma CeilingIsLeast(x: real, n: int)
    ensures n as real >= x <==> n >= Ceiling(x)
  {
  }

  /** The least number of failures a trip by either rule takes. */
  function TripFloor(c: Config): int {
    if c.failureRateThreshold == 0.0
    then c.consecutiveFailures
    else Min(c.consecutiveFailures, Ceiling(Times(c.failureRateThreshold, c.minimumCalls as real)))
  }

  predicate HasTrip(ops: seq<Op>) {
    exists i :: 0 <= i < |ops| && ops[i].Trip?
  }

  /** A history that satisfies the trip rule holds at least `TripFloor` failures. */
  lemma RuleNeedsFailures(c: Config, h: seq<bool>)
    requires ValidConfig(c) && TripRule(c, h)
    ensures Failures(h) >= TripFloor(c)
  {
    StreakIsTrailingRun(h);
    var w := LastN(h, c.slidingWindowSize);
    FailuresOfLastN(h, c.slidingWindowSize);
    if Streak(h) < c.consecutiveFailures {
      RateAtLeast(w, c.failureRateThreshold);
      TimesMonotone(c.failureRateThreshold, c.minimumCalls as real, |w| as real);
    }
  }

  lemma HistoryGrowth(c: Config, r: Reference, op: Op)
    ensures Failures(RefStep(c, r, op).0.history) <= Failures(r.history) + Bit(op.Failure?)
  {
    hide TripRule, WaitFor;
    FailuresSnoc(r.history, op.Failure?);
  }

  /** Failures of the episode are failures of the lifetime. */
  lemma {:induction false} EpisodeWithinLifetime(c: Config, wait: Duration, ops: seq<Op>)
    requires ValidConfig(c)
    ensures Failures(RefRun(c, wait, ops).history) <= Run(c, New(wait), ops).totalFailures
  {
    hide Step, RefStep;
    if ops != [] {
      EpisodeWithinLifetime(c, wait, Front(ops));
      HistoryGrowth(c, RefRun(c, wait, Front(ops)), Last(ops));
      StepTotals(c, Run(c, New(wait), Front(ops)), Last(ops));
    }
  }

  /**
   * In every run, a circuit that is not Closed was forced by `trip`, or has recorded the failures a trip takes: the
   * streak length, or with the rate rule enabled the lesser of it and ceil(threshold * minimumCalls).
   */
  lemma {:induction false} OpenTakesFailures(c: Config, wait: Duration, ops: seq<Op>, now: real)
    requires ValidConfig(c) && !HasTrip(ops)
    ensures var m := Run(c, New(wait), ops);
            (m.current != Closed ==> m.totalFailures >= TripFloor(c))
            && (Current(m, now) == Open ==> m.totalFailures >= TripFloor(c))
  {
    hide Push, ShouldTrip, WaitFor, TripFloor, TripRule;
    if ops != [] {
      var front, op := Front(ops), Last(ops);
      assert op == ops[|ops| - 1];
      assert forall i :: 0 <= i < |front| ==> front[i] == ops[i];
      OpenTakesFailures(c, wait, front, now);
      var m, h := Run(c, New(wait), front), RefRun(c, wait, front).history;
      if op.Failure? && m.current == Closed {
        TripsExactlyByRule(c, wait, front, op);
        EpisodeWithinLifetime(c, wait, front);
        FailuresSnoc(h, true);
        if TripRule(c, h + [true]) {
          RuleNeedsFailures(c, h + [true]);
        }
      }
    }
  }

  /** `a` successes, then `k` failures. */
  function Mixed(now: real, draw: Sample, a: nat, k: nat): seq<Op> {
    if k > 0 then Mixed(now, draw, a, k - 1) + [Failure(now, draw)]
    else if a > 0 then Mixed(now, draw, a - 1, 0) + [Success(now)]
    else []
  }

  lemma {:induction false} MixedIsUnforced(now: real, draw: Sample, a: nat, k: nat)
    ensures Unforced(Mixed(now, draw, a, k))
    decreases k, a
  {
    if k > 0 {
      MixedIsUnforced(now, draw, a, k - 1);
    } else if a > 0 {
      MixedIsUnforced(now, draw, a - 1, 0);
    }
  }

  /** With fewer failures than the floor, none of them trips the circuit. */
  lemma {:induction false} MixedStaysClosed(c: Config, wait: Duration, now: real, draw: Sample, a: nat, k: nat)
    requires ValidConfig(c) && k < TripFloor(c)
    ensures var ops := Mixed(now, draw, a, k);
            var r := RefRun(c, wait, ops);
            && r.phase == Closed && |r.history| == a + k && Failures(r.history) == k <= Streak(r.history)
            && Run(c, New(wait), ops).totalFailures == k
    decreases k, a
  {
    hide Step, TripRule, WaitFor, TripFloor, Times;
    if k + a > 0 {
      var a0, k0 := if k > 0 then a else a - 1, if k > 0 then k - 1 else 0;
      var front, op := Mixed(now, draw, a0, k0), if k > 0 then Failure(now, draw) else Success(now);
      MixedStaysClosed(c, wait, now, draw, a0, k0);
      var h := RefRun(c, wait, front).history;
      assert Mixed(now, draw, a, k) == front + [op] && Front(front + [op]) == front;
      RunSnoc(c, New(wait), front, op);
      StepTotals(c, Run(c, New(wait), front), op);
      FailuresSnoc(h, op.Failure?);
      StreakSnoc(h, op.Failure?);
      if TripRule(c, h + [true]) {
        RuleNeedsFailures(c, h + [true]);
      }
    }
  }

  /** One more failure meets the rule, if enough successes came before. */
  lemma FloorMeetsRule(c: Config, h: seq<bool>)
    requires ValidConfig(c) && Failures(h) == TripFloor(c) <= Streak(h)
    requires c.failureRateThreshold != 0.0 && TripFloor(c) < c.consecutiveFailures ==> |h| == c.minimumCalls
    ensures TripRule(c, h)
  {
    hide Rate, Times, Streak, Failures;
    if Streak(h) < c.consecutiveFailures {
      RateAtLeast(h, c.failureRateThreshold);
    }
  }

  lemma FloorBounds(c: Config)
    requires ValidConfig(c)
    ensures 1 <= TripFloor(c) <= c.consecutiveFailures
    ensures c.failureRateThreshold != 0.0 ==> TripFloor(c) <= c.minimumCalls
  {
    if c.failureRateThreshold != 0.0 {
      var n := c.minimumCalls as real;
      TimesPositive(c.failureRateThreshold, n);
      TimesCommute(c.failureRateThreshold, n);
      TimesUnit(n);
      TimesMonotone(n, c.failureRateThreshold, 1.0);
    }
  }

  /** The floor cannot be raised: for every configuration, a run with just so many failures opens the circuit. */
  lemma FloorIsReached(c: Config, wait: Duration, now: real, draw: Sample) returns (ops: seq<Op>)
    requires ValidConfig(c)
    ensures Unforced(ops)
    ensures Run(c, New(wait), ops).current == Open && Run(c, New(wait), ops).totalFailures == TripFloor(c)
  {
    hide Step, TripRule, WaitFor, TripFloor, Times, RefRun, Run;
    FloorBounds(c);
    var f := TripFloor(c);
    var a := if c.failureRateThreshold == 0.0 then 0 else c.minimumCalls - f;
    var front, op := Mixed(now, draw, a, f - 1), Failure(now, draw);
    ops := front + [op];
    MixedIsUnforced(now, draw, a, f - 1);
    MixedStaysClosed(c, wait, now, draw, a, f - 1);
    RunRefines(c, wait, front);
    var h := RefRun(c, wait, front).history;
    FailuresSnoc(h, true);
    StreakSnoc(h, true);
    FloorMeetsRule(c, h + [true]);
    TripsExactlyByRule(c, wait, front, op);
    StepTally(c, Run(c, New(wait), front), op);
    StepTotals(c, Run(c, New(wait), front), op);
    RunSnoc(c, New(wait), front, op);
  }
}

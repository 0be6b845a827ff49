/** No lockout: from every reachable state, enough successes after the deadline reach Closed. */
module Recovery {
  import opened Prelude
  import opened Config
  import opened Backoff
  import opened Machine
  import opened Reference
  import Outcomes

  /** The successes still missing; a circuit whose upgrade is pending, or still to come, needs all of them. */
  function Needed(c: Config, m: Machine): int {
    match m.current
    case Closed => 0
    case HalfOpen => c.successThreshold - m.successCount
    case Open => c.successThreshold
  }

  /** Successes only, each recorded once the current Open deadline, if there is one, has passed. */
  predicate SuccessesAfterDeadline(m: Machine, ops: seq<Op>) {
    forall i :: 0 <= i < |ops| ==> ops[i].Success? && (m.current.Open? ==> Expired(m, ops[i].now))
  }

  /** After `k` successes the circuit is Closed if and only if `k` has reached the number needed, and not before. */
  lemma {:induction false} SuccessesClose(c: Config, m: Machine, r: Reference, ops: seq<Op>)
    requires ValidConfig(c) && Inv(c, m, r) && SuccessesAfterDeadline(m, ops)
    ensures var n := Run(c, m, ops);
            && (n.current == Closed <==> |ops| >= Needed(c, m))
            && (0 < |ops| < Needed(c, m) ==>
                  n.current == HalfOpen && n.successCount == c.successThreshold - Needed(c, m) + |ops|)
    ensures ops != [] ==>
      LastResult(c, m, ops) == if |ops| == Needed(c, m) then Some((HalfOpen, Closed)) else None
  {
    hide Outcomes.Push;
    if ops != [] {
      assert Last(ops) == ops[|ops| - 1];
      SuccessesClose(c, m, r, Front(ops));
    }
  }

  /** The same from any state a run of a new breaker can reach. */
  lemma NoLockout(c: Config, wait: Duration, past: seq<Op>, ops: seq<Op>)
    requires ValidConfig(c) && SuccessesAfterDeadline(Run(c, New(wait), past), ops)
    ensures Run(c, New(wait), past + ops).current == Closed <==> |ops| >= Needed(c, Run(c, New(wait), past))
  {
    RunRefines(c, wait, past);
    SuccessesClose(c, Run(c, New(wait), past), RefRun(c, wait, past), ops);
    RunConcat(c, New(wait), past, ops);
  }

  /** Before the deadline an Open circuit only counts: no record, of either kind, moves anything else. */
  lemma {:induction false} OpenWaits(c: Config, m: Machine, ops: seq<Op>)
    requires ValidConfig(c) && m.current == Open && Unforced(ops)
    requires forall i :: 0 <= i < |ops| ==> !Expired(m, ops[i].now)
    ensures var n := Run(c, m, ops);
            && n == m.(totalSuccesses := n.totalSuccesses, totalFailures := n.totalFailures)
            && n.totalSuccesses + n.totalFailures == m.totalSuccesses + m.totalFailures + |ops|
    ensures ops != [] ==> LastResult(c, m, ops) == None
  {
    hide Outcomes.Push;
    if ops != [] {
      assert Last(ops) == ops[|ops| - 1] && !Last(ops).Forced();
      OpenWaits(c, m, Front(ops));
    }
  }

  /** Operation `i` of a run of a new breaker is a success recorded while the circuit reads HalfOpen. */
  predicate ProbedAt(c: Config, wait: Duration, ops: seq<Op>, i: nat)
    requires ValidConfig(c) && i < |ops|
  {
    ops[i].Success? && Current(Run(c, New(wait), ops[..i]), ops[i].now) == HalfOpen
  }

  /** So are the last `j` operations. */
  predicate LastProbed(c: Config, wait: Duration, ops: seq<Op>, j: nat)
    requires ValidConfig(c)
  {
    j <= |ops| && forall i :: |ops| - j <= i < |ops| ==> ProbedAt(c, wait, ops, i)
  }

  lemma LastProbedSnoc(c: Config, wait: Duration, ops: seq<Op>, j: nat)
    requires ValidConfig(c) && ops != [] && 0 < j
    ensures LastProbed(c, wait, ops, j)
       <==> LastProbed(c, wait, Front(ops), j - 1) && ProbedAt(c, wait, ops, |ops| - 1)
  {
    hide Run;
    assert forall i :: 0 <= i < |ops| ==> ops[..i] == if i < |ops| - 1 then Front(ops)[..i] else Front(ops);
    assert forall i :: 0 <= i < |ops| - 1 ==> ProbedAt(c, wait, ops, i) == ProbedAt(c, wait, Front(ops), i);
  }

  /** What one operation does to the probe count. */
  lemma ProbeCountStep(c: Config, m: Machine, r: Reference, op: Op)
    requires ValidConfig(c) && Inv(c, m, r)
    ensures var n := Step(c, m, op);
            var probed := op.Success? && Current(m, op.now) == HalfOpen;
            && (n.1 == Some((HalfOpen, Closed)) <==> probed && m.successCount + 1 == c.successThreshold)
            && (n.0.successCount == if probed && m.successCount + 1 < c.successThreshold then m.successCount + 1 else 0)
            && (n.0.current == HalfOpen ==> probed)
            && (probed ==> n.0.current == if m.successCount + 1 < c.successThreshold then HalfOpen else Closed)
  {
    hide Outcomes.Push, ShouldTrip, WaitFor;
  }

  /** The probe count of any run is that many successes at its very end. */
  lemma {:induction false} CountedProbes(c: Config, wait: Duration, ops: seq<Op>)
    requires ValidConfig(c)
    ensures LastProbed(c, wait, ops, Run(c, New(wait), ops).successCount)
  {
    hide Step, Inv, LastProbed, Current, RefRun;
    var k := Run(c, New(wait), ops).successCount;
    if k == 0 {
      NoneProbed(c, wait, ops);
    } else {
      CountedProbes(c, wait, Front(ops));
      RunRefines(c, wait, Front(ops));
      ProbeCountStep(c, Run(c, New(wait), Front(ops)), RefRun(c, wait, Front(ops)), Last(ops));
      assert ops[..|ops| - 1] == Front(ops);
      LastProbedSnoc(c, wait, ops, k);
    }
  }

  lemma NoneProbed(c: Config, wait: Duration, ops: seq<Op>)
    requires ValidConfig(c)
    ensures LastProbed(c, wait, ops, 0)
  {
  }

  /** And no success at the end of a run goes uncounted while the circuit stays HalfOpen. */
  lemma {:induction false} ProbesAreCounted(c: Config, wait: Duration, ops: seq<Op>, j: nat)
    requires ValidConfig(c) && LastProbed(c, wait, ops, j) && 0 < j
    ensures Run(c, New(wait), ops).current != Open
    ensures Run(c, New(wait), ops).current == HalfOpen ==> j <= Run(c, New(wait), ops).successCount
  {
    assert ops != [];
    hide Step, Inv, LastProbed, RefRun;
    LastProbedSnoc(c, wait, ops, j);
    var front := Front(ops);
    if j > 1 {
      ProbesAreCounted(c, wait, front, j - 1);
    }
    RunRefines(c, wait, front);
    ProbeCountStep(c, Run(c, New(wait), front), RefRun(c, wait, front), Last(ops));
    assert ops[..|ops| - 1] == front;
  }

  /**
   * Recovery, over the operations themselves: one returns (HalfOpen, Closed) if and only if it completes a row of
   * `successThreshold` successes, each recorded while the circuit read HalfOpen, with nothing in between.
   */
  lemma RecoversExactlyAfterProbes(c: Config, wait: Duration, ops: seq<Op>, op: Op)
    requires ValidConfig(c)
    ensures Step(c, Run(c, New(wait), ops), op).1 == Some((HalfOpen, Closed))
       <==> LastProbed(c, wait, ops + [op], c.successThreshold)
  {
    hide Step, Inv, LastProbed, Current, RefRun, Run;
    var all := ops + [op];
    var n := c.successThreshold;
    assert Front(all) == ops && all[..|ops|] == ops;
    RunRefines(c, wait, ops);
    ProbeCountStep(c, Run(c, New(wait), ops), RefRun(c, wait, ops), op);
    CountersBelow(c, Run(c, New(wait), ops), RefRun(c, wait, ops));
    CountedProbes(c, wait, ops);
    LastProbedSnoc(c, wait, all, n);
    if LastProbed(c, wait, all, n) && 1 < n {
      ProbesAreCounted(c, wait, ops, n - 1);
      NotClosed(Run(c, New(wait), ops), op.now);
    }
  }

  lemma NotClosed(m: Machine, now: real)
    ensures Current(m, now) == HalfOpen ==> m.current != Closed
  {
  }
}

/** Every configuration can recover without a single probe: on calls admitted before the trip that end late. */
module Unprobed {
  import opened Prelude
  import opened Config
  import opened Machine
  import opened Protocol
  import opened Guarantees
  import opened Probes
  import R = Reference
  import Recovery

  /** Nobody wins a permit, and nothing is recorded by hand. */
  predicate NoProbes(ls: seq<Label>) {
    forall i :: 0 <= i < |ls| ==> !ls[i].CasOk? && !ls[i].ManualSuccess?
  }

  /** `k` calls admitted while Closed, each up to the start of its operation. */
  function Admissions(k: nat): seq<Label> {
    if k == 0 then []
    else var t := k - 1; Admissions(t) + [Begin, TakeGuard(t), Inspect(t), DropGuard(t)]
  }

  /** The operations of the first `k` of them succeed, and are recorded. */
  function LateSuccesses(k: nat): seq<Label> {
    if k == 0 then [] else var t := k - 1; LateSuccesses(t) + [FinishOk(t), Record(t, 0.0)]
  }

  lemma {:induction false} ScriptHasNoProbes(k: nat)
    ensures NoProbes(Admissions(k)) && NoProbes(LateSuccesses(k))
  {
    if k > 0 {
      ScriptHasNoProbes(k - 1);
    }
  }

  /** Calls `from` to `to` run their operations without a permit; the ones before hold no guard. */
  predicate Awaiting(s: Sys, from: nat, to: nat) {
    && |s.tasks| == to
    && forall t :: 0 <= t < to ==> if t < from then !HoldsGuard(s.tasks[t]) else s.tasks[t] == Running(None)
  }

  lemma ClosedAdmission(c: Config, s: Sys) returns (n: Sys)
    requires ValidConfig(c) && Current(s.machine, s.clock) == Closed
    ensures var t := |s.tasks|;
            After(c, s, [Begin, TakeGuard(t), Inspect(t), DropGuard(t)]) == Some(n)
    ensures OneMore(s, n, Running(None), s.permits)
  {
    hide Current, After, Apply, NoReaders;
    var t := |s.tasks|;
    n := Entered(c, s);
    n := Advance(c, s, [Begin], s, n, Started, s.permits, TakeGuard(t));
    n := Advance(c, s, [Begin] + [TakeGuard(t)], s, n, Guarded, s.permits, Inspect(t));
    n := Advance(c, s, [Begin] + [TakeGuard(t)] + [Inspect(t)], s, n, Admitted, s.permits, DropGuard(t));
    assert [Begin] + [TakeGuard(t)] + [Inspect(t)] + [DropGuard(t)] == [Begin, TakeGuard(t), Inspect(t), DropGuard(t)];
  }

  lemma {:induction false} ManyAdmitted(c: Config, wait: Duration, at: real, k: nat) returns (n: Sys)
    requires ValidConfig(c)
    ensures After(c, Start(wait, at), Admissions(k)) == Some(n)
    ensures n.machine == New(wait) && n.clock == at && n.permits == 0 && Awaiting(n, 0, k)
  {
    hide After;
    if k == 0 {
      n := Start(wait, at);
      AfterNothing(c, n);
    } else {
      var m := ManyAdmitted(c, wait, at, k - 1);
      n := ClosedAdmission(c, m);
      AfterConcat(c, Start(wait, at), Admissions(k - 1), [Begin, TakeGuard(k - 1), Inspect(k - 1), DropGuard(k - 1)]);
    }
  }

  lemma TaskFinishes(c: Config, s: Sys, t: nat, k: nat)
    requires ValidConfig(c) && t < k && Awaiting(s, t, k)
    ensures Enabled(c, s, FinishOk(t))
    ensures var n := Apply(c, s, FinishOk(t));
            && n.machine == s.machine && n.clock == s.clock && n.permits == s.permits
            && Awaiting(n, t + 1, k) && n.tasks[t] == Finished(Good, None) && NoReaders(n)
  {
  }

  lemma TaskRecords(c: Config, s: Sys, t: nat, k: nat)
    requires ValidConfig(c) && t < k && Awaiting(s, t + 1, k) && s.tasks[t] == Finished(Good, None) && NoReaders(s)
    ensures Enabled(c, s, Record(t, 0.0)) && LockedOp(c, s, Record(t, 0.0)) == Success(s.clock)
    ensures var n := Apply(c, s, Record(t, 0.0));
            && n.machine == Step(c, s.machine, Success(s.clock)).0
            && n.clock == s.clock && n.permits == s.permits && Awaiting(n, t + 1, k)
  {
    hide Step, EntersOpen;
  }

  lemma {:induction false} ManyRecorded(c: Config, s: Sys, i: nat, k: nat) returns (n: Sys)
    requires ValidConfig(c) && i <= k && Awaiting(s, 0, k)
    ensures After(c, s, LateSuccesses(i)) == Some(n)
    ensures n.machine == Run(c, s.machine, Successes(s.clock, i))
    ensures n.clock == s.clock && n.permits == s.permits && Awaiting(n, i, k)
  {
    hide After, Step, Run, Awaiting, Enabled, Apply;
    if i == 0 {
      n := s;
      AfterNothing(c, s);
      RunNothing(c, s.machine);
    } else {
      var t := i - 1;
      n := ManyRecorded(c, s, t, k);
      TaskFinishes(c, n, t, k);
      AfterSnoc(c, s, LateSuccesses(t), FinishOk(t));
      n := Apply(c, n, FinishOk(t));
      TaskRecords(c, n, t, k);
      AfterSnoc(c, s, LateSuccesses(t) + [FinishOk(t)], Record(t, 0.0));
      assert LateSuccesses(t) + [FinishOk(t)] + [Record(t, 0.0)] == LateSuccesses(i);
      RunSnoc(c, s.machine, Successes(s.clock, t), Success(s.clock));
      n := Apply(c, n, Record(t, 0.0));
    }
  }

  /** A trip, and then the end of its wait. */
  lemma TripsAndWaits(c: Config, s: Sys, k: nat) returns (ls: seq<Label>, n: Sys)
    requires ValidConfig(c) && Awaiting(s, 0, k)
    ensures After(c, s, ls) == Some(n) && NoProbes(ls)
    ensures n.machine == Step(c, s.machine, Trip(s.clock, 0.0)).0 && Expired(n.machine, n.clock)
    ensures n.permits == s.permits && Awaiting(n, 0, k)
  {
    hide After;
    AfterNothing(c, s);
    AfterSnoc(c, s, [], ForceTrip(0.0));
    var tripped := Apply(c, s, ForceTrip(0.0));
    var until := Tick(s.clock + tripped.machine.waitDuration);
    AfterSnoc(c, s, [] + [ForceTrip(0.0)], until);
    ls, n := [] + [ForceTrip(0.0)] + [until], Apply(c, tripped, until);
  }

  lemma SuccessesFront(now: real, k: nat)
    requires 0 < k
    ensures Front(Successes(now, k)) == Successes(now, k - 1) && Last(Successes(now, k)) == Success(now)
  {
  }

  /** After the last but one of the successes needed, the next one returns the recovery. */
  lemma LastOneRecovers(c: Config, m: Machine, now: real)
    requires ValidConfig(c) && (exists r :: R.Inv(c, m, r)) && m.current == Open && Expired(m, now)
    ensures Step(c, Run(c, m, Successes(now, c.successThreshold - 1)), Success(now)).1 == Some((HalfOpen, Closed))
  {
    hide Step, R.Inv;
    var r :| R.Inv(c, m, r);
    SuccessesShape(now, c.successThreshold);
    SuccessesFront(now, c.successThreshold);
    Recovery.SuccessesClose(c, m, r, Successes(now, c.successThreshold));
  }

  /**
   * Whatever the configuration, some interleaving recovers with no permit ever granted: the record that closes the
   * circuit, like all the successes before it, is that of a call admitted while it was Closed.
   */
  lemma RecoversWithoutProbes(c: Config, wait: Duration, at: real) returns (ls: seq<Label>, t: nat)
    requires ValidConfig(c)
    ensures Legal(c, wait, at, ls) && Enabled(c, At(c, wait, at, ls), Record(t, 0.0)) && NoProbes(ls)
    ensures var s := At(c, wait, at, ls);
            && s.permits == 0 && s.tasks[t] == Finished(Good, None)
            && Step(c, s.machine, LockedOp(c, s, Record(t, 0.0))).1 == Some((HalfOpen, Closed))
  {
    hide After, Step, Run, Awaiting, Enabled, Apply, R.Inv;
    var k := c.successThreshold;
    var s0 := Start(wait, at);
    var s := ManyAdmitted(c, wait, at, k);
    var rest, s2 := TripsAndWaits(c, s, k);
    AfterConcat(c, s0, Admissions(k), rest);
    t := k - 1;
    var s3 := ManyRecorded(c, s2, t, k);
    AfterConcat(c, s0, Admissions(k) + rest, LateSuccesses(t));
    TaskFinishes(c, s3, t, k);
    ls := Admissions(k) + rest + LateSuccesses(t) + [FinishOk(t)];
    AfterSnoc(c, s0, Admissions(k) + rest + LateSuccesses(t), FinishOk(t));
    TaskRecords(c, At(c, wait, at, ls), t, k);
    InterleavingsLinearize(c, wait, at, Admissions(k) + rest);
    LastOneRecovers(c, s2.machine, s2.clock);
    ScriptHasNoProbes(k);
    ScriptHasNoProbes(t);
  }
}

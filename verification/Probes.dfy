/** No lockout at the call level: sequential successful calls recover an expired circuit whenever a permit is free. */
module Probes {
  import opened Prelude
  import opened Config
  import opened Machine
  import opened Protocol
  import opened Guarantees
  import R = Reference
  import Recovery

  /** One whole successful probe call, as task `t`, with nothing in between. */
  function ProbeCall(t: nat): seq<Label> {
    [Begin, TakeGuard(t), Inspect(t), Load(t), CasOk(t), DropGuard(t),
     FinishOk(t), Record(t, 0.0), Release(t), Return(t)]
  }

  /** One whole call that finds every permit taken. */
  function RejectedCall(t: nat): seq<Label> {
    [Begin, TakeGuard(t), Inspect(t), Load(t), Exhausted(t), DropGuard(t)]
  }

  lemma AfterSnoc(c: Config, s: Sys, ls: seq<Label>, l: Label)
    requires ValidConfig(c) && After(c, s, ls).Some? && Enabled(c, After(c, s, ls).value, l)
    ensures After(c, s, ls + [l]) == Some(Apply(c, After(c, s, ls).value, l))
  {
    assert Front(ls + [l]) == ls;
  }

  lemma {:induction false} AfterConcat(c: Config, s: Sys, a: seq<Label>, b: seq<Label>)
    requires ValidConfig(c) && After(c, s, a).Some?
    ensures After(c, s, a + b) == After(c, After(c, s, a).value, b)
  {
    hide Apply, Enabled;
    if b == [] {
      assert a + b == a;
    } else {
      assert Front(a + b) == a + Front(b);
      AfterConcat(c, s, a, Front(b));
    }
  }

  /** The system `s` with one more task, at `x`. */
  predicate OneMore(s: Sys, n: Sys, x: Task, permits: int) {
    n == s.(tasks := s.tasks + [x], permits := permits)
  }

  lemma MovesNewest(c: Config, s: Sys, n: Sys, x: Task, permits: int, l: Label)
    requires ValidConfig(c) && OneMore(s, n, x, permits)
    requires l.OfTask() && !l.TakesWriteLock() && l.t == |s.tasks| && Enabled(c, n, l)
    ensures OneMore(s, Apply(c, n, l), Moved(c, n, l), permits + Bit(l.CasOk?) - Bit(l.Release?))
  {
    hide Moved, Enabled;
    assert n.tasks[l.t := Moved(c, n, l)] == s.tasks + [Moved(c, n, l)];
  }

  /** One step of the newest task, after `ls` has led from `s0` to `n`. */
  lemma Advance(c: Config, s0: Sys, ls: seq<Label>, s: Sys, n: Sys, x: Task, permits: int, l: Label) returns (r: Sys)
    requires ValidConfig(c) && After(c, s0, ls) == Some(n) && OneMore(s, n, x, permits)
    requires l.OfTask() && !l.TakesWriteLock() && l.t == |s.tasks| && Enabled(c, n, l)
    ensures After(c, s0, ls + [l]) == Some(r)
    ensures OneMore(s, r, Moved(c, n, l), permits + Bit(l.CasOk?) - Bit(l.Release?))
  {
    hide Moved, Enabled, Apply, OneMore, After;
    AfterSnoc(c, s0, ls, l);
    r := Apply(c, n, l);
    MovesNewest(c, s, n, x, permits, l);
  }

  lemma BeginOneMore(c: Config, s: Sys)
    requires ValidConfig(c)
    ensures OneMore(s, Apply(c, s, Begin), Started, s.permits)
  {
  }

  lemma AfterNothing(c: Config, s: Sys)
    requires ValidConfig(c)
    ensures After(c, s, []) == Some(s)
  {
  }

  lemma Entered(c: Config, s: Sys) returns (n: Sys)
    requires ValidConfig(c)
    ensures After(c, s, [Begin]) == Some(n) && OneMore(s, n, Started, s.permits)
  {
    hide After, Apply, OneMore;
    AfterNothing(c, s);
    AfterSnoc(c, s, [], Begin);
    assert [] + [Begin] == [Begin];
    n := Apply(c, s, Begin);
    BeginOneMore(c, s);
  }

  /** A call begun while the circuit reads HalfOpen reaches the compare-exchange loop with the current count. */
  lemma ReachesLoop(c: Config, s: Sys) returns (n: Sys)
    requires ValidConfig(c) && Current(s.machine, s.clock) == HalfOpen
    ensures var t := |s.tasks|; After(c, s, [Begin, TakeGuard(t), Inspect(t), Load(t)]) == Some(n)
    ensures OneMore(s, n, Comparing(s.permits), s.permits)
  {
    hide Current, After, Apply, NoReaders;
    var t := |s.tasks|;
    n := Entered(c, s);
    n := Advance(c, s, [Begin], s, n, Started, s.permits, TakeGuard(t));
    n := Advance(c, s, [Begin] + [TakeGuard(t)], s, n, Guarded, s.permits, Inspect(t));
    n := Advance(c, s, [Begin] + [TakeGuard(t)] + [Inspect(t)], s, n, Probing, s.permits, Load(t));
    assert [Begin] + [TakeGuard(t)] + [Inspect(t)] + [Load(t)] == [Begin, TakeGuard(t), Inspect(t), Load(t)];
  }

  /** The admission half of a probe call wins a permit. */
  lemma ProbeAdmitted(c: Config, s: Sys) returns (n: Sys)
    requires ValidConfig(c) && s.permits < c.halfOpenMaxCalls && Current(s.machine, s.clock) == HalfOpen
    ensures var t := |s.tasks|;
            After(c, s, [Begin, TakeGuard(t), Inspect(t), Load(t)] + [CasOk(t), DropGuard(t)]) == Some(n)
    ensures OneMore(s, n, Running(Some(s.episode)), s.permits + 1)
  {
    hide Current, After, Apply, NoReaders;
    var t := |s.tasks|;
    var ls := [Begin, TakeGuard(t), Inspect(t), Load(t)];
    n := ReachesLoop(c, s);
    n := Advance(c, s, ls, s, n, Comparing(s.permits), s.permits, CasOk(t));
    n := Advance(c, s, ls + [CasOk(t)], s, n, Granted(s.episode), s.permits + 1, DropGuard(t));
    assert ls + [CasOk(t)] + [DropGuard(t)] == ls + [CasOk(t), DropGuard(t)];
  }

  lemma ExhaustedNext(c: Config, s: Sys, n: Sys)
    requires OneMore(s, n, Comparing(s.permits), s.permits) && s.permits >= c.halfOpenMaxCalls
    ensures Enabled(c, n, Exhausted(|s.tasks|)) && Moved(c, n, Exhausted(|s.tasks|)) == Refused(Rejected)
  {
    hide Current, NoReaders;
  }

  lemma RefusedNext(c: Config, s: Sys, n: Sys)
    requires OneMore(s, n, Refused(Rejected), s.permits)
    ensures Enabled(c, n, DropGuard(|s.tasks|)) && Moved(c, n, DropGuard(|s.tasks|)) == Ended(Rejected)
  {
    hide Current, NoReaders;
  }

  /** A call made while every permit is taken is rejected, and changes nothing. */
  lemma FullBreakerRejects(c: Config, s: Sys)
    requires ValidConfig(c) && s.permits >= c.halfOpenMaxCalls && Current(s.machine, s.clock) == HalfOpen
    ensures After(c, s, RejectedCall(|s.tasks|)) == Some(s.(tasks := s.tasks + [Ended(Rejected)]))
  {
    hide Current, After, Apply, NoReaders, Enabled, Moved;
    var t := |s.tasks|;
    var ls := [Begin, TakeGuard(t), Inspect(t), Load(t)];
    var n := ReachesLoop(c, s);
    ExhaustedNext(c, s, n);
    n := Advance(c, s, ls, s, n, Comparing(s.permits), s.permits, Exhausted(t));
    RefusedNext(c, s, n);
    n := Advance(c, s, ls + [Exhausted(t)], s, n, Refused(Rejected), s.permits, DropGuard(t));
    assert ls + [Exhausted(t)] + [DropGuard(t)] == RejectedCall(t);
  }

  /** The second half: the operation succeeds, is recorded, and the permit is given back. */
  lemma ProbeCompleted(c: Config, s: Sys, m: Sys) returns (n: Sys)
    requires ValidConfig(c) && NoReaders(s) && OneMore(s, m, Running(Some(s.episode)), s.permits + 1)
    ensures var t := |s.tasks|;
            After(c, m, [FinishOk(t), Record(t, 0.0)] + [Release(t), Return(t)]) == Some(n)
    ensures n.machine == Step(c, s.machine, Success(s.clock)).0
    ensures n.clock == s.clock && n.permits == s.permits && n.tasks == s.tasks + [Ended(Succeeded)]
  {
    hide Step, EntersOpen, NoReaders, Apply, After;
    var t, p := |s.tasks|, Some(s.episode);
    AfterNothing(c, m);
    n := Advance(c, m, [], s, m, Running(p), s.permits + 1, FinishOk(t));
    RecordOneMore(c, s, n);
    AfterSnoc(c, m, [] + [FinishOk(t)], Record(t, 0.0));
    assert [] + [FinishOk(t)] + [Record(t, 0.0)] == [FinishOk(t), Record(t, 0.0)];
    n := Apply(c, n, Record(t, 0.0));
    var base := n.(tasks := s.tasks);
    var ls := [FinishOk(t), Record(t, 0.0)];
    n := Advance(c, m, ls, base, n, Leaving(Succeeded, p), s.permits + 1, Release(t));
    n := Advance(c, m, ls + [Release(t)], base, n, Leaving(Succeeded, None), s.permits, Return(t));
    assert ls + [Release(t)] + [Return(t)] == ls + [Release(t), Return(t)];
  }

  lemma RecordOneMore(c: Config, s: Sys, n: Sys)
    requires ValidConfig(c) && NoReaders(s) && OneMore(s, n, Finished(Good, Some(s.episode)), s.permits + 1)
    ensures var t := |s.tasks|;
            && Enabled(c, n, Record(t, 0.0))
            && var r := Apply(c, n, Record(t, 0.0));
               && r.machine == Step(c, s.machine, Success(s.clock)).0
               && r.clock == s.clock && r.permits == s.permits + 1
               && r.tasks == s.tasks + [Leaving(Succeeded, Some(s.episode))]
  {
    hide Step, EntersOpen;
  }

  /** A probe call made while a permit is free succeeds, and records one success; the permit is free again. */
  lemma ProbeSucceeds(c: Config, s: Sys)
    requires ValidConfig(c) && NoReaders(s)
    requires s.permits < c.halfOpenMaxCalls && Current(s.machine, s.clock) == HalfOpen
    ensures var r := After(c, s, ProbeCall(|s.tasks|));
            && r.Some?
            && r.value.machine == Step(c, s.machine, Success(s.clock)).0
            && r.value.clock == s.clock && r.value.permits == s.permits
            && r.value.tasks == s.tasks + [Ended(Succeeded)]
  {
    hide Step, Current, After;
    var t := |s.tasks|;
    var m := ProbeAdmitted(c, s);
    var n := ProbeCompleted(c, s, m);
    var a, b := [Begin, TakeGuard(t), Inspect(t), Load(t)] + [CasOk(t), DropGuard(t)],
                [FinishOk(t), Record(t, 0.0)] + [Release(t), Return(t)];
    AfterConcat(c, s, a, b);
    assert ProbeCall(t) == a + b;
  }

  /** `k` probe calls, one after the other. */
  function ProbeCalls(t: nat, k: nat): seq<Label> {
    if k == 0 then [] else ProbeCalls(t, k - 1) + ProbeCall(t + k - 1)
  }

  function Successes(now: real, k: nat): seq<Op> {
    if k == 0 then [] else Successes(now, k - 1) + [Success(now)]
  }

  lemma {:induction false} SuccessesShape(now: real, k: nat)
    ensures |Successes(now, k)| == k
    ensures forall i :: 0 <= i < k ==> Successes(now, k)[i] == Success(now)
  {
    if k > 0 {
      SuccessesShape(now, k - 1);
    }
  }

  /** As long as the circuit reads HalfOpen before each of them, `k` calls in a row record `k` successes. */
  lemma {:induction false} ProbesInARow(c: Config, s: Sys, k: nat) returns (n: Sys)
    requires ValidConfig(c) && NoReaders(s) && s.permits < c.halfOpenMaxCalls
    requires forall i: nat :: i < k ==> Current(Run(c, s.machine, Successes(s.clock, i)), s.clock) == HalfOpen
    ensures After(c, s, ProbeCalls(|s.tasks|, k)) == Some(n)
    ensures n.machine == Run(c, s.machine, Successes(s.clock, k))
    ensures n.clock == s.clock && n.permits == s.permits && |n.tasks| == |s.tasks| + k && NoReaders(n)
  {
    hide Step, After, ProbeCall, Current, Run;
    if k == 0 {
      n := s;
      AfterNothing(c, s);
      RunNothing(c, s.machine);
    } else {
      var m := ProbesInARow(c, s, k - 1);
      ProbeSucceeds(c, m);
      AfterConcat(c, s, ProbeCalls(|s.tasks|, k - 1), ProbeCall(|s.tasks| + k - 1));
      RunSnoc(c, s.machine, Successes(s.clock, k - 1), Success(s.clock));
      n := After(c, m, ProbeCall(|m.tasks|)).value;
    }
  }

  lemma RunNothing(c: Config, m: Machine)
    requires ValidConfig(c)
    ensures Run(c, m, []) == m
  {
  }

  /** An expired or HalfOpen circuit still reads HalfOpen until the last success it needs. */
  lemma StillProbing(c: Config, m: Machine, r: R.Reference, now: real, k: nat)
    requires ValidConfig(c) && R.Inv(c, m, r) && Current(m, now) == HalfOpen
    ensures k < Recovery.Needed(c, m) ==> Current(Run(c, m, Successes(now, k)), now) == HalfOpen
    ensures k == Recovery.Needed(c, m) ==> Run(c, m, Successes(now, k)).current == Closed
  {
    hide Step, R.Inv;
    SuccessesShape(now, k);
    Recovery.SuccessesClose(c, m, r, Successes(now, k));
  }

  /**
   * From any state of any interleaving in which no call holds the guard, the circuit reads HalfOpen and a permit is
   * free, the successes still needed can be had from that many sequential calls, and the last one closes the circuit.
   */
  lemma SequentialProbesRecover(c: Config, wait: Duration, at: real, ls: seq<Label>)
    requires ValidConfig(c) && Legal(c, wait, at, ls)
    requires var s := At(c, wait, at, ls);
             NoReaders(s) && s.permits < c.halfOpenMaxCalls && Current(s.machine, s.clock) == HalfOpen
    ensures var s := At(c, wait, at, ls);
            var k := Recovery.Needed(c, s.machine);
            && 1 <= k
            && var all := ls + ProbeCalls(|s.tasks|, k);
               && Legal(c, wait, at, all)
               && At(c, wait, at, all).machine.current == Closed
               && At(c, wait, at, all).permits == s.permits
  {
    var s := At(c, wait, at, ls);
    var k := Recovery.Needed(c, s.machine);
    InterleavingsLinearize(c, wait, at, ls);
    hide Step, After, Current, R.Inv, ProbeCalls;
    NeedsOne(c, s.machine, R.RefRun(c, wait, s.log), s.clock);
    forall i: nat | i <= k
      ensures i < k ==> Current(Run(c, s.machine, Successes(s.clock, i)), s.clock) == HalfOpen
      ensures i == k ==> Run(c, s.machine, Successes(s.clock, i)).current == Closed
    {
      StillProbing(c, s.machine, R.RefRun(c, wait, s.log), s.clock, i);
    }
    var n := ProbesInARow(c, s, k);
    AfterConcat(c, Start(wait, at), ls, ProbeCalls(|s.tasks|, k));
  }

  lemma NeedsOne(c: Config, m: Machine, r: R.Reference, now: real)
    requires ValidConfig(c) && R.Inv(c, m, r) && Current(m, now) == HalfOpen
    ensures 1 <= Recovery.Needed(c, m)
  {
  }
}

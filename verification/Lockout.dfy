/** A full HalfOpen circuit over whole runs: what it does to callers, and which steps can end it. */
module Lockout {
  import opened Prelude
  import opened Config
  import opened Backoff
  import opened Machine
  import opened Protocol
  import opened Guarantees
  import R = Reference
  import Probes
  import Progress

  /** The circuit reads HalfOpen and every permit is held. */
  predicate IsFull(c: Config, s: Sys) {
    Current(s.machine, s.clock) == HalfOpen && s.permits == c.halfOpenMaxCalls
  }

  /** No step writes under the lock or gives a permit back. */
  predicate NothingEnds(ls: seq<Label>) {
    forall i :: 0 <= i < |ls| ==> !ls[i].TakesWriteLock() && !ls[i].Release?
  }

  /** The call has yet to be admitted, or is rejected. */
  predicate LockedOut(x: Task) {
    BeforeGrant(x) || x == Refused(Rejected) || x == Ended(Rejected)
  }

  lemma FullStep(c: Config, s: Sys, l: Label)
    requires ValidConfig(c) && Enabled(c, s, l) && IsFull(c, s) && !l.TakesWriteLock() && !l.Release?
    ensures IsFull(c, Apply(c, s, l)) && Apply(c, s, l).machine == s.machine && !l.CasOk?
  {
    hide Step, EntersOpen, NoReaders, Moved, LockedOp;
  }

  lemma LockedOutStep(c: Config, s: Sys, l: Label, t: nat)
    requires ValidConfig(c) && Enabled(c, s, l) && IsFull(c, s)
    requires t < |s.tasks| ==> LockedOut(s.tasks[t])
    ensures var n := Apply(c, s, l); t < |n.tasks| ==> LockedOut(n.tasks[t])
  {
    hide Step, EntersOpen, NoReaders, LockedOp, Current;
  }

  /**
   * Until a permit is given back or something is recorded, tripped or reset, a full circuit stays exactly as it is
   * for any number of steps: no permit is won, and no call that was not yet let through, or that comes in meanwhile,
   * gets any further than a rejection.
   */
  lemma {:induction false} FullCircuitLocksOut(c: Config, s: Sys, ls: seq<Label>, t: nat)
    requires ValidConfig(c) && After(c, s, ls).Some? && IsFull(c, s) && NothingEnds(ls)
    requires t < |s.tasks| ==> LockedOut(s.tasks[t])
    ensures var n := After(c, s, ls).value;
            && IsFull(c, n) && n.machine == s.machine
            && (t < |n.tasks| ==> LockedOut(n.tasks[t]))
    ensures forall i :: 0 <= i < |ls| ==> !ls[i].CasOk?
  {
    hide Enabled, Apply, IsFull, LockedOut;
    if ls != [] {
      assert Last(ls) == ls[|ls| - 1];
      FullCircuitLocksOut(c, s, Front(ls), t);
      FullStep(c, After(c, s, Front(ls)).value, Last(ls));
      LockedOutStep(c, After(c, s, Front(ls)).value, Last(ls), t);
    }
  }

  /** An operation after which a circuit that read HalfOpen still does: a trip whose wait is zero is over at once. */
  predicate StaysHalfOpen(c: Config, m: Machine, op: Op)
    requires ValidConfig(c)
  {
    match op
    case Success(_) => m.successCount + 1 < c.successThreshold
    case Reset(_) => false
    case _ => WaitFor(c.backoff, SaturatingIncrement(m.openAttempts), op.draw) == 0.0
  }

  lemma StaysHalfOpenExact(c: Config, m: Machine, r: R.Reference, op: Op)
    requires ValidConfig(c) && R.Inv(c, m, r) && Current(m, op.now) == HalfOpen
    ensures Current(Step(c, m, op).0, op.now) == HalfOpen <==> StaysHalfOpen(c, m, op)
  {
    hide WaitFor, WaitInRange;
  }

  /** Exactly which steps of any interleaving end it. */
  lemma LockoutEndsExactly(c: Config, wait: Duration, at: real, ls: seq<Label>, l: Label)
    requires ValidConfig(c) && Legal(c, wait, at, ls) && Enabled(c, At(c, wait, at, ls), l)
    requires IsFull(c, At(c, wait, at, ls))
    ensures var s := At(c, wait, at, ls);
            !IsFull(c, Apply(c, s, l))
            <==> l.Release? || (l.TakesWriteLock() && !StaysHalfOpen(c, s.machine, LockedOp(c, s, l)))
  {
    hide Step, EntersOpen, NoReaders, Moved, R.Inv, R.RefRun, StaysHalfOpen, Current;
    var s := At(c, wait, at, ls);
    InterleavingsLinearize(c, wait, at, ls);
    if l.TakesWriteLock() {
      StaysHalfOpenExact(c, s.machine, R.RefRun(c, wait, s.log), LockedOp(c, s, l));
    } else if !l.Release? {
      FullStep(c, s, l);
    }
  }

  /** Steps of calls only: no manual record, no trip, no reset. */
  predicate CallsOnly(ls: seq<Label>) {
    forall i :: 0 <= i < |ls| ==> ls[i].OfTask()
  }

  /** A call that is returning can give its permit back at once. */
  lemma ReleasesNext(c: Config, s0: Sys, ls: seq<Label>, s: Sys, t: nat) returns (more: seq<Label>)
    requires ValidConfig(c) && After(c, s0, ls) == Some(s) && CallsOnly(ls)
    requires t < |s.tasks| && s.tasks[t].Leaving? && s.tasks[t].permit.Some?
    ensures After(c, s0, more).Some? && CallsOnly(more) && more != [] && Last(more) == Release(t)
  {
    hide After, Apply, NoReaders;
    Probes.AfterSnoc(c, s0, ls, Release(t));
    more := ls + [Release(t)];
  }

  lemma CancelsNext(c: Config, s0: Sys, ls: seq<Label>, s: Sys, t: nat) returns (more: seq<Label>)
    requires ValidConfig(c) && After(c, s0, ls) == Some(s) && CallsOnly(ls)
    requires t < |s.tasks| && s.tasks[t].Running? && s.tasks[t].permit.Some?
    ensures After(c, s0, more).Some? && CallsOnly(more) && more != [] && Last(more) == Release(t)
  {
    hide After, NoReaders, Step, EntersOpen, LockedOp;
    Probes.AfterSnoc(c, s0, ls, Cancel(t));
    more := ReleasesNext(c, s0, ls + [Cancel(t)], Apply(c, s, Cancel(t)), t);
  }

  lemma RecordsNext(c: Config, s0: Sys, ls: seq<Label>, s: Sys, t: nat, draw: Sample) returns (more: seq<Label>)
    requires ValidConfig(c) && After(c, s0, ls) == Some(s) && CallsOnly(ls) && NoReaders(s)
    requires t < |s.tasks| && s.tasks[t].Finished? && s.tasks[t].permit.Some?
    ensures After(c, s0, more).Some? && CallsOnly(more) && more != [] && Last(more) == Release(t)
  {
    hide After, NoReaders, Step, EntersOpen, LockedOp;
    Probes.AfterSnoc(c, s0, ls, Record(t, draw));
    more := ReleasesNext(c, s0, ls + [Record(t, draw)], Apply(c, s, Record(t, draw)), t);
  }

  /**
   * No lockout is for ever: whoever holds a permit can always be brought to give it back, by steps of calls alone, if
   * only its operation completes or is dropped.
   */
  lemma EveryHolderCanRelease(c: Config, s: Sys, t: nat) returns (ls: seq<Label>)
    requires ValidConfig(c) && t < |s.tasks| && HoldsPermit(s.tasks[t])
    ensures After(c, s, ls).Some? && CallsOnly(ls) && ls != [] && Last(ls) == Release(t)
  {
    hide After, NoReaders, Step, EntersOpen, LockedOp;
    Probes.AfterNothing(c, s);
    match s.tasks[t]
    case Leaving(_, _) => ls := ReleasesNext(c, s, [], s, t);
    case Running(_) => ls := CancelsNext(c, s, [], s, t);
    case Granted(_) =>
      Probes.AfterSnoc(c, s, [], DropGuard(t));
      ls := CancelsNext(c, s, [] + [DropGuard(t)], Apply(c, s, DropGuard(t)), t);
    case Finished(_, _) =>
      var first, n := Progress.WritersNeverWaitForOperations(c, s);
      ls := RecordsNext(c, s, first, n, t, 0.0);
  }

  /** So every full circuit of every interleaving can have a permit freed by calls alone. */
  lemma LockoutCanEnd(c: Config, wait: Duration, at: real, past: seq<Label>) returns (more: seq<Label>)
    requires ValidConfig(c) && Legal(c, wait, at, past) && IsFull(c, At(c, wait, at, past))
    ensures Legal(c, wait, at, past + more) && CallsOnly(more)
    ensures At(c, wait, at, past + more).permits < c.halfOpenMaxCalls
  {
    hide Apply, Enabled, After, SysInv, IsFull;
    var s := At(c, wait, at, past);
    EveryInterleaving(c, wait, at, past);
    HolderOfFull(c, wait, s);
    var t := TallyWitness(s.tasks, HoldsPermit);
    more := EveryHolderCanRelease(c, s, t);
    Probes.AfterConcat(c, Start(wait, at), past, more);
    assert past + more == past + Front(more) + [Release(t)];
    ReleaseFrees(c, wait, at, past + Front(more), t);
  }

  lemma HolderOfFull(c: Config, wait: Duration, s: Sys)
    requires ValidConfig(c) && SysInv(c, wait, s) && IsFull(c, s)
    ensures Tally(s.tasks, HoldsPermit) != 0
  {
  }

  lemma ReleaseFrees(c: Config, wait: Duration, at: real, ls: seq<Label>, t: nat)
    requires ValidConfig(c) && Legal(c, wait, at, ls + [Release(t)])
    ensures At(c, wait, at, ls + [Release(t)]).permits < c.halfOpenMaxCalls
  {
    hide NoReaders, Moved;
    assert Front(ls + [Release(t)]) == ls;
    ProbesAreBounded(c, wait, at, ls);
  }
}

/** Whose records decide a half-open phase: those of its own probes, and those of everybody else. */
module Outsiders {
  import opened Prelude
  import opened Config
  import opened Machine
  import opened Protocol
  import opened Guarantees
  import R = Reference
  import Probes
  import Progress

  /** Where a record comes from, as the current half-open phase sees it. */
  datatype Source =
    | CurrentProbe     // a call that holds a permit of this phase
    | ResidualProbe    // a call that holds a permit of an earlier phase
    | Unpermitted      // a call admitted while Closed
    | Manual

  function SourceOf(c: Config, s: Sys, l: Label): Source
    requires Enabled(c, s, l)
  {
    if !l.Record? then Manual
    else if s.tasks[l.t].permit.None? then Unpermitted
    else if s.tasks[l.t].permit.value == s.episode then CurrentProbe
    else ResidualProbe
  }

  /** The step enters Open or Closed. */
  predicate Enters(c: Config, s: Sys, l: Label)
    requires ValidConfig(c) && Enabled(c, s, l)
  {
    l.TakesWriteLock()
    && (EntersOpen(c, s.machine, LockedOp(c, s, l)) || EntersClosed(c, s.machine, LockedOp(c, s, l)))
  }

  /** The steps `ls` can be taken from `s`, and none of them enters Open or Closed. */
  predicate InPhase(c: Config, s: Sys, ls: seq<Label>)
    requires ValidConfig(c)
  {
    After(c, s, ls).Some?
    && (ls == [] || (InPhase(c, s, Front(ls)) && !Enters(c, After(c, s, Front(ls)).value, Last(ls))))
  }

  /** The step records a success while the circuit reads HalfOpen. */
  predicate SucceedsHalfOpen(c: Config, s: Sys, l: Label)
    requires Enabled(c, s, l)
  {
    l.TakesWriteLock() && LockedOp(c, s, l).Success? && Current(s.machine, s.clock) == HalfOpen
  }

  /** The successes from one source that the steps `ls` record while the circuit reads HalfOpen. */
  function Successes(c: Config, s: Sys, ls: seq<Label>, from: Source): nat
    requires ValidConfig(c) && After(c, s, ls).Some?
  {
    if ls == [] then 0
    else
      var before := After(c, s, Front(ls)).value;
      Successes(c, s, Front(ls), from)
      + Bit(SucceedsHalfOpen(c, before, Last(ls)) && SourceOf(c, before, Last(ls)) == from)
  }

  function OutsideSuccesses(c: Config, s: Sys, ls: seq<Label>): nat
    requires ValidConfig(c) && After(c, s, ls).Some?
  {
    Successes(c, s, ls, ResidualProbe) + Successes(c, s, ls, Unpermitted)
  }

  function AllSuccesses(c: Config, s: Sys, ls: seq<Label>): nat
    requires ValidConfig(c) && After(c, s, ls).Some?
  {
    Successes(c, s, ls, CurrentProbe) + OutsideSuccesses(c, s, ls) + Successes(c, s, ls, Manual)
  }

  /** Every such success has one source. */
  lemma AllSuccessesSnoc(c: Config, s: Sys, ls: seq<Label>, l: Label)
    requires ValidConfig(c) && After(c, s, ls).Some? && Enabled(c, After(c, s, ls).value, l)
    ensures After(c, s, ls + [l]).Some?
    ensures AllSuccesses(c, s, ls + [l])
         == AllSuccesses(c, s, ls) + Bit(SucceedsHalfOpen(c, After(c, s, ls).value, l))
    ensures InPhase(c, s, ls) && !Enters(c, After(c, s, ls).value, l) ==> InPhase(c, s, ls + [l])
  {
    hide Enabled, Apply, SucceedsHalfOpen, Enters;
    assert Front(ls + [l]) == ls;
  }

  lemma MachineCounts(c: Config, m: Machine, r: R.Reference, op: Op)
    requires ValidConfig(c) && R.Inv(c, m, r)
    ensures var probed := op.Success? && Current(m, op.now) == HalfOpen;
            && (Step(c, m, op).1 == Some((HalfOpen, Closed)) <==> probed && m.successCount + 1 == c.successThreshold)
            && Step(c, m, op).0.successCount
            == if EntersOpen(c, m, op) || EntersClosed(c, m, op) then 0 else m.successCount + Bit(probed)
  {
    hide ShouldTrip;
  }

  /** What a step of any interleaving does to the success count. */
  lemma CountStep(c: Config, wait: Duration, at: real, ls: seq<Label>, l: Label)
    requires ValidConfig(c) && Legal(c, wait, at, ls) && Enabled(c, At(c, wait, at, ls), l)
    ensures var s := At(c, wait, at, ls);
            Apply(c, s, l).machine.successCount
            == if Enters(c, s, l) then 0 else s.machine.successCount + Bit(SucceedsHalfOpen(c, s, l))
    ensures var s := At(c, wait, at, ls);
            l.TakesWriteLock() && Step(c, s.machine, LockedOp(c, s, l)).1 == Some((HalfOpen, Closed)) ==>
              SucceedsHalfOpen(c, s, l) && s.machine.successCount + 1 == c.successThreshold
  {
    hide Step, EntersOpen, EntersClosed, NoReaders, Moved, R.Inv, R.RefRun, Current, After;
    var s := At(c, wait, at, ls);
    InterleavingsLinearize(c, wait, at, ls);
    if l.TakesWriteLock() {
      MachineCounts(c, s.machine, R.RefRun(c, wait, s.log), LockedOp(c, s, l));
    }
  }

  /** The run `ls` last entered Open or Closed by the last step of `past`, or never; `more` is the rest. */
  predicate PhaseOf(c: Config, wait: Duration, at: real, ls: seq<Label>, past: seq<Label>, more: seq<Label>)
    requires ValidConfig(c)
  {
    && ls == past + more && Legal(c, wait, at, past) && InPhase(c, At(c, wait, at, past), more)
    && (past != [] ==> Legal(c, wait, at, Front(past)) && Enters(c, At(c, wait, at, Front(past)), Last(past)))
  }

  /**
   * In every interleaving the success count is the successes recorded while HalfOpen since the circuit last entered
   * Open or Closed: by probes of this phase, by residual ones, by calls admitted while Closed, and by hand.
   */
  lemma {:induction false} SuccessCountBySource(c: Config, wait: Duration, at: real, ls: seq<Label>)
    returns (past: seq<Label>, more: seq<Label>)
    requires ValidConfig(c) && Legal(c, wait, at, ls)
    ensures PhaseOf(c, wait, at, ls, past, more)
    ensures At(c, wait, at, ls).machine.successCount == AllSuccesses(c, At(c, wait, at, past), more)
  {
    hide Enabled, Apply, SucceedsHalfOpen, Enters, AllSuccesses;
    if ls == [] {
      past, more := [], [];
      NoSteps(c, Start(wait, at));
    } else {
      var s, l := At(c, wait, at, Front(ls)), Last(ls);
      past, more := SuccessCountBySource(c, wait, at, Front(ls));
      CountStep(c, wait, at, Front(ls), l);
      if Enters(c, s, l) {
        past, more := ls, [];
        NoSteps(c, At(c, wait, at, ls));
      } else {
        Probes.AfterConcat(c, Start(wait, at), past, more);
        AllSuccessesSnoc(c, At(c, wait, at, past), more, l);
        more := more + [l];
        assert ls == past + more;
      }
    }
  }

  lemma NoSteps(c: Config, s: Sys)
    requires ValidConfig(c)
    ensures InPhase(c, s, []) && AllSuccesses(c, s, []) == 0
  {
  }

  /**
   * A recovery takes `successThreshold` such successes, its own included, from all four sources together. It is due
   * to probes of this phase alone exactly when the other three gave none.
   */
  lemma RecoveryBySource(c: Config, wait: Duration, at: real, ls: seq<Label>, l: Label)
    returns (past: seq<Label>, more: seq<Label>)
    requires ValidConfig(c) && Legal(c, wait, at, ls) && Enabled(c, At(c, wait, at, ls), l) && l.TakesWriteLock()
    requires var s := At(c, wait, at, ls); Step(c, s.machine, LockedOp(c, s, l)).1 == Some((HalfOpen, Closed))
    ensures PhaseOf(c, wait, at, ls, past, more)
    ensures var s := At(c, wait, at, past);
            && After(c, s, more + [l]).Some?
            && AllSuccesses(c, s, more + [l]) == c.successThreshold
            && (Successes(c, s, more + [l], CurrentProbe) == c.successThreshold
                <==> OutsideSuccesses(c, s, more + [l]) == Successes(c, s, more + [l], Manual) == 0)
  {
    hide Enabled, Apply, SucceedsHalfOpen, Enters, After, Successes, InPhase, LockedOp;
    past, more := SuccessCountBySource(c, wait, at, ls);
    CountStep(c, wait, at, ls, l);
    PhaseHasSuccessor(c, At(c, wait, at, past), more);
    RunSplits(c, wait, at, past, more);
    AllSuccessesSnoc(c, At(c, wait, at, past), more, l);
  }

  lemma RunSplits(c: Config, wait: Duration, at: real, past: seq<Label>, more: seq<Label>)
    requires ValidConfig(c) && Legal(c, wait, at, past) && After(c, At(c, wait, at, past), more).Some?
    ensures Legal(c, wait, at, past + more)
    ensures After(c, At(c, wait, at, past), more) == Some(At(c, wait, at, past + more))
  {
    Probes.AfterConcat(c, Start(wait, at), past, more);
  }

  /** When the circuit enters Open no call holds a permit of the phase to come: each is granted within it. */
  lemma PhasesStartWithoutProbes(c: Config, wait: Duration, at: real, ls: seq<Label>, l: Label, t: nat)
    requires ValidConfig(c) && Legal(c, wait, at, ls) && Enabled(c, At(c, wait, at, ls), l) && l.TakesWriteLock()
    requires var s := At(c, wait, at, ls); EntersOpen(c, s.machine, LockedOp(c, s, l))
    ensures var n := Apply(c, At(c, wait, at, ls), l);
            t < |n.tasks| && HoldsPermit(n.tasks[t]) ==> TagOf(n.tasks[t]) < n.episode
  {
    hide Step, EntersOpen, NoReaders, Current, After, PermitsInv, LogInv, TotalsInv;
    EveryInterleaving(c, wait, at, ls);
    var s := At(c, wait, at, ls);
    assert t < |s.tasks| ==> TaskInv(c, s, s.tasks[t]);
  }

  /** A call whose operation is under way, or over but not recorded, without a permit of the current phase. */
  predicate IsOutsider(s: Sys, x: Task) {
    (x.Running? || x.Finished?) && x.permit != Some(s.episode)
  }

  predicate NoOutsiders(s: Sys) {
    forall t :: 0 <= t < |s.tasks| ==> !IsOutsider(s, s.tasks[t])
  }

  /** An operation that does not end the phase leaves a circuit that reads HalfOpen so. */
  lemma PhaseGoesOn(c: Config, m: Machine, op: Op)
    requires ValidConfig(c) && Current(m, op.now) == HalfOpen
    requires !EntersOpen(c, m, op) && !EntersClosed(c, m, op)
    ensures Current(Step(c, m, op).0, op.now) == HalfOpen
  {
    hide ShouldTrip;
  }

  lemma MovedIsNoOutsider(c: Config, s: Sys, l: Label)
    requires ValidConfig(c) && l.OfTask() && Enabled(c, s, l)
    requires TaskInv(c, s, s.tasks[l.t]) && !IsOutsider(s, s.tasks[l.t]) && Current(s.machine, s.clock) == HalfOpen
    ensures !IsOutsider(s, Moved(c, s, l))
  {
    hide Current, NoReaders;
  }

  /** Within a half-open phase no call becomes an outsider. */
  lemma NoOutsidersStep(c: Config, s: Sys, l: Label)
    requires ValidConfig(c) && Enabled(c, s, l) && TasksInv(c, s) && NoOutsiders(s)
    requires Current(s.machine, s.clock) == HalfOpen && !Enters(c, s, l)
    ensures NoOutsiders(Apply(c, s, l)) && Current(Apply(c, s, l).machine, Apply(c, s, l).clock) == HalfOpen
  {
    hide Step, EntersOpen, EntersClosed, NoReaders, Moved, TaskInv, Current;
    if l.TakesWriteLock() {
      PhaseGoesOn(c, s.machine, LockedOp(c, s, l));
    }
    if l.OfTask() {
      MovedIsNoOutsider(c, s, l);
    }
    CurrentIsStable(s.machine, s.clock, Apply(c, s, l).clock);
  }

  lemma {:induction false} NoOutsidersRun(c: Config, wait: Duration, at: real, past: seq<Label>, more: seq<Label>)
    requires ValidConfig(c) && Legal(c, wait, at, past) && InPhase(c, At(c, wait, at, past), more)
    requires var s := At(c, wait, at, past); NoOutsiders(s) && Current(s.machine, s.clock) == HalfOpen
    ensures var n := After(c, At(c, wait, at, past), more).value;
            NoOutsiders(n) && Current(n.machine, n.clock) == HalfOpen
    ensures OutsideSuccesses(c, At(c, wait, at, past), more) == 0
  {
    hide Apply, Enters, NoOutsiders, Current, PermitsInv, LogInv, TasksInv, TotalsInv, SucceedsHalfOpen, Enabled;
    if more != [] {
      var s := At(c, wait, at, past);
      NoOutsidersRun(c, wait, at, past, Front(more));
      RunSplits(c, wait, at, past, Front(more));
      EveryInterleaving(c, wait, at, past + Front(more));
      var n := After(c, s, Front(more)).value;
      NoOutsidersStep(c, n, Last(more));
      RecordsAreCurrent(c, n, Last(more));
    }
  }

  lemma RecordsAreCurrent(c: Config, s: Sys, l: Label)
    requires Enabled(c, s, l) && NoOutsiders(s)
    ensures SourceOf(c, s, l) == if l.Record? then CurrentProbe else Manual
  {
    assert l.Record? ==> !IsOutsider(s, s.tasks[l.t]);
  }

  /**
   * With no outsider in flight when the circuit reads HalfOpen, none has a say in the rest of the phase: the success
   * count grows by its own probes and by hand only, and whatever call's record comes next, to close the circuit, to
   * trip it again or neither, is that of a probe of this phase.
   */
  lemma OwnProbesDecide(c: Config, wait: Duration, at: real, past: seq<Label>, more: seq<Label>, l: Label)
    requires ValidConfig(c) && Legal(c, wait, at, past) && InPhase(c, At(c, wait, at, past), more)
    requires var s := At(c, wait, at, past); NoOutsiders(s) && Current(s.machine, s.clock) == HalfOpen
    requires Enabled(c, After(c, At(c, wait, at, past), more).value, l)
    ensures var s := At(c, wait, at, past);
            var n := After(c, s, more).value;
            && n.machine.successCount
               == s.machine.successCount + Successes(c, s, more, CurrentProbe) + Successes(c, s, more, Manual)
            && (l.Record? ==> SourceOf(c, n, l) == CurrentProbe)
  {
    hide Enabled, After, InPhase, NoOutsiders, Current, SourceOf, Successes;
    NoOutsidersRun(c, wait, at, past, more);
    CountGrows(c, wait, at, past, more);
    PhaseHasSuccessor(c, At(c, wait, at, past), more);
    RecordsAreCurrent(c, After(c, At(c, wait, at, past), more).value, l);
  }

  lemma PhaseHasSuccessor(c: Config, s: Sys, ls: seq<Label>)
    requires ValidConfig(c) && InPhase(c, s, ls)
    ensures After(c, s, ls).Some?
  {
  }

  lemma {:induction false} CountGrows(c: Config, wait: Duration, at: real, past: seq<Label>, more: seq<Label>)
    requires ValidConfig(c) && Legal(c, wait, at, past) && InPhase(c, At(c, wait, at, past), more)
    ensures var s := At(c, wait, at, past);
            After(c, s, more).value.machine.successCount == s.machine.successCount + AllSuccesses(c, s, more)
  {
    hide Apply, Enters, SucceedsHalfOpen, Enabled, AllSuccesses;
    var s := At(c, wait, at, past);
    if more == [] {
      NoSteps(c, s);
    } else {
      CountGrows(c, wait, at, past, Front(more));
      RunSplits(c, wait, at, past, Front(more));
      CountStep(c, wait, at, past + Front(more), Last(more));
      AllSuccessesSnoc(c, s, Front(more), Last(more));
      assert Front(more) + [Last(more)] == more;
    }
  }

  /** A continuation that stays in the phase up to its last step, which is the record of an outsider. */
  predicate OutsideRecord(c: Config, s: Sys, more: seq<Label>)
    requires ValidConfig(c)
  {
    && more != [] && After(c, s, more).Some? && InPhase(c, s, Front(more))
    && Last(more).Record? && SourceOf(c, After(c, s, Front(more)).value, Last(more)) != CurrentProbe
  }

  /** Steps that take no write lock stay in the phase. */
  lemma {:induction false} NoWritesInPhase(c: Config, s: Sys, ls: seq<Label>)
    requires ValidConfig(c) && After(c, s, ls).Some? && NoWrites(ls)
    ensures InPhase(c, s, ls)
  {
    hide Apply, Enabled, EntersOpen, EntersClosed;
    if ls != [] {
      assert Last(ls) == ls[|ls| - 1];
      NoWritesInPhase(c, s, Front(ls));
    }
  }

  /** The record of an outsider that has finished can come next, once the readers are gone. */
  lemma FinishedOutsiderRecords(c: Config, s: Sys, ls: seq<Label>, t: nat) returns (more: seq<Label>)
    requires ValidConfig(c) && After(c, s, ls).Some? && NoWrites(ls)
    requires var m := After(c, s, ls).value;
             t < |m.tasks| && m.tasks[t].Finished? && m.tasks[t].permit != Some(m.episode)
    ensures OutsideRecord(c, s, more)
  {
    hide After, NoReaders, HoldsGuard, Apply;
    var m := After(c, s, ls).value;
    FinishedHoldsNoGuard(m.tasks[t]);
    var drain, n := Progress.WritersNeverWaitForOperations(c, m);
    OnlyWritersReachTheMachine(c, m, drain);
    Probes.AfterConcat(c, s, ls, drain);
    NoWritesInPhase(c, s, ls + drain);
    Probes.AfterSnoc(c, s, ls + drain, Record(t, 0.0));
    more := ls + drain + [Record(t, 0.0)];
    assert Front(more) == ls + drain;
  }

  lemma FinishedHoldsNoGuard(x: Task)
    requires x.Finished?
    ensures !HoldsGuard(x)
  {
  }

  lemma OutsiderRecords(c: Config, s: Sys, t: nat) returns (more: seq<Label>)
    requires ValidConfig(c) && t < |s.tasks| && IsOutsider(s, s.tasks[t])
    ensures OutsideRecord(c, s, more)
  {
    hide After, NoReaders, OutsideRecord, Step, EntersOpen;
    Probes.AfterNothing(c, s);
    if s.tasks[t].Running? {
      Probes.AfterSnoc(c, s, [], FinishOk(t));
      more := FinishedOutsiderRecords(c, s, [] + [FinishOk(t)], t);
    } else {
      more := FinishedOutsiderRecords(c, s, [], t);
    }
  }

  /**
   * Exactly when a half-open phase can still be decided by calls that are not its probes: when such a call is in
   * flight. No call that comes later can become one.
   */
  lemma OutsideRecordsExactly(c: Config, wait: Duration, at: real, past: seq<Label>)
    requires ValidConfig(c) && Legal(c, wait, at, past)
    requires var s := At(c, wait, at, past); Current(s.machine, s.clock) == HalfOpen
    ensures var s := At(c, wait, at, past);
            (exists more :: OutsideRecord(c, s, more)) <==> !NoOutsiders(s)
  {
    hide After, IsOutsider, Current;
    var s := At(c, wait, at, past);
    if !NoOutsiders(s) {
      var t: nat :| t < |s.tasks| && IsOutsider(s, s.tasks[t]);
      var more := OutsiderRecords(c, s, t);
    } else if more :| OutsideRecord(c, s, more) {
      LastEnabled(c, s, more);
      OwnProbesDecide(c, wait, at, past, Front(more), Last(more));
      assert false;
    }
  }

  lemma LastEnabled(c: Config, s: Sys, ls: seq<Label>)
    requires ValidConfig(c) && ls != [] && After(c, s, ls).Some?
    ensures After(c, s, Front(ls)).Some? && Enabled(c, After(c, s, Front(ls)).value, Last(ls))
  {
  }
}

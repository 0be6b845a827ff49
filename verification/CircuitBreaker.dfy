/**
 * `call`, the permit's compare-exchange loop and drop, and the manual operations (src/lib.rs) as imperative code over
 * the shared state. Between any two of its steps the code lets other tasks run (`Interfere`), about which only the
 * protocol is known. Every step is logged as a label, so each method is proved to be a run of module `Protocol`. The
 * ghost constant `allowed` is the steps the rest of the world keeps to: as the code cannot read it, it shows which of
 * the logged steps are the code's own.
 */
module CircuitBreaker {
  import opened Prelude
  import opened Config
  import opened Xorshift
  import opened Protocol
  import opened Guarantees
  import opened Contention
  import opened Solo
  import M = Machine
  import SM = StateMachine
  import R = Reference
  import Probes

  /** What the wrapped operation does. */
  datatype Outcome = Succeeds | Fails(counted: bool) | TimesOut | IsDropped

  /** The result a call that was let through has to return. */
  function Expected(o: Outcome): Result {
    match o
    case Succeeds => Succeeded
    case Fails(counted) => if counted then Failed else PassedThrough
    case TimesOut => TimedOut
    case IsDropped => Cancelled
  }

  /** Does the call record this outcome? */
  predicate IsRecorded(o: Outcome) {
    o != IsDropped && o != Fails(false)
  }

  /** Where the call is once its operation is over. */
  function Completed(o: Outcome, p: Option<nat>): Task {
    match o
    case Succeeds => Finished(Good, p)
    case Fails(counted) => if counted then Finished(Bad, p) else Leaving(PassedThrough, p)
    case TimesOut => Finished(Late, p)
    case IsDropped => Leaving(Cancelled, p)
  }

  /** The step by which the call moves there. */
  function CompletionLabel(t: nat, o: Outcome): Label {
    match o
    case Succeeds => FinishOk(t)
    case Fails(counted) => FinishErr(t, counted)
    case TimesOut => Timeout(t)
    case IsDropped => Cancel(t)
  }

  lemma NothingToRecord(o: Outcome, p: Option<nat>)
    requires !IsRecorded(o)
    ensures Completed(o, p) == Leaving(Expected(o), p)
  {
  }

  /** The operation is over with this outcome, which is still to be recorded. */
  predicate Unrecorded(x: Task, o: Outcome) {
    x.Finished? && x == Completed(o, x.permit)
  }

  lemma StillToRecord(o: Outcome, p: Option<nat>)
    requires IsRecorded(o)
    ensures Unrecorded(Completed(o, p), o)
  {
  }

  /** After the first `i` steps of the run, task `t` had this outcome to record and a reader held the lock. */
  predicate HeldOff(c: Config, wait: Duration, at: real, ls: seq<Label>, i: nat, t: nat, o: Outcome)
    requires ValidConfig(c)
  {
    && i <= |ls| && Legal(c, wait, at, ls[..i])
    && var s := At(c, wait, at, ls[..i]);
       t < |s.tasks| && Unrecorded(s.tasks[t], o) && !NoReaders(s)
  }

  predicate AllHeldOff(c: Config, wait: Duration, at: real, ls: seq<Label>, looks: seq<nat>, t: nat, o: Outcome)
    requires ValidConfig(c)
  {
    forall k :: 0 <= k < |looks| ==> HeldOff(c, wait, at, ls, looks[k], t, o)
  }

  /** What was seen along a run stays true of the run as it goes on. */
  lemma HeldOffStays(c: Config, wait: Duration, at: real, ls: seq<Label>, more: seq<Label>, looks: seq<nat>, t: nat,
                     o: Outcome)
    requires ValidConfig(c) && ls <= more && AllHeldOff(c, wait, at, ls, looks, t, o)
    ensures AllHeldOff(c, wait, at, more, looks, t, o)
  {
    hide Legal, At, Unrecorded, NoReaders;
    forall k | 0 <= k < |looks| ensures HeldOff(c, wait, at, more, looks[k], t, o) {
      assert HeldOff(c, wait, at, ls, looks[k], t, o);
      assert more[..looks[k]] == ls[..looks[k]];
    }
  }

  /** One look at the lock that finds a reader. */
  lemma LookHeldOff(c: Config, wait: Duration, at: real, ls: seq<Label>, looks: seq<nat>, t: nat, o: Outcome)
    requires ValidConfig(c) && Legal(c, wait, at, ls) && AllHeldOff(c, wait, at, ls, looks, t, o)
    requires var s := At(c, wait, at, ls);
             t < |s.tasks| && Unrecorded(s.tasks[t], o) && Tally(s.tasks, HoldsGuard) != 0
    ensures AllHeldOff(c, wait, at, ls, looks + [|ls|], t, o)
  {
    hide Unrecorded, After;
    var reader := TallyWitness(At(c, wait, at, ls).tasks, HoldsGuard);
    assert ls[..|ls|] == ls;
    assert HeldOff(c, wait, at, ls, |ls|, t, o);
  }

  lemma NoLooks(c: Config, wait: Duration, at: real, ls: seq<Label>, t: nat, o: Outcome)
    requires ValidConfig(c)
    ensures AllHeldOff(c, wait, at, ls, [], t, o)
  {
  }

  /** How the admission block of `call` ends. */
  datatype Admission = Error(result: Result) | GoAhead(permit: bool) | Undecided

  /** Other tasks' steps leave this one where it is. */
  lemma {:induction false} OthersKeepTask(c: Config, s: Sys, ls: seq<Label>, t: nat)
    requires ValidConfig(c) && After(c, s, ls).Some? && Others(ls, t) && t < |s.tasks|
    ensures t < |After(c, s, ls).value.tasks| && After(c, s, ls).value.tasks[t] == s.tasks[t]
  {
    hide M.Step, M.EntersOpen, Moved, LockedOp, NoReaders;
    if ls != [] {
      assert M.Last(ls) == ls[|ls| - 1];
      OthersKeepTask(c, s, M.Front(ls), t);
    }
  }

  /** With no reader counted, no task holds the guard. */
  lemma {:induction false} NoneCounted(tasks: seq<Task>, t: nat)
    requires Tally(tasks, HoldsGuard) == 0 && t < |tasks|
    ensures !HoldsGuard(tasks[t])
  {
    if t < |tasks| - 1 {
      NoneCounted(M.Front(tasks), t);
    }
  }

  lemma NoReaderCounted(s: Sys)
    requires Tally(s.tasks, HoldsGuard) == 0
    ensures NoReaders(s)
  {
    forall t | 0 <= t < |s.tasks| ensures !HoldsGuard(s.tasks[t]) {
      NoneCounted(s.tasks, t);
    }
  }

  lemma RunContinues(c: Config, wait: Duration, at: real, a: seq<Label>, b: seq<Label>)
    requires ValidConfig(c) && Legal(c, wait, at, a) && Legal(c, wait, at, a + b)
    ensures After(c, At(c, wait, at, a), b) == Some(At(c, wait, at, a + b))
  {
    Probes.AfterConcat(c, Start(wait, at), a, b);
  }

  lemma StepLogged(c: Config, wait: Duration, at: real, ls: seq<Label>, l: Label)
    requires ValidConfig(c) && Legal(c, wait, at, ls) && Enabled(c, At(c, wait, at, ls), l)
    ensures Legal(c, wait, at, ls + [l])
    ensures At(c, wait, at, ls + [l]) == Apply(c, At(c, wait, at, ls), l)
  {
    hide Apply, Enabled;
    Probes.AfterSnoc(c, Start(wait, at), ls, l);
  }

  /** The label of a success or failure recorded by a call's task, or manually. */
  function RecordLabel(caller: Option<nat>, good: bool, draw: Sample): Label {
    if caller.Some? then Record(caller.value, draw) else if good then ManualSuccess else ManualFailure(draw)
  }

  /** A manual record, or the record of a task that has finished with such a verdict. */
  predicate MayRecord(s: Sys, caller: Option<nat>, good: bool) {
    caller.Some? ==>
      caller.value < |s.tasks| && s.tasks[caller.value].Finished? && (s.tasks[caller.value].verdict.Good? <==> good)
  }

  lemma SuccessStep(c: Config, s: Sys, caller: Option<nat>)
    requires ValidConfig(c) && NoReaders(s) && MayRecord(s, caller, true)
    ensures var l := RecordLabel(caller, true, 0.0);
            && Enabled(c, s, l)
            && var n := Apply(c, s, l);
               && n.machine == M.RecordSuccess(c, s.machine, s.clock).0
               && n.permits == s.permits && n.clock == s.clock
               && Tally(n.tasks, HoldsGuard) == Tally(s.tasks, HoldsGuard)
               && (caller.Some? ==>
                     n.tasks == s.tasks[caller.value := Leaving(Succeeded, s.tasks[caller.value].permit)])
  {
    hide M.RecordSuccess, Apply, NoReaders;
    LockedStep(c, s, RecordLabel(caller, true, 0.0));
  }

  lemma FailureStep(c: Config, s: Sys, caller: Option<nat>, draw: Sample)
    requires ValidConfig(c) && NoReaders(s) && MayRecord(s, caller, false)
    ensures var l := RecordLabel(caller, false, draw);
            && Enabled(c, s, l)
            && var n := Apply(c, s, l);
               && n.machine == M.RecordFailure(c, s.machine, s.clock, draw).0
               && n.permits == s.permits && n.clock == s.clock
               && Tally(n.tasks, HoldsGuard) == Tally(s.tasks, HoldsGuard)
               && (caller.Some? ==>
                     n.tasks == s.tasks[caller.value :=
                       Leaving(if s.tasks[caller.value].verdict.Bad? then Failed else TimedOut,
                               s.tasks[caller.value].permit)])
  {
    hide M.RecordFailure, Apply, NoReaders;
    LockedStep(c, s, RecordLabel(caller, false, draw));
  }

  class CircuitBreaker {
    const c: Config
    const state: SM.StateMachine
    // The jitter generator of the executing thread.
    const cell: JitterCell
    var halfOpenPermits: int
    // How many tasks hold the read guard.
    var readers: int
    var clock: real
    // The run so far, of all tasks.
    ghost const wait: Duration
    ghost const at: real
    // The steps that everybody but the code below may take.
    ghost const allowed: iset<Label>
    ghost var trace: seq<Label>

    /** The protocol's view of the shared state and of every task. */
    ghost function S(): Sys
      requires ValidConfig(c) && Legal(c, wait, at, trace)
      reads `trace
    {
      At(c, wait, at, trace)
    }

    ghost predicate Valid()
      reads this, state, state.window, state.window.outcomes, cell
    {
      && ValidConfig(c) && Legal(c, wait, at, trace)
      && state.Valid(c) && cell.Valid()
      && Coupled(S())
    }

    ghost predicate Coupled(s: Sys)
      requires state.window.Shape()
      reads this, state, state.window, state.window.outcomes
    {
      && state.Model() == s.machine
      && halfOpenPermits == s.permits
      && readers == Tally(s.tasks, HoldsGuard)
      && clock == s.clock
    }

    lemma ReadersAreCounted()
      requires Valid()
      ensures readers == Tally(S().tasks, HoldsGuard)
    {
      hide state.Valid, R.Inv, JitterCell.Valid, After, Tally;
    }

    /** What `this` may touch. */
    ghost function Frame(): set<object>
      reads this
    {
      {this, state, state.window, state.window.outcomes, cell}
    }

    /** Task `t` of this breaker is at `x`. */
    ghost predicate AtTask(t: nat, x: Task)
      reads `trace
    {
      ValidConfig(c) && Legal(c, wait, at, trace) && t < |S().tasks| && S().tasks[t] == x
    }

    /** Logs a step of task `t` that does not take the write lock, once the shared fields have been updated. */
    ghost method Log(l: Label, x: Task, y: Task)
      requires ValidConfig(c) && Legal(c, wait, at, trace)
      requires state.Valid(c) && cell.Valid()
      requires l.OfTask() && !l.TakesWriteLock() && AtTask(l.t, x) && Enabled(c, S(), l) && Moved(c, S(), l) == y
      requires state.Model() == S().machine && clock == S().clock
      requires halfOpenPermits == S().permits + Bit(l.CasOk?) - Bit(l.Release?)
      requires readers == Tally(S().tasks, HoldsGuard) + Bit(HoldsGuard(y)) - Bit(HoldsGuard(x))
      modifies `trace
      ensures Valid() && trace == old(trace) + [l] && AtTask(l.t, y)
    {
      hide Moved, After, HoldsGuard, Enabled, R.Inv, JitterCell.Valid;
      StepLogged(c, wait, at, trace, l);
      TallyUpdate(S().tasks, l.t, y, HoldsGuard);
      trace := trace + [l];
    }

    /** Lets other tasks take any number of steps: nothing is known of this method but what it promises. */
    method Environment(ghost t: nat) returns (ghost others: seq<Label>)
      requires Valid()
      modifies Frame()
      ensures Valid() && trace == old(trace) + others && Others(others, t)
      ensures forall i :: 0 <= i < |others| ==> others[i] in allowed
    {
      others := [];
      assert trace == trace + others;
    }

    /** The same, seen from a task of this breaker: it stays where it is. */
    method Interfere(ghost t: nat, ghost x: Task)
      requires Valid() && AtTask(t, x)
      modifies Frame()
      ensures Valid() && old(trace) <= trace && AtTask(t, x)
      ensures CasFails(trace, t) == CasFails(old(trace), t)
      ensures Foreign(trace, t, allowed) == Foreign(old(trace), t, allowed)
    {
      hide Coupled, After, R.Inv, JitterCell.Valid, CasFails, Foreign;
      ghost var others := Environment(t);
      OthersFailNothing(old(trace), others, t);
      assert trace[|old(trace)|..] == others;
      NoForeignSince(old(trace), trace, t, allowed);
      RunContinues(c, wait, at, old(trace), others);
      OthersKeepTask(c, old(S()), others, t);
    }

    constructor (c: Config, cell: JitterCell, nanos: bv64, now: real, ghost allowed: iset<Label>)
      requires ValidConfig(c) && cell.Valid()
      modifies cell
      ensures Valid() && this.c == c && this.allowed == allowed && trace == []
      ensures fresh(Frame() - {cell}) && this.cell == cell
    {
      hide R.Inv, JitterCell.Valid;
      var machine := new SM.StateMachine(c, cell, nanos);
      this.c := c;
      this.state := machine;
      this.cell := cell;
      halfOpenPermits, readers, clock := 0, 0, now;
      wait, at, trace := machine.waitDuration, now, [];
      this.allowed := allowed;
    }

    /** `record_success`, under the write lock. */
    method RecordSuccess(ghost caller: Option<nat>, nanos: bv64)
      requires Valid() && readers == 0 && MayRecord(S(), caller, true)
      modifies Frame()
      ensures Valid() && trace == old(trace) + [RecordLabel(caller, true, 0.0)]
      ensures caller.Some? ==> AtTask(caller.value, Leaving(Succeeded, old(S()).tasks[caller.value].permit))
    {
      hide M.RecordSuccess, R.Inv, R.RefStep, JitterCell.Valid, After, Apply, Tally, Enabled, NoReaders, RecordLabel;
      ghost var l := RecordLabel(caller, true, 0.0);
      NoReaderCounted(S());
      SuccessStep(c, S(), caller);
      StepLogged(c, wait, at, trace, l);
      var transition := state.RecordSuccess(c, clock, cell, nanos);
      trace := trace + [l];
    }

    /** `record_failure`, under the write lock. */
    method RecordFailure(ghost caller: Option<nat>, nanos: bv64)
      requires Valid() && readers == 0 && MayRecord(S(), caller, false)
      modifies Frame()
      ensures Valid() && trace == old(trace) + [RecordLabel(caller, false, SampleOf(cell.state))]
      ensures caller.Some? ==>
        AtTask(caller.value,
               Leaving(if old(S()).tasks[caller.value].verdict.Bad? then Failed else TimedOut,
                       old(S()).tasks[caller.value].permit))
    {
      hide M.RecordFailure, R.Inv, R.RefStep, JitterCell.Valid, After, Apply, Tally, Enabled, NoReaders, RecordLabel,
           SampleOf;
      ghost var before := S();
      NoReaderCounted(before);
      var transition := state.RecordFailure(c, clock, cell, nanos);
      ghost var l := RecordLabel(caller, false, SampleOf(cell.state));
      FailureStep(c, before, caller, SampleOf(cell.state));
      StepLogged(c, wait, at, trace, l);
      trace := trace + [l];
    }

    /** `trip`, under the write lock. */
    method ForceOpen(nanos: bv64)
      requires Valid() && readers == 0
      modifies Frame()
      ensures Valid() && trace == old(trace) + [ForceTrip(SampleOf(cell.state))]
    {
      hide M.Step, R.Inv, JitterCell.Valid, After, SampleOf, Apply, Tally;
      ghost var before := S();
      NoReaderCounted(before);
      state.ForceOpen(c, clock, cell, nanos);
      ghost var l := ForceTrip(SampleOf(cell.state));
      StepLogged(c, wait, at, trace, l);
      LockedStep(c, before, l);
      trace := trace + [l];
    }

    /** `reset`, under the write lock. */
    method Reset(nanos: bv64)
      requires Valid() && readers == 0
      modifies Frame()
      ensures Valid() && trace == old(trace) + [ForceReset]
    {
      hide M.Step, R.Inv, JitterCell.Valid, After, Apply, Tally;
      ghost var before := S();
      NoReaderCounted(before);
      StepLogged(c, wait, at, trace, ForceReset);
      LockedStep(c, before, ForceReset);
      state.ForceClosed(c, clock, cell, nanos);
      trace := trace + [ForceReset];
    }

    // The atomic actions of a call. Each is one step of its task, and logs it.

    /** Taking the read guard. */
    method LockRead(ghost t: nat)
      requires Valid() && AtTask(t, Started)
      modifies `readers, `trace
      ensures Valid() && trace == old(trace) + [TakeGuard(t)] && AtTask(t, Guarded)
    {
      hide R.Inv, JitterCell.Valid, After, NoReaders, Tally, M.Current;
      readers := readers + 1;
      Log(TakeGuard(t), Started, Guarded);
    }

    /** Reading the effective state under the guard. */
    method ReadState(ghost t: nat) returns (s: M.State)
      requires Valid() && AtTask(t, Guarded)
      modifies `trace
      ensures Valid() && trace == old(trace) + [Inspect(t)]
      ensures AtTask(t, match s case Open => Refused(RefusedOpen) case HalfOpen => Probing case Closed => Admitted)
    {
      hide R.Inv, JitterCell.Valid, After, M.Current;
      s := state.Current(clock);
      Log(Inspect(t), Guarded,
          match s case Open => Refused(RefusedOpen) case HalfOpen => Probing case Closed => Admitted);
    }

    /** Giving the read guard back. */
    method UnlockRead(ghost t: nat, ghost x: Task)
      requires Valid() && AtTask(t, x) && (x.Granted? || x.Admitted? || x.Refused?)
      modifies `readers, `trace
      ensures Valid() && trace == old(trace) + [DropGuard(t)]
      ensures AtTask(t, if x.Granted? then Running(Some(x.tag))
                        else if x.Admitted? then Running(None) else Ended(x.why))
    {
      hide R.Inv, JitterCell.Valid, After, NoReaders, Tally, M.Current;
      readers := readers - 1;
      Log(DropGuard(t), x,
          if x.Granted? then Running(Some(x.tag)) else if x.Admitted? then Running(None) else Ended(x.why));
    }

    /** `load` of the permit counter. */
    method LoadPermits(ghost t: nat) returns (v: int)
      requires Valid() && AtTask(t, Probing)
      modifies `trace
      ensures Valid() && trace == old(trace) + [Load(t)] && AtTask(t, Comparing(v))
    {
      hide R.Inv, JitterCell.Valid, After, NoReaders, Tally, M.Current;
      v := halfOpenPermits;
      Log(Load(t), Probing, Comparing(v));
    }

    /** `compare_exchange_weak`: may fail although the counter holds the expected value. */
    method CompareExchangeWeak(ghost t: nat, expected: int) returns (won: bool, observed: int, ghost tag: nat)
      requires Valid() && AtTask(t, Comparing(expected)) && expected < c.halfOpenMaxCalls
      modifies `halfOpenPermits, `trace
      ensures Valid() && trace == old(trace) + [if won then CasOk(t) else CasFail(t)]
      ensures AtTask(t, if won then Granted(tag) else Comparing(observed))
    {
      hide R.Inv, JitterCell.Valid, After, NoReaders, Tally, M.Current;
      var spurious: bool := *;
      observed := halfOpenPermits;
      won := observed == expected && !spurious;
      tag := S().episode;
      if won {
        halfOpenPermits := expected + 1;
        Log(CasOk(t), Comparing(expected), Granted(tag));
      } else {
        Log(CasFail(t), Comparing(expected), Comparing(observed));
      }
    }

    /** The early `None` of the loop: all slots are in use. */
    method GiveUp(ghost t: nat, observed: int)
      requires Valid() && AtTask(t, Comparing(observed)) && observed >= c.halfOpenMaxCalls
      modifies `trace
      ensures Valid() && trace == old(trace) + [Exhausted(t)] && AtTask(t, Refused(Rejected))
    {
      hide R.Inv, JitterCell.Valid, After, NoReaders, Tally, M.Current;
      Log(Exhausted(t), Comparing(observed), Refused(Rejected));
    }

    /** Dropping a held permit. */
    method DropPermit(ghost t: nat, ghost result: Result, ghost tag: nat)
      requires Valid() && AtTask(t, Leaving(result, Some(tag)))
      modifies `halfOpenPermits, `trace
      ensures Valid() && trace == old(trace) + [Release(t)] && AtTask(t, Leaving(result, None))
    {
      hide R.Inv, JitterCell.Valid, After, NoReaders, Tally, M.Current;
      halfOpenPermits := halfOpenPermits - 1;
      Log(Release(t), Leaving(result, Some(tag)), Leaving(result, None));
    }

    /**
     * The compare-exchange loop of `HalfOpenPermit::acquire`, entered with the guard held. `None` only when the
     * exchange has failed `patience` times, with the call still in its loop.
     */
    method Acquire(ghost t: nat, patience: nat) returns (granted: Option<bool>, ghost tag: nat, ghost last: int)
      requires Valid() && AtTask(t, Probing)
      modifies Frame()
      ensures Valid() && old(trace) <= trace
      ensures granted == Some(true) ==> AtTask(t, Granted(tag))
      ensures granted == Some(false) ==> AtTask(t, Refused(Rejected))
      ensures granted.None? ==>
        AtTask(t, Comparing(last)) && CasFails(trace, t) == CasFails(old(trace), t) + patience
      ensures Foreign(trace, t, allowed) == Foreign(old(trace), t, allowed)
    {
      hide Coupled, After, AtTask, CasFails, Foreign, Valid, Legal, ValidConfig;
      tag := 0;
      var current := LoadPermits(t);
      CasFailsSnoc(old(trace), Load(t), t);
      ForeignSnoc(old(trace), Load(t), t, allowed);
      var left := patience;
      while left > 0
        invariant Valid() && old(trace) <= trace && AtTask(t, Comparing(current))
        invariant 0 <= left <= patience && CasFails(trace, t) == CasFails(old(trace), t) + patience - left
        invariant Foreign(trace, t, allowed) == Foreign(old(trace), t, allowed)
      {
        Interfere(t, Comparing(current));
        ghost var before := trace;
        if current >= c.halfOpenMaxCalls {
          GiveUp(t, current);
          ForeignSnoc(before, Exhausted(t), t, allowed);
          return Some(false), tag, current;
        }
        var won;
        won, current, tag := CompareExchangeWeak(t, current);
        ForeignSnoc(before, if won then CasOk(t) else CasFail(t), t, allowed);
        if won {
          return Some(true), tag, current;
        }
        CasFailsSnoc(before, CasFail(t), t);
        left := left - 1;
      }
      return None, tag, current;
    }

    /**
     * All that was logged since is the call's beginning, its own steps and others' allowed ones; and if nothing is
     * allowed, all that has changed is the effect of its own.
     */
    ghost predicate HasActed(past: seq<Label>, before: Sys, t: nat, x: Task)
      reads `trace
    {
      && ValidConfig(c) && Legal(c, wait, at, trace)
      && past + [Begin] <= trace && OwnOrAllowed(trace[|past| + 1..], t, allowed)
      && (allowed == iset{} ==> SoleEffect(c, before, S(), x))
    }

    /** So it is when nothing foreign has been logged since the call began. */
    lemma HasActedSince(past: seq<Label>, before: Sys, t: nat, x: Task)
      requires AtTask(t, x) && past + [Begin] <= trace
      requires Foreign(trace, t, allowed) == Foreign(past + [Begin], t, allowed)
      requires Legal(c, wait, at, past) && before == At(c, wait, at, past) && t == |before.tasks|
      ensures HasActed(past, before, t, x)
    {
      hide After, SoleEffect, Foreign;
      NoForeignSince(past + [Begin], trace, t, allowed);
      if allowed == iset{} {
        var own := trace[|past| + 1..];
        assert trace == past + [Begin] + own;
        SoleCall(c, wait, at, past, own);
        SoleTask(c, before, S(), M.Last(S().tasks));
      }
    }

    /** Entering `call`. */
    method Enter() returns (ghost t: nat)
      requires Valid()
      modifies `trace
      ensures Valid() && trace == old(trace) + [Begin] && t == old(|S().tasks|) && AtTask(t, Started)
      ensures CasFails(trace, t) == 0
    {
      hide R.Inv, JitterCell.Valid, After, NoReaders, Tally, M.Current, CasFails;
      t := |S().tasks|;
      StepLogged(c, wait, at, trace, Begin);
      TallyAppend(S().tasks, Started, HoldsGuard);
      NoFailsBeforeBegin(c, wait, at, trace, t);
      CasFailsSnoc(trace, Begin, t);
      trace := trace + [Begin];
    }

    /** The operation completes, or is dropped, and the call moves on without touching shared state. */
    method Complete(ghost t: nat, ghost p: Option<nat>, outcome: Outcome)
      requires Valid() && AtTask(t, Running(p))
      modifies `trace
      ensures Valid() && old(trace) <= trace && AtTask(t, Completed(outcome, p))
      ensures Foreign(trace, t, allowed) == Foreign(old(trace), t, allowed)
    {
      hide R.Inv, JitterCell.Valid, After, NoReaders, Tally, M.Current, Foreign;
      ForeignSnoc(trace, CompletionLabel(t, outcome), t, allowed);
      match outcome {
        case Succeeds => Log(FinishOk(t), Running(p), Completed(outcome, p));
        case Fails(counted) => Log(FinishErr(t, counted), Running(p), Completed(outcome, p));
        case TimesOut => Log(Timeout(t), Running(p), Completed(outcome, p));
        case IsDropped => Log(Cancel(t), Running(p), Completed(outcome, p));
      }
    }

    /** Records the call's outcome, once no reader is left. */
    method RecordNow(ghost t: nat, ghost p: Option<nat>, outcome: Outcome, nanos: bv64)
      requires Valid() && readers == 0 && IsRecorded(outcome) && AtTask(t, Completed(outcome, p))
      modifies Frame()
      ensures Valid() && old(trace) <= trace && AtTask(t, Leaving(Expected(outcome), p))
      ensures Foreign(trace, t, allowed) == Foreign(old(trace), t, allowed)
    {
      hide Coupled, After, R.Inv, JitterCell.Valid, Foreign;
      if outcome.Succeeds? {
        RecordSuccess(Some(t), nanos);
      } else {
        RecordFailure(Some(t), nanos);
      }
      ForeignSnoc(old(trace), M.Last(trace), t, allowed);
    }

    /**
     * Waits for the write lock and records. `false` only when each of `patience` looks at the lock, at the instants
     * `looks` of the run, found a reader.
     */
    method RecordOutcome(ghost t: nat, ghost p: Option<nat>, outcome: Outcome, patience: nat, nanos: bv64)
      returns (done: bool, ghost looks: seq<nat>)
      requires Valid() && IsRecorded(outcome) && AtTask(t, Completed(outcome, p))
      modifies Frame()
      ensures Valid() && old(trace) <= trace
      ensures done ==> AtTask(t, Leaving(Expected(outcome), p))
      ensures !done ==>
        && AtTask(t, Completed(outcome, p)) && |looks| == patience
        && AllHeldOff(c, wait, at, trace, looks, t, outcome)
        && forall k :: 0 <= k < |looks| ==> |old(trace)| <= looks[k]
      ensures Foreign(trace, t, allowed) == Foreign(old(trace), t, allowed)
    {
      hide Coupled, After, R.Inv, JitterCell.Valid, AllHeldOff, Unrecorded, Foreign, Completed, Expected, Tally;
      StillToRecord(outcome, p);
      looks := [];
      NoLooks(c, wait, at, trace, t, outcome);
      var left := patience;
      while left > 0
        invariant Valid() && old(trace) <= trace && AtTask(t, Completed(outcome, p))
        invariant 0 <= left <= patience && |looks| == patience - left
        invariant AllHeldOff(c, wait, at, trace, looks, t, outcome)
        invariant forall k :: 0 <= k < |looks| ==> |old(trace)| <= looks[k]
        invariant Foreign(trace, t, allowed) == Foreign(old(trace), t, allowed)
      {
        ghost var before := trace;
        Interfere(t, Completed(outcome, p));
        if readers == 0 {
          RecordNow(t, p, outcome, nanos);
          return true, looks;
        }
        HeldOffStays(c, wait, at, before, trace, looks, t, outcome);
        ReadersAreCounted();
        LookHeldOff(c, wait, at, trace, looks, t, outcome);
        looks := looks + [|trace|];
        left := left - 1;
      }
      return false, looks;
    }

    /** Returning: the permit, if one is held, is dropped. */
    method Leave(ghost t: nat, ghost p: Option<nat>, permit: bool, result: Result)
      requires Valid() && permit == p.Some? && AtTask(t, Leaving(result, p))
      modifies Frame()
      ensures Valid() && old(trace) <= trace && AtTask(t, Ended(result))
      ensures Foreign(trace, t, allowed) == Foreign(old(trace), t, allowed)
    {
      hide Valid, AtTask, ValidConfig, After, Legal, Foreign;
      Interfere(t, Leaving(result, p));
      if permit {
        ForeignSnoc(trace, Release(t), t, allowed);
        DropPermit(t, result, p.value);
        Interfere(t, Leaving(result, None));
      }
      ForeignSnoc(trace, Return(t), t, allowed);
      Finish(t, result);
    }

    method Finish(ghost t: nat, ghost result: Result)
      requires Valid() && AtTask(t, Leaving(result, None))
      modifies `trace
      ensures Valid() && trace == old(trace) + [Return(t)] && AtTask(t, Ended(result))
    {
      hide R.Inv, JitterCell.Valid, After, NoReaders, Tally, M.Current;
      Log(Return(t), Leaving(result, None), Ended(result));
    }

    /** The admission block: an error to return at once, a permit, or nothing but the right to go ahead. */
    method Admit(ghost t: nat, patience: nat) returns (verdict: Admission, ghost p: Option<nat>, ghost last: int)
      requires Valid() && AtTask(t, Started)
      modifies Frame()
      ensures Valid() && old(trace) <= trace
      ensures verdict.Error? ==> AtTask(t, Ended(verdict.result)) && verdict.result in {RefusedOpen, Rejected}
      ensures verdict.GoAhead? ==> AtTask(t, Running(p)) && verdict.permit == p.Some?
      ensures verdict.Undecided? ==>
        AtTask(t, Comparing(last)) && CasFails(trace, t) == CasFails(old(trace), t) + patience
      ensures Foreign(trace, t, allowed) == Foreign(old(trace), t, allowed)
    {
      hide Valid, AtTask, ValidConfig, After, Legal, Expected, Completed, IsRecorded, CasFails, Foreign;
      p, last := None, 0;
      CasFailsSnoc(trace, TakeGuard(t), t);
      ForeignSnoc(trace, TakeGuard(t), t, allowed);
      LockRead(t);
      Interfere(t, Guarded);
      CasFailsSnoc(trace, Inspect(t), t);
      ForeignSnoc(trace, Inspect(t), t, allowed);
      var s := ReadState(t);
      match s {
        case Open =>
          Interfere(t, Refused(RefusedOpen));
          ForeignSnoc(trace, DropGuard(t), t, allowed);
          UnlockRead(t, Refused(RefusedOpen));
          verdict := Error(RefusedOpen);
        case HalfOpen =>
          Interfere(t, Probing);
          var granted;
          ghost var tag;
          granted, tag, last := Acquire(t, patience);
          match granted {
            case None =>
              verdict := Undecided;
            case Some(true) =>
              Interfere(t, Granted(tag));
              ForeignSnoc(trace, DropGuard(t), t, allowed);
              UnlockRead(t, Granted(tag));
              p := Some(tag);
              verdict := GoAhead(true);
            case Some(false) =>
              Interfere(t, Refused(Rejected));
              ForeignSnoc(trace, DropGuard(t), t, allowed);
              UnlockRead(t, Refused(Rejected));
              verdict := Error(Rejected);
          }
        case Closed =>
          Interfere(t, Admitted);
          ForeignSnoc(trace, DropGuard(t), t, allowed);
          UnlockRead(t, Admitted);
          verdict := GoAhead(false);
      }
    }

    /** `call` from its first step on: admission, the operation, recording, and leaving. */
    method Proceed(ghost t: nat, outcome: Outcome, patience: nat, nanos: bv64)
      returns (r: Option<Result>, ghost x: Task, ghost looks: seq<nat>)
      requires Valid() && AtTask(t, Started)
      modifies Frame()
      ensures Valid() && old(trace) <= trace && AtTask(t, x)
      ensures r.Some? ==> x == Ended(r.value) && r.value in {RefusedOpen, Rejected, Expected(outcome)}
      ensures r.None? ==>
        || (x.Comparing? && CasFails(trace, t) == CasFails(old(trace), t) + patience)
        || (Unrecorded(x, outcome) && |looks| == patience && AllHeldOff(c, wait, at, trace, looks, t, outcome))
      ensures Foreign(trace, t, allowed) == Foreign(old(trace), t, allowed)
    {
      hide Valid, AtTask, ValidConfig, After, Legal, Expected, Completed, IsRecorded, CasFails, AllHeldOff, Unrecorded,
           Foreign;
      looks := [];
      Interfere(t, Started);
      var verdict;
      ghost var p;
      ghost var last;
      verdict, p, last := Admit(t, patience);
      match verdict {
        case Error(result) =>
          return Some(result), Ended(result), looks;
        case Undecided =>
          return None, Comparing(last), looks;
        case GoAhead(permit) =>
          Interfere(t, Running(p));
          Complete(t, p, outcome);
          if IsRecorded(outcome) {
            var done;
            done, looks := RecordOutcome(t, p, outcome, patience, nanos);
            if !done {
              StillToRecord(outcome, p);
              return None, Completed(outcome, p), looks;
            }
          } else {
            NothingToRecord(outcome, p);
          }
          Leave(t, p, permit, Expected(outcome));
          return Some(Expected(outcome)), Ended(Expected(outcome)), looks;
      }
    }

    /**
     * `call`, with other tasks running between any two of its steps. When it returns, its task has gone through the
     * protocol to `Ended` with that result, and a call that was let through returns what its operation did. `None`
     * only when its exchange has failed `patience` times and it is still in its loop, or when its operation is over,
     * nothing is recorded, and each of `patience` looks at the lock found a reader. Every step logged is its own or one
     * that others may take. When they may take none, the breaker has changed by one record, if any, and by the permit
     * the call still holds.
     */
    method Call(outcome: Outcome, patience: nat, nanos: bv64)
      returns (r: Option<Result>, ghost t: nat, ghost x: Task, ghost looks: seq<nat>)
      requires Valid()
      modifies Frame()
      ensures Valid() && old(trace) <= trace && t == old(|S().tasks|) && AtTask(t, x)
      ensures r.Some? ==> x == Ended(r.value) && r.value in {RefusedOpen, Rejected, Expected(outcome)}
      ensures r.None? ==>
        || (x.Comparing? && CasFails(trace, t) == patience)
        || (Unrecorded(x, outcome) && |looks| == patience && AllHeldOff(c, wait, at, trace, looks, t, outcome))
      ensures HasActed(old(trace), old(S()), t, x)
    {
      hide Coupled, After, R.Inv, JitterCell.Valid, SoleEffect, Foreign, CasFails, AtTask, HasActed;
      t := Enter();
      r, x, looks := Proceed(t, outcome, patience, nanos);
      HasActedSince(old(trace), old(S()), t, x);
    }
  }

  /** A step under the write lock moves no permit, no reader and no clock. */
  lemma LockedStep(c: Config, s: Sys, l: Label)
    requires ValidConfig(c) && l.TakesWriteLock() && Enabled(c, s, l)
    ensures var n := Apply(c, s, l);
            && n.machine == M.Step(c, s.machine, LockedOp(c, s, l)).0
            && n.permits == s.permits && n.clock == s.clock
            && Tally(n.tasks, HoldsGuard) == Tally(s.tasks, HoldsGuard)
            && (l.Record? ==> n.tasks == s.tasks[l.t := Moved(c, s, l)])
  {
    hide M.Step, M.EntersOpen;
    if l.Record? {
      TallyUpdate(s.tasks, l.t, Moved(c, s, l), HoldsGuard);
    }
  }
}

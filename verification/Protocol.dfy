/**
 * The concurrent breaker (src/lib.rs): any number of `call`s, manual records and forced transitions, interleaved at
 * every lock, load, compare-exchange and release. A run is a sequence of labels; each label is one atomic step.
 */
module Protocol {
  import opened Prelude
  import opened Config
  import opened Machine

  /** How a call ends. */
  datatype Result = Succeeded | Failed | TimedOut | PassedThrough | RefusedOpen | Rejected | Cancelled

  /** What a completed operation has to record. */
  datatype Verdict = Good | Bad | Late

  /** One `call` in progress. A permit carries the number of the Open episode whose half-open phase granted it. */
  datatype Task =
    | Started
    | Guarded                                     // holds the read guard, has not read the state
    | Probing                                     // holds the guard, has read HalfOpen
    | Comparing(observed: int)                    // holds the guard, in the compare-exchange loop
    | Granted(tag: nat)                           // holds the guard and a permit
    | Admitted                                    // holds the guard, has read Closed
    | Refused(why: Result)                        // holds the guard, is returning an error
    | Running(permit: Option<nat>)                // awaits the operation, without the guard
    | Finished(verdict: Verdict, permit: Option<nat>)
    | Leaving(result: Result, permit: Option<nat>)
    | Ended(result: Result)

  datatype Sys = Sys(
    machine: Machine,
    log: seq<Op>,               // the operations done under the write lock, in lock order
    clock: real,
    permits: int,               // the shared atomic counter
    tasks: seq<Task>,
    episode: nat,               // how often the circuit has entered Open
    manualSuccesses: nat,
    manualFailures: nat)

  datatype Label =
    | Begin
    | TakeGuard(t: nat) | Inspect(t: nat) | Load(t: nat) | CasOk(t: nat) | CasFail(t: nat) | Exhausted(t: nat)
    | DropGuard(t: nat)
    | FinishOk(t: nat) | FinishErr(t: nat, counted: bool) | Timeout(t: nat) | Cancel(t: nat)
    | Record(t: nat, draw: Sample) | Release(t: nat) | Return(t: nat)
    | ManualSuccess | ManualFailure(draw: Sample) | ForceTrip(draw: Sample) | ForceReset
    | Tick(now: real)
  {
    predicate OfTask() {
      !Begin? && !ManualSuccess? && !ManualFailure? && !ForceTrip? && !ForceReset? && !Tick?
    }

    predicate TakesWriteLock() {
      Record? || ManualSuccess? || ManualFailure? || ForceTrip? || ForceReset?
    }
  }

  predicate HoldsGuard(x: Task) {
    x.Guarded? || x.Probing? || x.Comparing? || x.Granted? || x.Admitted? || x.Refused?
  }

  predicate HoldsPermit(x: Task) {
    x.Granted? || ((x.Running? || x.Finished? || x.Leaving?) && x.permit.Some?)
  }

  function TagOf(x: Task): nat
    requires HoldsPermit(x)
  {
    if x.Granted? then x.tag else x.permit.value
  }

  /** The write lock is free of readers. */
  predicate NoReaders(s: Sys) {
    forall t :: 0 <= t < |s.tasks| ==> !HoldsGuard(s.tasks[t])
  }

  predicate Enabled(c: Config, s: Sys, l: Label) {
    && (l.OfTask() ==> l.t < |s.tasks|)
    && (l.TakesWriteLock() ==> NoReaders(s))
    && match l
       case Begin => true
       case TakeGuard(t) => s.tasks[t].Started?
       case Inspect(t) => s.tasks[t].Guarded?
       case Load(t) => s.tasks[t].Probing?
       case CasOk(t) =>
         s.tasks[t].Comparing? && s.tasks[t].observed < c.halfOpenMaxCalls && s.permits == s.tasks[t].observed
       case CasFail(t) => s.tasks[t].Comparing? && s.tasks[t].observed < c.halfOpenMaxCalls
       case Exhausted(t) => s.tasks[t].Comparing? && s.tasks[t].observed >= c.halfOpenMaxCalls
       case DropGuard(t) => s.tasks[t].Granted? || s.tasks[t].Admitted? || s.tasks[t].Refused?
       case FinishOk(t) => s.tasks[t].Running?
       case FinishErr(t, _) => s.tasks[t].Running?
       case Timeout(t) => s.tasks[t].Running?
       case Cancel(t) => s.tasks[t].Running?
       case Record(t, _) => s.tasks[t].Finished?
       case Release(t) => s.tasks[t].Leaving? && s.tasks[t].permit.Some?
       case Return(t) => s.tasks[t].Leaving? && s.tasks[t].permit.None?
       case ManualSuccess => true
       case ManualFailure(_) => true
       case ForceTrip(_) => true
       case ForceReset => true
       case Tick(now) => s.clock <= now
  }

  /** What a step makes of the call it belongs to. */
  function Moved(c: Config, s: Sys, l: Label): Task
    requires l.OfTask() && Enabled(c, s, l)
  {
    var x := s.tasks[l.t];
    match l
    case TakeGuard(_) => Guarded
    case Inspect(_) =>
      (match Current(s.machine, s.clock)
       case Open => Refused(RefusedOpen)
       case HalfOpen => Probing
       case Closed => Admitted)
    case Load(_) => Comparing(s.permits)
    case CasOk(_) => Granted(s.episode)
    case CasFail(_) => Comparing(s.permits)
    case Exhausted(_) => Refused(Rejected)
    case DropGuard(_) =>
      if x.Granted? then Running(Some(x.tag)) else if x.Admitted? then Running(None) else Ended(x.why)
    case FinishOk(_) => Finished(Good, x.permit)
    case FinishErr(_, counted) => if counted then Finished(Bad, x.permit) else Leaving(PassedThrough, x.permit)
    case Timeout(_) => Finished(Late, x.permit)
    case Cancel(_) => Leaving(Cancelled, x.permit)
    case Record(_, _) =>
      Leaving(if x.verdict.Good? then Succeeded else if x.verdict.Bad? then Failed else TimedOut, x.permit)
    case Release(_) => Leaving(x.result, None)
    case Return(_) => Ended(x.result)
  }

  /** The state-machine operation of a step that takes the write lock. */
  function LockedOp(c: Config, s: Sys, l: Label): Op
    requires l.TakesWriteLock() && Enabled(c, s, l)
  {
    match l
    case Record(t, draw) => if s.tasks[t].verdict.Good? then Success(s.clock) else Failure(s.clock, draw)
    case ManualSuccess => Success(s.clock)
    case ManualFailure(draw) => Failure(s.clock, draw)
    case ForceTrip(draw) => Trip(s.clock, draw)
    case ForceReset => Reset(s.clock)
  }

  function Apply(c: Config, s: Sys, l: Label): Sys
    requires ValidConfig(c) && Enabled(c, s, l)
  {
    var locked :=
      if l.TakesWriteLock() then
        var op := LockedOp(c, s, l);
        s.(machine := Step(c, s.machine, op).0, log := s.log + [op],
           episode := s.episode + Bit(EntersOpen(c, s.machine, op)))
      else s;
    locked.(
      tasks := if l.Begin? then s.tasks + [Started] else if l.OfTask() then s.tasks[l.t := Moved(c, s, l)] else s.tasks,
      permits := if l.CasOk? then s.permits + 1 else if l.Release? then s.permits - 1 else s.permits,
      clock := if l.Tick? then l.now else s.clock,
      manualSuccesses := s.manualSuccesses + Bit(l.ManualSuccess?),
      manualFailures := s.manualFailures + Bit(l.ManualFailure?))
  }

  /** A new breaker at some instant, before any call. */
  function Start(wait: Duration, at: real): Sys {
    Sys(New(wait), [], at, 0, [], 0, 0, 0)
  }

  /** The system after a sequence of steps, if each was enabled when taken. */
  function After(c: Config, s: Sys, ls: seq<Label>): Option<Sys>
    requires ValidConfig(c)
  {
    if ls == [] then Some(s)
    else
      var before := After(c, s, Front(ls));
      if before.Some? && Enabled(c, before.value, Last(ls)) then Some(Apply(c, before.value, Last(ls))) else None
  }

  function Tally(tasks: seq<Task>, p: Task -> bool): nat {
    if tasks == [] then 0 else Tally(Front(tasks), p) + Bit(p(Last(tasks)))
  }

  lemma TallyAppend(tasks: seq<Task>, x: Task, p: Task -> bool)
    ensures Tally(tasks + [x], p) == Tally(tasks, p) + Bit(p(x))
  {
    assert Front(tasks + [x]) == tasks;
  }

  lemma {:induction false} TallyUpdate(tasks: seq<Task>, i: nat, x: Task, p: Task -> bool)
    requires i < |tasks|
    ensures Tally(tasks[i := x], p) + Bit(p(tasks[i])) == Tally(tasks, p) + Bit(p(x))
  {
    var updated := tasks[i := x];
    if i == |tasks| - 1 {
      assert Front(updated) == Front(tasks);
    } else {
      assert Front(updated) == Front(tasks)[i := x];
      TallyUpdate(Front(tasks), i, x, p);
    }
  }

  lemma {:induction false} TallyBound(tasks: seq<Task>, p: Task -> bool, i: nat)
    requires i < |tasks| && p(tasks[i])
    ensures Tally(tasks, p) >= 1
  {
    if i < |tasks| - 1 {
      TallyBound(Front(tasks), p, i);
    }
  }

  lemma {:induction false} TallyWitness(tasks: seq<Task>, p: Task -> bool) returns (t: nat)
    requires Tally(tasks, p) != 0
    ensures t < |tasks| && p(tasks[t])
  {
    if p(Last(tasks)) {
      t := |tasks| - 1;
    } else {
      t := TallyWitness(Front(tasks), p);
    }
  }

  predicate RecordedGood(x: Task) {
    (x.Leaving? || x.Ended?) && x.result == Succeeded
  }

  predicate RecordedBad(x: Task) {
    (x.Leaving? || x.Ended?) && (x.result == Failed || x.result == TimedOut)
  }

  /** The counter is the number of unreleased permits, and within bounds. */
  predicate PermitsInv(c: Config, s: Sys) {
    s.permits == Tally(s.tasks, HoldsPermit) && s.permits <= c.halfOpenMaxCalls
  }

  /** The machine is a sequential run of the lock-order log, whose clock readings never go back. */
  predicate LogInv(c: Config, wait: Duration, s: Sys)
    requires ValidConfig(c)
  {
    && s.machine == Run(c, New(wait), s.log)
    && Ordered(s.log)
    && forall i :: 0 <= i < |s.log| ==> s.log[i].now <= s.clock
  }

  /** What a task read under its guard still holds while it keeps the guard. */
  predicate TaskInv(c: Config, s: Sys, x: Task) {
    && (x.Probing? || x.Comparing? || x.Granted? ==> Current(s.machine, s.clock) == HalfOpen)
    && (x.Admitted? ==> Current(s.machine, s.clock) == Closed)
    && (x.Comparing? ==> x.observed <= c.halfOpenMaxCalls)
    && (HoldsPermit(x) ==> TagOf(x) <= s.episode)
    && (x.Granted? ==> x.tag == s.episode)
    && (x.Refused? ==> x.why == RefusedOpen || x.why == Rejected)
  }

  predicate TasksInv(c: Config, s: Sys) {
    forall t :: 0 <= t < |s.tasks| ==> TaskInv(c, s, s.tasks[t])
  }

  /** Every lifetime total is the number of calls and manual records that put something on it. */
  predicate TotalsInv(s: Sys) {
    && s.machine.totalSuccesses == Tally(s.tasks, RecordedGood) + s.manualSuccesses
    && s.machine.totalFailures == Tally(s.tasks, RecordedBad) + s.manualFailures
  }

  predicate SysInv(c: Config, wait: Duration, s: Sys)
    requires ValidConfig(c)
  {
    PermitsInv(c, s) && LogInv(c, wait, s) && TasksInv(c, s) && TotalsInv(s)
  }

  lemma PermitsStep(c: Config, s: Sys, l: Label)
    requires ValidConfig(c) && Enabled(c, s, l) && PermitsInv(c, s)
    ensures PermitsInv(c, Apply(c, s, l))
    ensures l.Release? ==> s.permits >= 1
  {
    hide Step, EntersOpen, NoReaders;
    if l.Begin? {
      TallyAppend(s.tasks, Started, HoldsPermit);
    } else if l.OfTask() {
      TallyUpdate(s.tasks, l.t, Moved(c, s, l), HoldsPermit);
      if l.Release? {
        TallyBound(s.tasks, HoldsPermit, l.t);
      }
    }
  }

  lemma LogStep(c: Config, wait: Duration, s: Sys, l: Label)
    requires ValidConfig(c) && Enabled(c, s, l) && LogInv(c, wait, s)
    ensures LogInv(c, wait, Apply(c, s, l))
  {
    hide Step, EntersOpen, NoReaders;
    if l.TakesWriteLock() {
      RunSnoc(c, New(wait), s.log, LockedOp(c, s, l));
    }
  }

  /** Only time passes for a task that keeps its guard: it can turn Open into HalfOpen, and nothing else. */
  lemma CurrentIsStable(m: Machine, before: real, now: real)
    requires before <= now
    ensures Current(m, before) != Open ==> Current(m, now) == Current(m, before)
  {
  }

  lemma MovedTaskInv(c: Config, s: Sys, l: Label)
    requires ValidConfig(c) && l.OfTask() && Enabled(c, s, l) && TaskInv(c, s, s.tasks[l.t]) && PermitsInv(c, s)
    ensures TaskInv(c, Apply(c, s, l), Moved(c, s, l))
  {
    hide Step, EntersOpen, Current, NoReaders;
  }

  /** A task that does not move either holds no guard, or is untouched by what the others do. */
  lemma OtherTaskInv(c: Config, s: Sys, l: Label, x: Task)
    requires ValidConfig(c) && Enabled(c, s, l) && TaskInv(c, s, x)
    requires l.TakesWriteLock() ==> !HoldsGuard(x)
    ensures TaskInv(c, Apply(c, s, l), x)
  {
    hide Step, EntersOpen, Current, NoReaders, Moved, LockedOp;
    CurrentIsStable(s.machine, s.clock, Apply(c, s, l).clock);
  }

  lemma TasksStep(c: Config, s: Sys, l: Label)
    requires ValidConfig(c) && Enabled(c, s, l) && TasksInv(c, s) && PermitsInv(c, s)
    ensures TasksInv(c, Apply(c, s, l))
  {
    hide Step, EntersOpen, Current, Moved, LockedOp, PermitsInv, TaskInv;
    var n := Apply(c, s, l);
    forall t | 0 <= t < |n.tasks| ensures TaskInv(c, n, n.tasks[t]) {
      if l.OfTask() && l.t == t {
        MovedTaskInv(c, s, l);
      } else if t < |s.tasks| {
        OtherTaskInv(c, s, l, s.tasks[t]);
      } else {
        NewTaskInv(c, n);
      }
    }
  }

  lemma NewTaskInv(c: Config, s: Sys)
    ensures TaskInv(c, s, Started)
  {
  }

  lemma MovedTotals(c: Config, s: Sys, l: Label)
    requires l.OfTask() && Enabled(c, s, l) && TaskInv(c, s, s.tasks[l.t])
    ensures Bit(RecordedGood(Moved(c, s, l)))
         == Bit(RecordedGood(s.tasks[l.t])) + Bit(l.Record? && LockedOp(c, s, l).Success?)
    ensures Bit(RecordedBad(Moved(c, s, l)))
         == Bit(RecordedBad(s.tasks[l.t])) + Bit(l.Record? && LockedOp(c, s, l).Failure?)
  {
    hide NoReaders, Current;
  }

  lemma TotalsStep(c: Config, s: Sys, l: Label)
    requires ValidConfig(c) && Enabled(c, s, l) && TotalsInv(s) && TasksInv(c, s)
    ensures TotalsInv(Apply(c, s, l))
  {
    hide Step, EntersOpen, NoReaders, Current, Moved, RecordedGood, RecordedBad;
    if l.TakesWriteLock() {
      StepTotals(c, s.machine, LockedOp(c, s, l));
    }
    if l.Begin? {
      TallyAppend(s.tasks, Started, RecordedGood);
      TallyAppend(s.tasks, Started, RecordedBad);
      StartedRecordedNothing();
    } else if l.OfTask() {
      assert TaskInv(c, s, s.tasks[l.t]);
      MovedTotals(c, s, l);
      TallyUpdate(s.tasks, l.t, Moved(c, s, l), RecordedGood);
      TallyUpdate(s.tasks, l.t, Moved(c, s, l), RecordedBad);
    }
  }

  lemma StartedRecordedNothing()
    ensures !RecordedGood(Started) && !RecordedBad(Started)
  {
  }

  /** The inductive invariant, over every interleaving of any number of calls. */
  lemma {:induction false} EveryInterleaving(c: Config, wait: Duration, at: real, ls: seq<Label>)
    requires ValidConfig(c) && After(c, Start(wait, at), ls).Some?
    ensures SysInv(c, wait, After(c, Start(wait, at), ls).value)
  {
    hide Apply, Enabled, PermitsInv, LogInv, TasksInv, TotalsInv;
    if ls == [] {
      StartInv(c, wait, at);
    } else {
      EveryInterleaving(c, wait, at, Front(ls));
      var s, l := After(c, Start(wait, at), Front(ls)).value, Last(ls);
      PermitsStep(c, s, l);
      LogStep(c, wait, s, l);
      TasksStep(c, s, l);
      TotalsStep(c, s, l);
    }
  }

  lemma StartInv(c: Config, wait: Duration, at: real)
    requires ValidConfig(c)
    ensures SysInv(c, wait, Start(wait, at))
  {
  }
}

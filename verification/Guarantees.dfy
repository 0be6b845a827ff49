/** What the concurrent breaker guarantees in every interleaving of any number of calls. */
module Guarantees {
  import opened Prelude
  import opened Config
  import opened Machine
  import opened Protocol
  import opened Backoff
  import R = Reference
  import Races

  /** The system after legal steps from a new breaker. */
  function At(c: Config, wait: Duration, at: real, ls: seq<Label>): Sys
    requires ValidConfig(c) && After(c, Start(wait, at), ls).Some?
  {
    After(c, Start(wait, at), ls).value
  }

  predicate Legal(c: Config, wait: Duration, at: real, ls: seq<Label>)
    requires ValidConfig(c)
  {
    After(c, Start(wait, at), ls).Some?
  }

  /** At most `halfOpenMaxCalls` probes at any time; the shared counter is exactly the permits held. */
  lemma ProbesAreBounded(c: Config, wait: Duration, at: real, ls: seq<Label>)
    requires ValidConfig(c) && Legal(c, wait, at, ls)
    ensures var s := At(c, wait, at, ls);
            0 <= s.permits == Tally(s.tasks, HoldsPermit) <= c.halfOpenMaxCalls
  {
    EveryInterleaving(c, wait, at, ls);
  }

  function Grants(ls: seq<Label>, t: nat): nat {
    if ls == [] then 0 else Grants(Front(ls), t) + Bit(Last(ls) == CasOk(t))
  }

  function Releases(ls: seq<Label>, t: nat): nat {
    if ls == [] then 0 else Releases(Front(ls), t) + Bit(Last(ls) == Release(t))
  }

  function Records(ls: seq<Label>, t: nat): nat {
    if ls == [] then 0 else Records(Front(ls), t) + Bit(Last(ls).Record? && Last(ls).t == t)
  }

  predicate BeforeGrant(x: Task) {
    x.Started? || x.Guarded? || x.Probing? || x.Comparing?
  }

  /** One call is granted at most one permit, and every granted permit is released exactly once, by the end. */
  lemma {:induction false} PermitReleasedExactlyOnce(c: Config, wait: Duration, at: real, ls: seq<Label>, t: nat)
    requires ValidConfig(c) && Legal(c, wait, at, ls)
    ensures var s := At(c, wait, at, ls);
            if t < |s.tasks| then
              && Grants(ls, t) == Releases(ls, t) + Bit(HoldsPermit(s.tasks[t]))
              && Grants(ls, t) <= 1
              && (BeforeGrant(s.tasks[t]) ==> Grants(ls, t) == 0)
              && (s.tasks[t].Ended? ==> Grants(ls, t) == Releases(ls, t))
            else Grants(ls, t) == Releases(ls, t) == 0
  {
    hide Step, EntersOpen, NoReaders, Current;
    if ls != [] {
      PermitReleasedExactlyOnce(c, wait, at, Front(ls), t);
    }
  }

  lemma RecordedOneWay(x: Task)
    ensures Bit(RecordedGood(x)) + Bit(RecordedBad(x)) <= 1
  {
  }

  /**
   * A call records exactly once if it ended, or is ending, with success, a counted error or a timeout, and never if
   * it was refused, rejected, cancelled or classified as no failure.
   */
  lemma {:induction false} CallRecordsExactlyOnce(c: Config, wait: Duration, at: real, ls: seq<Label>, t: nat)
    requires ValidConfig(c) && Legal(c, wait, at, ls)
    ensures var tasks := At(c, wait, at, ls).tasks;
            if t < |tasks|
            then Records(ls, t) == Bit(RecordedGood(tasks[t])) + Bit(RecordedBad(tasks[t])) <= 1
            else Records(ls, t) == 0
  {
    hide Step, EntersOpen, NoReaders, Moved, RecordedGood, RecordedBad, PermitsInv, LogInv, TotalsInv;
    if t < |At(c, wait, at, ls).tasks| {
      RecordedOneWay(At(c, wait, at, ls).tasks[t]);
    }
    if ls != [] {
      CallRecordsExactlyOnce(c, wait, at, Front(ls), t);
      EveryInterleaving(c, wait, at, Front(ls));
      StartedRecordedNothing();
      var s, l := At(c, wait, at, Front(ls)), Last(ls);
      if l.OfTask() && l.t == t {
        assert TaskInv(c, s, s.tasks[t]);
        MovedTotals(c, s, l);
      }
    }
  }

  /** No step takes the write lock. */
  predicate NoWrites(ls: seq<Label>) {
    forall i :: 0 <= i < |ls| ==> !ls[i].TakesWriteLock()
  }

  /** Until some step takes the write lock, nothing that calls do among themselves reaches the state machine. */
  lemma {:induction false} OnlyWritersReachTheMachine(c: Config, s: Sys, ls: seq<Label>)
    requires ValidConfig(c) && After(c, s, ls).Some? && NoWrites(ls)
    ensures var n := After(c, s, ls).value;
            && n.machine == s.machine && n.log == s.log && n.episode == s.episode && s.clock <= n.clock
            && |s.tasks| <= |n.tasks|
  {
    hide Step, EntersOpen, NoReaders, Moved, LockedOp;
    if ls != [] {
      assert Last(ls) == ls[|ls| - 1];
      OnlyWritersReachTheMachine(c, s, Front(ls));
    }
  }

  predicate InFlight(x: Task) {
    !x.Ended?
  }

  function EndedAs(tasks: seq<Task>, r: Result): nat {
    if tasks == [] then 0 else EndedAs(Front(tasks), r) + Bit(Last(tasks) == Ended(r))
  }

  lemma {:induction false} EndingsPartition(tasks: seq<Task>)
    ensures |tasks| == Tally(tasks, InFlight)
                     + EndedAs(tasks, Succeeded) + EndedAs(tasks, Failed) + EndedAs(tasks, TimedOut)
                     + EndedAs(tasks, PassedThrough) + EndedAs(tasks, RefusedOpen) + EndedAs(tasks, Rejected)
                     + EndedAs(tasks, Cancelled)
  {
    if tasks != [] {
      EndingsPartition(Front(tasks));
      var last := Last(tasks);
      if last.Ended? {
        match last.result
        case Succeeded =>
        case Failed =>
        case TimedOut =>
        case PassedThrough =>
        case RefusedOpen =>
        case Rejected =>
        case Cancelled =>
      }
    }
  }

  function Begun(ls: seq<Label>): nat {
    if ls == [] then 0 else Begun(Front(ls)) + Bit(Last(ls).Begin?)
  }

  lemma {:induction false} OneTaskPerCall(c: Config, wait: Duration, at: real, ls: seq<Label>)
    requires ValidConfig(c) && Legal(c, wait, at, ls)
    ensures |At(c, wait, at, ls).tasks| == Begun(ls)
  {
    hide Step, EntersOpen, NoReaders, Moved, LockedOp;
    if ls != [] {
      OneTaskPerCall(c, wait, at, Front(ls));
    }
  }

  /** Every call begun is in flight or has ended in exactly one of the seven ways. */
  lemma CallsAreAccounted(c: Config, wait: Duration, at: real, ls: seq<Label>)
    requires ValidConfig(c) && Legal(c, wait, at, ls)
    ensures var tasks := At(c, wait, at, ls).tasks;
            Begun(ls) == Tally(tasks, InFlight)
                       + EndedAs(tasks, Succeeded) + EndedAs(tasks, Failed) + EndedAs(tasks, TimedOut)
                       + EndedAs(tasks, PassedThrough) + EndedAs(tasks, RefusedOpen) + EndedAs(tasks, Rejected)
                       + EndedAs(tasks, Cancelled)
  {
    OneTaskPerCall(c, wait, at, ls);
    EndingsPartition(At(c, wait, at, ls).tasks);
  }

  /** The lifetime totals, in every interleaving, from the calls and manual records behind them. */
  lemma TotalsAreExact(c: Config, wait: Duration, at: real, ls: seq<Label>)
    requires ValidConfig(c) && Legal(c, wait, at, ls)
    ensures var s := At(c, wait, at, ls);
            && s.machine.totalSuccesses == Tally(s.tasks, RecordedGood) + s.manualSuccesses
            && s.machine.totalFailures == Tally(s.tasks, RecordedBad) + s.manualFailures
  {
    EveryInterleaving(c, wait, at, ls);
  }

  /**
   * Admission is several steps but atomic in effect: at the instant a permit is won the circuit is HalfOpen, it still
   * is when the guard is dropped, and a call that goes ahead without a permit does so while the circuit is Closed.
   */
  lemma AdmissionIsAtomic(c: Config, wait: Duration, at: real, ls: seq<Label>, l: Label)
    requires ValidConfig(c) && Legal(c, wait, at, ls) && Enabled(c, At(c, wait, at, ls), l)
    ensures var s := At(c, wait, at, ls);
            && (l.CasOk? ==> Current(s.machine, s.clock) == HalfOpen && s.permits < c.halfOpenMaxCalls)
            && (l.DropGuard? ==>
                  (Apply(c, s, l).tasks[l.t] == Running(None) ==> Current(s.machine, s.clock) == Closed)
                  && (Apply(c, s, l).tasks[l.t].Running? && Apply(c, s, l).tasks[l.t].permit.Some? ==>
                        Current(s.machine, s.clock) == HalfOpen))
  {
    hide Step, EntersOpen, Current, PermitsInv, LogInv, TotalsInv;
    EveryInterleaving(c, wait, at, ls);
    var s := At(c, wait, at, ls);
    if l.OfTask() {
      assert TaskInv(c, s, s.tasks[l.t]);
    }
  }

  /** A call under way in its admission. */
  predicate Admitting(s: Sys, t: nat) {
    t < |s.tasks| && (s.tasks[t].Probing? || s.tasks[t].Comparing?)
  }

  /** At the instant after the first `j` steps, task `t` was in its admission and the counter read `v`. */
  predicate Observed(c: Config, wait: Duration, at: real, ls: seq<Label>, j: nat, t: nat, v: int)
    requires ValidConfig(c)
  {
    j <= |ls| && Legal(c, wait, at, ls[..j]) && Admitting(At(c, wait, at, ls[..j]), t)
    && At(c, wait, at, ls[..j]).permits == v
  }

  predicate Claims(x: Task, v: int, max: int) {
    || x == Comparing(v)
    || (v == max && (x == Refused(Rejected) || x == Ended(Rejected) || (x.Leaving? && x.result == Rejected)))
  }

  /** A value in the compare-exchange loop, or behind a rejection, was really read during this call's admission. */
  lemma {:induction false} ObservationWasReal(c: Config, wait: Duration, at: real, ls: seq<Label>, t: nat, v: int)
    returns (j: nat)
    requires ValidConfig(c) && Legal(c, wait, at, ls)
    requires t < |At(c, wait, at, ls).tasks| && Claims(At(c, wait, at, ls).tasks[t], v, c.halfOpenMaxCalls)
    ensures Observed(c, wait, at, ls, j, t, v)
  {
    hide Step, EntersOpen, NoReaders, Current, PermitsInv, LogInv, TotalsInv;
    assert ls != [];
    var front, l := Front(ls), Last(ls);
    EveryInterleaving(c, wait, at, front);
    var s := At(c, wait, at, front);
    if l.OfTask() && l.t == t && (l.Load? || l.CasFail?) {
      j := |front|;
      assert ls[..j] == front;
    } else {
      assert t < |s.tasks|;
      assert TaskInv(c, s, s.tasks[t]);
      j := ObservationWasReal(c, wait, at, front, t, v);
      assert ls[..j] == front[..j];
    }
  }

  /** A call is `Rejected` only if all `halfOpenMaxCalls` permits were held at some instant of its own admission. */
  lemma RejectedOnlyWhenFull(c: Config, wait: Duration, at: real, ls: seq<Label>, t: nat)
    requires ValidConfig(c) && Legal(c, wait, at, ls)
    requires t < |At(c, wait, at, ls).tasks| && At(c, wait, at, ls).tasks[t] == Ended(Rejected)
    ensures exists j: nat :: j <= |ls| && Legal(c, wait, at, ls[..j])
              && Admitting(At(c, wait, at, ls[..j]), t)
              && Tally(At(c, wait, at, ls[..j]).tasks, HoldsPermit) == c.halfOpenMaxCalls
  {
    var j := ObservationWasReal(c, wait, at, ls, t, c.halfOpenMaxCalls);
    EveryInterleaving(c, wait, at, ls[..j]);
  }

  /** At the instant after the first `j` steps, task `t` held the guard in its admission and the circuit was Open. */
  predicate SeenOpen(c: Config, wait: Duration, at: real, ls: seq<Label>, j: nat, t: nat)
    requires ValidConfig(c)
  {
    j <= |ls| && Legal(c, wait, at, ls[..j])
    && var s := At(c, wait, at, ls[..j]);
       t < |s.tasks| && s.tasks[t].Guarded? && Current(s.machine, s.clock) == Open
  }

  predicate FoundOpen(x: Task) {
    x == Refused(RefusedOpen) || x == Ended(RefusedOpen) || (x.Leaving? && x.result == RefusedOpen)
  }

  /** A call ends with `CircuitOpen` only if the circuit was Open, its wait not over, at an instant of its admission. */
  lemma {:induction false} RefusedOnlyWhenOpen(c: Config, wait: Duration, at: real, ls: seq<Label>, t: nat)
    returns (j: nat)
    requires ValidConfig(c) && Legal(c, wait, at, ls)
    requires t < |At(c, wait, at, ls).tasks| && FoundOpen(At(c, wait, at, ls).tasks[t])
    ensures SeenOpen(c, wait, at, ls, j, t)
  {
    hide Step, EntersOpen, NoReaders, Current, PermitsInv, LogInv, TasksInv, TotalsInv;
    assert ls != [];
    var front, l := Front(ls), Last(ls);
    var s := At(c, wait, at, front);
    if l == Inspect(t) {
      j := |front|;
      assert ls[..j] == front;
    } else {
      assert t < |s.tasks|;
      j := RefusedOnlyWhenOpen(c, wait, at, front, t);
      assert ls[..j] == front[..j];
    }
  }

  function Completions(ls: seq<Label>, t: nat): nat {
    if ls == [] then 0
    else
      var l := Last(ls);
      Completions(Front(ls), t) + Bit((l.FinishOk? || l.FinishErr? || l.Timeout? || l.Cancel?) && l.t == t)
  }

  /** The operation is over: it completed, timed out or was dropped. */
  predicate OperationOver(x: Task) {
    x.Finished? || ((x.Leaving? || x.Ended?) && x.result != RefusedOpen && x.result != Rejected)
  }

  /** A call's operation runs to its end at most once, and not at all when the call is refused or rejected. */
  lemma {:induction false} OperationEndsAtMostOnce(c: Config, wait: Duration, at: real, ls: seq<Label>, t: nat)
    requires ValidConfig(c) && Legal(c, wait, at, ls)
    ensures var tasks := At(c, wait, at, ls).tasks;
            Completions(ls, t) == if t < |tasks| then Bit(OperationOver(tasks[t])) else 0
  {
    hide Step, EntersOpen, NoReaders, Current, PermitsInv, LogInv, TotalsInv;
    if ls != [] {
      OperationEndsAtMostOnce(c, wait, at, Front(ls), t);
      EveryInterleaving(c, wait, at, Front(ls));
      var s := At(c, wait, at, Front(ls));
      assert t < |s.tasks| ==> TaskInv(c, s, s.tasks[t]);
    }
  }

  /** Permits held that were granted in the half-open phase of Open episode `e`, and in earlier ones. */
  function CurrentHolders(tasks: seq<Task>, e: nat): nat {
    if tasks == [] then 0
    else CurrentHolders(Front(tasks), e) + Bit(HoldsPermit(Last(tasks)) && TagOf(Last(tasks)) == e)
  }

  function ResidualHolders(tasks: seq<Task>, e: nat): nat {
    if tasks == [] then 0
    else ResidualHolders(Front(tasks), e) + Bit(HoldsPermit(Last(tasks)) && TagOf(Last(tasks)) < e)
  }

  lemma {:induction false} HoldersSplit(tasks: seq<Task>, e: nat)
    requires forall t :: 0 <= t < |tasks| && HoldsPermit(tasks[t]) ==> TagOf(tasks[t]) <= e
    ensures CurrentHolders(tasks, e) + ResidualHolders(tasks, e) == Tally(tasks, HoldsPermit)
  {
    if tasks != [] {
      HoldersSplit(Front(tasks), e);
    }
  }

  /** Permits left over from earlier half-open phases only reduce the current one's capacity. */
  lemma ResidualPermitsOnlyReduceCapacity(c: Config, wait: Duration, at: real, ls: seq<Label>)
    requires ValidConfig(c) && Legal(c, wait, at, ls)
    ensures var s := At(c, wait, at, ls);
            CurrentHolders(s.tasks, s.episode) <= c.halfOpenMaxCalls - ResidualHolders(s.tasks, s.episode)
  {
    EveryInterleaving(c, wait, at, ls);
    var s := At(c, wait, at, ls);
    forall t | 0 <= t < |s.tasks| && HoldsPermit(s.tasks[t]) ensures TagOf(s.tasks[t]) <= s.episode {
      assert TaskInv(c, s, s.tasks[t]);
    }
    HoldersSplit(s.tasks, s.episode);
  }

  /**
   * Linearization: whatever the interleaving, the state machine is the sequential run of the operations in lock
   * order, so it satisfies the refinement of `Reference` and everything else proved about sequential runs.
   */
  lemma InterleavingsLinearize(c: Config, wait: Duration, at: real, ls: seq<Label>)
    requires ValidConfig(c) && Legal(c, wait, at, ls)
    ensures var s := At(c, wait, at, ls);
            && s.machine == Run(c, New(wait), s.log) && Ordered(s.log)
            && R.Inv(c, s.machine, R.RefRun(c, wait, s.log))
  {
    EveryInterleaving(c, wait, at, ls);
    R.RunRefines(c, wait, At(c, wait, at, ls).log);
  }

  /** No more time than the first wait has passed since this tripping operation. */
  predicate StillWaiting(c: Config, s: Sys, trip: Op)
    requires trip.Failure? || trip.Trip?
  {
    s.clock - trip.now < WaitFor(c.backoff, 1, trip.draw)
  }

  /**
   * Racing failures, of calls or manual, interleaved in any way on a fresh streak-only breaker within its wait: none
   * is lost, and the circuit is Open after exactly one transition if and only if they reach the threshold.
   */
  lemma ConcurrentFailures(c: Config, wait: Duration, at: real, ls: seq<Label>)
    requires ValidConfig(c) && c.failureRateThreshold == 0.0 && Legal(c, wait, at, ls)
    requires var s := At(c, wait, at, ls);
             && (forall i :: 0 <= i < |s.log| ==> s.log[i].Failure?)
             && (|s.log| >= c.consecutiveFailures ==> StillWaiting(c, s, s.log[c.consecutiveFailures - 1]))
    ensures var s := At(c, wait, at, ls);
            var failed := Tally(s.tasks, RecordedBad) + s.manualFailures;
            && s.machine.totalFailures == failed == |s.log| && s.machine.totalSuccesses == 0
            && s.machine.transitions == Bit(failed >= c.consecutiveFailures)
            && Current(s.machine, s.clock) == (if failed >= c.consecutiveFailures then Open else Closed)
            && (failed >= c.consecutiveFailures ==>
                  Races.JustTripped(c, s.machine, s.log[c.consecutiveFailures - 1]))
  {
    hide WaitFor, Step;
    EveryInterleaving(c, wait, at, ls);
    Races.RacingFailures(c, wait, At(c, wait, at, ls).log);
  }

  /** One `trip` racing any successes, of calls or manual: Open after one transition, every success counted. */
  lemma ConcurrentTrip(c: Config, wait: Duration, at: real, ls: seq<Label>, k: nat)
    requires ValidConfig(c) && Legal(c, wait, at, ls)
    requires var s := At(c, wait, at, ls);
             && k < |s.log| && s.log[k].Trip? && StillWaiting(c, s, s.log[k])
             && (forall i :: 0 <= i < |s.log| && i != k ==> s.log[i].Success?)
    ensures var s := At(c, wait, at, ls);
            && Current(s.machine, s.clock) == Open && Races.JustTripped(c, s.machine, s.log[k])
            && s.machine.transitions == 1
            && s.machine.totalSuccesses == Tally(s.tasks, RecordedGood) + s.manualSuccesses == |s.log| - 1
            && s.machine.totalFailures == 0
  {
    hide WaitFor, Step;
    EveryInterleaving(c, wait, at, ls);
    Races.TripRacingSuccesses(c, wait, At(c, wait, at, ls).log, k);
  }
}

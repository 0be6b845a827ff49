/**
 * The state machine as the source keeps it (src/state.rs): fields updated in place, bounded counters, the ring
 * window. Every method is proved against the value-level operation of the same name in module `Machine`, and keeps
 * the refinement of module `Reference`.
 */
module StateMachine {
  import opened Prelude
  import opened Config
  import opened Xorshift
  import Backoff
  import R = Reference
  import O = Outcomes
  import M = Machine
  import W = Window

  type State = M.State
  type Transition = M.Transition

  /** `wait_for`: only a jittered strategy touches the thread's generator. */
  method WaitFor(b: BackoffStrategy, attempt: u32, cell: JitterCell, nanos: bv64) returns (wait: Duration)
    requires cell.Valid()
    modifies cell
    ensures cell.Valid()
    ensures wait == Backoff.WaitFor(b, attempt, SampleOf(cell.state))
    ensures cell.draws == old(cell.draws) + Bit(b.ExponentialJitter?)
  {
    hide SampleOf;
    match b
    case Fixed(d) =>
      wait := d;
    case Exponential(initial, max, factor) =>
      wait := Backoff.ExponentialWait(initial, max, factor, attempt);
    case ExponentialJitter(initial, max, factor, jitter) =>
      var base := Backoff.ExponentialWait(initial, max, factor, attempt);
      var draw := cell.Rand(nanos);
      var scale := 1.0 - Times(ClampReal(jitter, 0.0, 1.0), draw);
      var scaled := Times(base, ClampReal(scale, 0.0, 1.0));
      assert scaled == Backoff.WaitFor(b, attempt, draw);
      wait := scaled;
  }

  class StateMachine {
    var current: State
    var failureCount: u32
    var successCount: u32
    var totalSuccesses: nat
    var totalFailures: nat
    var transitions: nat
    var openSince: Option<real>
    var waitDuration: Duration
    var openAttempts: u32
    const window: W.Window
    // The plain breaker this one refines.
    ghost var reference: R.Reference

    ghost predicate Coherent(c: Config)
      reads window, window.outcomes
    {
      ValidConfig(c) && window.Valid() && window.capacity == c.slidingWindowSize
    }

    /** The abstract state. */
    ghost function Model(): M.Machine
      requires window.Shape()
      reads this, window, window.outcomes
    {
      M.Machine(current, failureCount, successCount, totalSuccesses, totalFailures, transitions,
                openSince, waitDuration, openAttempts, window.Contents())
    }

    ghost predicate Valid(c: Config)
      reads this, window, window.outcomes
    {
      Coherent(c) && R.Inv(c, Model(), reference)
    }

    constructor (c: Config, cell: JitterCell, nanos: bv64)
      requires ValidConfig(c) && cell.Valid()
      modifies cell
      ensures cell.Valid()
      ensures Valid(c) && fresh(window) && fresh(window.outcomes)
      ensures Model() == M.New(waitDuration) && reference == R.Initial(waitDuration)
      ensures waitDuration == Backoff.WaitFor(c.backoff, 1, SampleOf(cell.state))
      ensures cell.draws == old(cell.draws) + Bit(c.backoff.ExponentialJitter?)
    {
      var wait := WaitFor(c.backoff, 1, cell, nanos);
      var w := new W.Window(c.slidingWindowSize);
      current := M.Closed;
      failureCount, successCount := 0, 0;
      totalSuccesses, totalFailures, transitions := 0, 0, 0;
      openSince := None;
      waitDuration := wait;
      openAttempts := 0;
      window := w;
      reference := R.Initial(wait);
      new;
      R.NewInv(c, wait);
    }

    /** The effective state. */
    method Current(now: real) returns (s: State)
      requires window.Shape()
      ensures s == M.Current(Model(), now)
    {
      if current == M.Open {
        if openSince.Some? {
          if now - openSince.value >= waitDuration {
            return M.HalfOpen;
          }
        }
      }
      return current;
    }

    method MaybeTransitionToHalfOpen(now: real)
      requires window.Shape()
      modifies `current, `transitions, `failureCount, `successCount, `openSince
      ensures Model() == M.Upgrade(old(Model()), now)
    {
      if current == M.Open {
        if openSince.Some? {
          if now - openSince.value >= waitDuration {
            current := M.HalfOpen;
            transitions := transitions + 1;
            failureCount := 0;
            successCount := 0;
            openSince := None;
          }
        }
      }
    }

    method Transition(c: Config, next: State, now: real, cell: JitterCell, nanos: bv64)
      requires Coherent(c) && cell.Valid()
      modifies this, window, cell
      ensures Coherent(c) && cell.Valid() && reference == old(reference)
      ensures Model() == M.Enter(c, old(Model()), next, now, SampleOf(cell.state))
      ensures transitions == old(transitions) + 1
      ensures cell.draws == old(cell.draws) + Bit(next == M.Open && c.backoff.ExponentialJitter?)
    {
      hide SampleOf, JitterCell.Valid, Backoff.WaitFor, W.Window.Contents, O.Failures;
      current := next;
      transitions := transitions + 1;
      failureCount := 0;
      successCount := 0;
      match next {
        case Open =>
          openAttempts := SaturatingIncrement(openAttempts);
          openSince := Some(now);
          waitDuration := WaitFor(c.backoff, openAttempts, cell, nanos);
        case Closed =>
          openAttempts := 0;
          openSince := None;
          window.Clear();
        case HalfOpen =>
          openSince := None;
      }
    }

    method RecordSuccess(c: Config, now: real, cell: JitterCell, nanos: bv64) returns (r: Transition)
      requires Valid(c) && cell.Valid()
      modifies this, window, window.outcomes, cell
      ensures Valid(c) && cell.Valid()
      ensures (Model(), r) == M.RecordSuccess(c, old(Model()), now)
      ensures (reference, r) == R.RefStep(c, old(reference), M.Success(now))
      ensures cell.draws == old(cell.draws)
    {
      hide SampleOf, JitterCell.Valid, W.Window.Contents, O.Failures, O.Push, R.Inv, R.RefStep;
      ghost var before := Model();
      R.StepInv(c, before, reference, M.Success(now));
      R.CountersBelow(c, before, reference);
      ghost var next := R.RefStep(c, reference, M.Success(now)).0;
      totalSuccesses := totalSuccesses + 1;
      MaybeTransitionToHalfOpen(now);
      var prev := current;
      match current {
        case Closed =>
          failureCount := 0;
          window.Record(false);
          r := None;
        case HalfOpen =>
          successCount := successCount + 1;
          if successCount >= c.successThreshold {
            Transition(c, M.Closed, now, cell, nanos);
            r := Some((prev, M.Closed));
          } else {
            r := None;
          }
        case Open =>
          r := None;
      }
      reference := next;
    }

    method RecordFailure(c: Config, now: real, cell: JitterCell, nanos: bv64) returns (r: Transition)
      requires Valid(c) && cell.Valid()
      modifies this, window, window.outcomes, cell
      ensures Valid(c) && cell.Valid()
      ensures (Model(), r) == M.RecordFailure(c, old(Model()), now, SampleOf(cell.state))
      ensures (reference, r) == R.RefStep(c, old(reference), M.Failure(now, SampleOf(cell.state)))
      ensures cell.draws == old(cell.draws) + Bit(r.Some? && c.backoff.ExponentialJitter?)
    {
      hide SampleOf, JitterCell.Valid, W.Window.Contents, O.Failures, O.Push, M.ShouldTrip, Backoff.WaitFor,
           R.Inv, R.RefStep;
      ghost var before, plain := Model(), reference;
      R.CountersBelow(c, before, plain);
      totalFailures := totalFailures + 1;
      MaybeTransitionToHalfOpen(now);
      var prev := current;
      match current {
        case Closed =>
          failureCount := failureCount + 1;
          window.Record(true);
          var trip := ShouldTrip(c);
          if trip {
            Transition(c, M.Open, now, cell, nanos);
            r := Some((prev, M.Open));
          } else {
            r := None;
          }
        case HalfOpen =>
          Transition(c, M.Open, now, cell, nanos);
          r := Some((prev, M.Open));
        case Open =>
          r := None;
      }
      R.StepInv(c, before, plain, M.Failure(now, SampleOf(cell.state)));
      reference := R.RefStep(c, plain, M.Failure(now, SampleOf(cell.state))).0;
    }

    method ShouldTrip(c: Config) returns (trip: bool)
      requires Coherent(c)
      ensures trip == M.ShouldTrip(c, failureCount, window.Contents())
    {
      if failureCount >= c.consecutiveFailures {
        return true;
      }
      var rate := window.FailureRate();
      return c.failureRateThreshold > 0.0 && window.Filled() >= c.minimumCalls && rate >= c.failureRateThreshold;
    }

    method ForceOpen(c: Config, now: real, cell: JitterCell, nanos: bv64)
      requires Valid(c) && cell.Valid()
      modifies this, window, cell
      ensures Valid(c) && cell.Valid()
      ensures Model() == M.Step(c, old(Model()), M.Trip(now, SampleOf(cell.state))).0
      ensures reference == R.RefStep(c, old(reference), M.Trip(now, SampleOf(cell.state))).0
      ensures cell.draws == old(cell.draws) + Bit(c.backoff.ExponentialJitter?)
    {
      hide SampleOf, JitterCell.Valid, R.Inv, R.RefStep;
      ghost var before := Model();
      Transition(c, M.Open, now, cell, nanos);
      R.StepInv(c, before, reference, M.Trip(now, SampleOf(cell.state)));
      reference := R.RefStep(c, reference, M.Trip(now, SampleOf(cell.state))).0;
    }

    method ForceClosed(c: Config, now: real, cell: JitterCell, nanos: bv64)
      requires Valid(c) && cell.Valid()
      modifies this, window, cell
      ensures Valid(c) && cell.Valid()
      ensures Model() == M.Step(c, old(Model()), M.Reset(now)).0
      ensures reference == R.RefStep(c, old(reference), M.Reset(now)).0
      ensures cell.draws == old(cell.draws)
    {
      hide SampleOf, JitterCell.Valid, R.Inv, R.RefStep;
      R.StepInv(c, Model(), reference, M.Reset(now));
      Transition(c, M.Closed, now, cell, nanos);
      reference := R.RefStep(c, reference, M.Reset(now)).0;
    }
  }
}

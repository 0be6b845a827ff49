/**
 * The breaker's state machine on values (src/state.rs): what each locked operation does, and runs of them.
 * The `StateMachine` class is proved against these functions; everything about runs is proved about them.
 */
module Machine {
  import opened Prelude
  import opened Config
  import opened Backoff
  import opened Outcomes

  datatype State = Closed | Open | HalfOpen

  type Transition = Option<(State, State)>

  datatype Machine = Machine(
    current: State,
    failureCount: nat,
    successCount: nat,
    totalSuccesses: nat,
    totalFailures: nat,
    transitions: nat,
    openSince: Option<real>,
    waitDuration: Duration,
    openAttempts: nat,
    window: seq<bool>)

  /** A new breaker; `wait` is the strategy's initial wait. */
  function New(wait: Duration): Machine {
    Machine(Closed, 0, 0, 0, 0, 0, None, wait, 0, [])
  }

  /** An Open circuit whose wait has elapsed. */
  predicate Expired(m: Machine, now: real) {
    m.current.Open? && m.openSince.Some? && now - m.openSince.value >= m.waitDuration
  }

  /** The effective state: an expired Open circuit reads as HalfOpen. */
  function Current(m: Machine, now: real): State {
    if Expired(m, now) then HalfOpen else m.current
  }

  /** Applies a pending Open -> HalfOpen upgrade. */
  function Upgrade(m: Machine, now: real): Machine {
    if Expired(m, now)
    then m.(current := HalfOpen, transitions := m.transitions + 1, failureCount := 0, successCount := 0,
            openSince := None)
    else m
  }

  function Enter(c: Config, m: Machine, next: State, now: real, draw: Sample): Machine {
    var n := m.(current := next, transitions := m.transitions + 1, failureCount := 0, successCount := 0);
    match next
    case Open =>
      var attempts := SaturatingIncrement(m.openAttempts);
      n.(openAttempts := attempts, openSince := Some(now), waitDuration := WaitFor(c.backoff, attempts, draw))
    case Closed => n.(openAttempts := 0, openSince := None, window := [])
    case HalfOpen => n.(openSince := None)
  }

  /** The trip check, on the incrementally kept streak and window. */
  predicate ShouldTrip(c: Config, failureCount: nat, window: seq<bool>) {
    || failureCount >= c.consecutiveFailures
    || (0.0 < c.failureRateThreshold && |window| >= c.minimumCalls && Rate(window) >= c.failureRateThreshold)
  }

  function RecordSuccess(c: Config, m: Machine, now: real): (Machine, Transition)
    requires ValidConfig(c)
  {
    var n := Upgrade(m.(totalSuccesses := m.totalSuccesses + 1), now);
    match n.current
    case Closed => (n.(failureCount := 0, window := Push(n.window, c.slidingWindowSize, false)), None)
    case HalfOpen =>
      var k := n.successCount + 1;
      if k >= c.successThreshold
      then (Enter(c, n.(successCount := k), Closed, now, 0.0), Some((HalfOpen, Closed)))
      else (n.(successCount := k), None)
    case Open => (n, None)
  }

  function RecordFailure(c: Config, m: Machine, now: real, draw: Sample): (Machine, Transition)
    requires ValidConfig(c)
  {
    var n := Upgrade(m.(totalFailures := m.totalFailures + 1), now);
    match n.current
    case Closed =>
      var k := n.(failureCount := n.failureCount + 1, window := Push(n.window, c.slidingWindowSize, true));
      if ShouldTrip(c, k.failureCount, k.window)
      then (Enter(c, k, Open, now, draw), Some((Closed, Open)))
      else (k, None)
    case HalfOpen => (Enter(c, n, Open, now, draw), Some((HalfOpen, Open)))
    case Open => (n, None)
  }

  /** One operation under the write lock; `now` is its clock reading, `draw` the sample a jittered trip would take. */
  datatype Op =
    | Success(now: real)
    | Failure(now: real, draw: Sample)
    | Trip(now: real, draw: Sample)
    | Reset(now: real)
  {
    predicate Forced() { Trip? || Reset? }
  }

  /** The new state and the transition the record operation returns; forced operations return none. */
  function Step(c: Config, m: Machine, op: Op): (Machine, Transition)
    requires ValidConfig(c)
  {
    match op
    case Success(now) => RecordSuccess(c, m, now)
    case Failure(now, draw) => RecordFailure(c, m, now, draw)
    case Trip(now, draw) => (Enter(c, m, Open, now, draw), None)
    case Reset(now) => (Enter(c, m, Closed, now, 0.0), None)
  }

  /** Did this operation enter Closed? Read off the operation and what it returned. */
  predicate EntersClosed(c: Config, m: Machine, op: Op)
    requires ValidConfig(c)
  {
    var r := Step(c, m, op).1;
    op.Reset? || (r.Some? && r.value.1 == Closed)
  }

  /** Did this operation enter Open? */
  predicate EntersOpen(c: Config, m: Machine, op: Op)
    requires ValidConfig(c)
  {
    var r := Step(c, m, op).1;
    op.Trip? || (r.Some? && r.value.1 == Open)
  }

  /** The state after a sequence of operations. */
  function Run(c: Config, m: Machine, ops: seq<Op>): Machine
    requires ValidConfig(c)
  {
    if ops == [] then m else Step(c, Run(c, m, ops[..|ops| - 1]), ops[|ops| - 1]).0
  }

  /** What the last of a non-empty sequence of operations returned. */
  function LastResult(c: Config, m: Machine, ops: seq<Op>): Transition
    requires ValidConfig(c) && ops != []
  {
    Step(c, Run(c, m, ops[..|ops| - 1]), ops[|ops| - 1]).1
  }

  /** Clock readings never go back. */
  predicate Ordered(ops: seq<Op>) {
    forall i, j :: 0 <= i < j < |ops| ==> ops[i].now <= ops[j].now
  }

  /** No `trip` and no `reset`. */
  predicate Unforced(ops: seq<Op>) {
    forall i :: 0 <= i < |ops| ==> !ops[i].Forced()
  }

  function Front<T>(s: seq<T>): seq<T>
    requires s != []
  {
    s[..|s| - 1]
  }

  function Last<T>(s: seq<T>): T
    requires s != []
  {
    s[|s| - 1]
  }

  /** Each record operation counts itself, and nothing else touches the lifetime totals. */
  lemma StepTotals(c: Config, m: Machine, op: Op)
    requires ValidConfig(c)
    ensures Step(c, m, op).0.totalSuccesses == m.totalSuccesses + Bit(op.Success?)
    ensures Step(c, m, op).0.totalFailures == m.totalFailures + Bit(op.Failure?)
  {
    hide Push, ShouldTrip, WaitFor;
  }

  lemma RunSnoc(c: Config, m: Machine, ops: seq<Op>, op: Op)
    requires ValidConfig(c)
    ensures Run(c, m, ops + [op]) == Step(c, Run(c, m, ops), op).0
    ensures LastResult(c, m, ops + [op]) == Step(c, Run(c, m, ops), op).1
  {
    assert Front(ops + [op]) == ops;
  }

  lemma {:induction false} RunConcat(c: Config, m: Machine, a: seq<Op>, b: seq<Op>)
    requires ValidConfig(c)
    ensures Run(c, m, a + b) == Run(c, Run(c, m, a), b)
  {
    if b == [] {
      assert a + b == a;
    } else {
      assert Front(a + b) == a + Front(b);
      RunConcat(c, m, a, Front(b));
    }
  }
}

/**
 * The lazy Open -> HalfOpen upgrade against an eager one: a machine whose timer fires at the deadline, and whose
 * record operations therefore never check the clock.
 */
module LazyTimer {
  import opened Prelude
  import opened Config
  import opened Backoff
  import opened Outcomes
  import opened Machine

  /** Either a locked operation, or time passing with nothing recorded. */
  datatype Event = Do(op: Op) | Tick(at: real) {
    function Now(): real {
      if Do? then op.now else at
    }
  }

  predicate OrderedEvents(evs: seq<Event>) {
    forall i, j :: 0 <= i < j < |evs| ==> evs[i].Now() <= evs[j].Now()
  }

  predicate UnforcedEvents(evs: seq<Event>) {
    forall i :: 0 <= i < |evs| && evs[i].Do? ==> !evs[i].op.Forced()
  }

  /** The timer: fires as soon as the deadline is reached. */
  function Fire(e: Machine, now: real): Machine {
    if e.current.Open? && e.openSince.Some? && e.openSince.value + e.waitDuration <= now
    then e.(current := HalfOpen, openSince := None, transitions := e.transitions + 1)
    else e
  }

  /** The eager machine's operations read its stored state and never the clock. */
  function EagerOp(c: Config, e: Machine, op: Op): (Machine, Transition)
    requires ValidConfig(c)
  {
    match op
    case Success(now) =>
      var n := e.(totalSuccesses := e.totalSuccesses + 1);
      if e.current.Closed? then
        (n.(failureCount := 0, window := Push(e.window, c.slidingWindowSize, false)), None)
      else if e.current.HalfOpen? && e.successCount + 1 >= c.successThreshold then
        (Enter(c, n, Closed, now, 0.0), Some((HalfOpen, Closed)))
      else if e.current.HalfOpen? then
        (n.(successCount := e.successCount + 1), None)
      else
        (n, None)
    case Failure(now, draw) =>
      var n := e.(totalFailures := e.totalFailures + 1);
      if e.current.Closed? then
        var w := Push(e.window, c.slidingWindowSize, true);
        if ShouldTrip(c, e.failureCount + 1, w)
        then (Enter(c, n.(window := w), Open, now, draw), Some((Closed, Open)))
        else (n.(failureCount := e.failureCount + 1, window := w), None)
      else if e.current.HalfOpen? then
        (Enter(c, n, Open, now, draw), Some((HalfOpen, Open)))
      else
        (n, None)
    case Trip(now, draw) => (Enter(c, e, Open, now, draw), None)
    case Reset(now) => (Enter(c, e, Closed, now, 0.0), None)
  }

  function EagerStep(c: Config, e: Machine, ev: Event): (Machine, Transition)
    requires ValidConfig(c)
  {
    var fired := Fire(e, ev.Now());
    if ev.Do? then EagerOp(c, fired, ev.op) else (fired, None)
  }

  function LazyStep(c: Config, m: Machine, ev: Event): (Machine, Transition)
    requires ValidConfig(c)
  {
    if ev.Do? then Step(c, m, ev.op) else (m, None)
  }

  function EagerRun(c: Config, wait: Duration, evs: seq<Event>): Machine
    requires ValidConfig(c)
  {
    if evs == [] then New(wait) else EagerStep(c, EagerRun(c, wait, Front(evs)), Last(evs)).0
  }

  function LazyRun(c: Config, wait: Duration, evs: seq<Event>): Machine
    requires ValidConfig(c)
  {
    if evs == [] then New(wait) else LazyStep(c, LazyRun(c, wait, Front(evs)), Last(evs)).0
  }

  /** How many forced transitions overtook a pending upgrade, which the lazy machine then never applied. */
  function Overtaken(c: Config, wait: Duration, evs: seq<Event>): nat
    requires ValidConfig(c)
  {
    if evs == [] then 0
    else
      Overtaken(c, wait, Front(evs))
      + Bit(Last(evs).Do? && Last(evs).op.Forced() && Expired(LazyRun(c, wait, Front(evs)), Last(evs).Now()))
  }

  /** An Open or HalfOpen circuit has no streak, and an Open one no probe successes. */
  predicate Quiet(m: Machine) {
    (m.current != Closed ==> m.failureCount == 0) && (m.current != HalfOpen ==> m.successCount == 0)
  }

  lemma QuietStep(c: Config, m: Machine, ev: Event)
    requires ValidConfig(c) && Quiet(m)
    ensures Quiet(LazyStep(c, m, ev).0)
  {
    hide Push, ShouldTrip, WaitFor;
  }

  /** The two machines agree on everything but the upgrades not applied yet. */
  predicate InStep(m: Machine, e: Machine, now: real, overtaken: nat) {
    && Quiet(m)
    && var n := Upgrade(m, now);
       e == n.(transitions := n.transitions + overtaken)
  }

  lemma InStepLater(m: Machine, e: Machine, before: real, now: real, overtaken: nat)
    requires InStep(m, e, before, overtaken) && before <= now
    ensures InStep(m, Fire(e, now), now, overtaken)
  {
  }

  lemma InStepOp(c: Config, m: Machine, e: Machine, op: Op, overtaken: nat)
    requires ValidConfig(c) && InStep(m, e, op.now, overtaken) && Fire(e, op.now) == e
    ensures EagerOp(c, e, op).1 == Step(c, m, op).1
    ensures InStep(Step(c, m, op).0, Fire(EagerOp(c, e, op).0, op.now), op.now,
                   overtaken + Bit(op.Forced() && Expired(m, op.now)))
  {
    hide Push, ShouldTrip, WaitFor;
    QuietStep(c, m, Do(op));
  }

  /** A machine that has just acted may hold a wait of zero, which the timer ends at once. */
  lemma {:induction false} LazyMatchesEager(c: Config, wait: Duration, evs: seq<Event>, now: real)
    requires ValidConfig(c) && OrderedEvents(evs)
    requires evs != [] ==> Last(evs).Now() <= now
    ensures InStep(LazyRun(c, wait, evs), Fire(EagerRun(c, wait, evs), now), now, Overtaken(c, wait, evs))
    ensures evs != [] ==>
      EagerStep(c, EagerRun(c, wait, Front(evs)), Last(evs)).1 == LazyStep(c, LazyRun(c, wait, Front(evs)), Last(evs)).1
  {
    if evs != [] {
      var front, ev := Front(evs), Last(evs);
      var m, e := LazyRun(c, wait, front), EagerRun(c, wait, front);
      LazyMatchesEager(c, wait, front, ev.Now());
      var fired := Fire(e, ev.Now());
      if ev.Do? {
        InStepOp(c, m, fired, ev.op, Overtaken(c, wait, front));
        InStepLater(LazyRun(c, wait, evs), Fire(EagerRun(c, wait, evs), ev.Now()), ev.Now(), now,
                    Overtaken(c, wait, evs));
        FireTwice(EagerRun(c, wait, evs), ev.Now(), now);
      } else {
        InStepLater(m, fired, ev.Now(), now, Overtaken(c, wait, front));
      }
    }
  }

  lemma FireTwice(e: Machine, before: real, now: real)
    requires before <= now
    ensures Fire(Fire(e, before), now) == Fire(e, now)
  {
  }

  /**
   * Lazy refines eager: at every instant `now` after any run, the lazy machine reads and has returned exactly what
   * the eager one has; only the `transitions` counter may lag, by the pending upgrade and the overtaken ones.
   */
  lemma LazyRefinesEager(c: Config, wait: Duration, evs: seq<Event>, now: real)
    requires ValidConfig(c) && OrderedEvents(evs)
    requires evs != [] ==> Last(evs).Now() <= now
    ensures var m, e := LazyRun(c, wait, evs), Fire(EagerRun(c, wait, evs), now);
            && Current(m, now) == e.current
            && m.window == e.window && m.failureCount == e.failureCount && m.successCount == e.successCount
            && m.totalSuccesses == e.totalSuccesses && m.totalFailures == e.totalFailures
            && m.openAttempts == e.openAttempts && m.waitDuration == e.waitDuration
            && e.transitions == m.transitions + Bit(Expired(m, now)) + Overtaken(c, wait, evs)
    ensures evs != [] ==>
      EagerStep(c, EagerRun(c, wait, Front(evs)), Last(evs)).1 == LazyStep(c, LazyRun(c, wait, Front(evs)), Last(evs)).1
    ensures UnforcedEvents(evs) ==> Overtaken(c, wait, evs) == 0
  {
    LazyMatchesEager(c, wait, evs, now);
    if UnforcedEvents(evs) {
      NothingOvertaken(c, wait, evs);
    }
  }

  lemma {:induction false} NothingOvertaken(c: Config, wait: Duration, evs: seq<Event>)
    requires ValidConfig(c) && UnforcedEvents(evs)
    ensures Overtaken(c, wait, evs) == 0
  {
    if evs != [] {
      NothingOvertaken(c, wait, Front(evs));
    }
  }
}

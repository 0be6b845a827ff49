/** No call waits for anything while it holds the read guard, so a writer never waits for an awaited operation. */
module Progress {
  import opened Prelude
  import opened Config
  import opened Machine
  import opened Protocol
  import opened Probes

  /** A step a task takes while it holds the guard. */
  predicate GuardStep(l: Label) {
    l.Inspect? || l.Load? || l.CasOk? || l.CasFail? || l.Exhausted? || l.DropGuard?
  }

  predicate GuardSteps(ls: seq<Label>) {
    forall i :: 0 <= i < |ls| ==> GuardStep(ls[i])
  }

  /** The step that takes a guard holder closer to dropping the guard; it is always enabled. */
  function NextGuardStep(c: Config, s: Sys, t: nat): Label
    requires t < |s.tasks| && HoldsGuard(s.tasks[t])
  {
    match s.tasks[t]
    case Guarded => Inspect(t)
    case Probing => Load(t)
    case Comparing(v) =>
      if v >= c.halfOpenMaxCalls then Exhausted(t) else if v == s.permits then CasOk(t) else CasFail(t)
    case _ => DropGuard(t)
  }

  /** How many such steps are left when no other task moves. */
  function StepsLeft(c: Config, s: Sys, t: nat): nat
    requires t < |s.tasks|
  {
    match s.tasks[t]
    case Guarded => 5
    case Probing => 4
    case Comparing(v) => if v >= c.halfOpenMaxCalls || v == s.permits then 2 else 3
    case Granted(_) => 1
    case Admitted => 1
    case Refused(_) => 1
    case _ => 0
  }

  lemma GuardStepAdvances(c: Config, s: Sys, t: nat)
    requires ValidConfig(c) && t < |s.tasks| && HoldsGuard(s.tasks[t])
    ensures var l := NextGuardStep(c, s, t);
            && GuardStep(l) && Enabled(c, s, l)
            && var n := Apply(c, s, l);
               && n.machine == s.machine && n.clock == s.clock && |n.tasks| == |s.tasks|
               && (forall u :: 0 <= u < |s.tasks| && u != t ==> n.tasks[u] == s.tasks[u])
               && StepsLeft(c, n, t) < StepsLeft(c, s, t)
  {
    hide Current, NoReaders;
  }

  /** One guard holder can be driven out of its guard on its own. */
  lemma {:induction false} DrainOne(c: Config, s: Sys, t: nat) returns (ls: seq<Label>, n: Sys)
    requires ValidConfig(c) && t < |s.tasks|
    ensures After(c, s, ls) == Some(n) && GuardSteps(ls)
    ensures n.machine == s.machine && n.clock == s.clock && |n.tasks| == |s.tasks|
    ensures forall u :: 0 <= u < |s.tasks| && u != t ==> n.tasks[u] == s.tasks[u]
    ensures !HoldsGuard(n.tasks[t]) && (!HoldsGuard(s.tasks[t]) ==> n.tasks[t] == s.tasks[t])
    decreases StepsLeft(c, s, t)
  {
    hide Apply, Enabled, GuardStep;
    AfterNothing(c, s);
    if !HoldsGuard(s.tasks[t]) {
      ls, n := [], s;
    } else {
      var l := NextGuardStep(c, s, t);
      GuardStepAdvances(c, s, t);
      AfterSnoc(c, s, [], l);
      assert [] + [l] == [l];
      var rest, m := DrainOne(c, Apply(c, s, l), t);
      AfterConcat(c, s, [l], rest);
      ls, n := [l] + rest, m;
    }
  }

  lemma {:induction false} DrainFirst(c: Config, s: Sys, k: nat) returns (ls: seq<Label>, n: Sys)
    requires ValidConfig(c) && k <= |s.tasks|
    ensures After(c, s, ls) == Some(n) && GuardSteps(ls)
    ensures n.machine == s.machine && n.clock == s.clock && |n.tasks| == |s.tasks|
    ensures forall u :: 0 <= u < k ==> !HoldsGuard(n.tasks[u])
    ensures forall u :: 0 <= u < |s.tasks| && !HoldsGuard(s.tasks[u]) ==> n.tasks[u] == s.tasks[u]
  {
    hide Apply, Enabled, GuardStep, HoldsGuard;
    AfterNothing(c, s);
    if k == 0 {
      ls, n := [], s;
    } else {
      var first, m := DrainFirst(c, s, k - 1);
      var more, m2 := DrainOne(c, m, k - 1);
      AfterConcat(c, s, first, more);
      ls, n := first + more, m2;
    }
  }

  /**
   * From any state, all guard holders can drop the guard by steps of their own, with no operation finishing,
   * no write and no time passing: then every step that needs the write lock can go ahead.
   */
  lemma WritersNeverWaitForOperations(c: Config, s: Sys) returns (ls: seq<Label>, n: Sys)
    requires ValidConfig(c)
    ensures After(c, s, ls) == Some(n) && GuardSteps(ls) && NoReaders(n)
    ensures n.machine == s.machine && n.clock == s.clock && |n.tasks| == |s.tasks|
    ensures forall u :: 0 <= u < |s.tasks| && !HoldsGuard(s.tasks[u]) ==> n.tasks[u] == s.tasks[u]
  {
    hide GuardStep, HoldsGuard;
    ls, n := DrainFirst(c, s, |s.tasks|);
  }
}

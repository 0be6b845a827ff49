/** Which steps are a call's own, and what a call does to the breaker when nobody else moves. */
module Solo {
  import opened Prelude
  import opened Config
  import opened Machine
  import opened Protocol
  import opened Guarantees

  predicate OwnStep(l: Label, t: nat) {
    l.OfTask() && l.t == t
  }

  /** Every one is a step of task `t`. */
  predicate OwnSteps(ls: seq<Label>, t: nat) {
    forall i :: 0 <= i < |ls| ==> OwnStep(ls[i], t)
  }

  /** Every one is a step of task `t`, or one that the rest of the world may take. */
  ghost predicate OwnOrAllowed(ls: seq<Label>, t: nat, allowed: iset<Label>) {
    forall i :: 0 <= i < |ls| ==> OwnStep(ls[i], t) || ls[i] in allowed
  }

  /** How many are neither. */
  ghost function Foreign(ls: seq<Label>, t: nat, allowed: iset<Label>): nat {
    if ls == [] then 0 else Foreign(Front(ls), t, allowed) + Bit(!OwnStep(Last(ls), t) && Last(ls) !in allowed)
  }

  lemma ForeignSnoc(ls: seq<Label>, l: Label, t: nat, allowed: iset<Label>)
    ensures Foreign(ls + [l], t, allowed) == Foreign(ls, t, allowed) + Bit(!OwnStep(l, t) && l !in allowed)
  {
    assert Front(ls + [l]) == ls;
  }

  /** No more have been added if and only if all that has been added is own or allowed. */
  lemma {:induction false} NoForeignSince(past: seq<Label>, ls: seq<Label>, t: nat, allowed: iset<Label>)
    requires past <= ls
    ensures Foreign(past, t, allowed) <= Foreign(ls, t, allowed)
    ensures Foreign(past, t, allowed) == Foreign(ls, t, allowed) <==> OwnOrAllowed(ls[|past|..], t, allowed)
  {
    if |past| == |ls| {
      assert past == ls;
    } else {
      NoForeignSince(past, Front(ls), t, allowed);
      assert ls[|past|..] == Front(ls)[|past|..] + [Last(ls)];
    }
  }

  /** `n` is what one call, now at `x`, has made of `s` on its own: one record if any, by what it ended with. */
  predicate SoleEffect(c: Config, s: Sys, n: Sys, x: Task)
    requires ValidConfig(c)
  {
    && n.tasks == s.tasks + [x] && n.clock == s.clock
    && n.permits == s.permits + Bit(HoldsPermit(x))
    && n.manualSuccesses == s.manualSuccesses && n.manualFailures == s.manualFailures
    && if RecordedGood(x) then
         n.log == s.log + [Success(s.clock)] && n.machine == Step(c, s.machine, Success(s.clock)).0
       else if RecordedBad(x) then
         && n.log != [] && n.log == s.log + [Last(n.log)] && Last(n.log).Failure? && Last(n.log).now == s.clock
         && n.machine == Step(c, s.machine, Last(n.log)).0
       else n.log == s.log && n.machine == s.machine
  }

  lemma SoleStep(c: Config, s: Sys, n: Sys, x: Task, l: Label)
    requires ValidConfig(c) && SoleEffect(c, s, n, x) && OwnStep(l, |s.tasks|) && Enabled(c, n, l)
    requires TaskInv(c, n, x)
    ensures SoleEffect(c, s, Apply(c, n, l), Moved(c, n, l))
  {
    hide Step, EntersOpen, NoReaders, Current;
    assert n.tasks[l.t := Moved(c, n, l)] == s.tasks + [Moved(c, n, l)];
  }

  lemma SoleStart(c: Config, s: Sys)
    requires ValidConfig(c)
    ensures SoleEffect(c, s, Apply(c, s, Begin), Started)
  {
  }

  /** A call that nobody interferes with records once or not at all, and touches nothing but its own permit. */
  lemma {:induction false} SoleCall(c: Config, wait: Duration, at: real, past: seq<Label>, own: seq<Label>)
    requires ValidConfig(c) && Legal(c, wait, at, past) && Legal(c, wait, at, past + [Begin] + own)
    requires OwnSteps(own, |At(c, wait, at, past).tasks|)
    ensures var n := At(c, wait, at, past + [Begin] + own);
            n.tasks != [] && SoleEffect(c, At(c, wait, at, past), n, Last(n.tasks))
  {
    hide Step, EntersOpen, NoReaders, Current, Moved, Enabled, PermitsInv, LogInv, TotalsInv, SoleEffect, Apply;
    var s, all := At(c, wait, at, past), past + [Begin] + own;
    if own == [] {
      assert all == past + [Begin] && Front(all) == past;
      SoleStart(c, s);
      SoleTask(c, s, At(c, wait, at, all), Started);
    } else {
      var front, l := past + [Begin] + Front(own), Last(own);
      assert Front(all) == front && l == own[|own| - 1];
      SoleCall(c, wait, at, past, Front(own));
      EveryInterleaving(c, wait, at, front);
      var m := At(c, wait, at, front);
      SoleTask(c, s, m, Last(m.tasks));
      SoleStep(c, s, m, Last(m.tasks), l);
      SoleTask(c, s, Apply(c, m, l), Moved(c, m, l));
    }
  }

  lemma SoleTask(c: Config, s: Sys, n: Sys, x: Task)
    requires ValidConfig(c) && SoleEffect(c, s, n, x)
    ensures |n.tasks| == |s.tasks| + 1 && Last(n.tasks) == n.tasks[|s.tasks|] == x
  {
  }
}

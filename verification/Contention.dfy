/** The compare-exchange loop without any fairness: what a failed exchange costs somebody else. */
module Contention {
  import opened Prelude
  import opened Config
  import opened Machine
  import opened Protocol
  import opened Guarantees

  /** Failed exchanges of task `t`. */
  function CasFails(ls: seq<Label>, t: nat): nat {
    if ls == [] then 0 else CasFails(Front(ls), t) + Bit(Last(ls) == CasFail(t))
  }

  lemma CasFailsSnoc(ls: seq<Label>, l: Label, t: nat)
    ensures CasFails(ls + [l], t) == CasFails(ls, t) + Bit(l == CasFail(t))
  {
    assert Front(ls + [l]) == ls;
  }

  /** Steps of tasks other than `t`. */
  predicate Others(ls: seq<Label>, t: nat) {
    forall i :: 0 <= i < |ls| && ls[i].OfTask() ==> ls[i].t != t
  }

  lemma {:induction false} OthersFailNothing(ls: seq<Label>, others: seq<Label>, t: nat)
    requires Others(others, t)
    ensures CasFails(ls + others, t) == CasFails(ls, t)
  {
    if others == [] {
      assert ls + others == ls;
    } else {
      assert Last(others) == others[|others| - 1];
      OthersFailNothing(ls, Front(others), t);
      assert ls + others == ls + Front(others) + [Last(others)];
      CasFailsSnoc(ls + Front(others), Last(others), t);
    }
  }

  /** A call not begun has failed no exchange. */
  lemma {:induction false} NoFailsBeforeBegin(c: Config, wait: Duration, at: real, ls: seq<Label>, t: nat)
    requires ValidConfig(c) && Legal(c, wait, at, ls) && t >= |At(c, wait, at, ls).tasks|
    ensures CasFails(ls, t) == 0
  {
    hide Step, EntersOpen, NoReaders, Moved, LockedOp;
    if ls != [] {
      NoFailsBeforeBegin(c, wait, at, Front(ls), t);
    }
  }

  predicate IsComparing(s: Sys, t: nat) {
    t < |s.tasks| && s.tasks[t].Comparing?
  }

  /** Task `t` is about to compare with a value the counter no longer has. */
  predicate IsStale(s: Sys, t: nat) {
    IsComparing(s, t) && s.tasks[t].observed != s.permits
  }

  /** Failed exchanges of task `t` where the counter differed from the expected value. */
  function LostRaces(c: Config, wait: Duration, at: real, ls: seq<Label>, t: nat): nat
    requires ValidConfig(c) && Legal(c, wait, at, ls)
  {
    if ls == [] then 0
    else LostRaces(c, wait, at, Front(ls), t) + Bit(Last(ls) == CasFail(t) && IsStale(At(c, wait, at, Front(ls)), t))
  }

  /** Permits won or given back by other tasks while task `t` was in its loop. */
  function OthersMoves(c: Config, wait: Duration, at: real, ls: seq<Label>, t: nat): nat
    requires ValidConfig(c) && Legal(c, wait, at, ls)
  {
    if ls == [] then 0
    else
      var l := Last(ls);
      OthersMoves(c, wait, at, Front(ls), t)
      + Bit((l.CasOk? || l.Release?) && l.t != t && IsComparing(At(c, wait, at, Front(ls)), t))
  }

  /** A task in its loop turns stale only by such a move, and a lost race makes it fresh again. */
  lemma RaceStep(c: Config, s: Sys, l: Label, t: nat)
    requires ValidConfig(c) && Enabled(c, s, l)
    ensures Bit(l == CasFail(t) && IsStale(s, t)) + Bit(IsStale(Apply(c, s, l), t))
         <= Bit(IsStale(s, t)) + Bit((l.CasOk? || l.Release?) && l.t != t && IsComparing(s, t))
  {
    hide Step, EntersOpen, NoReaders, Current, LockedOp;
  }

  /**
   * Lock freedom, counted: in every interleaving each exchange of a call that fails on a changed counter is paid for
   * by another call that won or gave back a permit during this call's admission.
   */
  lemma {:induction false} LostRacesArePaidFor(c: Config, wait: Duration, at: real, ls: seq<Label>, t: nat)
    requires ValidConfig(c) && Legal(c, wait, at, ls)
    ensures LostRaces(c, wait, at, ls, t) + Bit(IsStale(At(c, wait, at, ls), t)) <= OthersMoves(c, wait, at, ls, t)
    ensures LostRaces(c, wait, at, ls, t) <= CasFails(ls, t)
  {
    hide Enabled, Apply, IsStale, IsComparing;
    if ls == [] {
      NotBegun(wait, at, t);
    } else {
      LostRacesArePaidFor(c, wait, at, Front(ls), t);
      RaceStep(c, At(c, wait, at, Front(ls)), Last(ls), t);
    }
  }

  lemma NotBegun(wait: Duration, at: real, t: nat)
    ensures !IsStale(Start(wait, at), t)
  {
  }
}

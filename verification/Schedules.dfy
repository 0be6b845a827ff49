/** Schedules the breaker has to live with: time passes at any instant, and an exchange may fail for no reason. */
module Schedules {
  import opened Prelude
  import opened Config
  import opened Backoff
  import opened Machine
  import opened Protocol
  import opened Guarantees
  import opened Probes

  /** Time waits for nobody: whatever guards and permits are held, the clock may go on. */
  lemma TimeAlwaysPasses(c: Config, wait: Duration, at: real, ls: seq<Label>, now: real)
    requires ValidConfig(c) && Legal(c, wait, at, ls) && At(c, wait, at, ls).clock <= now
    ensures Legal(c, wait, at, ls + [Tick(now)])
    ensures At(c, wait, at, ls + [Tick(now)]) == At(c, wait, at, ls).(clock := now)
  {
    hide NoReaders;
    AfterSnoc(c, Start(wait, at), ls, Tick(now));
  }

  /** From here on, a new call takes the guard, then the time is `now`, and then it wins a permit. */
  function AcrossDeadline(t: nat, now: real): seq<Label> {
    [Begin, TakeGuard(t)] + [Tick(now)] + [Inspect(t), Load(t), CasOk(t)]
  }

  lemma TakesGuard(c: Config, s: Sys) returns (n: Sys)
    requires ValidConfig(c)
    ensures After(c, s, [Begin, TakeGuard(|s.tasks|)]) == Some(n) && OneMore(s, n, Guarded, s.permits)
  {
    hide Current, After, Apply, NoReaders;
    n := Entered(c, s);
    n := Advance(c, s, [Begin], s, n, Started, s.permits, TakeGuard(|s.tasks|));
    assert [Begin] + [TakeGuard(|s.tasks|)] == [Begin, TakeGuard(|s.tasks|)];
  }

  /** A guarded call that finds the circuit HalfOpen and a permit free wins one. */
  lemma GuardedWins(c: Config, s: Sys, m: Sys) returns (n: Sys)
    requires ValidConfig(c) && OneMore(s, m, Guarded, s.permits)
    requires Current(s.machine, s.clock) == HalfOpen && s.permits < c.halfOpenMaxCalls
    ensures var t := |s.tasks|; After(c, m, [Inspect(t), Load(t), CasOk(t)]) == Some(n)
    ensures OneMore(s, n, Granted(s.episode), s.permits + 1)
  {
    hide Current, After, Apply, NoReaders;
    var t := |s.tasks|;
    AfterNothing(c, m);
    n := Advance(c, m, [], s, m, Guarded, s.permits, Inspect(t));
    n := Advance(c, m, [] + [Inspect(t)], s, n, Probing, s.permits, Load(t));
    n := Advance(c, m, [] + [Inspect(t)] + [Load(t)], s, n, Comparing(s.permits), s.permits, CasOk(t));
    assert [] + [Inspect(t)] + [Load(t)] + [CasOk(t)] == [Inspect(t), Load(t), CasOk(t)];
  }

  /**
   * A call that takes its guard while the circuit reads Open wins a permit all the same if the wait ends under that
   * guard and one is free: from every Open state, and every instant from the deadline on.
   */
  lemma OpenMayEndUnderGuard(c: Config, s: Sys, now: real)
    requires ValidConfig(c) && Current(s.machine, s.clock) == Open && Expired(s.machine, now) && s.clock <= now
    requires s.permits < c.halfOpenMaxCalls
    ensures var t := |s.tasks|;
            var before, after := After(c, s, [Begin, TakeGuard(t)]), After(c, s, AcrossDeadline(t, now));
            && before == Some(s.(tasks := s.tasks + [Guarded]))
            && after == Some(s.(tasks := s.tasks + [Granted(s.episode)], permits := s.permits + 1, clock := now))
  {
    hide After, NoReaders, Apply;
    var t := |s.tasks|;
    var n := TakesGuard(c, s);
    AfterSnoc(c, s, [Begin, TakeGuard(t)], Tick(now));
    var later := s.(clock := now);
    OnlyClock(c, n, now);
    var r := GuardedWins(c, later, n.(clock := now));
    AfterConcat(c, s, [Begin, TakeGuard(t)] + [Tick(now)], [Inspect(t), Load(t), CasOk(t)]);
  }

  lemma OnlyClock(c: Config, s: Sys, now: real)
    requires ValidConfig(c) && s.clock <= now
    ensures Apply(c, s, Tick(now)) == s.(clock := now)
  {
  }

  /** Such a run from a new breaker, for every configuration and draw that give a first wait at all. */
  lemma ProbesAcrossDeadline(c: Config, wait: Duration, at: real, draw: Sample)
    requires ValidConfig(c) && 0.0 < WaitFor(c.backoff, 1, draw)
    ensures var now := at + WaitFor(c.backoff, 1, draw);
            var guarded, ls := [ForceTrip(draw), Begin, TakeGuard(0)], [ForceTrip(draw)] + AcrossDeadline(0, now);
            && guarded + [Tick(now)] <= ls
            && Legal(c, wait, at, guarded) && At(c, wait, at, guarded).tasks == [Guarded]
            && Current(At(c, wait, at, guarded).machine, at) == Open
            && Legal(c, wait, at, ls) && At(c, wait, at, ls).tasks == [Granted(1)]
  {
    hide After, WaitFor;
    var s0 := Start(wait, at);
    AfterNothing(c, s0);
    AfterSnoc(c, s0, [], ForceTrip(draw));
    assert [] + [ForceTrip(draw)] == [ForceTrip(draw)];
    var now := at + WaitFor(c.backoff, 1, draw);
    var s := Apply(c, s0, ForceTrip(draw));
    OpenMayEndUnderGuard(c, s, now);
    AfterConcat(c, s0, [ForceTrip(draw)], [Begin, TakeGuard(0)]);
    AfterConcat(c, s0, [ForceTrip(draw)], AcrossDeadline(0, now));
    var guarded := [ForceTrip(draw), Begin, TakeGuard(0)];
    assert [ForceTrip(draw)] + [Begin, TakeGuard(0)] == guarded;
    assert [ForceTrip(draw)] + AcrossDeadline(0, now) == guarded + [Tick(now)] + [Inspect(0), Load(0), CasOk(0)];
    assert s.tasks + [Guarded] == [Guarded] && s.tasks + [Granted(1)] == [Granted(1)];
  }

  function Repeat(l: Label, k: nat): seq<Label> {
    if k == 0 then [] else Repeat(l, k - 1) + [l]
  }

  /** The weak exchange may fail on an unchanged counter any number of times, and nothing comes of it. */
  lemma {:induction false} SpuriousFailures(c: Config, s: Sys, t: nat, k: nat)
    requires ValidConfig(c) && t < |s.tasks| && s.tasks[t] == Comparing(s.permits)
    requires s.permits < c.halfOpenMaxCalls
    ensures After(c, s, Repeat(CasFail(t), k)) == Some(s)
  {
    hide After, NoReaders, Current;
    if k == 0 {
      AfterNothing(c, s);
    } else {
      SpuriousFailures(c, s, t, k - 1);
      AfterSnoc(c, s, Repeat(CasFail(t), k - 1), CasFail(t));
      assert Apply(c, s, CasFail(t)).tasks == s.tasks;
    }
  }

  /** From every state that reads HalfOpen with a permit free, a call may fail `k` exchanges in a row, then win. */
  lemma FailsThenWins(c: Config, s: Sys, k: nat)
    requires ValidConfig(c) && Current(s.machine, s.clock) == HalfOpen && s.permits < c.halfOpenMaxCalls
    ensures var t := |s.tasks|;
            var n := After(c, s, [Begin, TakeGuard(t), Inspect(t), Load(t)] + Repeat(CasFail(t), k) + [CasOk(t)]);
            n == Some(s.(tasks := s.tasks + [Granted(s.episode)], permits := s.permits + 1))
  {
    hide After, NoReaders, Current;
    var t := |s.tasks|;
    var ls := [Begin, TakeGuard(t), Inspect(t), Load(t)];
    var n := ReachesLoop(c, s);
    SpuriousFailures(c, n, t, k);
    AfterConcat(c, s, ls, Repeat(CasFail(t), k));
    n := Advance(c, s, ls + Repeat(CasFail(t), k), s, n, Comparing(s.permits), s.permits, CasOk(t));
  }
}

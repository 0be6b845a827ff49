/** Open-state waits (src/config.rs): the capped exponential and its jitter. */
module Backoff {
  import opened Prelude
  import opened Config

  const EXPONENT_CAP := 1024

  function Pow(x: real, n: nat): real {
    if n == 0 then 1.0 else Times(x, Pow(x, n - 1))
  }

  function SaturatingPred(n: nat): nat {
    if n == 0 then 0 else n - 1
  }

  /** `computed.min(max).max(0.0)` */
  function Clip(computed: real, max: Duration): Duration {
    if computed < 0.0 then 0.0 else if computed < max then computed else max
  }

  function ExponentialWait(initial: Duration, max: Duration, factor: real, attempt: nat): Duration {
    Clip(Times(initial, Pow(factor, Min(SaturatingPred(attempt), EXPONENT_CAP))), max)
  }

  /** The documented formula, `initial * factor^(attempt - 1)` capped at `max`, without the exponent cap. */
  function DocumentedWait(initial: Duration, max: Duration, factor: real, attempt: nat): Duration {
    Clip(Times(initial, Pow(factor, SaturatingPred(attempt))), max)
  }

  /** The wait before any jitter is applied. */
  function BaseWait(b: BackoffStrategy, attempt: nat): Duration {
    match b
    case Fixed(d) => d
    case Exponential(initial, max, factor) => ExponentialWait(initial, max, factor, attempt)
    case ExponentialJitter(initial, max, factor, _) => ExponentialWait(initial, max, factor, attempt)
  }

  /** The jitter fraction: one outside [0, 1] counts as the nearer end. */
  function JitterOf(b: BackoffStrategy): (j: real)
    ensures 0.0 <= j <= 1.0
    ensures b.ExponentialJitter? ==> j == if b.jitter < 0.0 then 0.0 else if 1.0 < b.jitter then 1.0 else b.jitter
    ensures !b.ExponentialJitter? ==> j == 0.0
  {
    if b.ExponentialJitter? then ClampReal(b.jitter, 0.0, 1.0) else 0.0
  }

  /** `wait_for`: the wait of the given trip, where `draw` is the sample a jittered strategy takes. */
  function WaitFor(b: BackoffStrategy, attempt: nat, draw: Sample): Duration {
    match b
    case Fixed(d) => d
    case Exponential(initial, max, factor) => ExponentialWait(initial, max, factor, attempt)
    case ExponentialJitter(initial, max, factor, jitter) =>
      var base := ExponentialWait(initial, max, factor, attempt);
      var scale := ClampReal(1.0 - Times(ClampReal(jitter, 0.0, 1.0), draw), 0.0, 1.0);
      TimesUnit(base);
      TimesMonotone(base, 0.0, scale);
      TimesMonotone(base, scale, 1.0);
      Times(base, scale)
  }

  /** A wait that some draw could have produced lies in this range. */
  predicate WaitInRange(b: BackoffStrategy, attempt: nat, wait: Duration) {
    Times(BaseWait(b, attempt), 1.0 - JitterOf(b)) <= wait <= BaseWait(b, attempt)
  }

  /** Every wait lies between base * (1 - jitter) and base; without jitter it is the base itself. */
  lemma WaitIsInRange(b: BackoffStrategy, attempt: nat, draw: Sample)
    ensures WaitInRange(b, attempt, WaitFor(b, attempt, draw))
    ensures !b.ExponentialJitter? ==> WaitFor(b, attempt, draw) == BaseWait(b, attempt)
  {
    var base, j := BaseWait(b, attempt), JitterOf(b);
    var scale := 1.0 - Times(j, draw);
    TimesUnit(j);
    TimesMonotone(j, 0.0, draw);
    TimesMonotone(j, draw, 1.0);
    TimesUnit(base);
    TimesMonotone(base, 1.0 - j, scale);
    TimesMonotone(base, scale, 1.0);
    TimesMonotone(base, 1.0 - j, 1.0);
  }

  lemma {:induction false} PowNonNegative(x: real, n: nat)
    requires 0.0 <= x
    ensures 0.0 <= Pow(x, n)
    ensures 0.0 < x ==> 0.0 < Pow(x, n)
  {
    if n > 0 {
      PowNonNegative(x, n - 1);
      TimesUnit(x);
      TimesMonotone(x, 0.0, Pow(x, n - 1));
    }
  }

  /** For a factor of at least 1 the powers never shrink; above 1 they strictly grow. */
  lemma {:induction false} PowGrows(x: real, m: nat, n: nat)
    requires 1.0 <= x && m <= n
    ensures Pow(x, m) <= Pow(x, n)
    ensures 1.0 < x && m < n ==> Pow(x, m) < Pow(x, n)
    decreases n
  {
    if m < n {
      var p := Pow(x, n - 1);
      PowGrows(x, m, n - 1);
      PowNonNegative(x, n - 1);
      TimesUnit(p);
      TimesMonotone(p, 1.0, x);
      TimesCommute(x, p);
    }
  }

  lemma {:induction false} PowOne(n: nat)
    ensures Pow(1.0, n) == 1.0
  {
    if n > 0 {
      PowOne(n - 1);
    }
  }

  lemma {:induction false} PowAboveTwo(x: real, n: nat)
    requires 2.0 <= x
    ensures Pow(2.0, n) <= Pow(x, n)
  {
    if n > 0 {
      var p, q := Pow(2.0, n - 1), Pow(x, n - 1);
      PowAboveTwo(x, n - 1);
      PowNonNegative(2.0, n - 1);
      TimesMonotone(p, 2.0, x);
      TimesCommute(p, 2.0);
      TimesCommute(p, x);
      TimesMonotone(x, p, q);
    }
  }

  lemma TenDoublings(n: nat)
    ensures Pow(2.0, n + 10) == 1024.0 * Pow(2.0, n)
  {
    assert Pow(2.0, n + 2) == 4.0 * Pow(2.0, n);
    assert Pow(2.0, n + 4) == 4.0 * Pow(2.0, n + 2);
    assert Pow(2.0, n + 6) == 4.0 * Pow(2.0, n + 4);
    assert Pow(2.0, n + 8) == 4.0 * Pow(2.0, n + 6);
    assert Pow(2.0, n + 10) == 4.0 * Pow(2.0, n + 8);
  }

  /** Without recovery the base waits never shrink when the factor is at least 1. */
  lemma BaseWaitMonotone(b: BackoffStrategy, a1: nat, a2: nat)
    requires b.Fixed? || 1.0 <= b.factor
    requires a1 <= a2
    ensures BaseWait(b, a1) <= BaseWait(b, a2)
  {
    if !b.Fixed? {
      var e1, e2 := Min(SaturatingPred(a1), EXPONENT_CAP), Min(SaturatingPred(a2), EXPONENT_CAP);
      PowGrows(b.factor, e1, e2);
      TimesMonotone(b.initial, Pow(b.factor, e1), Pow(b.factor, e2));
    }
  }

  lemma TimesSwap(a: real, b: real, c: real)
    ensures Times(a, Times(b, c)) == Times(b, Times(a, c))
  {
  }

  /** `u` starts at `initial`, and each further element is `factor` times the one before. */
  predicate Geometric(u: seq<real>, initial: real, factor: real) {
    u != [] && u[0] == initial && forall k :: 0 <= k < |u| - 1 ==> u[k + 1] == Times(factor, u[k])
  }

  lemma {:induction false} GeometricIsPow(u: seq<real>, initial: real, factor: real, k: nat)
    requires Geometric(u, initial, factor) && k < |u|
    ensures u[k] == Times(initial, Pow(factor, k))
  {
    TimesUnit(initial);
    if k > 0 {
      GeometricIsPow(u, initial, factor, k - 1);
      assert u[k - 1 + 1] == Times(factor, u[k - 1]);
      TimesSwap(factor, initial, Pow(factor, k - 1));
    }
  }

  /**
   * Every base wait, for every factor: attempt `a` waits the `a`-th number of the geometric sequence from `initial`,
   * kept within 0 and `max`. Attempt 0 counts as 1, and from attempt 1025 on it is always the 1025th.
   */
  lemma BaseWaitIsGeometric(b: BackoffStrategy, u: seq<real>, attempt: nat)
    requires !b.Fixed? && Geometric(u, b.initial, b.factor) && |u| == 1025
    ensures var x := u[if attempt == 0 then 0 else if attempt <= 1025 then attempt - 1 else 1024];
            BaseWait(b, attempt) == if x < 0.0 then 0.0 else if x < b.max then x else b.max
  {
    hide Pow, Times;
    GeometricIsPow(u, b.initial, b.factor, Min(SaturatingPred(attempt), EXPONENT_CAP));
  }

  /** The first wait is the lesser of `initial` and `max`; the source's `initial_wait` is that of attempt 1. */
  lemma FirstBaseWait(b: BackoffStrategy, attempt: nat)
    requires !b.Fixed? && attempt <= 1
    ensures BaseWait(b, attempt) == if b.initial < b.max then b.initial else b.max
  {
    TimesUnit(b.initial);
  }

  /** Below `max`, each of the next 1024 waits is `factor` times the one before, or `max`; then it is constant. */
  lemma NextBaseWait(b: BackoffStrategy, attempt: nat)
    requires !b.Fixed? && 1 <= attempt
    ensures attempt <= 1024 && 0.0 <= b.factor && BaseWait(b, attempt) < b.max ==>
      var x := Times(b.factor, BaseWait(b, attempt)); BaseWait(b, attempt + 1) == if x < b.max then x else b.max
    ensures 1025 <= attempt ==> BaseWait(b, attempt + 1) == BaseWait(b, attempt)
  {
    if attempt <= 1024 && 0.0 <= b.factor {
      var p := Pow(b.factor, attempt - 1);
      assert Pow(b.factor, attempt) == Times(b.factor, p);
      hide Pow, Times;
      PowNonNegative(b.factor, attempt - 1);
      TimesPositive(b.initial, p);
      TimesPositive(b.factor, Times(b.initial, p));
      TimesSwap(b.factor, b.initial, p);
    }
  }

  lemma TimesComplement(a: real, x: real)
    ensures a - Times(a, 1.0 - x) == Times(a, x)
  {
  }

  /** Jitter takes off exactly that fraction of the base, times the draw. */
  lemma JitterTakesOff(b: BackoffStrategy, attempt: nat, draw: Sample)
    requires b.ExponentialJitter?
    ensures BaseWait(b, attempt) - WaitFor(b, attempt, draw)
         == Times(BaseWait(b, attempt), Times(JitterOf(b), draw))
  {
    hide ExponentialWait;
    var j, base := JitterOf(b), BaseWait(b, attempt);
    TimesUnit(j);
    TimesMonotone(j, 0.0, draw);
    TimesMonotone(j, draw, 1.0);
    hide Times;
    TimesComplement(base, Times(j, draw));
  }

  /**
   * A draw of 0 gives the base, a larger draw a strictly shorter wait, and a positive base a positive wait: full
   * jitter picks from (0, base], not from [0, base] as its documentation has it.
   */
  lemma LargerDrawsWaitLess(b: BackoffStrategy, attempt: nat, d1: Sample, d2: Sample)
    requires b.ExponentialJitter?
    ensures WaitFor(b, attempt, 0.0) == BaseWait(b, attempt)
    ensures 0.0 < BaseWait(b, attempt) ==> 0.0 < WaitFor(b, attempt, d1)
    ensures 0.0 < BaseWait(b, attempt) && 0.0 < b.jitter && d1 < d2 ==>
      WaitFor(b, attempt, d2) < WaitFor(b, attempt, d1)
  {
    hide ExponentialWait, Times;
    var j, base := JitterOf(b), BaseWait(b, attempt);
    JitterTakesOff(b, attempt, 0.0);
    JitterTakesOff(b, attempt, d1);
    JitterTakesOff(b, attempt, d2);
    TimesUnit(j);
    TimesUnit(base);
    TimesUnit(d1);
    TimesCommute(j, d1);
    TimesMonotone(d1, j, 1.0);
    if d1 < d2 {
      TimesMonotone(j, d1, d2);
      TimesMonotone(base, Times(j, d1), Times(j, d2));
    }
    TimesMonotone(base, Times(j, d1), 1.0);
  }

  /** No wait of an exponential strategy exceeds `max`, whatever the factor, attempt and draw. */
  lemma WaitNeverExceedsMax(b: BackoffStrategy, attempt: nat, draw: Sample)
    requires !b.Fixed?
    ensures WaitFor(b, attempt, draw) <= b.max
  {
    WaitIsInRange(b, attempt, draw);
  }

  /** Below 1 the powers strictly shrink. */
  lemma {:induction false} PowShrinks(x: real, m: nat, n: nat)
    requires 0.0 < x < 1.0 && m < n
    ensures Pow(x, n) < Pow(x, m)
  {
    var p := Pow(x, n - 1);
    if m < n - 1 {
      PowShrinks(x, m, n - 1);
    }
    PowNonNegative(x, n - 1);
    TimesUnit(p);
    TimesMonotone(p, x, 1.0);
    TimesCommute(x, p);
  }

  lemma {:induction false} PowOfNegative(x: real, n: nat)
    ensures Pow(-x, n) == if n % 2 == 0 then Pow(x, n) else -Pow(x, n)
  {
    if n > 0 {
      PowOfNegative(x, n - 1);
    }
  }

  lemma CapExactNonNegative(initial: Duration, max: Duration, factor: real, attempt: nat)
    requires 0.0 <= factor && EXPONENT_CAP + 1 < attempt
    ensures ExponentialWait(initial, max, factor, attempt) == DocumentedWait(initial, max, factor, attempt)
       <==> || initial == 0.0 || factor == 0.0 || factor == 1.0
            || (max <= Times(initial, Pow(factor, EXPONENT_CAP)) && max <= Times(initial, Pow(factor, attempt - 1)))
  {
    var capped, full := Pow(factor, EXPONENT_CAP), Pow(factor, attempt - 1);
    PowNonNegative(factor, EXPONENT_CAP);
    PowNonNegative(factor, attempt - 1);
    TimesUnit(initial);
    TimesMonotone(initial, 0.0, capped);
    TimesMonotone(initial, 0.0, full);
    if initial == 0.0 {
      TimesUnit(capped);
      TimesUnit(full);
    } else if factor == 0.0 {
      TimesUnit(Pow(factor, EXPONENT_CAP - 1));
      TimesUnit(Pow(factor, attempt - 2));
    } else if factor < 1.0 {
      PowShrinks(factor, EXPONENT_CAP, attempt - 1);
      TimesMonotone(initial, full, capped);
    } else if factor == 1.0 {
      PowOne(EXPONENT_CAP);
      PowOne(attempt - 1);
    } else {
      PowGrows(factor, EXPONENT_CAP, attempt - 1);
      TimesMonotone(initial, capped, full);
    }
  }

  lemma CapExactNegative(initial: Duration, max: Duration, factor: real, attempt: nat)
    requires factor < 0.0 && EXPONENT_CAP + 1 < attempt
    ensures ExponentialWait(initial, max, factor, attempt) == DocumentedWait(initial, max, factor, attempt)
       <==> || initial == 0.0 || max == 0.0
            || (factor == -1.0 && attempt % 2 == 1)
            || (max <= Times(initial, Pow(factor, EXPONENT_CAP)) && max <= Times(initial, Pow(factor, attempt - 1)))
  {
    var capped, full := Pow(factor, EXPONENT_CAP), Pow(factor, attempt - 1);
    PowOfNegative(-factor, EXPONENT_CAP);
    PowOfNegative(-factor, attempt - 1);
    if attempt % 2 == 1 {
      CapExactNonNegative(initial, max, -factor, attempt);
      TimesUnit(initial);
      PowNonNegative(-factor, EXPONENT_CAP);
      PowNonNegative(-factor, attempt - 1);
      TimesMonotone(initial, 0.0, capped);
      TimesMonotone(initial, 0.0, full);
    } else {
      PowNonNegative(-factor, EXPONENT_CAP);
      PowNonNegative(-factor, attempt - 1);
      TimesUnit(initial);
      TimesUnit(capped);
      TimesUnit(full);
      TimesMonotone(initial, 0.0, capped);
      TimesMonotone(initial, full, 0.0);
    }
  }

  /** Exactly when the exponent cap is invisible at an attempt, for every factor: the source checks none. */
  lemma ExponentCapExact(initial: Duration, max: Duration, factor: real, attempt: nat)
    ensures ExponentialWait(initial, max, factor, attempt) == DocumentedWait(initial, max, factor, attempt)
       <==> || attempt <= EXPONENT_CAP + 1
            || initial == 0.0 || max == 0.0 || factor == 0.0 || factor == 1.0
            || (factor == -1.0 && attempt % 2 == 1)
            || (max <= Times(initial, Pow(factor, EXPONENT_CAP)) && max <= Times(initial, Pow(factor, attempt - 1)))
  {
    hide Pow, Times;
    if attempt > EXPONENT_CAP + 1 {
      if factor < 0.0 {
        CapExactNegative(initial, max, factor, attempt);
      } else {
        CapExactNonNegative(initial, max, factor, attempt);
        PowNonNegative(factor, EXPONENT_CAP);
        PowNonNegative(factor, attempt - 1);
        TimesPositive(initial, Pow(factor, EXPONENT_CAP));
        TimesPositive(initial, Pow(factor, attempt - 1));
      }
    }
  }

  /** 2^1024 is far beyond the number of nanoseconds any `Duration` holds. */
  lemma CapPowerIsHuge()
    ensures Pow(2.0, EXPONENT_CAP) >= 1000000000.0 * DURATION_LIMIT
  {
    TenDoublings(0);
    TenDoublings(10);
    TenDoublings(20);
    TenDoublings(30);
    TenDoublings(40);
    TenDoublings(50);
    TenDoublings(60);
    TenDoublings(70);
    TenDoublings(80);
    TenDoublings(90);
    PowGrows(2.0, 100, EXPONENT_CAP);
  }

  /** With a factor of at least 2 and an initial wait of at least 1 ns the cap never shows, at any attempt. */
  lemma ExponentCapInvisible(initial: Duration, max: Duration, factor: real, attempt: nat)
    requires 2.0 <= factor && 0.000000001 <= initial
    ensures ExponentialWait(initial, max, factor, attempt) == DocumentedWait(initial, max, factor, attempt)
  {
    CapPowerIsHuge();
    PowAboveTwo(factor, EXPONENT_CAP);
    var p := Pow(factor, EXPONENT_CAP);
    TimesCommute(initial, p);
    TimesMonotone(p, 0.000000001, initial);
    assert Times(p, 0.000000001) == p * 0.000000001;
    if attempt > EXPONENT_CAP + 1 {
      PowGrows(factor, EXPONENT_CAP, attempt - 1);
      TimesMonotone(initial, p, Pow(factor, attempt - 1));
    }
    ExponentCapExact(initial, max, factor, attempt);
  }

  /** (1 + x)^n <= 1 / (1 - n x): a factor close to 1 grows slowly. */
  lemma {:induction false} SlowGrowth(x: real, n: nat, d: real)
    requires 0.0 <= x && d == 1.0 - n as real * x && 0.0 < d
    ensures Times(Pow(1.0 + x, n), d) <= 1.0
  {
    if n > 0 {
      assert n as real * x == (n - 1) as real * x + x;
      SlowGrowth(x, n - 1, d + x);
      PowNonNegative(1.0 + x, n - 1);
      SlowStep(x, d, Pow(1.0 + x, n - 1));
    }
  }

  lemma SlowStep(x: real, d: real, p: real)
    requires 0.0 <= x && 0.0 < d && d + x <= 1.0 && 0.0 <= p && Times(p, d + x) <= 1.0
    ensures Times(Times(1.0 + x, p), d) <= 1.0
  {
    assert (1.0 + x) * d == d + x * d;
    TimesMonotone(x, d, 1.0);
    TimesMonotone(p, (1.0 + x) * d, d + x);
    assert Times(Times(1.0 + x, p), d) == Times(p, (1.0 + x) * d);
  }

  /** The comment beside the cap says every factor above 1 has overflowed by 1024: a slow factor has not. */
  lemma ExponentCapVisibleForSlowFactor()
    ensures ExponentialWait(1.0, 10.0, 2049.0 / 2048.0, 1026) != DocumentedWait(1.0, 10.0, 2049.0 / 2048.0, 1026)
  {
    SlowGrowth(1.0 / 2048.0, EXPONENT_CAP, 0.5);
    ExponentCapExact(1.0, 10.0, 2049.0 / 2048.0, 1026);
  }
}

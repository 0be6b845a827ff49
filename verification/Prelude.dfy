/** Numbers and small datatypes shared by the whole model. */
module Prelude {

  const U32_MAX := 0xFFFF_FFFF

  /** The source's `u32`: every assignment to a variable of this type proves that it did not overflow. */
  type u32 = x: int | 0 <= x <= U32_MAX

  /** One more than the largest whole number of seconds a `Duration` can hold. */
  const DURATION_LIMIT: real := 18446744073709551616.0

  /** A `std::time::Duration`, in seconds. */
  type Duration = d: real | 0.0 <= d < DURATION_LIMIT witness 0.0

  /** A uniform draw in [0, 1). */
  type Sample = r: real | 0.0 <= r < 1.0 witness 0.0

  datatype Option<+T> = None | Some(value: T) {
    function GetOr(default: T): T {
      if Some? then value else default
    }
  }

  function Max(a: int, b: int): int {
    if a < b then b else a
  }

  function Min(a: int, b: int): int {
    if a < b then a else b
  }

  function ClampReal(x: real, lo: real, hi: real): real
    requires lo <= hi
  {
    if x < lo then lo else if x > hi then hi else x
  }

  /** The source's `saturating_add(1)` on a `u32`. */
  function SaturatingIncrement(n: nat): nat {
    Min(n + 1, U32_MAX)
  }

  /** 1 when `b`, 0 otherwise: used to count. */
  function Bit(b: bool): nat {
    if b then 1 else 0
  }

  /** A product, named so that equal factors give equal products without nonlinear reasoning. */
  function Times(a: real, b: real): real {
    a * b
  }

  lemma TimesPositive(a: real, b: real)
    ensures 0.0 <= a && 0.0 <= b ==> 0.0 <= Times(a, b)
    ensures 0.0 < a && 0.0 < b ==> 0.0 < Times(a, b)
  {
  }

  lemma TimesDistributes(a: real, b: real, c: real)
    ensures Times(a, b + c) == Times(a, b) + Times(a, c)
  {
  }

  lemma TimesMonotone(a: real, s1: real, s2: real)
    requires 0.0 <= a && s1 <= s2
    ensures Times(a, s1) <= Times(a, s2)
    ensures 0.0 < a && s1 < s2 ==> Times(a, s1) < Times(a, s2)
  {
    hide Times;
    var d := s2 - s1;
    assert s1 + d == s2;
    TimesDistributes(a, s1, d);
    TimesPositive(a, d);
  }

  lemma TimesUnit(a: real)
    ensures Times(a, 0.0) == Times(0.0, a) == 0.0
    ensures Times(a, 1.0) == Times(1.0, a) == a
  {
  }

  lemma TimesCommute(a: real, b: real)
    ensures Times(a, b) == Times(b, a)
  {
  }

  lemma QuotientTimes(f: real, n: real)
    requires n != 0.0
    ensures Times(n, f / n) == f
  {
  }

  /** A quotient compared as its numerator. */
  lemma QuotientOrder(f: real, n: real, t: real)
    requires 0.0 < n
    ensures f / n >= t <==> f >= Times(t, n)
    ensures f / n <= t <==> f <= Times(t, n)
  {
    hide Times;
    var q := f / n;
    QuotientTimes(f, n);
    TimesCommute(t, n);
    if q >= t {
      TimesMonotone(n, t, q);
    } else {
      TimesMonotone(n, q, t);
    }
    if q <= t {
      TimesMonotone(n, q, t);
    }
  }
}

/** The thread-local jitter generator (src/config.rs): a 64-bit xorshift with the (13, 7, 17) triple. */
module Xorshift {
  import opened Prelude

  function LeftShift13(x: bv64): bv64 { x ^ (x << 13) }
  function RightShift7(x: bv64): bv64 { x ^ (x >> 7) }
  function LeftShift17(x: bv64): bv64 { x ^ (x << 17) }

  /** One draw's update of the generator word. */
  function Next(x: bv64): bv64 {
    LeftShift17(RightShift7(LeftShift13(x)))
  }

  function UndoLeft13(y: bv64): bv64 { y ^ (y << 13) ^ (y << 26) ^ (y << 39) ^ (y << 52) }
  function UndoRight7(y: bv64): bv64 {
    y ^ (y >> 7) ^ (y >> 14) ^ (y >> 21) ^ (y >> 28) ^ (y >> 35) ^ (y >> 42) ^ (y >> 49) ^ (y >> 56) ^ (y >> 63)
  }
  function UndoLeft17(y: bv64): bv64 { y ^ (y << 17) ^ (y << 34) ^ (y << 51) }

  /** The explicit inverse of `Next`. */
  function Previous(y: bv64): bv64 {
    UndoLeft13(UndoRight7(UndoLeft17(y)))
  }

  // The bit-vector facts, each stated on one closed term so that it is settled by rewriting alone.

  lemma Left13(x: bv64)
    ensures UndoLeft13(x ^ (x << 13)) == x
    ensures LeftShift13(x ^ (x << 13) ^ (x << 26) ^ (x << 39) ^ (x << 52)) == x
  {
  }

  lemma Right7(x: bv64)
    ensures UndoRight7(x ^ (x >> 7)) == x
    ensures RightShift7(x ^ (x >> 7) ^ (x >> 14) ^ (x >> 21) ^ (x >> 28)
                        ^ (x >> 35) ^ (x >> 42) ^ (x >> 49) ^ (x >> 56) ^ (x >> 63)) == x
  {
  }

  lemma Left17(x: bv64)
    ensures UndoLeft17(x ^ (x << 17)) == x
    ensures LeftShift17(x ^ (x << 17) ^ (x << 34) ^ (x << 51)) == x
  {
  }

  lemma Left13Defs(x: bv64)
    ensures LeftShift13(x) == x ^ (x << 13)
    ensures UndoLeft13(x) == x ^ (x << 13) ^ (x << 26) ^ (x << 39) ^ (x << 52)
  {
  }

  lemma Right7Defs(x: bv64)
    ensures RightShift7(x) == x ^ (x >> 7)
    ensures UndoRight7(x) == x ^ (x >> 7) ^ (x >> 14) ^ (x >> 21) ^ (x >> 28)
                             ^ (x >> 35) ^ (x >> 42) ^ (x >> 49) ^ (x >> 56) ^ (x >> 63)
  {
  }

  lemma Left17Defs(x: bv64)
    ensures LeftShift17(x) == x ^ (x << 17)
    ensures UndoLeft17(x) == x ^ (x << 17) ^ (x << 34) ^ (x << 51)
  {
  }

  lemma ShiftsInvert(x: bv64)
    ensures UndoLeft13(LeftShift13(x)) == x && LeftShift13(UndoLeft13(x)) == x
    ensures UndoRight7(RightShift7(x)) == x && RightShift7(UndoRight7(x)) == x
    ensures UndoLeft17(LeftShift17(x)) == x && LeftShift17(UndoLeft17(x)) == x
  {
    hide *;
    Left13Defs(x);
    Left13(x);
    Right7Defs(x);
    Right7(x);
    Left17Defs(x);
    Left17(x);
  }

  lemma StepDefs(x: bv64)
    ensures Next(x) == LeftShift17(RightShift7(LeftShift13(x)))
    ensures Previous(x) == UndoLeft13(UndoRight7(UndoLeft17(x)))
  {
    hide LeftShift13, RightShift7, LeftShift17, UndoLeft13, UndoRight7, UndoLeft17;
  }

  /** The step is a permutation of the 64-bit words, with an explicit inverse on both sides. */
  lemma NextIsPermutation(x: bv64)
    ensures Previous(Next(x)) == x
    ensures Next(Previous(x)) == x
  {
    hide *;
    StepDefs(x);
    StepDefs(Next(x));
    StepDefs(Previous(x));
    ShiftsInvert(x);
    ShiftsInvert(LeftShift13(x));
    ShiftsInvert(RightShift7(LeftShift13(x)));
    ShiftsInvert(UndoLeft17(x));
    ShiftsInvert(UndoRight7(UndoLeft17(x)));
  }

  /** Zero is the only word that steps to zero: a seeded generator never needs a second seed. */
  lemma NextKeepsNonzero(x: bv64)
    ensures Next(x) == 0 <==> x == 0
  {
    assert Next(0) == 0;
    hide *;
    NextIsPermutation(x);
    NextIsPermutation(0);
  }

  /** The step on the lowest bit alone, where all three shifts show, and on the highest, where only the second does. */
  lemma NextOnOneBit()
    ensures Next(0x1) == 0x4082_2041
    ensures Next(0x8000_0000_0000_0000) == 0x8100_0000_0000_0000
  {
  }

  /** `seed()`: the wall-clock nanoseconds with the low bit set. */
  function Seed(nanos: bv64): (s: bv64)
    ensures s != 0
    ensures s >> 1 == nanos >> 1 && s & 1 == 1
  {
    nanos | 1
  }

  function Pow2(n: nat): nat {
    if n == 0 then 1 else 2 * Pow2(n - 1)
  }

  function Half(x: bv64): bv64 { x >> 1 }

  /** The integer that the low `n` bits of a word stand for, in binary. */
  function Value(x: bv64, n: nat): (v: nat)
    ensures v < Pow2(n)
  {
    if n == 0 then 0 else 2 * Value(Half(x), n - 1) + Bit(x & 1 == 1)
  }

  lemma EightDoublings(n: nat)
    ensures Pow2(n + 8) == 256 * Pow2(n)
  {
    assert Pow2(n + 2) == 4 * Pow2(n);
    assert Pow2(n + 4) == 4 * Pow2(n + 2);
    assert Pow2(n + 6) == 4 * Pow2(n + 4);
    assert Pow2(n + 8) == 4 * Pow2(n + 6);
  }

  lemma Pow53()
    ensures Pow2(53) == 9007199254740992
  {
    EightDoublings(5);
    EightDoublings(13);
    EightDoublings(21);
    EightDoublings(29);
    EightDoublings(37);
    EightDoublings(45);
  }

  /** The sample taken from a generator word: its top 53 bits over 2^53. */
  function SampleOf(x: bv64): Sample {
    Pow53();
    Value(x >> 11, 53) as real / 9007199254740992.0
  }

  /** Shifting a word right by one bit halves its integer, and the bit shifted out is the remainder. */
  lemma Halved(x: bv64, n: nat)
    requires 0 < n
    ensures Value(Half(x), n - 1) == Value(x, n) / 2
    ensures Value(x, n) % 2 == Bit(x & 1 == 1)
  {
  }

  lemma HalvedThrice(x: bv64, n: nat)
    requires 3 <= n
    ensures Value(Half(Half(Half(x))), n - 3) == Value(x, n) / 8
  {
    hide *;
    Halved(x, n);
    Halved(Half(x), n - 1);
    Halved(Half(Half(x)), n - 2);
  }

  lemma ShiftElevenTimes(x: bv64)
    ensures Half(Half(Half(Half(Half(Half(Half(Half(Half(Half(Half(x))))))))))) == x >> 11
  {
  }

  /** Shifting right by 11 bits drops the remainder of the word's integer by 2048. */
  lemma Shift11(x: bv64)
    ensures Value(x >> 11, 53) == Value(x, 64) / 2048
  {
    hide *;
    var y := Half(Half(Half(x)));
    var z := Half(Half(Half(y)));
    var w := Half(Half(Half(z)));
    HalvedThrice(x, 64);
    HalvedThrice(y, 61);
    HalvedThrice(z, 58);
    Halved(w, 55);
    Halved(Half(w), 54);
    ShiftElevenTimes(x);
  }

  function Halves(x: bv64, n: nat): bv64 {
    if n == 0 then x else Halves(Half(x), n - 1)
  }

  lemma HalfAndBit(x: bv64, y: bv64)
    ensures x == y <==> Half(x) == Half(y) && (x & 1 == 1 <==> y & 1 == 1)
  {
  }

  /** Words that agree beyond their low `n` bits, and in the integer of these, are the same. */
  lemma {:induction false} ValueDetermines(x: bv64, y: bv64, n: nat)
    requires Halves(x, n) == Halves(y, n) && Value(x, n) == Value(y, n)
    ensures x == y
    decreases n
  {
    hide Half;
    if n > 0 {
      Halved(x, n);
      Halved(y, n);
      ValueDetermines(Half(x), Half(y), n - 1);
      HalfAndBit(x, y);
    }
  }

  lemma {:induction false} HalvesAdd(x: bv64, m: nat, n: nat)
    ensures Halves(x, m + n) == Halves(Halves(x, m), n)
    decreases m
  {
    hide Half;
    if m > 0 {
      HalvesAdd(Half(x), m - 1, n);
    }
  }

  lemma ThreeHalves(x: bv64)
    ensures Halves(x, 3) == Half(Half(Half(x)))
  {
    hide Half;
    assert Halves(x, 3) == Halves(Half(x), 2);
    assert Halves(Half(x), 2) == Halves(Half(Half(x)), 1);
    assert Halves(Half(Half(x)), 1) == Halves(Half(Half(Half(x))), 0);
  }

  lemma FiveHalves(x: bv64)
    ensures Halves(x, 5) == Half(Half(Half(Half(Half(x)))))
  {
    hide Half;
    assert Halves(x, 5) == Halves(Half(x), 4) && Halves(Half(x), 4) == Halves(Half(Half(x)), 3);
    ThreeHalves(Half(Half(x)));
  }

  lemma FewShifts(x: bv64)
    ensures Half(Half(Half(Half(Half(x))))) == x >> 5
    ensures Half(Half(Half(x >> 5))) == x >> 8
  {
  }

  lemma FirstShifts(x: bv64)
    ensures Halves(x, 5) == x >> 5 && Halves(x, 8) == x >> 8
  {
    hide *;
    FiveHalves(x);
    ThreeHalves(x >> 5);
    FewShifts(x);
    HalvesAdd(x, 5, 3);
  }

  lemma NothingLeft(x: bv64)
    ensures (((((((x >> 11) >> 8) >> 8) >> 8) >> 8) >> 8) >> 8) >> 5 == 0
  {
  }

  lemma TopBitsFit(x: bv64)
    ensures Halves(x >> 11, 53) == 0
  {
    hide *;
    var a := x >> 11;
    var b := a >> 8;
    var c := b >> 8;
    var d := c >> 8;
    var e := d >> 8;
    var f := e >> 8;
    var g := f >> 8;
    FirstShifts(a);
    FirstShifts(b);
    FirstShifts(c);
    FirstShifts(d);
    FirstShifts(e);
    FirstShifts(f);
    FirstShifts(g);
    HalvesAdd(a, 8, 45);
    HalvesAdd(b, 8, 37);
    HalvesAdd(c, 8, 29);
    HalvesAdd(d, 8, 21);
    HalvesAdd(e, 8, 13);
    HalvesAdd(f, 8, 5);
    NothingLeft(x);
  }

  /**
   * The sample is the whole part of a 2048th of the word, over 2^53, and two words give the same sample if and only
   * if they have the same top 53 bits.
   */
  lemma SampleIsTopBits(x: bv64, y: bv64)
    ensures SampleOf(x) * 9007199254740992.0 == (Value(x, 64) / 2048) as real
    ensures SampleOf(x) == SampleOf(y) <==> x >> 11 == y >> 11
  {
    hide Value, Halves;
    Shift11(x);
    TopBitsFit(x);
    TopBitsFit(y);
    if SampleOf(x) == SampleOf(y) {
      ValueDetermines(x >> 11, y >> 11, 53);
    }
  }

  /** The generator word after `n` draws from `x`. */
  function Orbit(x: bv64, n: nat): bv64 {
    if n == 0 then x else Next(Orbit(x, n - 1))
  }

  /** Two generators that ever hold the same word after equally many draws started from the same word. */
  lemma {:induction false} OrbitsNeverMerge(x: bv64, y: bv64, n: nat)
    requires Orbit(x, n) == Orbit(y, n)
    ensures x == y
  {
    hide Next, Previous;
    if n > 0 {
      NextIsPermutation(Orbit(x, n - 1));
      NextIsPermutation(Orbit(y, n - 1));
      OrbitsNeverMerge(x, y, n - 1);
    }
  }

  /** One thread's cell: zero until first used. */
  class JitterCell {
    var state: bv64
    // How often this thread has read the wall clock, how often it has drawn, and its first seed.
    ghost var seedings: nat
    ghost var draws: nat
    ghost var firstSeed: bv64

    ghost predicate Valid()
      reads this
    {
      && firstSeed != 0
      && seedings == Bit(draws > 0)
      && state == (if draws == 0 then 0 else Orbit(firstSeed, draws))
      && (draws > 0 ==> state != 0)
    }

    constructor ()
      ensures Valid() && draws == 0
    {
      state := 0;
      seedings, draws, firstSeed := 0, 0, 1;
    }

    /** Draws one sample: however many draws are made, only the first one seeds. */
    method Rand(nanos: bv64) returns (r: Sample)
      requires Valid()
      modifies this
      ensures Valid() && draws == old(draws) + 1
      ensures firstSeed == if old(draws) == 0 then Seed(nanos) else old(firstSeed)
      ensures r == SampleOf(state)
    {
      hide LeftShift13, RightShift7, LeftShift17, UndoLeft13, UndoRight7, UndoLeft17, Next, SampleOf;
      var x := state;
      if x == 0 {
        x := Seed(nanos);
        seedings := seedings + 1;
        firstSeed := x;
      }
      NextKeepsNonzero(x);
      StepDefs(x);
      Left13Defs(x);
      x := x ^ (x << 13);
      Right7Defs(x);
      x := x ^ (x >> 7);
      Left17Defs(x);
      x := x ^ (x << 17);
      state := x;
      draws := draws + 1;
      assert Orbit(firstSeed, draws) == Next(Orbit(firstSeed, draws - 1));
      assert Orbit(firstSeed, 0) == firstSeed;
      r := SampleOf(x);
    }
  }
}

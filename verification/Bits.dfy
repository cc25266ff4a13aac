/** Machine words as sets of bit positions.
    A QuickScorer candidate set is a pair of 64-bit words.  The lemmas here say what the word
    operations of the scorer (AND, power-of-two test, count of trailing zeros, clearing the lowest
    set bit) do to the positions a word holds.  Positions are reached by halving, so that no proof
    converts between bit-vectors and integers. */
module Bits {

  type u64 = bv64

  function Half(x: u64): u64 { x >> 1 }

  predicate Odd(x: u64) { x & 1 == 1 }

  function And(x: u64, y: u64): u64 { x & y }

  predicate IsPowerOfTwo(x: u64) { x != 0 && x & (x - 1) == 0 }

  function ClearLowest(x: u64): u64 { x & (x - 1) }

  /** Bit `k` of `x` is set. */
  predicate At(x: u64, k: nat) {
    if k == 0 then Odd(x) else At(Half(x), k - 1)
  }

  lemma Halves(x: u64)
    requires x != 0 && !Odd(x)
    ensures Half(x) != 0 && Half(x) < x
  {}

  /** The position of the lowest set bit. */
  function TrailingZeros(x: u64): (k: nat)
    requires x != 0
    ensures At(x, k)
    ensures forall j: nat :: At(x, j) ==> k <= j
    decreases x
  {
    if Odd(x) then 0 else
      Halves(x);
      1 + TrailingZeros(Half(x))
  }

  /** How many positions a word holds. */
  function CountOnes(x: u64): nat
    decreases x
  {
    if x == 0 then 0 else
      HalfIsLess(x);
      (if Odd(x) then 1 else 0) + CountOnes(Half(x))
  }

  lemma HalfIsLess(x: u64)
    requires x != 0
    ensures Half(x) < x
  {}

  lemma {:induction false} ZeroIsEmpty(k: nat)
    ensures !At(0, k)
  {
    HalfOfZero();
    if k > 0 { ZeroIsEmpty(k - 1); }
  }

  lemma HalfOfZero()
    ensures Half(0) == 0 && !Odd(0)
  {}

  function Shift(x: u64, n: nat): u64 {
    if n == 0 then x else Shift(Half(x), n - 1)
  }

  lemma {:induction false} SkipBits(x: u64, n: nat, k: nat)
    requires At(x, k) && n <= k
    ensures At(Shift(x, n), k - n)
  {
    if n > 0 { SkipBits(Half(x), n - 1, k - 1); }
  }

  lemma {:induction false} ShiftAdds(x: u64, a: nat, b: nat)
    ensures Shift(x, a + b) == Shift(Shift(x, a), b)
  {
    if a > 0 { ShiftAdds(Half(x), a - 1, b); }
  }

  function Nibble(x: u64): u64 { x >> 4 }

  function Short(x: u64): u64 { x >> 16 }

  lemma NibbleIsFourHalves(x: u64)
    ensures Half(Half(Half(Half(x)))) == Nibble(x)
  {}

  lemma ShortIsFourNibbles(x: u64)
    ensures Nibble(Nibble(Nibble(Nibble(x)))) == Short(x)
  {}

  lemma FourShortsEmpty(x: u64)
    ensures Short(Short(Short(Short(x)))) == 0
  {}

  lemma ShiftFour(x: u64)
    ensures Shift(x, 4) == Nibble(x)
  {
    NibbleIsFourHalves(x);
    assert Shift(x, 4) == Shift(Half(x), 3) == Shift(Half(Half(x)), 2);
    assert Shift(Half(Half(x)), 2) == Shift(Half(Half(Half(x))), 1);
  }

  lemma ShiftSixteen(x: u64)
    ensures Shift(x, 16) == Short(x)
  {
    ShortIsFourNibbles(x);
    ShiftAdds(x, 4, 12); ShiftFour(x);
    ShiftAdds(Nibble(x), 4, 8); ShiftFour(Nibble(x));
    ShiftAdds(Nibble(Nibble(x)), 4, 4); ShiftFour(Nibble(Nibble(x)));
    ShiftFour(Nibble(Nibble(Nibble(x))));
  }

  lemma ShiftSixtyFour(x: u64)
    ensures Shift(x, 64) == 0
  {
    FourShortsEmpty(x);
    ShiftAdds(x, 16, 48); ShiftSixteen(x);
    ShiftAdds(Short(x), 16, 32); ShiftSixteen(Short(x));
    ShiftAdds(Short(Short(x)), 16, 16); ShiftSixteen(Short(Short(x)));
    ShiftSixteen(Short(Short(Short(x))));
  }

  lemma PositionsBelow64(x: u64, k: nat)
    requires At(x, k)
    ensures k < 64
  {
    if k >= 64 {
      SkipBits(x, 64, k);
      ShiftSixtyFour(x);
      ZeroIsEmpty(k - 64);
    }
  }

  lemma HalfOfAnd(x: u64, y: u64)
    ensures Half(And(x, y)) == And(Half(x), Half(y))
    ensures Odd(And(x, y)) <==> Odd(x) && Odd(y)
  {}

  lemma {:induction false} AtAnd(x: u64, y: u64, k: nat)
    ensures At(And(x, y), k) <==> At(x, k) && At(y, k)
  {
    HalfOfAnd(x, y);
    if k > 0 {
      AtAnd(Half(x), Half(y), k - 1);
    }
  }

  lemma HalfOfPower(x: u64)
    requires IsPowerOfTwo(x)
    ensures if Odd(x) then Half(x) == 0 else IsPowerOfTwo(Half(x))
  {}

  lemma {:induction false} PowerOfTwoHoldsOne(x: u64, j: nat, k: nat)
    requires IsPowerOfTwo(x) && At(x, j) && At(x, k)
    ensures j == k
  {
    HalfOfPower(x);
    if Odd(x) {
      if j > 0 { ZeroIsEmpty(j - 1); }
      if k > 0 { ZeroIsEmpty(k - 1); }
    } else {
      PowerOfTwoHoldsOne(Half(x), j - 1, k - 1);
    }
  }

  lemma PowerFromHalf(x: u64)
    ensures Odd(x) && Half(x) == 0 ==> IsPowerOfTwo(x)
    ensures !Odd(x) && IsPowerOfTwo(Half(x)) ==> IsPowerOfTwo(x)
  {}

  lemma {:induction false} OneHeldIsPowerOfTwo(x: u64, k: nat)
    requires At(x, k)
    requires forall j: nat :: At(x, j) ==> j == k
    ensures IsPowerOfTwo(x)
  {
    var h := Half(x);
    PowerFromHalf(x);
    if k == 0 {
      if h != 0 {
        assert At(x, TrailingZeros(h) + 1);
      }
    } else {
      assert !At(x, 0);
      forall j: nat | At(h, j) ensures j == k - 1 {
        assert At(x, j + 1);
      }
      OneHeldIsPowerOfTwo(h, k - 1);
    }
  }

  lemma ClearedIsLess(x: u64)
    requires x != 0
    ensures ClearLowest(x) < x
  {}

  lemma ClearedIsEven(x: u64)
    ensures !Odd(ClearLowest(x))
  {}

  lemma HalfOfClearedOdd(x: u64)
    requires Odd(x)
    ensures Half(ClearLowest(x)) == Half(x)
  {}

  lemma HalfOfClearedEven(x: u64)
    requires !Odd(x)
    ensures Half(ClearLowest(x)) == ClearLowest(Half(x))
  {}

  /** `x & (x - 1)` drops the lowest position and no other. */
  lemma {:induction false} LowestCleared(x: u64, j: nat)
    requires x != 0
    ensures At(ClearLowest(x), j) <==> At(x, j) && j != TrailingZeros(x)
    decreases j
  {
    ClearedIsEven(x);
    if Odd(x) {
      HalfOfClearedOdd(x);
    } else {
      Halves(x);
      HalfOfClearedEven(x);
      if j > 0 { LowestCleared(Half(x), j - 1); }
    }
  }
}
